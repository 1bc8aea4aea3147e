/** What the swarm adds up and what it writes: byte accounting and reassembly. */
module SwarmContent {
  import opened Wrappers
  import opened Sums
  import opened Arith
  import opened SwarmState
  import opened SwarmJobs
  import opened SwarmCapacity

  // ---------------------------------------------------------------- accounting

  ghost function BytesByPeer(s: State): (r: seq<nat>)
    ensures |r| == |s.peers| && forall p :: 0 <= p < |s.peers| ==> r[p] == StatOf(s.stats, s.peers[p].id).bytes
  {
    seq(|s.peers|, p requires 0 <= p < |s.peers| => StatOf(s.stats, s.peers[p].id).bytes)
  }

  ghost function ChunksByPeer(s: State): (r: seq<nat>)
    ensures |r| == |s.peers| && forall p :: 0 <= p < |s.peers| ==> r[p] == StatOf(s.stats, s.peers[p].id).chunks
  {
    seq(|s.peers|, p requires 0 <= p < |s.peers| => StatOf(s.stats, s.peers[p].id).chunks)
  }

  predicate Positive(n: nat) { n > 0 }

  predicate IsRecording(st: Stage) { st.Recording? }

  ghost predicate AcctInv(s: State) {
    && (forall id :: id in s.stats ==> KnownPeer(s.peers, id))
    && s.bytes == Sum(BytesByPeer(s))
    && s.activePeers == Count(BytesByPeer(s), Positive)
    && Sum(ChunksByPeer(s)) + Count(s.workers, IsRecording) == Sum(s.writes)
    && (forall w :: 0 <= w < |s.workers| && (s.workers[w].Writing? || s.workers[w].Recording?) ==>
          s.workers[w].data != [])
  }

  lemma RecordFigures(cfg: Config, s: State, w: nat)
    requires CapInv(cfg, s) && Enabled(cfg, s, Record(w))
    ensures var t := AfterRecord(s, w);
            var p, n := s.workers[w].slot, |s.workers[w].data|;
            && p < |s.peers|
            && BytesByPeer(t) == BytesByPeer(s)[p := BytesByPeer(s)[p] + n]
            && ChunksByPeer(t) == ChunksByPeer(s)[p := ChunksByPeer(s)[p] + 1]
  {
    assert StageShaped(cfg, s, s.workers[w]);
    var p := s.workers[w].slot;
    forall q | 0 <= q < |s.peers| && q != p ensures s.peers[q].id != s.peers[p].id {
      assert s.peers[if q < p then q else p].id != s.peers[if q < p then p else q].id;
    }
    hide Shaped, SlotsCounted;
    var t := AfterRecord(s, w);
    assert BytesByPeer(t) == BytesByPeer(s)[p := BytesByPeer(s)[p] + |s.workers[w].data|];
    assert ChunksByPeer(t) == ChunksByPeer(s)[p := ChunksByPeer(s)[p] + 1];
  }

  lemma RecordEffect(cfg: Config, s: State, w: nat)
    requires Shaped(cfg, s) && Enabled(cfg, s, Record(w))
    ensures var t := AfterRecord(s, w);
            var p, n := s.workers[w].slot, |s.workers[w].data|;
            && t.bytes == s.bytes + n && t.writes == s.writes && t.peers == s.peers
            && t.activePeers == s.activePeers + (if BytesByPeer(s)[p] == 0 then 1 else 0)
            && t.workers == s.workers[w := Completing(s.workers[w].job)]
  {
    assert StageShaped(cfg, s, s.workers[w]);
  }

  /** The figures agree again when `n` bytes of one more chunk are credited to peer `p`. */
  lemma CreditKeepsAcct(s: State, t: State, w: nat, st: Stage, p: nat, n: nat)
    requires AcctInv(s) && w < |s.workers| && s.workers[w].Recording? && st.Completing?
    requires t.workers == s.workers[w := st]
    requires p < |s.peers| && n > 0 && t.bytes == s.bytes + n && t.writes == s.writes
    requires t.activePeers == s.activePeers + if BytesByPeer(s)[p] == 0 then 1 else 0
    requires BytesByPeer(t) == BytesByPeer(s)[p := BytesByPeer(s)[p] + n]
    requires ChunksByPeer(t) == ChunksByPeer(s)[p := ChunksByPeer(s)[p] + 1]
    requires forall id :: id in t.stats ==> KnownPeer(t.peers, id)
    ensures AcctInv(t)
  {
    hide KnownPeer, BytesByPeer, ChunksByPeer, Sum, Count;
    var b, c := BytesByPeer(s), ChunksByPeer(s);
    SumUpdate(b, p, b[p] + n);
    SumUpdate(c, p, c[p] + 1);
    CountUpdate<nat>(b, p, b[p] + n, Positive);
    CountUpdate(s.workers, w, st, IsRecording);
  }

  lemma RecordKeepsAcct(cfg: Config, s: State, w: nat)
    requires CapInv(cfg, s) && AcctInv(s) && Enabled(cfg, s, Record(w))
    ensures AcctInv(AfterRecord(s, w))
  {
    assert Shaped(cfg, s) && StageShaped(cfg, s, s.workers[w]);
    assert s.workers[w].data != [];
    hide AfterRecord, CapInv, KnownPeer, BytesByPeer, ChunksByPeer, Shaped, AcctInv;
    RecordFigures(cfg, s, w);
    RecordNames(cfg, s, w);
    RecordEffect(cfg, s, w);
    CreditKeepsAcct(s, AfterRecord(s, w), w, Completing(s.workers[w].job), s.workers[w].slot, |s.workers[w].data|);
  }

  lemma RecordNames(cfg: Config, s: State, w: nat)
    requires Shaped(cfg, s) && AcctInv(s) && Enabled(cfg, s, Record(w))
    ensures forall id :: id in AfterRecord(s, w).stats ==> KnownPeer(s.peers, id)
  {
    assert StageShaped(cfg, s, s.workers[w]);
    assert KnownPeer(s.peers, s.peers[s.workers[w].slot].id);
  }

  lemma AddPeerFigures(cfg: Config, s: State, id: string)
    requires Shaped(cfg, s) && AcctInv(s) && Enabled(cfg, s, AddPeer(id))
    ensures var t := Apply(cfg, s, AddPeer(id));
            && BytesByPeer(t) == BytesByPeer(s) + [0] && ChunksByPeer(t) == ChunksByPeer(s) + [0]
            && (forall k :: k in t.stats ==> KnownPeer(t.peers, k))
  {
    var t := Apply(cfg, s, AddPeer(id));
    assert id !in s.stats;
    assert forall p :: 0 <= p < |s.peers| ==> t.peers[p] == s.peers[p];
    assert forall k :: KnownPeer(s.peers, k) ==> KnownPeer(t.peers, k);
    assert t.peers[|s.peers|].id == id;
    assert BytesByPeer(t) == BytesByPeer(s) + [0];
    assert ChunksByPeer(t) == ChunksByPeer(s) + [0];
  }

  lemma AddPeerKeepsAcct(cfg: Config, s: State, id: string)
    requires CapInv(cfg, s) && AcctInv(s) && Enabled(cfg, s, AddPeer(id))
    ensures AcctInv(Apply(cfg, s, AddPeer(id)))
  {
    AddPeerFigures(cfg, s, id);
    hide CapInv, KnownPeer, BytesByPeer, ChunksByPeer;
    SumAppend(BytesByPeer(s), 0);
    SumAppend(ChunksByPeer(s), 0);
    CountAppendFalse(BytesByPeer(s));
  }

  lemma {:induction false} CountAppendFalse(xs: seq<nat>)
    ensures Count(xs + [0], Positive) == Count(xs, Positive)
  {
    if xs != [] {
      assert (xs + [0])[1..] == xs[1..] + [0];
      CountAppendFalse(xs[1..]);
    }
  }

  /** Steps other than recording leave all figures alone. */
  lemma OtherFigures(cfg: Config, s: State, a: Action)
    requires Shaped(cfg, s) && Enabled(cfg, s, a) && !a.AddPeer? && !a.Record?
    ensures var t := Apply(cfg, s, a);
            && t.stats == s.stats && t.bytes == s.bytes && t.activePeers == s.activePeers
            && |t.peers| == |s.peers| && (forall p :: 0 <= p < |s.peers| ==> t.peers[p].id == s.peers[p].id)
            && a.w < |s.workers| == |t.workers| && t.workers == s.workers[a.w := t.workers[a.w]]
            && !IsRecording(s.workers[a.w])
            && Sum(t.writes) == Sum(s.writes) + (if IsRecording(t.workers[a.w]) then 1 else 0)
  {
    SamePeers(cfg, s, a);
    if a.Write? {
      WriteFigures(cfg, s, a.w, a.result);
    } else {
      MoveFigures(cfg, s, a);
    }
  }

  lemma WriteFigures(cfg: Config, s: State, w: nat, result: WriteResult)
    requires Shaped(cfg, s) && Enabled(cfg, s, Write(w, result))
    ensures !IsRecording(s.workers[w])
    ensures var t := AfterWrite(cfg, s, w, result);
            && t.stats == s.stats && t.bytes == s.bytes && t.activePeers == s.activePeers && t.peers == s.peers
            && t.workers == s.workers[w := t.workers[w]]
            && Sum(t.writes) == Sum(s.writes) + (if IsRecording(t.workers[w]) then 1 else 0)
  {
    hide Splice, HasCapacity;
    var job := s.workers[w].job;
    assert StageShaped(cfg, s, s.workers[w]);
    SumUpdate(s.writes, job, s.writes[job] + 1);
  }

  lemma MoveFigures(cfg: Config, s: State, a: Action)
    requires Shaped(cfg, s) && Enabled(cfg, s, a) && !a.AddPeer? && !a.Record? && !a.Write?
    ensures var t := Apply(cfg, s, a);
            && t.stats == s.stats && t.bytes == s.bytes && t.activePeers == s.activePeers && t.writes == s.writes
            && a.w < |s.workers| == |t.workers| && t.workers == s.workers[a.w := t.workers[a.w]]
            && !IsRecording(s.workers[a.w]) && !IsRecording(t.workers[a.w])
  {
    hide ScanFrom, HasCapacity, Accepted, AttemptLimit, AfterWrite, AfterRecord, StatOf;
  }

  lemma OtherData(cfg: Config, s: State, a: Action)
    requires Shaped(cfg, s) && Enabled(cfg, s, a) && !a.AddPeer?
    requires s.workers[a.w].Writing? ==> s.workers[a.w].data != []
    ensures var t := Apply(cfg, s, a);
            a.w < |t.workers| && (t.workers[a.w].Writing? || t.workers[a.w].Recording? ==> t.workers[a.w].data != [])
  {
    hide ScanFrom, HasCapacity, AttemptLimit, StatOf, Splice, KnownPeer, Accepted, AfterJudge;
    OneMoves(cfg, s, a);
    if a.Judge? { JudgedData(cfg, s, a.w); }
  }

  lemma JudgedData(cfg: Config, s: State, w: nat)
    requires Shaped(cfg, s) && Enabled(cfg, s, Judge(w))
    ensures var t := AfterJudge(cfg, s, w);
            t.workers[w].Requeueing? || (t.workers[w].Writing? && t.workers[w].data != [])
  {
    hide AttemptLimit;
  }

  lemma OtherKeepsAcct(cfg: Config, s: State, a: Action)
    requires CapInv(cfg, s) && AcctInv(s) && Enabled(cfg, s, a) && !a.AddPeer? && !a.Record?
    ensures AcctInv(Apply(cfg, s, a))
  {
    hide Apply, Enabled, Shaped, DistinctIds, SlotsCounted;
    var t := Apply(cfg, s, a);
    OtherFigures(cfg, s, a);
    OtherData(cfg, s, a);
    CountUpdate(s.workers, a.w, t.workers[a.w], IsRecording);
    assert BytesByPeer(t) == BytesByPeer(s) && ChunksByPeer(t) == ChunksByPeer(s);
    assert forall id :: KnownPeer(s.peers, id) ==> KnownPeer(t.peers, id);
  }

  lemma {:induction false} AcctAlong(cfg: Config, s: State, acts: seq<Action>)
    requires CapInv(cfg, s) && AcctInv(s) && Exec(cfg, s, acts).Some?
    ensures AcctInv(Exec(cfg, s, acts).value)
    decreases |acts|
  {
    hide CapInv, AcctInv, Apply, Enabled;
    if acts != [] {
      var a := acts[0];
      CapInvStep(cfg, s, a);
      if a.AddPeer? { AddPeerKeepsAcct(cfg, s, a.id); }
      else if a.Record? { RecordStep(cfg, s, a.w); }
      else { OtherKeepsAcct(cfg, s, a); }
      AcctAlong(cfg, Apply(cfg, s, a), acts[1..]);
    }
  }

  lemma RecordStep(cfg: Config, s: State, w: nat)
    requires CapInv(cfg, s) && AcctInv(s) && Enabled(cfg, s, Record(w))
    ensures AcctInv(Apply(cfg, s, Record(w)))
  {
    RecordKeepsAcct(cfg, s, w);
  }

  lemma InitialAcct(cfg: Config, ids: seq<string>, order: seq<nat>, states: seq<nat>, staging: seq<byte>,
                    reason: string)
    requires Started(cfg, ids, order, states)
    ensures AcctInv(Initial(cfg, ids, order, states, staging, reason))
  {
    var s := Initial(cfg, ids, order, states, staging, reason);
    SumConstant(BytesByPeer(s), 0);
    SumConstant(ChunksByPeer(s), 0);
    SumConstant(s.writes, 0);
    CountNone(BytesByPeer(s), Positive);
    CountNone(s.workers, IsRecording);
    forall id | id in s.stats ensures KnownPeer(s.peers, id) {
      var p :| 0 <= p < |ids| && ids[p] == id;
      assert s.peers[p].id == id;
    }
  }

  /** ACCOUNTING.  In every reachable state the meter's byte count is the sum over the
      peers, the active-peer count is the number of peers that have delivered bytes, every
      statistic belongs to a known peer, and the peers' chunk counts add up to the chunks
      written and recorded. */
  lemma Accounting(cfg: Config, s: State)
    requires Reachable(cfg, s)
    ensures s.bytes == Sum(BytesByPeer(s)) && s.activePeers == Count(BytesByPeer(s), Positive)
    ensures forall id :: id in s.stats ==> KnownPeer(s.peers, id)
    ensures Sum(ChunksByPeer(s)) + Count(s.workers, IsRecording) == Sum(s.writes)
  {
    var ids, order, states, staging, reason, acts :|
      Started(cfg, ids, order, states) &&
      Exec(cfg, Initial(cfg, ids, order, states, staging, reason), acts) == Some(s);
    InitialCapInv(cfg, ids, order, states, staging, reason);
    InitialAcct(cfg, ids, order, states, staging, reason);
    AcctAlong(cfg, Initial(cfg, ids, order, states, staging, reason), acts);
  }

  // ---------------------------------------------------------------- reassembly

  /** The chunks tile the file: they cover it, and the last one starts inside it. */
  ghost predicate Tiled(cfg: Config, file: seq<byte>) {
    && cfg.chunkSize > 0 && cfg.totalChunks > 0
    && cfg.fileSize == |file| < WORD64
    && (cfg.totalChunks - 1) * cfg.chunkSize < |file| <= cfg.totalChunks * cfg.chunkSize
  }

  lemma ChunkInside(cfg: Config, file: seq<byte>, job: nat)
    requires Tiled(cfg, file) && job < cfg.totalChunks
    ensures 0 < ChunkLength(cfg, job) <= cfg.chunkSize
    ensures ChunkOffset(cfg, job) + ChunkLength(cfg, job) <= |file|
    ensures job + 1 < cfg.totalChunks ==> ChunkLength(cfg, job) == cfg.chunkSize
    ensures job + 1 == cfg.totalChunks ==> ChunkOffset(cfg, job) + ChunkLength(cfg, job) == |file|
  {
    MulMonotone(job, cfg.totalChunks - 1, cfg.chunkSize);
    if job + 1 < cfg.totalChunks {
      MulMonotone(job + 1, cfg.totalChunks - 1, cfg.chunkSize);
      assert (job + 1) * cfg.chunkSize == job * cfg.chunkSize + cfg.chunkSize;
    } else {
      assert cfg.totalChunks * cfg.chunkSize == job * cfg.chunkSize + cfg.chunkSize;
    }
  }

  lemma ChunksApart(cfg: Config, file: seq<byte>, j: nat, k: nat)
    requires Tiled(cfg, file) && j < k < cfg.totalChunks
    ensures ChunkOffset(cfg, j) + ChunkLength(cfg, j) <= ChunkOffset(cfg, k)
  {
    ChunkInside(cfg, file, j);
    MulMonotone(j + 1, k, cfg.chunkSize);
    assert (j + 1) * cfg.chunkSize == j * cfg.chunkSize + cfg.chunkSize;
  }

  /** Every byte lies in some chunk. */
  lemma ChunkOfByte(cfg: Config, file: seq<byte>, i: nat) returns (job: nat)
    requires Tiled(cfg, file) && i < |file|
    ensures job < cfg.totalChunks && ChunkOffset(cfg, job) <= i < ChunkOffset(cfg, job) + ChunkLength(cfg, job)
  {
    job := i / cfg.chunkSize;
    assert i == job * cfg.chunkSize + i % cfg.chunkSize;
    if job >= cfg.totalChunks {
      MulMonotone(cfg.totalChunks, job, cfg.chunkSize);
      assert false;
    }
    ChunkInside(cfg, file, job);
    if job + 1 < cfg.totalChunks {
      assert i < ChunkOffset(cfg, job) + cfg.chunkSize;
    }
  }

  function ChunkOf(cfg: Config, file: seq<byte>, job: nat): seq<byte>
    requires ChunkOffset(cfg, job) + ChunkLength(cfg, job) <= |file|
  {
    file[ChunkOffset(cfg, job)..ChunkOffset(cfg, job) + ChunkLength(cfg, job)]
  }

  /** A successful answer to the request for a chunk carries that chunk of the file. */
  ghost predicate HonestAnswer(cfg: Config, file: seq<byte>, job: nat, resp: Response) {
    resp.success ==> ChunkOffset(cfg, job) + ChunkLength(cfg, job) <= |file| && resp.data == ChunkOf(cfg, file, job)
  }

  ghost predicate StepHonest(cfg: Config, s: State, a: Action, file: seq<byte>) {
    a.Fetch? && a.w < |s.workers| && s.workers[a.w].Fetching? ==> HonestAnswer(cfg, file, s.workers[a.w].job, a.resp)
  }

  ghost predicate RunHonest(cfg: Config, s: State, acts: seq<Action>, file: seq<byte>)
    decreases |acts|
  {
    acts != [] && Shaped(cfg, s) && Enabled(cfg, s, acts[0]) ==>
      StepHonest(cfg, s, acts[0], file) && RunHonest(cfg, Apply(cfg, s, acts[0]), acts[1..], file)
  }

  /** The download is lost: it has failed or is about to. */
  ghost predicate Doomed(s: State) {
    s.failure || exists w :: 0 <= w < |s.workers| && s.workers[w].Requeueing? && s.workers[w].fatal
  }

  ghost predicate StageHonest(cfg: Config, file: seq<byte>, st: Stage) {
    && (st.Releasing? || st.Judging? ==> HonestAnswer(cfg, file, st.job, st.resp))
    && (st.Writing? ==> HonestAnswer(cfg, file, st.job, Response(true, st.data, "")))
  }

  ghost predicate ChunkStored(cfg: Config, s: State, file: seq<byte>, job: nat)
    requires |s.out| == |file|
  {
    forall i :: ChunkOffset(cfg, job) <= i < ChunkOffset(cfg, job) + ChunkLength(cfg, job) && i < |file| ==>
      s.out[i] == file[i]
  }

  ghost predicate ContentInv(cfg: Config, s: State, file: seq<byte>) {
    && Shaped(cfg, s) && Tiled(cfg, file)
    && (forall w :: 0 <= w < |s.workers| ==> StageHonest(cfg, file, s.workers[w]))
    && (!Doomed(s) ==>
        |s.out| == |file| && forall j :: 0 <= j < cfg.totalChunks && s.writes[j] > 0 ==> ChunkStored(cfg, s, file, j))
  }

  lemma WriteStores(cfg: Config, s: State, w: nat, file: seq<byte>)
    requires ContentInv(cfg, s, file) && Enabled(cfg, s, Write(w, Written)) && !Doomed(s)
    ensures var t := AfterWrite(cfg, s, w, Written);
            |t.out| == |file| && |t.writes| == cfg.totalChunks &&
            forall j :: 0 <= j < cfg.totalChunks && t.writes[j] > 0 ==> ChunkStored(cfg, t, file, j)
  {
    var t := AfterWrite(cfg, s, w, Written);
    var job := s.workers[w].job;
    assert StageShaped(cfg, s, s.workers[w]) && StageHonest(cfg, file, s.workers[w]);
    ChunkInside(cfg, file, job);
    var off, len := ChunkOffset(cfg, job), ChunkLength(cfg, job);
    assert t.out == s.out[..off] + file[off..off + len] + s.out[off + len..];
    hide StageShaped, Splice, JobInv;
    forall j | 0 <= j < cfg.totalChunks && t.writes[j] > 0 ensures ChunkStored(cfg, t, file, j) {
      if j < job {
        ChunksApart(cfg, file, j, job);
        assert ChunkStored(cfg, s, file, j);
      } else if j > job {
        ChunksApart(cfg, file, job, j);
        assert ChunkStored(cfg, s, file, j);
      }
    }
  }

  lemma DoomStays(cfg: Config, s: State, a: Action)
    requires Shaped(cfg, s) && Enabled(cfg, s, a) && Doomed(s)
    ensures Doomed(Apply(cfg, s, a))
  {
    var t := Apply(cfg, s, a);
    if !s.failure {
      var w :| 0 <= w < |s.workers| && s.workers[w].Requeueing? && s.workers[w].fatal;
      if a.AddPeer? || a.w != w {
        assert t.workers[w] == s.workers[w];
      }
    }
  }

  lemma FailedWriteDooms(cfg: Config, s: State, a: Action)
    requires Shaped(cfg, s) && Enabled(cfg, s, a) && a.Write? && a.result.WriteFailed?
    ensures Doomed(Apply(cfg, s, a))
  {
    var t := Apply(cfg, s, a);
    assert t.workers[a.w].Requeueing? && t.workers[a.w].fatal;
  }

  lemma StagesStayHonest(cfg: Config, s: State, a: Action, file: seq<byte>)
    requires ContentInv(cfg, s, file) && Enabled(cfg, s, a) && StepHonest(cfg, s, a, file)
    ensures var t := Apply(cfg, s, a);
            forall w :: 0 <= w < |t.workers| ==> StageHonest(cfg, file, t.workers[w])
  {
    hide HonestAnswer, Apply, Enabled, StageShaped, Doomed, ChunkStored, Tiled;
    var t := Apply(cfg, s, a);
    OneMoves(cfg, s, a);
    if !a.AddPeer? {
      assert StageHonest(cfg, file, s.workers[a.w]);
      MoverStaysHonest(cfg, s, a, file);
    }
  }

  lemma MoverStaysHonest(cfg: Config, s: State, a: Action, file: seq<byte>)
    requires Shaped(cfg, s) && Enabled(cfg, s, a) && StepHonest(cfg, s, a, file) && !a.AddPeer?
    requires StageHonest(cfg, file, s.workers[a.w])
    ensures StageHonest(cfg, file, Apply(cfg, s, a).workers[a.w])
  {
    hide HonestAnswer, ScanFrom, HasCapacity, AttemptLimit, StatOf, Splice, AfterJudge;
    if a.Judge? {
      JudgedStaysHonest(cfg, s, a.w, file);
    }
  }

  lemma JudgedStaysHonest(cfg: Config, s: State, w: nat, file: seq<byte>)
    requires Shaped(cfg, s) && Enabled(cfg, s, Judge(w)) && StageHonest(cfg, file, s.workers[w])
    ensures StageHonest(cfg, file, AfterJudge(cfg, s, w).workers[w])
  {
    hide AttemptLimit, ChunkOf, ChunkOffset, ChunkLength;
  }

  lemma ContentStep(cfg: Config, s: State, a: Action, file: seq<byte>)
    requires ContentInv(cfg, s, file) && Enabled(cfg, s, a) && StepHonest(cfg, s, a, file)
    ensures ContentInv(cfg, Apply(cfg, s, a), file)
  {
    var t := Apply(cfg, s, a);
    StepKeepsShape(cfg, s, a);
    StagesStayHonest(cfg, s, a, file);
    if !Doomed(t) {
      if Doomed(s) {
        DoomStays(cfg, s, a);
        assert false;
      }
      if a.Write? {
        if a.result.Written? {
          WriteStores(cfg, s, a.w, file);
        } else {
          FailedWriteDooms(cfg, s, a);
          assert false;
        }
      } else {
        assert t.out == s.out && t.writes == s.writes;
        forall j | 0 <= j < cfg.totalChunks && t.writes[j] > 0 ensures ChunkStored(cfg, t, file, j) {
          assert ChunkStored(cfg, s, file, j);
        }
      }
    }
  }

  lemma {:induction false} ContentAlong(cfg: Config, s: State, acts: seq<Action>, file: seq<byte>)
    requires ContentInv(cfg, s, file) && Exec(cfg, s, acts).Some? && RunHonest(cfg, s, acts, file)
    ensures ContentInv(cfg, Exec(cfg, s, acts).value, file)
    decreases |acts|
  {
    if acts != [] {
      hide Tiled, Doomed;
      ContentStep(cfg, s, acts[0], file);
      ContentAlong(cfg, Apply(cfg, s, acts[0]), acts[1..], file);
    }
  }

  lemma AllStoredMeansEqual(cfg: Config, s: State, file: seq<byte>)
    requires Tiled(cfg, file) && |s.out| == |file|
    requires forall j :: 0 <= j < cfg.totalChunks ==> ChunkStored(cfg, s, file, j)
    ensures s.out == file
  {
    forall i | 0 <= i < |file| ensures s.out[i] == file[i] {
      var job := ChunkOfByte(cfg, file, i);
      assert ChunkStored(cfg, s, file, job);
    }
  }

  /** REASSEMBLY.  If every successful answer is honest and the staging file starts at the
      right size, then a run that ends in success has put the whole file together, byte for
      byte, whatever the interleaving and however many fetches failed on the way. */
  lemma Reassembly(cfg: Config, ids: seq<string>, order: seq<nat>, states: seq<nat>, staging: seq<byte>, reason: string,
                   acts: seq<Action>, file: seq<byte>)
    requires Started(cfg, ids, order, states) && Tiled(cfg, file) && |staging| == |file|
    requires Exec(cfg, Initial(cfg, ids, order, states, staging, reason), acts).Some?
    requires RunHonest(cfg, Initial(cfg, ids, order, states, staging, reason), acts, file)
    ensures var t := Exec(cfg, Initial(cfg, ids, order, states, staging, reason), acts).value;
            t.completed == cfg.totalChunks ==> t.out == file
  {
    var s := Initial(cfg, ids, order, states, staging, reason);
    var t := Exec(cfg, s, acts).value;
    InitialJobInv(cfg, ids, order, states, staging, reason);
    JobInvAlong(cfg, s, acts);
    ContentAlong(cfg, s, acts, file);
    if t.completed == cfg.totalChunks {
      CompletedMeansIdle(cfg, t);
      assert !Doomed(t);
      AllStoredMeansEqual(cfg, t, file);
    }
  }
}
