/** The swarm never deadlocks and every run of it is finite, with an explicit bound. */
module SwarmProgress {
  import opened Wrappers
  import opened Sums
  import opened SwarmState
  import opened SwarmJobs
  import opened SwarmCapacity

  // ---------------------------------------------------------------- deadlock freedom

  /** Worker `w` has an enabled action. */
  ghost predicate CanMove(cfg: Config, s: State, w: nat) {
    exists a: Action :: !a.AddPeer? && a.w == w && Enabled(cfg, s, a)
  }

  /** Every stage but the two waits has a move. */
  lemma MovesUnlessWaiting(cfg: Config, s: State, w: nat)
    requires w < |s.workers| && !s.workers[w].Exited?
    requires s.workers[w].Taking? ==> s.shutting || s.failure || s.queue != []
    requires s.workers[w].Acquiring? ==> s.shutting || s.failure || HasCapacity(cfg, s.peers)
    ensures CanMove(cfg, s, w)
  {
    var a := match s.workers[w]
      case Top => CheckFailure(w)
      case Taking => TakeJob(w)
      case Acquiring(_) => AcquirePeer(w)
      case Fetching(_, _) => Fetch(w, Response(false, [], ""))
      case Releasing(_, _, _) => ReleasePeer(w)
      case Judging(_, _, _) => Judge(w)
      case Writing(_, _, _) => Write(w, Written)
      case Recording(_, _, _) => Record(w)
      case Completing(_) => Complete(w)
      case Requeueing(_, _, _, _) => Requeue(w)
      case Exited => Requeue(w);
    assert Enabled(cfg, s, a);
  }

  /** DEADLOCK FREEDOM.  While a worker is still running, some worker can move: a worker
      waiting for capacity means every slot is taken, hence somebody is fetching; and if
      everybody waits for a job, all chunks are counted, hence the swarm is shut down. */
  lemma DeadlockFree(cfg: Config, s: State, w: nat)
    requires Reachable(cfg, s)
    requires w < |s.workers| && !s.workers[w].Exited?
    ensures exists v: nat :: CanMove(cfg, s, v)
  {
    ReachableJobInv(cfg, s);
    ReachableCapInv(cfg, s);
    SomeoneMoves(cfg, s, w);
  }

  lemma SomeoneMoves(cfg: Config, s: State, w: nat)
    requires JobInv(cfg, s) && CapInv(cfg, s)
    requires w < |s.workers| && !s.workers[w].Exited?
    ensures exists v: nat :: v < |s.workers| && CanMove(cfg, s, v)
  {
    if s.workers[w].Acquiring? && !(s.shutting || s.failure || HasCapacity(cfg, s.peers)) {
      assert s.peers[0].outstanding >= PerPeerLimit(cfg);
      var v := CountWitness(s.workers, AtSlot(0));
      MovesUnlessWaiting(cfg, s, v);
    } else if s.workers[w].Taking? && !(s.shutting || s.failure || s.queue != []) {
      SomeoneHolds(cfg, s);
      var v := CountWitness(s.workers, Holding);
      if s.workers[v].Acquiring? && !HasCapacity(cfg, s.peers) {
        assert s.peers[0].outstanding >= PerPeerLimit(cfg);
        var u := CountWitness(s.workers, AtSlot(0));
        MovesUnlessWaiting(cfg, s, u);
      } else {
        MovesUnlessWaiting(cfg, s, v);
      }
    } else {
      MovesUnlessWaiting(cfg, s, w);
    }
  }

  lemma SomeoneHolds(cfg: Config, s: State)
    requires JobInv(cfg, s) && !s.shutting && !s.failure && s.queue == []
    ensures Count(s.workers, Holding) > 0
  {
    if Count(s.workers, Holding) == 0 {
      CountNone(s.workers, Holding);
      CountNone(s.workers, Wrote);
      assert forall j :: 0 <= j < cfg.totalChunks ==> s.writes[j] == 1;
      SumConstant(s.writes, 1);
      assert false;
    }
  }

  // ---------------------------------------------------------------- attempts and fetches

  /** Fetches of a held job that no failed attempt accounts for. */
  ghost predicate StageTries(s: State, st: Stage, limit: nat)
    requires |s.attempts| == |s.fetches|
  {
    Holding(st) ==>
      && JobOf(st) < |s.attempts|
      && (st.Acquiring? || st.Fetching? || (st.Requeueing? && !st.fatal) ==>
            s.fetches[JobOf(st)] == s.attempts[JobOf(st)] < limit)
      && (st.Releasing? || st.Judging? || st.Writing? || st.Recording? || st.Completing? ==>
            s.fetches[JobOf(st)] == s.attempts[JobOf(st)] + 1 <= limit)
  }

  /** Bookkeeping of tries while at most `m` peers are known. */
  ghost predicate TryInv(cfg: Config, s: State, m: nat) {
    && Shaped(cfg, s) && |s.peers| <= m
    && (forall j :: 0 <= j < cfg.totalChunks ==> s.attempts[j] <= s.fetches[j] <= AttemptLimit(m))
    && (forall i :: 0 <= i < |s.queue| ==> s.fetches[s.queue[i]] == s.attempts[s.queue[i]] < AttemptLimit(m))
    && (forall w :: 0 <= w < |s.workers| ==> StageTries(s, s.workers[w], AttemptLimit(m)))
    && (forall j :: 0 <= j < cfg.totalChunks && s.writes[j] == 1 ==> s.fetches[j] == s.attempts[j] + 1)
  }

  /** Another worker's tries stay as they were: the counters change only at the mover's job. */
  lemma OthersTries(cfg: Config, s: State, a: Action, v: nat, limit: nat)
    requires JobInv(cfg, s) && Enabled(cfg, s, a) && !a.AddPeer? && v < |s.workers| && v != a.w
    requires StageTries(s, s.workers[v], limit)
    ensures Apply(cfg, s, a).workers[v] == s.workers[v] && StageTries(Apply(cfg, s, a), s.workers[v], limit)
  {
    if (a.Fetch? || a.Judge?) && Holding(s.workers[v]) {
      assert JobOf(s.workers[v]) != JobOf(s.workers[a.w]);
    }
  }

  /** A failed attempt is fatal at the limit, and so leaves room for another try when not. */
  lemma JudgeTries(cfg: Config, s: State, w: nat, m: nat)
    requires JobInv(cfg, s) && TryInv(cfg, s, m) && Enabled(cfg, s, Judge(w))
    ensures StageTries(AfterJudge(cfg, s, w), AfterJudge(cfg, s, w).workers[w], AttemptLimit(m))
    ensures CountersAgree(cfg, AfterJudge(cfg, s, w), m)
  {
    hide Apart, Counted, Covered, FlagsAgree, Accepted;
    assert StageTries(s, s.workers[w], AttemptLimit(m));
    assert AttemptLimit(|s.peers|) <= AttemptLimit(m);
  }

  lemma FetchTries(cfg: Config, s: State, w: nat, resp: Response, m: nat)
    requires JobInv(cfg, s) && TryInv(cfg, s, m) && Enabled(cfg, s, Fetch(w, resp))
    ensures var t := Apply(cfg, s, Fetch(w, resp));
            StageTries(t, t.workers[w], AttemptLimit(m)) && CountersAgree(cfg, t, m)
  {
    assert StageTries(s, s.workers[w], AttemptLimit(m));
  }

  lemma TakeTries(cfg: Config, s: State, w: nat, m: nat)
    requires JobInv(cfg, s) && TryInv(cfg, s, m) && Enabled(cfg, s, TakeJob(w))
    ensures StageTries(AfterTake(s, w), AfterTake(s, w).workers[w], AttemptLimit(m))
    ensures CountersAgree(cfg, AfterTake(s, w), m)
  {
    if s.queue != [] {
      assert s.fetches[s.queue[0]] == s.attempts[s.queue[0]] < AttemptLimit(m);
    }
  }

  lemma WriteTries(cfg: Config, s: State, w: nat, result: WriteResult, m: nat)
    requires JobInv(cfg, s) && TryInv(cfg, s, m) && Enabled(cfg, s, Write(w, result))
    ensures StageTries(AfterWrite(cfg, s, w, result), AfterWrite(cfg, s, w, result).workers[w], AttemptLimit(m))
    ensures CountersAgree(cfg, AfterWrite(cfg, s, w, result), m)
  {
    assert StageTries(s, s.workers[w], AttemptLimit(m));
  }

  lemma OtherTries(cfg: Config, s: State, a: Action, m: nat)
    requires JobInv(cfg, s) && TryInv(cfg, s, m) && Enabled(cfg, s, a) && !a.AddPeer?
    requires !a.Judge? && !a.Fetch? && !a.TakeJob? && !a.Write?
    ensures var t := Apply(cfg, s, a);
            StageTries(t, t.workers[a.w], AttemptLimit(m)) && CountersAgree(cfg, t, m)
  {
    assert StageTries(s, s.workers[a.w], AttemptLimit(m));
  }

  ghost predicate CountersAgree(cfg: Config, s: State, m: nat) {
    && |s.attempts| == |s.fetches| == |s.writes| == cfg.totalChunks
    && (forall j :: 0 <= j < cfg.totalChunks ==> s.attempts[j] <= s.fetches[j] <= AttemptLimit(m))
    && (forall j :: 0 <= j < cfg.totalChunks && s.writes[j] == 1 ==> s.fetches[j] == s.attempts[j] + 1)
  }

  lemma MoversTries(cfg: Config, s: State, a: Action, m: nat)
    requires JobInv(cfg, s) && TryInv(cfg, s, m) && Enabled(cfg, s, a) && !a.AddPeer?
    ensures var t := Apply(cfg, s, a);
            StageTries(t, t.workers[a.w], AttemptLimit(m)) && CountersAgree(cfg, t, m)
  {
    match a
    case Judge(w) => JudgeTries(cfg, s, w, m);
    case Fetch(w, resp) => FetchTries(cfg, s, w, resp, m);
    case TakeJob(w) => TakeTries(cfg, s, w, m);
    case Write(w, result) => WriteTries(cfg, s, w, result, m);
    case _ => OtherTries(cfg, s, a, m);
  }

  /** Queued jobs have had as many failed attempts as fetches, and fewer than the limit. */
  ghost predicate QueuedTries(cfg: Config, s: State, m: nat) {
    && |s.attempts| == |s.fetches| == cfg.totalChunks
    && forall i :: 0 <= i < |s.queue| ==>
         s.queue[i] < cfg.totalChunks && s.fetches[s.queue[i]] == s.attempts[s.queue[i]] < AttemptLimit(m)
  }

  lemma RequeueTries(cfg: Config, s: State, w: nat, m: nat)
    requires TryInv(cfg, s, m) && Enabled(cfg, s, Requeue(w))
    ensures QueuedTries(cfg, AfterRequeue(s, w), m)
  {
    assert StageTries(s, s.workers[w], AttemptLimit(m));
    var t := AfterRequeue(s, w);
    assert forall i :: 0 <= i < |t.queue| ==> t.queue[i] == if i < |s.queue| then s.queue[i] else s.workers[w].job;
  }

  lemma QueueTries(cfg: Config, s: State, a: Action, m: nat)
    requires JobInv(cfg, s) && TryInv(cfg, s, m) && Enabled(cfg, s, a) && !a.AddPeer?
    ensures QueuedTries(cfg, Apply(cfg, s, a), m)
  {
    hide WritesMatch, Counted, Covered, FlagsAgree, StageTries;
    if a.Requeue? {
      RequeueTries(cfg, s, a.w, m);
    } else {
      var t := Apply(cfg, s, a);
      hide AttemptLimit;
      assert Holding(s.workers[a.w]) ==> forall i :: 0 <= i < |s.queue| ==> s.queue[i] != JobOf(s.workers[a.w]);
      assert t.queue == s.queue || t.queue == s.queue[1..];
    }
  }

  lemma SameWorkers(cfg: Config, s: State, a: Action)
    requires Shaped(cfg, s) && Enabled(cfg, s, a)
    ensures |Apply(cfg, s, a).workers| == |s.workers|
  {
    hide Shaped;
  }

  lemma PeerTries(cfg: Config, s: State, a: Action, m: nat)
    requires TryInv(cfg, s, m) && Enabled(cfg, s, a) && a.AddPeer? && |Apply(cfg, s, a).peers| <= m
    ensures TryInv(cfg, Apply(cfg, s, a), m)
  {
    var t := Apply(cfg, s, a);
    forall w | 0 <= w < |t.workers| ensures StageTries(t, t.workers[w], AttemptLimit(m)) {
      assert StageTries(s, s.workers[w], AttemptLimit(m));
    }
    hide StageTries;
  }

  lemma TryInvStep(cfg: Config, s: State, a: Action, m: nat)
    requires JobInv(cfg, s) && TryInv(cfg, s, m) && Enabled(cfg, s, a)
    requires |Apply(cfg, s, a).peers| <= m
    ensures TryInv(cfg, Apply(cfg, s, a), m)
  {
    hide JobInv, StageShaped, Apply, StageTries, Enabled;
    var t := Apply(cfg, s, a);
    StepKeepsShape(cfg, s, a);
    if a.AddPeer? {
      PeerTries(cfg, s, a, m);
    } else {
      QueueTries(cfg, s, a, m);
      MoversTries(cfg, s, a, m);
      SameWorkers(cfg, s, a);
      forall v | 0 <= v < |t.workers| ensures StageTries(t, t.workers[v], AttemptLimit(m)) {
        if v != a.w { OthersTries(cfg, s, a, v, AttemptLimit(m)); }
      }
    }
  }

  // ---------------------------------------------------------------- a potential that falls

  function Rank(st: Stage): nat {
    match st
    case Exited => 0
    case Taking => 1
    case Top => 2
    case Completing(_) => 3
    case Recording(_, _, _) => 4
    case Writing(_, _, _) => 5
    case Judging(_, _, _) => 6
    case Releasing(_, _, _) => 7
    case Fetching(_, _) => 8
    case Acquiring(_) => 9
    case Requeueing(_, _, fatal, _) => if fatal then 3 else 12
  }

  ghost function Ranks(ws: seq<Stage>): (r: seq<nat>)
    ensures |r| == |ws| && forall w :: 0 <= w < |ws| ==> r[w] == Rank(ws[w])
  {
    seq(|ws|, w requires 0 <= w < |ws| => Rank(ws[w]))
  }

  /** The part of the potential that steps change. */
  ghost function Weight(s: State): int {
    9 * |s.queue| + Sum(Ranks(s.workers)) - |s.peers| - 10 * Sum(s.attempts)
  }

  /** Work left: failed attempts still possible, queued chunks, the way each worker has to
      go, and peers still unknown. */
  ghost function Potential(cfg: Config, s: State, m: nat): int {
    10 * (cfg.totalChunks * AttemptLimit(m)) + m + Weight(s)
  }

  lemma RanksMove(s: State, t: State, w: nat, st: Stage)
    requires w < |s.workers| && t.workers == s.workers[w := st]
    ensures Sum(Ranks(t.workers)) == Sum(Ranks(s.workers)) - Rank(s.workers[w]) + Rank(st)
  {
    assert Ranks(t.workers) == Ranks(s.workers)[w := Rank(st)];
    SumUpdate(Ranks(s.workers), w, Rank(st));
  }

  lemma JudgeFalls(cfg: Config, s: State, w: nat)
    requires Shaped(cfg, s) && Enabled(cfg, s, Judge(w))
    ensures Weight(AfterJudge(cfg, s, w)) < Weight(s)
  {
    assert StageShaped(cfg, s, s.workers[w]);
    hide Shaped, Accepted, AttemptLimit;
    var t := AfterJudge(cfg, s, w);
    var job := s.workers[w].job;
    RanksMove(s, t, w, t.workers[w]);
    SumUpdate(s.attempts, job, s.attempts[job] + 1);
  }

  lemma RequeueFalls(cfg: Config, s: State, w: nat)
    requires Shaped(cfg, s) && Enabled(cfg, s, Requeue(w))
    ensures Weight(AfterRequeue(s, w)) < Weight(s)
  {
    var t := AfterRequeue(s, w);
    RanksMove(s, t, w, t.workers[w]);
  }

  /** Any other step moves its worker on, or takes a chunk off the queue. */
  lemma WorkerFalls(cfg: Config, s: State, a: Action)
    requires Shaped(cfg, s) && Enabled(cfg, s, a) && !a.AddPeer? && !a.Judge? && !a.Requeue?
    ensures var t := Apply(cfg, s, a);
            && t.workers == s.workers[a.w := t.workers[a.w]] && t.attempts == s.attempts && |t.peers| == |s.peers|
            && 9 * |t.queue| + Rank(t.workers[a.w]) < 9 * |s.queue| + Rank(s.workers[a.w])
  {
    assert StageShaped(cfg, s, s.workers[a.w]);
    hide Shaped, HasCapacity;
  }

  lemma PotentialFalls(cfg: Config, s: State, a: Action, m: nat)
    requires Shaped(cfg, s) && Enabled(cfg, s, a)
    ensures Potential(cfg, Apply(cfg, s, a), m) < Potential(cfg, s, m)
  {
    if a.Judge? {
      JudgeFalls(cfg, s, a.w);
    } else if a.Requeue? {
      RequeueFalls(cfg, s, a.w);
    } else if !a.AddPeer? {
      hide Shaped, Apply;
      var t := Apply(cfg, s, a);
      WorkerFalls(cfg, s, a);
      RanksMove(s, t, a.w, t.workers[a.w]);
    }
  }

  lemma PotentialPositive(cfg: Config, s: State, m: nat)
    requires TryInv(cfg, s, m)
    ensures Potential(cfg, s, m) >= 0
  {
    SumBound(s.attempts, AttemptLimit(m));
  }

  lemma PeersOnlyGrow(cfg: Config, s: State, a: Action)
    requires Shaped(cfg, s) && Enabled(cfg, s, a)
    ensures |s.peers| <= |Apply(cfg, s, a).peers|
  {
  }

  lemma {:induction false} PeersGrowAlong(cfg: Config, s: State, acts: seq<Action>)
    requires Exec(cfg, s, acts).Some?
    ensures |s.peers| <= |Exec(cfg, s, acts).value.peers|
    decreases |acts|
  {
    if acts != [] {
      PeersOnlyGrow(cfg, s, acts[0]);
      PeersGrowAlong(cfg, Apply(cfg, s, acts[0]), acts[1..]);
    }
  }

  lemma {:induction false} TriesAlong(cfg: Config, s: State, acts: seq<Action>, m: nat)
    requires JobInv(cfg, s) && TryInv(cfg, s, m) && Exec(cfg, s, acts).Some?
    requires |Exec(cfg, s, acts).value.peers| <= m
    ensures JobInv(cfg, Exec(cfg, s, acts).value) && TryInv(cfg, Exec(cfg, s, acts).value, m)
    ensures |acts| + Potential(cfg, Exec(cfg, s, acts).value, m) <= Potential(cfg, s, m)
    decreases |acts|
  {
    if acts != [] {
      var next := Apply(cfg, s, acts[0]);
      PeersGrowAlong(cfg, next, acts[1..]);
      JobInvStep(cfg, s, acts[0]);
      TryInvStep(cfg, s, acts[0], m);
      PotentialFalls(cfg, s, acts[0], m);
      TriesAlong(cfg, next, acts[1..], m);
    }
  }

  lemma InitialTryInv(cfg: Config, ids: seq<string>, order: seq<nat>, states: seq<nat>, staging: seq<byte>,
                      reason: string, m: nat)
    requires Started(cfg, ids, order, states) && |ids| <= m
    ensures TryInv(cfg, Initial(cfg, ids, order, states, staging, reason), m)
    ensures Potential(cfg, Initial(cfg, ids, order, states, staging, reason), m)
         == 10 * (cfg.totalChunks * AttemptLimit(m)) + 9 * cfg.totalChunks + 2 * WorkerCount(cfg, |ids|) + m - |ids|
  {
    var s := Initial(cfg, ids, order, states, staging, reason);
    InitialJobInv(cfg, ids, order, states, staging, reason);
    SumConstant(s.attempts, 0);
    SumConstant(Ranks(s.workers), 2);
  }

  /** TERMINATION.  However the callbacks answer and the threads interleave, a run in which
      at most `m` peers are ever known takes a bounded number of steps, fetches no chunk
      more than max(3, 2m) times, and so makes at most totalChunks * max(3, 2m) fetches. */
  lemma RunsAreBounded(cfg: Config, ids: seq<string>, order: seq<nat>, states: seq<nat>, staging: seq<byte>,
                       reason: string, acts: seq<Action>, m: nat)
    requires Started(cfg, ids, order, states)
    requires Exec(cfg, Initial(cfg, ids, order, states, staging, reason), acts).Some?
    requires |Exec(cfg, Initial(cfg, ids, order, states, staging, reason), acts).value.peers| <= m
    ensures |acts| <= 10 * (cfg.totalChunks * AttemptLimit(m)) + 9 * cfg.totalChunks + 2 * WorkerCount(cfg, |ids|)
                        + m - |ids|
    ensures var t := Exec(cfg, Initial(cfg, ids, order, states, staging, reason), acts).value;
            |t.fetches| == cfg.totalChunks &&
            (forall j :: 0 <= j < cfg.totalChunks ==> t.fetches[j] <= AttemptLimit(m)) &&
            Sum(t.fetches) <= cfg.totalChunks * AttemptLimit(m)
    ensures AttemptLimit(m) == if m >= 2 then 2 * m else 3
  {
    var s := Initial(cfg, ids, order, states, staging, reason);
    PeersGrowAlong(cfg, s, acts);
    InitialJobInv(cfg, ids, order, states, staging, reason);
    InitialTryInv(cfg, ids, order, states, staging, reason, m);
    TriesAlong(cfg, s, acts, m);
    var t := Exec(cfg, s, acts).value;
    PotentialPositive(cfg, t, m);
    SumBound(t.fetches, AttemptLimit(m));
  }

  // ---------------------------------------------------------------- the verdict

  ghost predicate AllExited(s: State) {
    forall w :: 0 <= w < |s.workers| ==> s.workers[w].Exited?
  }

  /** Workers leave only after a shutdown. */
  ghost predicate ExitInv(s: State) {
    && |s.workers| > 0
    && (forall w :: 0 <= w < |s.workers| && s.workers[w].Exited? ==> s.shutting || s.failure)
    && (forall w :: 0 <= w < |s.workers| && s.workers[w].Requeueing? && s.workers[w].quits ==> s.workers[w].fatal)
  }

  lemma ExitInvStep(cfg: Config, s: State, a: Action)
    requires Shaped(cfg, s) && ExitInv(s) && Enabled(cfg, s, a)
    ensures ExitInv(Apply(cfg, s, a))
  {
    if !a.AddPeer? {
      var t := Apply(cfg, s, a);
      assert t.workers == s.workers[a.w := t.workers[a.w]];
    }
  }

  lemma {:induction false} ExitInvAlong(cfg: Config, s: State, acts: seq<Action>)
    requires ExitInv(s) && Exec(cfg, s, acts).Some?
    ensures ExitInv(Exec(cfg, s, acts).value)
    decreases |acts|
  {
    if acts != [] {
      ExitInvStep(cfg, s, acts[0]);
      ExitInvAlong(cfg, Apply(cfg, s, acts[0]), acts[1..]);
    }
  }

  lemma ReachableExitInv(cfg: Config, s: State)
    requires Reachable(cfg, s)
    ensures ExitInv(s)
  {
    var ids, order, states, staging, reason, acts :|
      Started(cfg, ids, order, states) &&
      Exec(cfg, Initial(cfg, ids, order, states, staging, reason), acts) == Some(s);
    ExitInvAlong(cfg, Initial(cfg, ids, order, states, staging, reason), acts);
  }

  /** THE VERDICT.  When all threads are joined, the download failed or counted every
      chunk, never both and never neither; a success wrote every chunk exactly once. */
  lemma Verdict(cfg: Config, s: State)
    requires Reachable(cfg, s) && AllExited(s)
    ensures s.failure <==> s.completed != cfg.totalChunks
    ensures !s.failure ==> |s.writes| == cfg.totalChunks && forall j :: 0 <= j < cfg.totalChunks ==> s.writes[j] == 1
  {
    ReachableJobInv(cfg, s);
    ReachableExitInv(cfg, s);
    VerdictFromInv(cfg, s);
  }

  lemma VerdictFromInv(cfg: Config, s: State)
    requires JobInv(cfg, s) && ExitInv(s) && AllExited(s)
    ensures s.failure <==> s.completed != cfg.totalChunks
    ensures !s.failure ==> forall j :: 0 <= j < cfg.totalChunks ==> s.writes[j] == 1
  {
    assert s.workers[0].Exited?;
    if s.failure { FailureMeansIncomplete(cfg, s); } else { CompletedMeansIdle(cfg, s); }
  }

  lemma ReachableTryInv(cfg: Config, s: State)
    requires Reachable(cfg, s)
    ensures TryInv(cfg, s, |s.peers|)
  {
    var ids, order, states, staging, reason, acts :|
      Started(cfg, ids, order, states) &&
      Exec(cfg, Initial(cfg, ids, order, states, staging, reason), acts) == Some(s);
    hide TryInv, JobInv, Started, Reachable;
    PeersGrowAlong(cfg, Initial(cfg, ids, order, states, staging, reason), acts);
    InitialJobInv(cfg, ids, order, states, staging, reason);
    InitialTryInv(cfg, ids, order, states, staging, reason, |s.peers|);
    TriesAlong(cfg, Initial(cfg, ids, order, states, staging, reason), acts, |s.peers|);
  }

  /** Whenever all chunks are counted, the fetches so far are one for each chunk and one for
      each failed attempt. */
  lemma SuccessCountsFetches(cfg: Config, s: State)
    requires Reachable(cfg, s) && s.completed == cfg.totalChunks
    ensures Sum(s.fetches) == cfg.totalChunks + Sum(s.attempts)
  {
    ReachableJobInv(cfg, s);
    ReachableTryInv(cfg, s);
    CompletedMeansIdle(cfg, s);
    OneMoreEach(s.fetches, s.attempts);
  }

  lemma {:induction false} OneMoreEach(xs: seq<nat>, ys: seq<nat>)
    requires |xs| == |ys| && forall i :: 0 <= i < |xs| ==> xs[i] == ys[i] + 1
    ensures Sum(xs) == |xs| + Sum(ys)
  {
    if xs != [] { OneMoreEach(xs[1..], ys[1..]); }
  }

  /** Every fetch of the run brings good data and every write succeeds. */
  ghost predicate Flawless(cfg: Config, acts: seq<Action>) {
    forall i :: 0 <= i < |acts| ==>
      (acts[i].Fetch? ==> Accepted(cfg, acts[i].resp)) && (acts[i].Write? ==> acts[i].result.Written?)
  }

  ghost predicate NoTrouble(cfg: Config, s: State) {
    && !s.failure
    && (forall j :: 0 <= j < |s.attempts| ==> s.attempts[j] == 0)
    && (forall w :: 0 <= w < |s.workers| ==>
          !s.workers[w].Requeueing? &&
          (s.workers[w].Releasing? || s.workers[w].Judging? ==> Accepted(cfg, s.workers[w].resp)))
  }

  lemma NoTroubleStep(cfg: Config, s: State, a: Action)
    requires Shaped(cfg, s) && NoTrouble(cfg, s) && Enabled(cfg, s, a)
    requires (a.Fetch? ==> Accepted(cfg, a.resp)) && (a.Write? ==> a.result.Written?)
    requires a.AcquirePeer? ==> !s.shutting && ScanFrom(cfg, s.peers, s.next, 0).Some?
    ensures NoTrouble(cfg, Apply(cfg, s, a))
  {
    hide StageShaped, Accepted, ScanFrom;
    var t := Apply(cfg, s, a);
    if a.AddPeer? {
    } else {
      assert t.workers == s.workers[a.w := t.workers[a.w]];
    }
  }

  /** A worker that looks for a peer finds one while nothing has failed. */
  lemma NoTroubleFindsPeer(cfg: Config, s: State, a: Action)
    requires JobInv(cfg, s) && CapInv(cfg, s) && NoTrouble(cfg, s) && Enabled(cfg, s, a) && a.AcquirePeer?
    ensures !s.shutting && ScanFrom(cfg, s.peers, s.next, 0).Some?
  {
    hide Apart, WritesMatch, Counted, Covered;
    ScanFindsCapacity(cfg, s.peers, s.next);
    if s.shutting { CompletedMeansIdle(cfg, s); }
  }

  lemma {:induction false} NoTroubleAlong(cfg: Config, s: State, acts: seq<Action>)
    requires JobInv(cfg, s) && CapInv(cfg, s) && NoTrouble(cfg, s)
    requires Flawless(cfg, acts) && Exec(cfg, s, acts).Some?
    ensures NoTrouble(cfg, Exec(cfg, s, acts).value)
    decreases |acts|
  {
    if acts != [] {
      var a := acts[0];
      if a.AcquirePeer? { NoTroubleFindsPeer(cfg, s, a); }
      hide NoTrouble, Enabled, Apply, CapInv, Accepted, Apart, WritesMatch, Counted, Covered, FlagsAgree, Shaped;
      NoTroubleStep(cfg, s, a);
      JobInvStep(cfg, s, a);
      CapInvStep(cfg, s, a);
      NoTroubleAlong(cfg, Apply(cfg, s, a), acts[1..]);
    }
  }

  ghost predicate FetchedOnce(cfg: Config, s: State) {
    Sum(s.fetches) == |s.fetches| == cfg.totalChunks && forall j :: 0 <= j < cfg.totalChunks ==> s.fetches[j] == 1
  }

  /** With flawless peers and disk the download never fails, and once all threads are
      joined it has made exactly one fetch per chunk. */
  lemma FlawlessFetchesOnce(cfg: Config, ids: seq<string>, order: seq<nat>, states: seq<nat>, staging: seq<byte>,
                            reason: string, acts: seq<Action>)
    requires Started(cfg, ids, order, states) && Flawless(cfg, acts)
    requires Exec(cfg, Initial(cfg, ids, order, states, staging, reason), acts).Some?
    ensures var t := Exec(cfg, Initial(cfg, ids, order, states, staging, reason), acts).value;
            !t.failure && (AllExited(t) ==> t.completed == cfg.totalChunks && FetchedOnce(cfg, t))
  {
    var s := Initial(cfg, ids, order, states, staging, reason);
    var t := Exec(cfg, s, acts).value;
    InitialJobInv(cfg, ids, order, states, staging, reason);
    InitialCapInv(cfg, ids, order, states, staging, reason);
    NoTroubleAlong(cfg, s, acts);
    if AllExited(t) {
      assert Reachable(cfg, t);
      ReachableJobInv(cfg, t);
      ReachableTryInv(cfg, t);
      ReachableExitInv(cfg, t);
      VerdictFromInv(cfg, t);
      SuccessCountsFetches(cfg, t);
      SumConstant(t.attempts, 0);
    }
  }
}
