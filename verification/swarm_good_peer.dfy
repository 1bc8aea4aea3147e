/** When does one good peer save a download?  The exact condition, in the number of chunks,
    peers and workers and the limit on the requests to a peer. */
module SwarmGoodPeer {
  import opened Wrappers
  import opened Sums
  import opened Arith
  import opened SwarmState
  import opened SwarmJobs
  import opened SwarmCapacity
  import opened SwarmProgress
  import opened SwarmRotation
  import opened SwarmSolo
  import opened SwarmResonance

  // ---------------------------------------------------------------- one chunk

  /** The only chunk goes round the peers in order: its k-th failed attempt was with the
      k-th peer, and peer `k` is good. */
  ghost predicate OneStage(cfg: Config, s: State, st: Stage, k: nat)
    requires |s.attempts| == 1 && |s.peers| > 0
  {
    match st
    case Acquiring(_) => s.next == s.attempts[0]
    case Fetching(_, slot) => slot == s.attempts[0] && (slot < k ==> s.next == slot + 1)
    case Releasing(_, slot, resp) => slot == s.attempts[0] && (slot < k ==> s.next == slot + 1) &&
      (slot == k ==> Accepted(cfg, resp))
    case Judging(_, slot, resp) => slot == s.attempts[0] && (slot < k ==> s.next == slot + 1) &&
      (slot == k ==> Accepted(cfg, resp))
    case Requeueing(_, _, fatal, quits) => !fatal && !quits && s.next == s.attempts[0]
    case _ => true
  }

  ghost predicate OneInv(cfg: Config, s: State, k: nat, g: string) {
    && cfg.totalChunks == 1
    && JobInv(cfg, s) && CapInv(cfg, s)
    && !s.failure
    && k < |s.peers| && s.peers[k].id == g
    && s.attempts[0] <= k
    && (s.queue != [] ==> s.next == s.attempts[0])
    && (forall w :: 0 <= w < |s.workers| && Holding(s.workers[w]) ==> OneStage(cfg, s, s.workers[w], k))
  }

  lemma OnlyChunkQueued(cfg: Config, s: State, w: nat)
    requires Shaped(cfg, s) && Apart(s) && cfg.totalChunks == 1
    requires w < |s.workers| && Holding(s.workers[w])
    ensures s.queue == []
  {
    assert StageShaped(cfg, s, s.workers[w]);
    ZeroInside(s.queue);
  }

  lemma ZeroInside(q: seq<nat>)
    ensures (forall i :: 0 <= i < |q| ==> q[i] < 1) && q != [] ==> 0 in q
  {
    if q != [] && q[0] < 1 { assert q[0] == 0; }
  }

  /** The holder of the only chunk is the only holder. */
  lemma OnlyHolder(cfg: Config, s: State, w: nat)
    requires JobInv(cfg, s) && cfg.totalChunks == 1
    requires w < |s.workers| && Holding(s.workers[w])
    ensures forall v :: 0 <= v < |s.workers| && v != w ==> !Holding(s.workers[v])
    ensures s.queue == []
    ensures !s.failure ==> !s.shutting
  {
    assert StageShaped(cfg, s, s.workers[w]);
    OnlyChunkQueued(cfg, s, w);
    forall v | 0 <= v < |s.workers| && v != w ensures !Holding(s.workers[v]) {
      assert StageShaped(cfg, s, s.workers[v]) && StageShaped(cfg, s, s.workers[w]);
    }
    if !s.failure && s.shutting { CompletedMeansIdle(cfg, s); }
  }

  /** A worker without the chunk moves: nothing changes unless it takes the chunk. */
  lemma IdlerKeepsOne(cfg: Config, s: State, a: Action, k: nat, g: string)
    requires OneInv(cfg, s, k, g) && Enabled(cfg, s, a) && !a.AddPeer? && !Holding(s.workers[a.w])
    ensures OneInv(cfg, Apply(cfg, s, a), k, g)
  {
    hide CapInv, Apart, WritesMatch, Counted, Covered, FlagsAgree, ScanFrom, HasCapacity, Accepted;
    JobInvStep(cfg, s, a);
    CapInvStep(cfg, s, a);
    OneMoves(cfg, s, a);
  }

  /** What a step of the holder must leave behind. */
  ghost predicate OneKept(cfg: Config, t: State, w: nat, k: nat, g: string) {
    && !t.failure && k < |t.peers| && t.peers[k].id == g
    && |t.attempts| == 1 && t.attempts[0] <= k
    && (t.queue != [] ==> t.next == t.attempts[0])
    && w < |t.workers| && (Holding(t.workers[w]) ==> OneStage(cfg, t, t.workers[w], k))
  }

  ghost predicate OneBefore(cfg: Config, s: State, a: Action, k: nat, g: string) {
    && Shaped(cfg, s) && cfg.totalChunks == 1 && s.next < |s.peers|
    && !a.AddPeer? && OneKept(cfg, s, a.w, k, g) && Enabled(cfg, s, a) && StepFavours(cfg, true, s, a, g) &&
       Holding(s.workers[a.w])
    && s.queue == [] && !s.shutting
    && JobOf(s.workers[a.w]) == 0
  }

  lemma OneAcquire(cfg: Config, s: State, w: nat, k: nat, g: string)
    requires OneBefore(cfg, s, AcquirePeer(w), k, g) && ScanFrom(cfg, s.peers, s.next, 0) == Some(s.next)
    ensures OneKept(cfg, AfterAcquire(cfg, s, w), w, k, g)
  {
    hide ScanFrom, HasCapacity, StageShaped, Accepted;
    NextIs(|s.peers|, s.next);
  }

  lemma OneFetch(cfg: Config, s: State, w: nat, resp: Response, k: nat, g: string)
    requires OneBefore(cfg, s, Fetch(w, resp), k, g)
    ensures OneKept(cfg, Apply(cfg, s, Fetch(w, resp)), w, k, g)
  {
    assert s.workers[w].slot == k ==> AsksPeer(s, w, g);
  }

  lemma OneJudge(cfg: Config, s: State, w: nat, k: nat, g: string)
    requires OneBefore(cfg, s, Judge(w), k, g)
    ensures OneKept(cfg, AfterJudge(cfg, s, w), w, k, g)
  {
    if !Accepted(cfg, s.workers[w].resp) {
      DivModUnique(s.workers[w].slot + 1, |s.peers|, 0, s.workers[w].slot + 1);
    }
  }

  lemma OneRequeue(cfg: Config, s: State, w: nat, k: nat, g: string)
    requires OneBefore(cfg, s, Requeue(w), k, g)
    ensures OneKept(cfg, AfterRequeue(s, w), w, k, g)
  {
  }

  lemma OneOther(cfg: Config, s: State, a: Action, k: nat, g: string)
    requires OneBefore(cfg, s, a, k, g)
    requires a.ReleasePeer? || a.Write? || a.Record? || a.Complete?
    ensures OneKept(cfg, Apply(cfg, s, a), a.w, k, g)
  {
  }

  /** The holder is alone, and if it is looking for a peer it is the next one's turn. */
  lemma HolderBefore(cfg: Config, s: State, a: Action, k: nat, g: string)
    requires OneInv(cfg, s, k, g) && Enabled(cfg, s, a) && !a.AddPeer? && StepFavours(cfg, true, s, a, g)
    requires Holding(s.workers[a.w])
    ensures OneBefore(cfg, s, a, k, g) && cfg.totalChunks == 1 && Shaped(cfg, s)
    ensures forall v :: 0 <= v < |s.workers| && v != a.w ==> !Holding(s.workers[v])
    ensures a.AcquirePeer? ==> ScanFrom(cfg, s.peers, s.next, 0) == Some(s.next)
  {
    hide WritesMatch, Counted, Covered;
    OnlyHolder(cfg, s, a.w);
    assert StageShaped(cfg, s, s.workers[a.w]);
    if a.AcquirePeer? { TurnIsTaken(cfg, s, a.w); }
  }

  lemma OneStepKept(cfg: Config, s: State, a: Action, k: nat, g: string)
    requires OneBefore(cfg, s, a, k, g)
    requires a.AcquirePeer? ==> ScanFrom(cfg, s.peers, s.next, 0) == Some(s.next)
    ensures OneKept(cfg, Apply(cfg, s, a), a.w, k, g)
  {
    hide OneKept, Shaped, StepFavours, ScanFrom;
    match a
    case AcquirePeer(w) => OneAcquire(cfg, s, w, k, g);
    case Fetch(w, resp) => OneFetch(cfg, s, w, resp, k, g);
    case Judge(w) => OneJudge(cfg, s, w, k, g);
    case Requeue(w) => OneRequeue(cfg, s, w, k, g);
    case _ => OneOther(cfg, s, a, k, g);
  }

  lemma OthersStay(cfg: Config, s: State, a: Action)
    requires Shaped(cfg, s) && Enabled(cfg, s, a) && !a.AddPeer?
    ensures var t := Apply(cfg, s, a);
            |t.workers| == |s.workers| && forall v :: 0 <= v < |s.workers| && v != a.w ==> t.workers[v] == s.workers[v]
  {
    assert Apply(cfg, s, a).workers == s.workers[a.w := Apply(cfg, s, a).workers[a.w]];
  }

  lemma OneFromKept(cfg: Config, s: State, a: Action, k: nat, g: string)
    requires Shaped(cfg, s) && Enabled(cfg, s, a) && !a.AddPeer? && cfg.totalChunks == 1
    requires forall v :: 0 <= v < |s.workers| && v != a.w ==> !Holding(s.workers[v])
    requires JobInv(cfg, Apply(cfg, s, a)) && CapInv(cfg, Apply(cfg, s, a))
    requires OneKept(cfg, Apply(cfg, s, a), a.w, k, g)
    ensures OneInv(cfg, Apply(cfg, s, a), k, g)
  {
    OthersStay(cfg, s, a);
    hide JobInv, CapInv, Apply;
  }

  /** New peers come last, so they are no nearer than the good one. */
  lemma ArrivalKeepsOne(cfg: Config, s: State, id: string, k: nat, g: string)
    requires OneInv(cfg, s, k, g) && Enabled(cfg, s, AddPeer(id))
    ensures OneInv(cfg, Apply(cfg, s, AddPeer(id)), k, g)
  {
    hide CapInv, Apart, WritesMatch, Counted, Covered, FlagsAgree, StatOf;
    JobInvStep(cfg, s, AddPeer(id));
    CapInvStep(cfg, s, AddPeer(id));
  }

  lemma OneInvStep(cfg: Config, s: State, a: Action, k: nat, g: string)
    requires OneInv(cfg, s, k, g) && Enabled(cfg, s, a) && StepFavours(cfg, true, s, a, g)
    ensures OneInv(cfg, Apply(cfg, s, a), k, g)
  {
    if a.AddPeer? {
      ArrivalKeepsOne(cfg, s, a.id, k, g);
    } else if Holding(s.workers[a.w]) {
      JobInvStep(cfg, s, a);
      CapInvStep(cfg, s, a);
      HolderBefore(cfg, s, a, k, g);
      OneStepKept(cfg, s, a, k, g);
      OneFromKept(cfg, s, a, k, g);
    } else {
      IdlerKeepsOne(cfg, s, a, k, g);
    }
  }

  lemma {:induction false} OneInvAlong(cfg: Config, s: State, acts: seq<Action>, k: nat, g: string)
    requires OneInv(cfg, s, k, g) && Exec(cfg, s, acts).Some? && RunFavours(cfg, true, s, acts, g)
    ensures OneInv(cfg, Exec(cfg, s, acts).value, k, g)
    decreases |acts|
  {
    if acts != [] {
      OneInvStep(cfg, s, acts[0], k, g);
      OneInvAlong(cfg, Apply(cfg, s, acts[0]), acts[1..], k, g);
    }
  }

  lemma InitialOneInv(cfg: Config, ids: seq<string>, order: seq<nat>, states: seq<nat>, staging: seq<byte>,
                      reason: string, k: nat)
    requires Started(cfg, ids, order, states) && cfg.totalChunks == 1 && k < |ids|
    ensures OneInv(cfg, Initial(cfg, ids, order, states, staging, reason), k, ids[k])
  {
    InitialJobInv(cfg, ids, order, states, staging, reason);
    InitialCapInv(cfg, ids, order, states, staging, reason);
  }

  /** ONE CHUNK, ONE GOOD PEER.  A single-chunk download whose k-th peer is good (and whose
      disk works) never fails, asks at most k + 1 times, and succeeds when all threads have
      been joined, whatever other peers arrive meanwhile. */
  lemma OneChunkSucceeds(cfg: Config, ids: seq<string>, order: seq<nat>, states: seq<nat>, staging: seq<byte>,
                         reason: string, acts: seq<Action>, k: nat)
    requires Started(cfg, ids, order, states) && cfg.totalChunks == 1 && k < |ids|
    requires Exec(cfg, Initial(cfg, ids, order, states, staging, reason), acts).Some?
    requires RunFavours(cfg, true, Initial(cfg, ids, order, states, staging, reason), acts, ids[k])
    ensures var t := Exec(cfg, Initial(cfg, ids, order, states, staging, reason), acts).value;
            !t.failure && Sum(t.fetches) <= k + 1 <= |ids| && (AllExited(t) ==> t.completed == 1)
  {
    var s := Initial(cfg, ids, order, states, staging, reason);
    InitialOneInv(cfg, ids, order, states, staging, reason, k);
    OneInvAlong(cfg, s, acts, k, ids[k]);
    var t := Exec(cfg, s, acts).value;
    assert |t.fetches| == |t.attempts| == 1 && t.attempts[0] <= k && !t.failure;
    SumOne(t.fetches);
    assert t.fetches[0] <= t.attempts[0] + 1 by {
      PeersGrowAlong(cfg, s, acts);
      InitialTryInv(cfg, ids, order, states, staging, reason, |t.peers|);
      TriesAlong(cfg, s, acts, |t.peers|);
      OneNeverFatal(cfg, t, k, ids[k]);
      FewFetches(cfg, t, |t.peers|);
    }
    if AllExited(t) {
      assert Reachable(cfg, t);
      hide JobInv, CapInv, OneInv, Exec;
      Verdict(cfg, t);
    }
  }

  lemma SumOne(xs: seq<nat>)
    requires |xs| == 1
    ensures Sum(xs) == xs[0]
  {
    assert xs[1..] == [];
  }

  lemma OneNeverFatal(cfg: Config, s: State, k: nat, g: string)
    requires OneInv(cfg, s, k, g)
    ensures forall w :: 0 <= w < |s.workers| && s.workers[w].Requeueing? ==> !s.workers[w].fatal
  {
    forall w | 0 <= w < |s.workers| && s.workers[w].Requeueing? ensures !s.workers[w].fatal {
      assert OneStage(cfg, s, s.workers[w], k);
    }
  }

  lemma FewFetches(cfg: Config, s: State, m: nat)
    requires JobInv(cfg, s) && TryInv(cfg, s, m) && cfg.totalChunks == 1 && !s.failure
    requires forall w :: 0 <= w < |s.workers| && s.workers[w].Requeueing? ==> !s.workers[w].fatal
    ensures s.fetches[0] <= s.attempts[0] + 1
  {
    if 0 in s.queue {
    } else if Held(s, 0) {
      var w :| 0 <= w < |s.workers| && Holds(s.workers[w], 0);
      assert StageTries(s, s.workers[w], AttemptLimit(m));
    } else {
      assert s.writes[0] == 1;
    }
  }

  // ---------------------------------------------------------------- the exact condition

  /** No download of `n` chunks from `p` peers with `w` workers and at most `l` requests to a
      peer can fail as long as one of its peers is good: with this list of peers fixed, or with
      `arrivals` of more during the download. */
  ghost predicate GoodPeerSuffices(arrivals: bool, n: nat, p: nat, w: nat, l: nat) {
    forall cfg: Config, ids, order, states, staging, reason, acts, g ::
      Setting(cfg, ids, n, p, w, l) && Started(cfg, ids, order, states) && g in ids &&
      Exec(cfg, Initial(cfg, ids, order, states, staging, reason), acts).Some? &&
      RunFavours(cfg, arrivals, Initial(cfg, ids, order, states, staging, reason), acts, g) ==>
        !Exec(cfg, Initial(cfg, ids, order, states, staging, reason), acts).value.failure
  }

  /** As many workers as are set, or one for each peer, and as many requests at a time to a
      peer as are set, at least one. */
  predicate Setting(cfg: Config, ids: seq<string>, n: nat, p: nat, w: nat, l: nat) {
    && cfg.totalChunks == n && |ids| == p
    && w == (if cfg.maxParallel == 0 then p else cfg.maxParallel)
    && l == (if cfg.chunkBuffers == 0 then 1 else cfg.chunkBuffers)
  }

  /** One peer; or one worker, and no chunk can use up its attempts as the queue goes round;
      or no peer can be full, and the turns of the others do not add up to a chunk's attempts,
      which two workers cannot give to one chunk without a rest. */
  predicate Suffices(n: nat, p: nat, w: nat, l: nat)
    requires p > 0
  {
    || p == 1
    || (w == 1 && SoloSafe(n, p))
    || (w == 2 && NeverFull(n, w, l) && n * (p - 1) <= AttemptLimit(p))
    || (w > 2 && NeverFull(n, w, l) && n * (p - 1) < AttemptLimit(p))
  }

  /** The condition is enough for a fixed list of peers. */
  lemma SufficesHolds(cfg: Config, ids: seq<string>, order: seq<nat>, states: seq<nat>, staging: seq<byte>,
                      reason: string, acts: seq<Action>, g: nat, n: nat, p: nat, w: nat, l: nat)
    requires Setting(cfg, ids, n, p, w, l) && Started(cfg, ids, order, states) && g < |ids| && Suffices(n, p, w, l)
    requires Exec(cfg, Initial(cfg, ids, order, states, staging, reason), acts).Some?
    requires RunFavours(cfg, false, Initial(cfg, ids, order, states, staging, reason), acts, ids[g])
    ensures !Exec(cfg, Initial(cfg, ids, order, states, staging, reason), acts).value.failure
  {
    hide Exec, RunFavours, Initial, Started, SoloSafe, AttemptLimit;
    if p == 1 {
      OnePeerSuffices(cfg, ids, order, states, staging, reason, acts);
    } else if w == 1 {
      SoloSuffices(cfg, ids, order, states, staging, reason, acts, g);
    } else if w == 2 {
      TwoWorkersSuffice(cfg, ids, order, states, staging, reason, acts, g);
    } else {
      FewChunksSuffice(cfg, ids, order, states, staging, reason, acts, g);
    }
  }

  // ---------------------------------------------------------------- the failing downloads

  function Name(i: nat): (s: string)
    ensures |s| == i + 1
  {
    seq(i + 1, _ => 'p')
  }

  ghost function Names(p: nat): (ids: seq<string>)
    ensures |ids| == p && forall i :: 0 <= i < p ==> ids[i] == Name(i)
  {
    seq(p, i requires 0 <= i < p => Name(i))
  }

  ghost function PlainConfig(n: nat, w: nat, l: nat): Config {
    Config("h", n, 1, n, w, l, (data: seq<byte>) => "")
  }

  ghost function Identity(n: nat): (r: seq<nat>)
    ensures Permutation(r, n) && forall i :: 0 <= i < n ==> r[i] == i
  {
    seq(n, i => i)
  }

  ghost function Zeros(n: nat): (r: seq<nat>)
    ensures |r| == n && forall i :: 0 <= i < n ==> r[i] == 0
  {
    seq(n, _ => 0)
  }

  ghost function IdlePeers(p: nat): (r: seq<Peer>)
    ensures |r| == p && forall i :: 0 <= i < p ==> r[i] == Peer(Name(i), 0)
  {
    seq(p, i requires 0 <= i < p => Peer(Name(i), 0))
  }

  ghost function TopStages(w: nat): (r: seq<Stage>)
    ensures |r| == w && forall i :: 0 <= i < w ==> r[i] == Top
  {
    seq(w, _ => Top)
  }

  /** What such a download shows when its threads start. */
  ghost function Begin(n: nat, p: nat, w: nat): View {
    View(Identity(n), Zeros(n), IdlePeers(p), 0, TopStages(w))
  }

  lemma NamesDiffer(p: nat)
    ensures DistinctIds(IdlePeers(p))
  {
    forall i, k | 0 <= i < k < p ensures IdlePeers(p)[i].id != IdlePeers(p)[k].id {
      assert |Name(i)| != |Name(k)|;
    }
  }

  /** If the view at the start can fail, a good peer does not suffice. */
  lemma StartFails(arrivals: bool, n: nat, p: nat, w: nat, l: nat, gi: nat)
    requires n > 0 && w > 0 && l > 0 && gi < p && Fails(PlainConfig(n, w, l), arrivals, Begin(n, p, w), Name(gi))
    ensures !GoodPeerSuffices(arrivals, n, p, w, l)
  {
    var cfg, ids := PlainConfig(n, w, l), Names(p);
    forall i, k | 0 <= i < k < p ensures ids[i] != ids[k] {
      assert |Name(i)| != |Name(k)|;
    }
    assert Started(cfg, ids, Identity(n), Zeros(n));
    var s := Initial(cfg, ids, Identity(n), Zeros(n), [], "");
    InitialJobInv(cfg, ids, Identity(n), Zeros(n), [], "");
    assert s.attempts == Zeros(n) && s.peers == IdlePeers(p) && s.workers == TopStages(w);
    assert Shows(s, Begin(n, p, w));
    var acts :| FailsBy(cfg, arrivals, s, acts, Name(gi));
    assert Setting(cfg, ids, n, p, w, l) && ids[gi] in ids;
  }

  /** The place that is `k` turns ahead. */
  function Place(p: nat, r: nat, k: nat): (gi: nat)
    requires r < p && k < p
    ensures gi < p && Ahead(p, gi, r) == k
  {
    if r + k < p then r + k else r + k - p
  }

  /** The view when `k` chunks are left. */
  ghost function Later(n: nat, p: nat, w: nat, k: nat): View
    requires k <= n && p > 0
  {
    Begin(n, p, w).(queue := Identity(n)[n - k..], next := Skip(p, 0, n - k))
  }

  lemma LaterFails(n: nat, p: nat, w: nat, l: nat, k: nat, gi: nat)
    requires 0 < k <= n && gi < p && w > 0 && l > 0 && Fails(PlainConfig(n, w, l), false, Later(n, p, w, k), Name(gi))
    ensures !GoodPeerSuffices(false, n, p, w, l)
  {
    hide Fails;
    NamesDiffer(p);
    Reduce(PlainConfig(n, w, l), false, Begin(n, p, w), k, gi, Name(gi));
    StartFails(false, n, p, w, l, gi);
  }

  lemma LaterArena(n: nat, p: nat, w: nat, l: nat, k: nat, ahead: nat) returns (gi: nat)
    requires 0 < k <= n && ahead < p
    ensures gi < p && Arena(PlainConfig(n, w, l), Later(n, p, w, k), gi, Name(gi), p, ahead)
  {
    gi := Place(p, Skip(p, 0, n - k), ahead);
    NamesDiffer(p);
  }

  lemma FullPeerView(arrivals: bool, n: nat, p: nat, w: nat, l: nat, gi: nat)
    requires gi < p && p >= 2 && n > l > 0 && w > l
    ensures Fails(PlainConfig(n, w, l), arrivals, Begin(n, p, w), Name(gi))
  {
    hide Fails;
    NamesDiffer(p);
    AllTop(Begin(n, p, w).workers[1..]);
    SeatAll(PlainConfig(n, w, l), arrivals, Later(n, p, w, l + 1), gi, Name(gi));
    Reduce(PlainConfig(n, w, l), arrivals, Begin(n, p, w), l + 1, gi, Name(gi));
  }

  lemma FullPeerFails(n: nat, p: nat, w: nat, l: nat)
    requires p >= 2 && n > l > 0 && w > l
    ensures !GoodPeerSuffices(false, n, p, w, l)
  {
    FullPeerView(false, n, p, w, l, 0);
    StartFails(false, n, p, w, l, 0);
  }

  lemma {:induction false} AllTop(ws: seq<Stage>)
    requires forall i :: 0 <= i < |ws| ==> ws[i].Top?
    ensures Count(ws, IsTop) == |ws|
  {
    if ws != [] { AllTop(ws[1..]); }
  }

  lemma OneWorkerFails(n: nat, p: nat, l: nat)
    requires n > 0 && p >= 2 && l > 0 && !SoloSafe(n, p)
    ensures !GoodPeerSuffices(false, n, p, 1, l)
  {
    var gi, i :| 0 <= gi < p && 0 <= i < n && SoloTries(p, gi, 0, i, n) >= AttemptLimit(p);
    NamesDiffer(p);
    hide Fails;
    SoloFails(PlainConfig(n, 1, l), false, Begin(n, p, 1), i, gi, Name(gi));
    StartFails(false, n, p, 1, l, gi);
  }

  lemma PairFails(n: nat, p: nat, l: nat)
    requires p >= 2 && l > 0 && n * (p - 1) > AttemptLimit(p)
    ensures !GoodPeerSuffices(false, n, p, 2, l)
  {
    hide Fails, GoodPeerSuffices;
    ThreeNeeded(n, p - 1);
    if p == 2 {
      var gi := LaterArena(n, 2, 2, l, 5, 1);
      TwoWorkersTwoPeersFail(PlainConfig(n, 2, l), false, Later(n, 2, 2, 5), gi, Name(gi));
      LaterFails(n, 2, 2, l, 5, gi);
    } else if p == 3 {
      var gi := LaterArena(n, 3, 2, l, 4, 2);
      TwoWorkersThreePeersFail(PlainConfig(n, 2, l), false, Later(n, 3, 2, 4), gi, Name(gi));
      LaterFails(n, 3, 2, l, 4, gi);
    } else {
      var gi := LaterArena(n, p, 2, l, 3, 3);
      TwoWorkersFail(PlainConfig(n, 2, l), false, Later(n, p, 2, 3), gi, Name(gi), p);
      LaterFails(n, p, 2, l, 3, gi);
    }
  }

  lemma ManyWorkersFail(n: nat, p: nat, w: nat, l: nat)
    requires p >= 2 && w > 2 && l > 0 && n * (p - 1) >= AttemptLimit(p)
    ensures !GoodPeerSuffices(false, n, p, w, l)
  {
    hide Fails, GoodPeerSuffices;
    if p == 2 {
      var gi := LaterArena(n, 2, w, l, 4, 1);
      ThreeWorkersTwoPeersFail(PlainConfig(n, w, l), false, Later(n, 2, w, 4), gi, Name(gi));
      LaterFails(n, 2, w, l, 4, gi);
    } else {
      ThreeNeeded(n, p - 1);
      var gi := LaterArena(n, p, w, l, 3, p - 1);
      ThreeWorkersFail(PlainConfig(n, w, l), false, Later(n, p, w, 3), gi, Name(gi), p);
      LaterFails(n, p, w, l, 3, gi);
    }
  }

  /** THE EXACT CONDITION for a fixed list of peers, for every number of chunks, peers and
      workers and every limit on the requests to a peer: one good peer rules out failure if
      and only if `Suffices`. */
  lemma GoodPeerSufficesExactly(n: nat, p: nat, w: nat, l: nat)
    requires n > 0 && p > 0 && w > 0 && l > 0
    ensures GoodPeerSuffices(false, n, p, w, l) <==> Suffices(n, p, w, l)
  {
    if Suffices(n, p, w, l) {
      forall cfg: Config, ids, order, states, staging, reason, acts, g |
        Setting(cfg, ids, n, p, w, l) && Started(cfg, ids, order, states) && g in ids &&
        Exec(cfg, Initial(cfg, ids, order, states, staging, reason), acts).Some? &&
        RunFavours(cfg, false, Initial(cfg, ids, order, states, staging, reason), acts, g)
        ensures !Exec(cfg, Initial(cfg, ids, order, states, staging, reason), acts).value.failure
      {
        var k :| 0 <= k < |ids| && ids[k] == g;
        SufficesHolds(cfg, ids, order, states, staging, reason, acts, k, n, p, w, l);
      }
    } else if w == 1 {
      OneWorkerFails(n, p, l);
    } else if !NeverFull(n, w, l) {
      FullPeerFails(n, p, w, l);
    } else if w == 2 {
      PairFails(n, p, l);
    } else {
      ManyWorkersFail(n, p, w, l);
    }
  }

  /** Whatever the settings, for a fixed list of peers: a good peer rules out failure exactly
      for one chunk or one peer. */
  lemma GoodPeerSufficesAlways(n: nat, p: nat)
    requires n > 0 && p > 0
    ensures (forall w, l :: w > 0 && l > 0 ==> GoodPeerSuffices(false, n, p, w, l)) <==> n == 1 || p == 1
  {
    if n == 1 || p == 1 {
      forall w, l | w > 0 && l > 0 ensures GoodPeerSuffices(false, n, p, w, l) {
        if n == 1 && w == 1 { OneChunkSolo(p); }
        GoodPeerSufficesExactly(n, p, w, l);
      }
    } else {
      GoodPeerSufficesExactly(n, p, 2, 1);
    }
  }

  // ---------------------------------------------------------------- arriving peers

  lemma {:induction false} FixedIsFavoured(cfg: Config, s: State, acts: seq<Action>, g: string)
    requires RunFavours(cfg, false, s, acts, g)
    ensures RunFavours(cfg, true, s, acts, g)
    decreases |acts|
  {
    if acts != [] && Shaped(cfg, s) && Enabled(cfg, s, acts[0]) {
      FixedIsFavoured(cfg, Apply(cfg, s, acts[0]), acts[1..], g);
    }
  }

  /** A download that can fail with a fixed list can fail when peers may arrive. */
  lemma FixedIsEasier(n: nat, p: nat, w: nat, l: nat)
    requires GoodPeerSuffices(true, n, p, w, l)
    ensures GoodPeerSuffices(false, n, p, w, l)
  {
    hide Exec, RunFavours, Initial, Started;
    forall cfg: Config, ids, order, states, staging, reason, acts, g |
      Setting(cfg, ids, n, p, w, l) && Started(cfg, ids, order, states) && g in ids &&
      Exec(cfg, Initial(cfg, ids, order, states, staging, reason), acts).Some? &&
      RunFavours(cfg, false, Initial(cfg, ids, order, states, staging, reason), acts, g)
      ensures !Exec(cfg, Initial(cfg, ids, order, states, staging, reason), acts).value.failure
    {
      FixedIsFavoured(cfg, Initial(cfg, ids, order, states, staging, reason), acts, g);
    }
  }

  /** Peers arrive one by one while nobody is busy. */
  lemma {:induction false} ArriveUpTo(cfg: Config, v: View, q: nat, p: nat, g: string)
    requires q <= p && v.peers == IdlePeers(q) && Fails(cfg, true, v.(peers := IdlePeers(p)), g)
    ensures Fails(cfg, true, v, g)
    decreases p - q
  {
    hide Fails;
    if q < p {
      NamesDiffer(q + 1);
      assert IdlePeers(q) + [Peer(Name(q), 0)] == IdlePeers(q + 1);
      assert forall i :: 0 <= i < q ==> IdlePeers(q)[i] == IdlePeers(q + 1)[i];
      ArriveUpTo(cfg, v.(peers := IdlePeers(q + 1)), q + 1, p, g);
      ArriveBack(cfg, v, Name(q), g);
    } else {
      assert v.(peers := IdlePeers(p)) == v;
    }
  }

  /** One good peer and two workers: a second peer arrives, and the good one is kept busy. */
  lemma ArrivalFails(n: nat)
    requires n >= 2
    ensures !GoodPeerSuffices(true, n, 1, 2, 1)
  {
    hide Fails;
    FullPeerView(true, n, 2, 2, 1, 0);
    assert Begin(n, 1, 2).(peers := IdlePeers(2)) == Begin(n, 2, 2);
    ArriveUpTo(PlainConfig(n, 2, 1), Begin(n, 1, 2), 1, 2, Name(0));
    StartFails(true, n, 1, 2, 1, 0);
  }

  lemma FiveFail(cfg: Config, v: View)
    requires v.peers == IdlePeers(25) && v.next == 0 && AtTop(v, 1) && DistinctChunks(v) && NewChunks(v)
    requires |v.queue| == 5
    ensures Fails(cfg, true, v, Name(0))
  {
    hide Fails, SoloTries;
    NamesDiffer(25);
    FiveTries();
    SoloFails(cfg, true, v, 4, 0, Name(0));
  }

  /** One good peer and one worker: all but five chunks are fetched, then 24 more peers arrive. */
  lemma AloneFails(n: nat, l: nat)
    requires n >= 5 && l > 0
    ensures !GoodPeerSuffices(true, n, 1, 1, l)
  {
    hide Fails, SoloTries, Skip, GoodPeerSuffices;
    var cfg, v := PlainConfig(n, 1, l), Later(n, 1, 1, 5);
    FiveFail(cfg, v.(peers := IdlePeers(25)));
    NamesDiffer(1);
    ArriveUpTo(cfg, v, 1, 25, Name(0));
    Reduce(cfg, true, Begin(n, 1, 1), 5, 0, Name(0));
    StartFails(true, n, 1, 1, l, 0);
  }

  lemma OneChunkSuffices(p: nat, w: nat, l: nat)
    ensures GoodPeerSuffices(true, 1, p, w, l)
  {
    hide Exec, RunFavours, Initial, Started;
    forall cfg: Config, ids, order, states, staging, reason, acts, g |
      Setting(cfg, ids, 1, p, w, l) && Started(cfg, ids, order, states) && g in ids &&
      Exec(cfg, Initial(cfg, ids, order, states, staging, reason), acts).Some? &&
      RunFavours(cfg, true, Initial(cfg, ids, order, states, staging, reason), acts, g)
      ensures !Exec(cfg, Initial(cfg, ids, order, states, staging, reason), acts).value.failure
    {
      var k :| 0 <= k < |ids| && ids[k] == g;
      OneChunkSucceeds(cfg, ids, order, states, staging, reason, acts, k);
    }
  }

  lemma FewAloneSuffice(n: nat, l: nat)
    requires n <= 4
    ensures GoodPeerSuffices(true, n, 1, 1, l)
  {
    hide Exec, RunFavours, Initial, Started;
    forall cfg: Config, ids, order, states, staging, reason, acts, g |
      Setting(cfg, ids, n, 1, 1, l) && Started(cfg, ids, order, states) && g in ids &&
      Exec(cfg, Initial(cfg, ids, order, states, staging, reason), acts).Some? &&
      RunFavours(cfg, true, Initial(cfg, ids, order, states, staging, reason), acts, g)
      ensures !Exec(cfg, Initial(cfg, ids, order, states, staging, reason), acts).value.failure
    {
      ShortSuffices(cfg, ids, order, states, staging, reason, acts, 0);
    }
  }

  /** Whatever the settings, when peers may arrive: a good peer rules out failure exactly for
      one chunk. */
  lemma GoodPeerSufficesAmidArrivals(n: nat, p: nat)
    requires n > 0 && p > 0
    ensures (forall w, l :: w > 0 && l > 0 ==> GoodPeerSuffices(true, n, p, w, l)) <==> n == 1
  {
    hide GoodPeerSuffices;
    if n == 1 {
      forall w, l | w > 0 && l > 0 ensures GoodPeerSuffices(true, n, p, w, l) { OneChunkSuffices(p, w, l); }
    } else {
      TwoWorkersAmidArrivals(n, p);
    }
  }

  lemma TwoWorkersAmidArrivals(n: nat, p: nat)
    requires n >= 2 && p > 0
    ensures !GoodPeerSuffices(true, n, p, 2, 1)
  {
    hide GoodPeerSuffices;
    if p == 1 {
      ArrivalFails(n);
    } else {
      FullPeerFails(n, p, 2, 1);
      if GoodPeerSuffices(true, n, p, 2, 1) { FixedIsEasier(n, p, 2, 1); }
    }
  }

  /** THE DEFAULT: a worker for each peer given, one request at a time to a peer, and a refresh
      that brings new peers.  A good peer rules out failure exactly for one chunk, or if it is
      the only one given and there are at most four. */
  lemma GoodPeerSufficesByDefault(n: nat, p: nat)
    requires n > 0 && p > 0
    ensures GoodPeerSuffices(true, n, p, p, 1) <==> n == 1 || (p == 1 && n <= 4)
  {
    hide GoodPeerSuffices;
    if n == 1 {
      OneChunkSuffices(p, p, 1);
    } else if p == 1 {
      if n <= 4 { FewAloneSuffice(n, 1); } else { AloneFails(n, 1); }
    } else {
      FullPeerFails(n, p, p, 1);
      if GoodPeerSuffices(true, n, p, p, 1) { FixedIsEasier(n, p, p, 1); }
    }
  }

  /** Without the refresh it is one chunk or one peer. */
  lemma GoodPeerSufficesUnrefreshed(n: nat, p: nat)
    requires n > 0 && p > 0
    ensures GoodPeerSuffices(false, n, p, p, 1) <==> n == 1 || p == 1
  {
    GoodPeerSufficesExactly(n, p, p, 1);
  }

  lemma OneChunkSolo(p: nat)
    requires p > 0
    ensures SoloSafe(1, p)
  {
    forall g, i | 0 <= g < p && 0 <= i < 1 ensures SoloTries(p, g, 0, i, 1) < AttemptLimit(p) {
      OneChunkTries(p, g, 0);
    }
  }

  lemma {:induction false} OneChunkTries(p: nat, g: nat, r: nat)
    requires g < p && r < p
    ensures SoloTries(p, g, r, 0, 1) == Ahead(p, g, r)
    decreases Ahead(p, g, r)
  {
    AheadStep(p, g, r);
    if r != g { OneChunkTries(p, g, Next(p, r)); }
  }
}
