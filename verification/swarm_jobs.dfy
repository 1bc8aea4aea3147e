/** Job conservation: where every chunk is, in every reachable state. */
module SwarmJobs {
  import opened Wrappers
  import opened FiniteSets
  import opened Sums
  import opened SwarmState

  /** The state that a sequence of actions leads to, if each is enabled in its turn. */
  ghost function Exec(cfg: Config, s: State, acts: seq<Action>): Option<State>
    decreases |acts|
  {
    if acts == [] then Some(s)
    else if Shaped(cfg, s) && Enabled(cfg, s, acts[0]) then Exec(cfg, Apply(cfg, s, acts[0]), acts[1..])
    else None
  }

  /** The chunk is on disk but not yet counted as completed. */
  predicate Wrote(st: Stage) { st.Recording? || st.Completing? }

  predicate Holds(st: Stage, job: nat) { Holding(st) && JobOf(st) == job }

  ghost predicate Held(s: State, job: nat) {
    exists w :: 0 <= w < |s.workers| && Holds(s.workers[w], job)
  }

  /** Written and counted. */
  ghost predicate Done(s: State, job: nat)
    requires job < |s.writes|
  {
    s.writes[job] == 1 && !Held(s, job)
  }

  /** Dropped by the failure: nowhere any more, and not on disk. */
  ghost predicate Lost(s: State, job: nat) {
    job < |s.writes| && s.writes[job] == 0 && !Held(s, job) && job !in s.queue
  }

  ghost predicate Apart(s: State) {
    && (forall i, k :: 0 <= i < k < |s.queue| ==> s.queue[i] != s.queue[k])
    && (forall v, w :: 0 <= v < w < |s.workers| && Holding(s.workers[v]) && Holding(s.workers[w]) ==>
          JobOf(s.workers[v]) != JobOf(s.workers[w]))
    && (forall w :: 0 <= w < |s.workers| && Holding(s.workers[w]) ==> JobOf(s.workers[w]) !in s.queue)
  }

  ghost predicate WritesMatch(cfg: Config, s: State)
    requires Shaped(cfg, s)
  {
    && (forall j :: 0 <= j < cfg.totalChunks ==> s.writes[j] <= 1)
    && (forall i :: 0 <= i < |s.queue| ==> s.writes[s.queue[i]] == 0)
    && (forall w :: 0 <= w < |s.workers| && Holding(s.workers[w]) ==>
          s.writes[JobOf(s.workers[w])] == if Wrote(s.workers[w]) then 1 else 0)
  }

  ghost predicate Counted(s: State) {
    && s.active == Count(s.workers, Holding)
    && s.completed + Count(s.workers, Wrote) == Sum(s.writes)
  }

  ghost predicate Covered(cfg: Config, s: State) {
    if s.failure then s.queue == [] && s.shutting && exists j: nat :: Lost(s, j)
    else forall j :: 0 <= j < cfg.totalChunks ==> j in s.queue || Held(s, j) || (j < |s.writes| && s.writes[j] == 1)
  }

  ghost predicate FlagsAgree(cfg: Config, s: State) {
    && (s.completed == cfg.totalChunks ==> s.shutting)
    && (s.shutting && !s.failure ==> s.completed == cfg.totalChunks)
  }

  ghost predicate JobInv(cfg: Config, s: State) {
    && cfg.totalChunks > 0
    && Shaped(cfg, s) && Apart(s) && WritesMatch(cfg, s) && Counted(s) && Covered(cfg, s) && FlagsAgree(cfg, s)
  }

  // ---------------------------------------------------------------- consequences

  /** Nobody holds a job once every chunk is completed: a held chunk is either unwritten,
      so the sum of writes falls short, or written and still uncounted. */
  lemma CompletedMeansIdle(cfg: Config, s: State)
    requires JobInv(cfg, s) && s.completed == cfg.totalChunks
    ensures !s.failure && s.queue == []
    ensures forall w :: 0 <= w < |s.workers| ==> !Holding(s.workers[w])
    ensures forall j :: 0 <= j < cfg.totalChunks ==> s.writes[j] == 1
  {
    assert s.queue == [] || s.writes[s.queue[0]] == 0;
    SumBound(s.writes, 1);
    CountNone(s.workers, Wrote);
    assert forall j :: 0 <= j < cfg.totalChunks ==> s.writes[j] == 1;
  }

  /** Strictly fewer than all chunks are completed while a job is held, queued or lost. */
  lemma IncompleteWhileUnwritten(cfg: Config, s: State, j: nat)
    requires JobInv(cfg, s) && j < cfg.totalChunks
    requires s.writes[j] == 0 || Held(s, j)
    ensures s.completed < cfg.totalChunks
  {
    SumBound(s.writes, 1);
    if s.completed == cfg.totalChunks {
      CompletedMeansIdle(cfg, s);
    }
    assert s.completed <= Sum(s.writes) <= |s.writes| * 1;
  }

  lemma FailureMeansIncomplete(cfg: Config, s: State)
    requires JobInv(cfg, s) && s.failure
    ensures s.completed < cfg.totalChunks
  {
    var j: nat :| Lost(s, j);
    IncompleteWhileUnwritten(cfg, s, j);
  }

  // ---------------------------------------------------------------- preservation

  /** A worker moves on without touching queue, job or write record. */
  ghost predicate QuietStep(s: State, t: State, w: nat, st: Stage) {
    && w < |s.workers| && t.workers == s.workers[w := st]
    && t.queue == s.queue && t.active == s.active && t.completed == s.completed
    && t.shutting == s.shutting && t.failure == s.failure && t.writes == s.writes
    && Holding(st) == Holding(s.workers[w])
    && (Holding(st) ==> JobOf(st) == JobOf(s.workers[w]))
    && Wrote(st) == Wrote(s.workers[w])
  }

  lemma HeldUpdate(s: State, t: State, w: nat, st: Stage)
    requires w < |s.workers| && t.workers == s.workers[w := st]
    ensures forall j :: Held(t, j) ==> Held(s, j) || Holds(st, j)
    ensures forall j :: Held(s, j) && !Holds(s.workers[w], j) ==> Held(t, j)
    ensures forall j :: Holds(st, j) ==> Held(t, j)
  {
    forall j | Held(s, j) && !Holds(s.workers[w], j) ensures Held(t, j) {
      var v :| 0 <= v < |s.workers| && Holds(s.workers[v], j);
      assert t.workers[v] == s.workers[v];
    }
    forall j | Held(t, j) ensures Held(s, j) || Holds(st, j) {
      var v :| 0 <= v < |t.workers| && Holds(t.workers[v], j);
      assert v != w ==> t.workers[v] == s.workers[v];
    }
    forall j | Holds(st, j) ensures Held(t, j) {
      assert t.workers[w] == st;
    }
  }

  lemma QuietStepKeeps(cfg: Config, s: State, t: State, w: nat, st: Stage)
    requires JobInv(cfg, s) && QuietStep(s, t, w, st) && Shaped(cfg, t)
    ensures JobInv(cfg, t)
  {
    CountUpdate(s.workers, w, st, Holding);
    CountUpdate(s.workers, w, st, Wrote);
    HeldUpdate(s, t, w, st);
    assert forall v :: 0 <= v < |t.workers| && v != w ==> t.workers[v] == s.workers[v];
    if s.failure {
      var j: nat :| Lost(s, j);
      assert Lost(t, j);
    }
  }

  lemma TakeKeepsApart(s: State, w: nat)
    requires Apart(s) && w < |s.workers| && s.workers[w].Taking? && s.queue != []
    ensures Apart(s.(queue := s.queue[1..], workers := s.workers[w := Acquiring(s.queue[0])]))
  {
    var ws := s.workers[w := Acquiring(s.queue[0])];
    assert forall i :: 0 <= i < |s.queue[1..]| ==> s.queue[1..][i] == s.queue[i + 1];
    assert forall v :: 0 <= v < |ws| && v != w ==> ws[v] == s.workers[v];
  }

  lemma TakeKeepsCovered(cfg: Config, s: State, w: nat)
    requires Shaped(cfg, s) && Covered(cfg, s) && w < |s.workers| && s.workers[w].Taking? && !s.failure
    requires !s.shutting && s.queue != []
    ensures Covered(cfg, AfterTake(s, w))
  {
    var t := AfterTake(s, w);
    HeldUpdate(s, t, w, Acquiring(s.queue[0]));
    assert Holds(Acquiring(s.queue[0]), s.queue[0]);
    assert s.queue == [s.queue[0]] + t.queue;
  }

  lemma TakeKeeps(cfg: Config, s: State, w: nat)
    requires JobInv(cfg, s) && Enabled(cfg, s, TakeJob(w)) && Shaped(cfg, AfterTake(s, w))
    ensures JobInv(cfg, AfterTake(s, w))
  {
    var t := AfterTake(s, w);
    if s.shutting || s.failure {
      QuietStepKeeps(cfg, s, t, w, Exited);
    } else {
      var st := Acquiring(s.queue[0]);
      CountUpdate(s.workers, w, st, Holding);
      CountUpdate(s.workers, w, st, Wrote);
      TakeKeepsApart(s, w);
      TakeKeepsCovered(cfg, s, w);
      assert WritesMatch(cfg, t) by {
        assert forall i :: 0 <= i < |t.queue| ==> t.queue[i] == s.queue[i + 1];
        assert forall v :: 0 <= v < |t.workers| && v != w ==> t.workers[v] == s.workers[v];
      }
    }
  }

  lemma WrittenMatches(cfg: Config, s: State, w: nat)
    requires Shaped(cfg, s) && Apart(s) && WritesMatch(cfg, s) && Enabled(cfg, s, Write(w, Written))
    ensures var t := AfterWrite(cfg, s, w, Written); Shaped(cfg, t) && Apart(t) && WritesMatch(cfg, t)
  {
    var t := AfterWrite(cfg, s, w, Written);
    assert StageShaped(cfg, s, s.workers[w]);
    assert forall v :: 0 <= v < |t.workers| && v != w ==>
             t.workers[v] == s.workers[v] && StageShaped(cfg, s, s.workers[v]);
    hide Splice;
  }

  lemma WrittenCovers(cfg: Config, s: State, w: nat)
    requires Shaped(cfg, s) && Covered(cfg, s) && Enabled(cfg, s, Write(w, Written))
    ensures Covered(cfg, AfterWrite(cfg, s, w, Written))
  {
    var t := AfterWrite(cfg, s, w, Written);
    HeldUpdate(s, t, w, t.workers[w]);
    if s.failure {
      var j: nat :| Lost(s, j);
      assert Holds(s.workers[w], s.workers[w].job);
      assert Lost(t, j);
    }
    hide Splice, Shaped;
  }

  lemma WrittenKeeps(cfg: Config, s: State, w: nat)
    requires JobInv(cfg, s) && Enabled(cfg, s, Write(w, Written))
    ensures JobInv(cfg, AfterWrite(cfg, s, w, Written))
  {
    WrittenMatches(cfg, s, w);
    WrittenCovers(cfg, s, w);
    hide Apart, Covered, StageShaped, Splice;
    var job := s.workers[w].job;
    var st := AfterWrite(cfg, s, w, Written).workers[w];
    SumUpdate(s.writes, job, s.writes[job] + 1);
    CountUpdate(s.workers, w, st, Holding);
    CountUpdate(s.workers, w, st, Wrote);
  }

  lemma CompleteKeeps(cfg: Config, s: State, w: nat)
    requires JobInv(cfg, s) && Enabled(cfg, s, Complete(w))
    ensures JobInv(cfg, AfterComplete(cfg, s, w))
  {
    var t := AfterComplete(cfg, s, w);
    var job := s.workers[w].job;
    assert Holds(s.workers[w], job);
    IncompleteWhileUnwritten(cfg, s, job);
    CountUpdate(s.workers, w, Top, Holding);
    CountUpdate(s.workers, w, Top, Wrote);
    HeldUpdate(s, t, w, Top);
    assert forall v :: 0 <= v < |t.workers| && v != w ==> t.workers[v] == s.workers[v];
    if s.failure {
      var j: nat :| Lost(s, j);
      assert Lost(t, j);
      SumBound(t.writes, 1);
    }
  }

  lemma RequeueKeepsApart(cfg: Config, s: State, w: nat)
    requires Shaped(cfg, s) && Apart(s) && WritesMatch(cfg, s) && Enabled(cfg, s, Requeue(w))
    ensures var t := AfterRequeue(s, w); Shaped(cfg, t) && Apart(t) && WritesMatch(cfg, t) && !Held(t, s.workers[w].job)
  {
    var t := AfterRequeue(s, w);
    var job := s.workers[w].job;
    assert t.workers == s.workers[w := t.workers[w]];
    assert forall v :: 0 <= v < |t.workers| && v != w ==>
             t.workers[v] == s.workers[v] && StageShaped(cfg, s, s.workers[v]);
    assert t.queue == [] || t.queue == s.queue + [job];
    hide StageShaped;
  }

  lemma RequeueCovers(cfg: Config, s: State, w: nat)
    requires Shaped(cfg, s) && WritesMatch(cfg, s) && Covered(cfg, s) && FlagsAgree(cfg, s)
    requires Enabled(cfg, s, Requeue(w))
    requires s.completed < cfg.totalChunks && !Held(AfterRequeue(s, w), s.workers[w].job)
    ensures Covered(cfg, AfterRequeue(s, w))
  {
    var t := AfterRequeue(s, w);
    var job := s.workers[w].job;
    HeldUpdate(s, t, w, t.workers[w]);
    assert StageShaped(cfg, s, s.workers[w]) && s.writes[job] == 0;
    hide Shaped, WritesMatch;
    if t.failure {
      assert Lost(t, job);
    } else {
      assert t.queue == s.queue + [job];
      assert forall j :: j in t.queue <==> j in s.queue || j == job;
      assert forall j :: Held(s, j) ==> Held(t, j) || j == job;
    }
  }

  lemma RequeueKeeps(cfg: Config, s: State, w: nat)
    requires JobInv(cfg, s) && Enabled(cfg, s, Requeue(w))
    ensures JobInv(cfg, AfterRequeue(s, w))
  {
    var t := AfterRequeue(s, w);
    assert Holds(s.workers[w], s.workers[w].job);
    IncompleteWhileUnwritten(cfg, s, s.workers[w].job);
    RequeueKeepsApart(cfg, s, w);
    RequeueCovers(cfg, s, w);
    RequeueCounts(cfg, s, w);
    hide Apart, WritesMatch, Covered, Counted, Shaped, Held, Holds;
  }

  lemma RequeueCounts(cfg: Config, s: State, w: nat)
    requires Counted(s) && Enabled(cfg, s, Requeue(w))
    ensures Counted(AfterRequeue(s, w))
  {
    var st := AfterRequeue(s, w).workers[w];
    CountUpdate(s.workers, w, st, Holding);
    CountUpdate(s.workers, w, st, Wrote);
  }

  /** A worker's step changes that worker only; an arrival changes none. */
  lemma OneMoves(cfg: Config, s: State, a: Action)
    requires Shaped(cfg, s) && Enabled(cfg, s, a)
    ensures a.AddPeer? ==> Apply(cfg, s, a).workers == s.workers
    ensures !a.AddPeer? ==> a.w < |s.workers| == |Apply(cfg, s, a).workers|
    ensures !a.AddPeer? ==> Apply(cfg, s, a).workers == s.workers[a.w := Apply(cfg, s, a).workers[a.w]]
  {
    hide ScanFrom, HasCapacity, Accepted, AttemptLimit, StatOf, Splice, KnownPeer;
  }

  /** Peers are told apart by their place in the list, which only grows. */
  lemma SamePeers(cfg: Config, s: State, a: Action)
    requires Shaped(cfg, s) && Enabled(cfg, s, a) && !a.AddPeer?
    ensures var t := Apply(cfg, s, a);
            |t.peers| == |s.peers| && forall p :: 0 <= p < |s.peers| ==> t.peers[p].id == s.peers[p].id
  {
    hide ScanFrom, Accepted, AttemptLimit, Splice, StatOf, HasCapacity;
  }

  lemma SizesStep(cfg: Config, s: State, a: Action)
    requires Shaped(cfg, s) && Enabled(cfg, s, a)
    ensures var t := Apply(cfg, s, a);
            && |t.attempts| == |t.chunkStates| == |t.fetches| == |t.writes| == cfg.totalChunks && |t.peers| >= |s.peers|
            && forall i :: 0 <= i < |t.queue| ==> t.queue[i] < cfg.totalChunks
  {
    hide ScanFrom, HasCapacity, Accepted, AttemptLimit, Splice, StatOf, KnownPeer;
    if !a.AddPeer? { assert StageShaped(cfg, s, s.workers[a.w]); }
  }

  /** The steps up to the answer of a peer, as opposed to those that deal with it. */
  predicate Early(a: Action) {
    a.CheckFailure? || a.TakeJob? || a.AcquirePeer? || a.Fetch? || a.ReleasePeer?
  }

  lemma EarlyMoverShaped(cfg: Config, s: State, a: Action)
    requires Shaped(cfg, s) && Enabled(cfg, s, a) && Early(a) && a.w < |Apply(cfg, s, a).workers|
    ensures StageShaped(cfg, s, Apply(cfg, s, a).workers[a.w])
  {
    hide HasCapacity, AfterJudge, AfterWrite, AfterRecord, AfterComplete, AfterRequeue, StatOf;
    assert StageShaped(cfg, s, s.workers[a.w]);
  }

  lemma LateMoverShaped(cfg: Config, s: State, a: Action)
    requires Shaped(cfg, s) && Enabled(cfg, s, a) && !Early(a) && !a.AddPeer? && a.w < |Apply(cfg, s, a).workers|
    ensures StageShaped(cfg, s, Apply(cfg, s, a).workers[a.w])
  {
    hide Accepted, AttemptLimit, Splice, StatOf, AfterTake, AfterAcquire, AfterRelease, HasCapacity;
    assert StageShaped(cfg, s, s.workers[a.w]);
  }

  lemma StepKeepsShape(cfg: Config, s: State, a: Action)
    requires Shaped(cfg, s) && Enabled(cfg, s, a)
    ensures Shaped(cfg, Apply(cfg, s, a))
  {
    hide Apply, Enabled;
    var t := Apply(cfg, s, a);
    OneMoves(cfg, s, a);
    SizesStep(cfg, s, a);
    if Early(a) { EarlyMoverShaped(cfg, s, a); } else if !a.AddPeer? { LateMoverShaped(cfg, s, a); }
    forall w | 0 <= w < |t.workers| ensures StageShaped(cfg, t, t.workers[w]) {
      assert StageShaped(cfg, s, t.workers[w]);
    }
  }

  /** The steps that only move a worker along. */
  predicate Quiet(a: Action) {
    a.CheckFailure? || a.AcquirePeer? || a.Fetch? || a.ReleasePeer? || a.Judge? || a.Record? ||
    (a.Write? && a.result.WriteFailed?)
  }

  lemma QuietActions(cfg: Config, s: State, a: Action)
    requires Shaped(cfg, s) && Enabled(cfg, s, a) && Quiet(a)
    ensures QuietStep(s, Apply(cfg, s, a), a.w, Apply(cfg, s, a).workers[a.w])
  {
    hide Apply, Enabled, QuietStep;
    if Early(a) { EarlyQuiet(cfg, s, a); } else { LateQuiet(cfg, s, a); }
  }

  lemma EarlyQuiet(cfg: Config, s: State, a: Action)
    requires Shaped(cfg, s) && Enabled(cfg, s, a) && Quiet(a) && Early(a)
    ensures QuietStep(s, Apply(cfg, s, a), a.w, Apply(cfg, s, a).workers[a.w])
  {
    hide ScanFrom, HasCapacity, AfterJudge, AfterWrite, AfterRecord, AfterComplete, AfterRequeue, StatOf;
  }

  lemma LateQuiet(cfg: Config, s: State, a: Action)
    requires Shaped(cfg, s) && Enabled(cfg, s, a) && Quiet(a) && !Early(a)
    ensures QuietStep(s, Apply(cfg, s, a), a.w, Apply(cfg, s, a).workers[a.w])
  {
    hide Accepted, AttemptLimit, Splice, StatOf, AfterTake, AfterAcquire, AfterRelease, AfterComplete, AfterRequeue;
  }

  lemma AddPeerKeeps(cfg: Config, s: State, a: Action)
    requires JobInv(cfg, s) && Enabled(cfg, s, a) && a.AddPeer?
    ensures JobInv(cfg, Apply(cfg, s, a))
  {
    var t := Apply(cfg, s, a);
    assert t.workers == s.workers && t.queue == s.queue && t.writes == s.writes;
    assert forall j :: Held(s, j) == Held(t, j);
    if s.failure { var j: nat :| Lost(s, j); assert Lost(t, j); }
  }

  /** Every step of the swarm keeps the invariant, whatever the callbacks answer. */
  lemma JobInvStep(cfg: Config, s: State, a: Action)
    requires JobInv(cfg, s) && Enabled(cfg, s, a)
    ensures JobInv(cfg, Apply(cfg, s, a))
  {
    StepKeepsShape(cfg, s, a);
    if a.AddPeer? {
      AddPeerKeeps(cfg, s, a);
    } else if Quiet(a) {
      QuietActions(cfg, s, a);
      QuietStepKeeps(cfg, s, Apply(cfg, s, a), a.w, Apply(cfg, s, a).workers[a.w]);
    } else if a.TakeJob? {
      TakeKeeps(cfg, s, a.w);
    } else if a.Write? {
      WrittenKeeps(cfg, s, a.w);
    } else if a.Complete? {
      CompleteKeeps(cfg, s, a.w);
    } else {
      RequeueKeeps(cfg, s, a.w);
    }
  }

  // ---------------------------------------------------------------- whole runs

  lemma InitialJobInv(cfg: Config, ids: seq<string>, order: seq<nat>, states: seq<nat>, staging: seq<byte>,
                      reason: string)
    requires Started(cfg, ids, order, states)
    ensures JobInv(cfg, Initial(cfg, ids, order, states, staging, reason))
  {
    var s := Initial(cfg, ids, order, states, staging, reason);
    CountNone(s.workers, Holding);
    CountNone(s.workers, Wrote);
    SumConstant(s.writes, 0);
    forall j | 0 <= j < cfg.totalChunks ensures j in s.queue {
      PermutationCovers(order, cfg.totalChunks, j);
    }
  }

  /** A sequence of n distinct numbers below n contains every one of them. */
  lemma PermutationCovers(order: seq<nat>, n: nat, j: nat)
    requires Permutation(order, n) && j < n
    ensures j in order
  {
    DistinctAtMost(order, UpTo(n));
  }

  lemma {:induction false} JobInvAlong(cfg: Config, s: State, acts: seq<Action>)
    requires JobInv(cfg, s) && Exec(cfg, s, acts).Some?
    ensures JobInv(cfg, Exec(cfg, s, acts).value)
    decreases |acts|
  {
    if acts != [] {
      JobInvStep(cfg, s, acts[0]);
      JobInvAlong(cfg, Apply(cfg, s, acts[0]), acts[1..]);
    }
  }

  /** `s` can be reached from the start of some download with these settings. */
  ghost predicate Reachable(cfg: Config, s: State) {
    exists ids, order, states, staging, reason, acts ::
      Started(cfg, ids, order, states) &&
      Exec(cfg, Initial(cfg, ids, order, states, staging, reason), acts) == Some(s)
  }

  lemma ReachableJobInv(cfg: Config, s: State)
    requires Reachable(cfg, s)
    ensures JobInv(cfg, s)
  {
    var ids, order, states, staging, reason, acts :|
      Started(cfg, ids, order, states) &&
      Exec(cfg, Initial(cfg, ids, order, states, staging, reason), acts) == Some(s);
    InitialJobInv(cfg, ids, order, states, staging, reason);
    JobInvAlong(cfg, Initial(cfg, ids, order, states, staging, reason), acts);
  }

  ghost function QueuedSet(s: State): set<nat> { set i | 0 <= i < |s.queue| :: s.queue[i] }

  ghost function HeldSet(cfg: Config, s: State): set<nat> { set j | j in UpTo(cfg.totalChunks) && Held(s, j) }

  ghost function DoneSet(cfg: Config, s: State): set<nat>
    requires |s.writes| == cfg.totalChunks
  {
    set j | j in UpTo(cfg.totalChunks) && Done(s, j)
  }

  /** The jobs of the workers at stages of a kind. */
  ghost function Marked(ws: seq<Stage>, f: Stage -> bool): set<nat>
    requires forall st :: f(st) ==> Holding(st)
  {
    if ws == [] then {}
    else if f(ws[0]) then Marked(ws[1..], f) + {JobOf(ws[0])}
    else Marked(ws[1..], f)
  }

  lemma {:induction false} MarkedMember(ws: seq<Stage>, f: Stage -> bool, j: nat)
    requires forall st :: f(st) ==> Holding(st)
    ensures j in Marked(ws, f) <==> exists w :: 0 <= w < |ws| && f(ws[w]) && JobOf(ws[w]) == j
  {
    if ws != [] {
      var tail := ws[1..];
      MarkedMember(tail, f, j);
      if w :| 0 <= w < |tail| && f(tail[w]) && JobOf(tail[w]) == j {
        assert ws[w + 1] == tail[w];
      }
      if w :| 0 < w < |ws| && f(ws[w]) && JobOf(ws[w]) == j {
        assert tail[w - 1] == ws[w];
      }
    }
  }

  /** As many workers of a kind as jobs they hold, because no two hold the same one. */
  lemma {:induction false} MarkedCard(ws: seq<Stage>, f: Stage -> bool)
    requires forall v, w :: 0 <= v < w < |ws| && Holding(ws[v]) && Holding(ws[w]) ==> JobOf(ws[v]) != JobOf(ws[w])
    requires forall st :: f(st) ==> Holding(st)
    ensures |Marked(ws, f)| == Count(ws, f)
  {
    if ws != [] {
      var tail := ws[1..];
      assert forall w :: 0 <= w < |tail| ==> tail[w] == ws[w + 1];
      MarkedCard(tail, f);
      if f(ws[0]) {
        MarkedMember(tail, f, JobOf(ws[0]));
      }
    }
  }

  lemma HeldCard(cfg: Config, s: State)
    requires JobInv(cfg, s)
    ensures |HeldSet(cfg, s)| == s.active
  {
    MarkedCard(s.workers, Holding);
    var jobs := Marked(s.workers, Holding);
    forall j: nat
      ensures j in jobs <==> exists w :: 0 <= w < |s.workers| && Holding(s.workers[w]) && JobOf(s.workers[w]) == j
    {
      MarkedMember(s.workers, Holding, j);
    }
    forall j | j in jobs ensures j in HeldSet(cfg, s) {
      var w :| 0 <= w < |s.workers| && Holding(s.workers[w]) && JobOf(s.workers[w]) == j;
      assert Holds(s.workers[w], j) && StageShaped(cfg, s, s.workers[w]);
    }
    forall j | j in HeldSet(cfg, s) ensures j in jobs {
      var w :| 0 <= w < |s.workers| && Holds(s.workers[w], j);
      assert JobOf(s.workers[w]) == j;
    }
    assert HeldSet(cfg, s) == jobs;
  }

  lemma {:induction false} OnesCard(xs: seq<nat>)
    requires forall i :: 0 <= i < |xs| ==> xs[i] <= 1
    ensures |set j: nat | j < |xs| && xs[j] == 1| == Sum(xs)
  {
    if xs != [] {
      var front, last := xs[..|xs| - 1], xs[|xs| - 1];
      OnesCard(front);
      assert xs == front + [last];
      SumAppend(front, last);
      var ones := set j: nat | j < |xs| && xs[j] == 1;
      var rest := set j: nat | j < |front| && front[j] == 1;
      if last == 1 {
        assert ones == rest + {|front|};
      } else {
        assert ones == rest;
      }
    }
  }

  /** A written chunk is completed, or its writer has yet to count it. */
  lemma WrittenSplit(cfg: Config, s: State, j: nat)
    requires JobInv(cfg, s) && j < cfg.totalChunks
    ensures s.writes[j] == 1 <==>
      Done(s, j) || exists w :: 0 <= w < |s.workers| && Wrote(s.workers[w]) && JobOf(s.workers[w]) == j
    ensures Done(s, j) ==> forall w :: 0 <= w < |s.workers| && Wrote(s.workers[w]) ==> JobOf(s.workers[w]) != j
  {
    if s.writes[j] == 1 && Held(s, j) {
      var w :| 0 <= w < |s.workers| && Holds(s.workers[w], j);
      assert Wrote(s.workers[w]) && JobOf(s.workers[w]) == j;
    }
    if Done(s, j) {
      forall w | 0 <= w < |s.workers| && Wrote(s.workers[w]) ensures JobOf(s.workers[w]) != j {
        assert !Holds(s.workers[w], j);
      }
    }
  }

  lemma DoneCard(cfg: Config, s: State)
    requires JobInv(cfg, s)
    ensures |DoneSet(cfg, s)| == s.completed
  {
    var ones := set j: nat | j < |s.writes| && s.writes[j] == 1;
    var uncounted := Marked(s.workers, Wrote);
    var done := DoneSet(cfg, s);
    assert |ones| == |uncounted| + s.completed by {
      OnesCard(s.writes);
      MarkedCard(s.workers, Wrote);
    }
    assert uncounted !! done && ones == uncounted + done by {
      forall j: nat | j < cfg.totalChunks ensures j in ones <==> j in uncounted || j in done
        ensures !(j in uncounted && j in done)
      {
        WrittenSplit(cfg, s, j);
        MarkedMember(s.workers, Wrote, j);
      }
      forall j | j in uncounted ensures j < cfg.totalChunks {
        MarkedMember(s.workers, Wrote, j);
        var w :| 0 <= w < |s.workers| && Wrote(s.workers[w]) && JobOf(s.workers[w]) == j;
        assert StageShaped(cfg, s, s.workers[w]);
      }
    }
  }

  /** In terms of where a single chunk is. */
  lemma Whereabouts(cfg: Config, s: State, j: nat)
    requires JobInv(cfg, s) && j < cfg.totalChunks
    ensures !(j in s.queue && Held(s, j)) && !(j in s.queue && Done(s, j)) && !(Held(s, j) && Done(s, j))
    ensures !s.failure ==> j in s.queue || Held(s, j) || Done(s, j)
  {
  }

  lemma SetsApart(cfg: Config, s: State)
    requires JobInv(cfg, s)
    ensures QueuedSet(s) !! HeldSet(cfg, s) && QueuedSet(s) !! DoneSet(cfg, s) && HeldSet(cfg, s) !! DoneSet(cfg, s)
    ensures QueuedSet(s) <= UpTo(cfg.totalChunks)
    ensures !s.failure ==> QueuedSet(s) + HeldSet(cfg, s) + DoneSet(cfg, s) == UpTo(cfg.totalChunks)
  {
    forall j: nat | j < cfg.totalChunks
      ensures !(j in QueuedSet(s) && j in HeldSet(cfg, s))
      ensures !(j in QueuedSet(s) && j in DoneSet(cfg, s))
      ensures !(j in HeldSet(cfg, s) && j in DoneSet(cfg, s))
      ensures !s.failure ==> j in QueuedSet(s) + HeldSet(cfg, s) + DoneSet(cfg, s)
    {
      Whereabouts(cfg, s, j);
    }
  }

  /** JOB CONSERVATION.  In every reachable state queued, held and completed chunks are
      apart from one another, the counters count them, and as long as nothing has failed
      they are all the chunks there are; a failure has dropped at least one. */
  lemma JobConservation(cfg: Config, s: State)
    requires Reachable(cfg, s)
    ensures |s.writes| == cfg.totalChunks
    ensures QueuedSet(s) !! HeldSet(cfg, s) && QueuedSet(s) !! DoneSet(cfg, s) && HeldSet(cfg, s) !! DoneSet(cfg, s)
    ensures |QueuedSet(s)| == |s.queue| && |HeldSet(cfg, s)| == s.active && |DoneSet(cfg, s)| == s.completed
    ensures !s.failure ==> QueuedSet(s) + HeldSet(cfg, s) + DoneSet(cfg, s) == UpTo(cfg.totalChunks)
    ensures s.failure ==> s.queue == [] && HeldSet(cfg, s) + DoneSet(cfg, s) < UpTo(cfg.totalChunks)
  {
    hide Reachable, QueuedSet, HeldSet, DoneSet, Apart, Counted, WritesMatch;
    ReachableJobInv(cfg, s);
    SetsApart(cfg, s);
    QueuedCard(cfg, s);
    HeldCard(cfg, s);
    DoneCard(cfg, s);
    if s.failure { LostIsMissing(cfg, s); }
  }

  lemma QueuedCard(cfg: Config, s: State)
    requires JobInv(cfg, s)
    ensures |QueuedSet(s)| == |s.queue|
  {
    DistinctExactly(s.queue);
    assert QueuedSet(s) == Members(s.queue);
  }

  lemma LostIsMissing(cfg: Config, s: State)
    requires JobInv(cfg, s) && s.failure
    ensures HeldSet(cfg, s) + DoneSet(cfg, s) < UpTo(cfg.totalChunks)
  {
    hide Counted, StageShaped, Apart;
    var j: nat :| Lost(s, j);
    assert j in UpTo(cfg.totalChunks) && j !in HeldSet(cfg, s) + DoneSet(cfg, s);
  }

  /** SUCCESS AND FAILURE EXCLUDE EACH OTHER.  Once a download has failed it can never
      count all its chunks again; and while it has not, being shut down means that every
      chunk is counted, none is held, and each was written exactly once. */
  lemma FailureIsFinal(cfg: Config, s: State, acts: seq<Action>)
    requires Reachable(cfg, s) && Exec(cfg, s, acts).Some?
    ensures s.failure ==> Exec(cfg, s, acts).value.failure && Exec(cfg, s, acts).value.completed < cfg.totalChunks
    ensures s.shutting && !s.failure ==>
      s.completed == cfg.totalChunks && HeldSet(cfg, s) == {} && s.queue == [] && s.active == 0 &&
      forall j :: 0 <= j < cfg.totalChunks ==> j < |s.writes| && s.writes[j] == 1
  {
    ReachableJobInv(cfg, s);
    JobInvAlong(cfg, s, acts);
    if s.failure {
      FailureStays(cfg, s, acts);
      FailureMeansIncomplete(cfg, Exec(cfg, s, acts).value);
    } else if s.shutting {
      CompletedMeansIdle(cfg, s);
      CountNone(s.workers, Holding);
    }
  }

  lemma {:induction false} FailureStays(cfg: Config, s: State, acts: seq<Action>)
    requires Exec(cfg, s, acts).Some? && s.failure
    ensures Exec(cfg, s, acts).value.failure
    decreases |acts|
  {
    if acts != [] {
      FailureStays(cfg, Apply(cfg, s, acts[0]), acts[1..]);
    }
  }
}
