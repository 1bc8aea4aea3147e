/** A single worker: how often a chunk can fail at most is a small recursion. */
module SwarmSolo {
  import opened Wrappers
  import opened SwarmState
  import opened SwarmJobs
  import opened SwarmCapacity
  import opened SwarmProgress
  import opened SwarmRotation

  /** How many more times the chunk at position `i` of a line of `m` can fail, when it is the
      turn of peer `r` and peer `g` is good: the front chunk leaves the line at the good peer;
      at another it goes to the back or leaves, whichever is worse for the chunk watched. */
  function SoloTries(p: nat, g: nat, r: nat, i: nat, m: nat): nat
    requires g < p && r < p && i < m
    decreases m, Ahead(p, g, r)
  {
    if i == 0 then (if r == g then 0 else 1 + SoloTries(p, g, Next(p, r), m - 1, m))
    else if r == g then SoloTries(p, g, Next(p, r), i - 1, m - 1)
    else
      var back, gone := SoloTries(p, g, Next(p, r), i - 1, m), SoloTries(p, g, Next(p, r), i - 1, m - 1);
      if back >= gone then back else gone
  }

  /** Whichever peer is good and whichever chunk is watched, its attempts are not used up. */
  predicate SoloSafe(n: nat, p: nat) {
    forall g, i :: 0 <= g < p && 0 <= i < n ==> SoloTries(p, g, 0, i, n) < AttemptLimit(p)
  }

  /** Six times more than the chunk at place `i` of a short line of `m` can still fail, with
      `d` turns to go until the good peer's: an even share of these, and then of whole rounds
      in ever shorter lines. */
  function Share(m: nat, i: nat, d: nat, p: nat): int {
    if m == 1 then 6 * d
    else if m == 2 then 3 * (d - i + 1) + 6 * (p - 1)
    else if m == 3 then 2 * (d - i + 2) + 3 * p + 6 * (p - 1)
    else 2 * (p - i + 2) + 3 * p + 6 * (p - 1)
  }

  /** At most four chunks are left, a fourth only while it is the good peer's turn, and even
      shares do not use up the attempts of any. */
  ghost predicate LineShort(attempts: seq<nat>, line: seq<nat>, p: nat, g: nat, r: nat)
    requires g < p && r < p
  {
    && |line| <= 4 && (|line| == 4 ==> r == g)
    && forall i :: 0 <= i < |line| ==>
         line[i] < |attempts| && 6 * attempts[line[i]] + Share(|line|, i, Ahead(p, g, r), p) < 12 * p
  }

  /** No chunk of the line can use up its attempts: with a fixed list of peers, or even if
      more of them arrive. */
  ghost predicate LineSafe(arrivals: bool, attempts: seq<nat>, line: seq<nat>, p: nat, g: nat, r: nat)
    requires g < p && r < p
  {
    if arrivals then LineShort(attempts, line, p, g, r)
    else
      forall i :: 0 <= i < |line| ==>
        line[i] < |attempts| && attempts[line[i]] + SoloTries(p, g, r, i, |line|) < AttemptLimit(p)
  }

  /** The line after the front chunk's turn, however that ends. */
  ghost predicate TurnSafe(arrivals: bool, attempts: seq<nat>, job: nat, queue: seq<nat>, p: nat, g: nat, slot: nat,
                           r: nat)
    requires g < p && r < p
  {
    && job < |attempts| && LineSafe(arrivals, attempts, queue, p, g, r)
    && (slot != g ==> LineSafe(arrivals, attempts[job := attempts[job] + 1], queue + [job], p, g, r))
  }

  lemma OneFromLine(attempts: seq<nat>, line: seq<nat>, p: nat, g: nat, r: nat, i: nat)
    requires g < p && r < p && LineSafe(false, attempts, line, p, g, r) && i + 1 < |line|
    ensures line[i + 1] < |attempts|
    ensures attempts[line[i + 1]] + SoloTries(p, g, Next(p, r), i, |line| - 1) < AttemptLimit(p)
    ensures r != g ==> attempts[line[i + 1]] + SoloTries(p, g, Next(p, r), i, |line|) < AttemptLimit(p)
  {
    var tries := SoloTries(p, g, r, i + 1, |line|);
    assert line[i + 1] < |attempts| && attempts[line[i + 1]] + tries < AttemptLimit(p);
  }

  lemma TurnFromLine(arrivals: bool, attempts: seq<nat>, job: nat, queue: seq<nat>, p: nat, g: nat, r: nat)
    requires g < p && r < p && LineSafe(arrivals, attempts, [job] + queue, p, g, r) && job !in queue
    ensures TurnSafe(arrivals, attempts, job, queue, p, g, r, Next(p, r))
  {
    if arrivals { TurnFromShort(attempts, job, queue, p, g, r); } else { TurnFromFixed(attempts, job, queue, p, g, r); }
    hide LineSafe;
  }

  lemma TurnFromFixed(attempts: seq<nat>, job: nat, queue: seq<nat>, p: nat, g: nat, r: nat)
    requires g < p && r < p && LineSafe(false, attempts, [job] + queue, p, g, r) && job !in queue
    ensures TurnSafe(false, attempts, job, queue, p, g, r, Next(p, r))
  {
    var line := [job] + queue;
    assert line[0] == job;
    FrontFromLine(attempts, line, p, g, r);
    forall i: nat | i < |queue|
      ensures queue[i] == line[i + 1] && queue[i] < |attempts|
      ensures attempts[queue[i]] + SoloTries(p, g, Next(p, r), i, |queue|) < AttemptLimit(p)
      ensures r != g ==> attempts[queue[i]] + SoloTries(p, g, Next(p, r), i, |queue| + 1) < AttemptLimit(p)
    {
      OneFromLine(attempts, line, p, g, r, i);
    }
    hide SoloTries, AttemptLimit;
  }

  lemma FrontFromLine(attempts: seq<nat>, line: seq<nat>, p: nat, g: nat, r: nat)
    requires g < p && r < p && LineSafe(false, attempts, line, p, g, r) && line != []
    ensures line[0] < |attempts|
    ensures r != g ==> attempts[line[0]] + 1 + SoloTries(p, g, Next(p, r), |line| - 1, |line|) < AttemptLimit(p)
  {
    assert attempts[line[0]] + SoloTries(p, g, r, 0, |line|) < AttemptLimit(p);
  }

  /** A turn moves a chunk up, to the back, or shortens the line; none raises its share. */
  lemma ShareFalls(m: nat, i: nat, d: nat, p: nat)
    requires 0 < m <= 4 && i < m && d < p && (m == 4 ==> d == 0)
    ensures i > 0 ==> Share(m - 1, i - 1, if d == 0 then p - 1 else d - 1, p) <= Share(m, i, d, p)
    ensures i > 0 && d > 0 ==> Share(m, i - 1, d - 1, p) <= Share(m, i, d, p)
    ensures i == 0 && d > 0 ==> 6 + Share(m, m - 1, d - 1, p) <= Share(m, i, d, p)
  {
  }

  lemma TurnFromShort(attempts: seq<nat>, job: nat, queue: seq<nat>, p: nat, g: nat, r: nat)
    requires g < p && r < p && LineShort(attempts, [job] + queue, p, g, r) && job !in queue
    ensures TurnSafe(true, attempts, job, queue, p, g, r, Next(p, r))
  {
    hide Share, Ahead;
    var line := [job] + queue;
    var m, d := |line|, Ahead(p, g, r);
    AheadStep(p, g, r);
    AheadBelow(p, g, r);
    assert line[0] == job;
    ShareFalls(m, 0, d, p);
    forall i: nat | i < |queue|
      ensures queue[i] == line[i + 1] && queue[i] < |attempts|
      ensures 6 * attempts[queue[i]] + Share(m - 1, i, Ahead(p, g, Next(p, r)), p) < 12 * p
      ensures r != g ==> 6 * attempts[queue[i]] + Share(m, i, Ahead(p, g, Next(p, r)), p) < 12 * p
    {
      assert line[i + 1] == queue[i];
      ShareFalls(m, i + 1, d, p);
    }
  }

  lemma AheadBelow(p: nat, g: nat, r: nat)
    requires g < p && r < p
    ensures Ahead(p, g, r) < p && (Ahead(p, g, r) == 0 <==> r == g)
    ensures Ahead(p, g, r) <= Ahead(p + 1, g, r) <= Ahead(p, g, r) + 1 && (r == g ==> Ahead(p + 1, g, r) == 0)
  {
  }

  /** One more peer raises the limit by more than any share. */
  lemma ShortGrows(attempts: seq<nat>, line: seq<nat>, p: nat, g: nat, r: nat)
    requires g < p && r < p && LineShort(attempts, line, p, g, r)
    ensures LineShort(attempts, line, p + 1, g, r)
  {
    hide Ahead;
    AheadBelow(p, g, r);
  }

  ghost predicate StageSolo(cfg: Config, arrivals: bool, attempts: seq<nat>, queue: seq<nat>, st: Stage, p: nat, g: nat,
                            r: nat)
    requires g < p && r < p
  {
    match st
    case Acquiring(job) => LineSafe(arrivals, attempts, [job] + queue, p, g, r)
    case Requeueing(job, _, fatal, quits) => !fatal && !quits && LineSafe(arrivals, attempts, queue + [job], p, g, r)
    case Fetching(job, slot) => TurnSafe(arrivals, attempts, job, queue, p, g, slot, r)
    case Releasing(job, slot, resp) => TurnSafe(arrivals, attempts, job, queue, p, g, slot, r) &&
      (slot == g ==> Accepted(cfg, resp))
    case Judging(job, slot, resp) => TurnSafe(arrivals, attempts, job, queue, p, g, slot, r) &&
      (slot == g ==> Accepted(cfg, resp))
    case _ => LineSafe(arrivals, attempts, queue, p, g, r)
  }

  ghost predicate Solo(cfg: Config, arrivals: bool, s: State, g: nat, gid: string) {
    && JobInv(cfg, s) && CapInv(cfg, s) && !s.failure && |s.workers| == 1
    && g < |s.peers| && s.peers[g].id == gid
    && StageSolo(cfg, arrivals, s.attempts, s.queue, s.workers[0], |s.peers|, g, s.next)
  }

  lemma SoloAcquire(cfg: Config, arrivals: bool, s: State, g: nat, gid: string)
    requires Solo(cfg, arrivals, s, g, gid) && Enabled(cfg, s, AcquirePeer(0))
    ensures var t := AfterAcquire(cfg, s, 0);
            t.next < |t.peers| && StageSolo(cfg, arrivals, t.attempts, t.queue, t.workers[0], |t.peers|, g, t.next)
  {
    hide ScanFrom, HasCapacity, LineSafe, SlotsCounted, DistinctIds, WritesMatch, Counted, Covered, FlagsAgree;
    TurnIsTaken(cfg, s, 0);
    HolderKeepsOpen(cfg, s, 0);
    TurnFromLine(arrivals, s.attempts, s.workers[0].job, s.queue, |s.peers|, g, s.next);
    NextIs(|s.peers|, s.next);
  }

  lemma SoloJudge(cfg: Config, arrivals: bool, s: State, g: nat, gid: string)
    requires Solo(cfg, arrivals, s, g, gid) && Enabled(cfg, s, Judge(0))
    ensures var t := AfterJudge(cfg, s, 0);
            StageSolo(cfg, arrivals, t.attempts, t.queue, t.workers[0], |t.peers|, g, t.next)
  {
    hide Accepted, DistinctIds, SlotsCounted, WritesMatch, Counted, Covered, FlagsAgree, Apart, LineSafe, AttemptLimit,
      SoloTries;
    var job := s.workers[0].job;
    assert StageShaped(cfg, s, s.workers[0]);
    if s.workers[0].slot != g {
      LastFits(arrivals, s.attempts[job := s.attempts[job] + 1], s.queue, job, |s.peers|, g, s.next);
    }
  }

  lemma LastFits(arrivals: bool, attempts: seq<nat>, queue: seq<nat>, job: nat, p: nat, g: nat, r: nat)
    requires g < p && r < p && LineSafe(arrivals, attempts, queue + [job], p, g, r)
    ensures job < |attempts| && attempts[job] < AttemptLimit(p)
  {
    hide SoloTries, Ahead;
    var line := queue + [job];
    assert line[|queue|] == job;
    AheadBelow(p, g, r);
  }

  lemma SoloTake(cfg: Config, arrivals: bool, s: State, g: nat, gid: string)
    requires Solo(cfg, arrivals, s, g, gid) && Enabled(cfg, s, TakeJob(0))
    ensures var t := AfterTake(s, 0); StageSolo(cfg, arrivals, t.attempts, t.queue, t.workers[0], |t.peers|, g, t.next)
  {
    if s.queue != [] { assert [s.queue[0]] + s.queue[1..] == s.queue; }
    hide JobInv, CapInv, LineSafe;
  }

  lemma SoloRequeue(cfg: Config, arrivals: bool, s: State, g: nat, gid: string)
    requires Solo(cfg, arrivals, s, g, gid) && Enabled(cfg, s, Requeue(0))
    ensures var t := AfterRequeue(s, 0);
            !t.failure && StageSolo(cfg, arrivals, t.attempts, t.queue, t.workers[0], |t.peers|, g, t.next)
  {
    HolderKeepsOpen(cfg, s, 0);
    hide JobInv, CapInv, LineSafe;
  }

  lemma SoloOther(cfg: Config, arrivals: bool, s: State, a: Action, g: nat, gid: string)
    requires Solo(cfg, arrivals, s, g, gid) && Enabled(cfg, s, a) && StepFavours(cfg, arrivals, s, a, gid)
    requires !a.AddPeer? && !a.AcquirePeer? && !a.Judge? && !a.TakeJob? && !a.Requeue?
    ensures var t := Apply(cfg, s, a);
            !t.failure && t.next == s.next && |t.peers| == |s.peers| &&
            StageSolo(cfg, arrivals, t.attempts, t.queue, t.workers[0], |t.peers|, g, t.next)
  {
    hide Accepted, DistinctIds, SlotsCounted, Apart, WritesMatch, Counted, Covered, FlagsAgree, LineSafe, TurnSafe;
    hide Splice, StatOf, AttemptLimit, AfterTake, AfterAcquire, AfterJudge, AfterRequeue;
    assert StageShaped(cfg, s, s.workers[0]);
  }

  lemma SoloArrive(cfg: Config, s: State, id: string, g: nat, gid: string)
    requires Solo(cfg, true, s, g, gid) && Enabled(cfg, s, AddPeer(id))
    ensures var t := Apply(cfg, s, AddPeer(id));
            !t.failure && StageSolo(cfg, true, t.attempts, t.queue, t.workers[0], |t.peers|, g, t.next)
  {
    hide StageSolo, DistinctIds, SlotsCounted, Apart, WritesMatch, Counted, Covered, FlagsAgree, StageShaped;
    hide AfterTake, AfterAcquire, AfterRelease, AfterJudge, AfterWrite, AfterRecord, AfterComplete, AfterRequeue,
      StatOf;
    StageGrows(cfg, s.attempts, s.queue, s.workers[0], |s.peers|, g, s.next);
  }

  lemma StageGrows(cfg: Config, attempts: seq<nat>, queue: seq<nat>, st: Stage, p: nat, g: nat, r: nat)
    requires g < p && r < p && StageSolo(cfg, true, attempts, queue, st, p, g, r)
    ensures StageSolo(cfg, true, attempts, queue, st, p + 1, g, r)
  {
    hide LineShort, Accepted;
    forall line | LineShort(attempts, line, p, g, r) ensures LineShort(attempts, line, p + 1, g, r) {
      ShortGrows(attempts, line, p, g, r);
    }
    if Holding(st) && JobOf(st) < |attempts| {
      var tried := attempts[JobOf(st) := attempts[JobOf(st)] + 1];
      forall line | LineShort(tried, line, p, g, r) ensures LineShort(tried, line, p + 1, g, r) {
        ShortGrows(tried, line, p, g, r);
      }
    }
  }

  lemma SoloStep(cfg: Config, arrivals: bool, s: State, a: Action, g: nat, gid: string)
    requires Solo(cfg, arrivals, s, g, gid) && Enabled(cfg, s, a) && StepFavours(cfg, arrivals, s, a, gid)
    ensures Solo(cfg, arrivals, Apply(cfg, s, a), g, gid)
  {
    JobInvStep(cfg, s, a);
    CapInvStep(cfg, s, a);
    SameWorkers(cfg, s, a);
    if !a.AddPeer? { SamePeers(cfg, s, a); }
    if a.AddPeer? {
      SoloArrive(cfg, s, a.id, g, gid);
    } else if a.AcquirePeer? {
      SoloAcquire(cfg, arrivals, s, g, gid);
    } else if a.Judge? {
      SoloJudge(cfg, arrivals, s, g, gid);
    } else if a.TakeJob? {
      SoloTake(cfg, arrivals, s, g, gid);
    } else if a.Requeue? {
      SoloRequeue(cfg, arrivals, s, g, gid);
    } else {
      SoloOther(cfg, arrivals, s, a, g, gid);
    }
    hide JobInv, CapInv, StageSolo, ScanFrom, Accepted;
  }

  lemma {:induction false} SoloAlong(cfg: Config, arrivals: bool, s: State, acts: seq<Action>, g: nat, gid: string)
    requires Solo(cfg, arrivals, s, g, gid) && Exec(cfg, s, acts).Some? && RunFavours(cfg, arrivals, s, acts, gid)
    ensures !Exec(cfg, s, acts).value.failure
    decreases |acts|
  {
    if acts != [] {
      SoloStep(cfg, arrivals, s, acts[0], g, gid);
      hide Solo;
      SoloAlong(cfg, arrivals, Apply(cfg, s, acts[0]), acts[1..], g, gid);
    }
  }

  /** ONE WORKER.  With a fixed list of peers a good one is enough if no chunk can use up its
      attempts. */
  lemma SoloSuffices(cfg: Config, ids: seq<string>, order: seq<nat>, states: seq<nat>, staging: seq<byte>,
                     reason: string, acts: seq<Action>, g: nat)
    requires Started(cfg, ids, order, states) && g < |ids| && WorkerCount(cfg, |ids|) == 1
    requires SoloSafe(cfg.totalChunks, |ids|)
    requires Exec(cfg, Initial(cfg, ids, order, states, staging, reason), acts).Some?
    requires RunFavours(cfg, false, Initial(cfg, ids, order, states, staging, reason), acts, ids[g])
    ensures !Exec(cfg, Initial(cfg, ids, order, states, staging, reason), acts).value.failure
  {
    InitialJobInv(cfg, ids, order, states, staging, reason);
    InitialCapInv(cfg, ids, order, states, staging, reason);
    SoloAlong(cfg, false, Initial(cfg, ids, order, states, staging, reason), acts, g, ids[g]);
  }

  /** With arriving peers it is enough for three chunks, and for a fourth if the good peer
      starts alone and so is asked first. */
  lemma ShortSuffices(cfg: Config, ids: seq<string>, order: seq<nat>, states: seq<nat>, staging: seq<byte>,
                      reason: string, acts: seq<Action>, g: nat)
    requires Started(cfg, ids, order, states) && g < |ids| && WorkerCount(cfg, |ids|) == 1
    requires cfg.totalChunks <= 3 || (cfg.totalChunks == 4 && |ids| == 1)
    requires Exec(cfg, Initial(cfg, ids, order, states, staging, reason), acts).Some?
    requires RunFavours(cfg, true, Initial(cfg, ids, order, states, staging, reason), acts, ids[g])
    ensures !Exec(cfg, Initial(cfg, ids, order, states, staging, reason), acts).value.failure
  {
    InitialJobInv(cfg, ids, order, states, staging, reason);
    InitialCapInv(cfg, ids, order, states, staging, reason);
    SoloAlong(cfg, true, Initial(cfg, ids, order, states, staging, reason), acts, g, ids[g]);
  }
}
