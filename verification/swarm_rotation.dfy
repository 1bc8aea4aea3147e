/** Strict rotation: while no peer can be full, the peers are asked in turn, and that bounds
    how often a chunk can fail before a good peer gets it. */
module SwarmRotation {
  import opened Wrappers
  import opened Arith
  import opened FiniteSets
  import opened Sums
  import opened SwarmState
  import opened SwarmJobs
  import opened SwarmCapacity
  import opened SwarmProgress

  // ---------------------------------------------------------------- favourable runs

  ghost predicate AsksPeer(s: State, w: nat, g: string) {
    w < |s.workers| && s.workers[w].Fetching? && s.workers[w].slot < |s.peers| && s.peers[s.workers[w].slot].id == g
  }

  /** A step of a run with a disk that works and a peer `g` that answers every request with
      good data; the other peers answer as they please.  `arrivals` tells whether new peers
      may turn up, or the list of peers is fixed. */
  ghost predicate StepFavours(cfg: Config, arrivals: bool, s: State, a: Action, g: string) {
    && (a.AddPeer? ==> arrivals)
    && (a.Write? ==> a.result.Written?)
    && (a.Fetch? && AsksPeer(s, a.w, g) ==> Accepted(cfg, a.resp))
  }

  ghost predicate RunFavours(cfg: Config, arrivals: bool, s: State, acts: seq<Action>, g: string)
    decreases |acts|
  {
    acts != [] && Shaped(cfg, s) && Enabled(cfg, s, acts[0]) ==>
      StepFavours(cfg, arrivals, s, acts[0], g) && RunFavours(cfg, arrivals, Apply(cfg, s, acts[0]), acts[1..], g)
  }

  // ---------------------------------------------------------------- no peer is ever full

  /** There are never enough workers busy to fill a peer: too few chunks or too few workers. */
  predicate NeverFull(n: nat, workers: nat, limit: nat) { n <= limit || workers <= limit }

  lemma {:induction false} CountLess(ws: seq<Stage>, f: Stage -> bool, h: Stage -> bool, w: nat)
    requires forall st :: f(st) ==> h(st)
    requires w < |ws| && h(ws[w]) && !f(ws[w])
    ensures Count(ws, f) < Count(ws, h)
  {
    if w == 0 {
      CountAtMostOther(ws[1..], f, h);
    } else {
      CountLess(ws[1..], f, h, w - 1);
    }
  }

  lemma {:induction false} CountAtMostOther(ws: seq<Stage>, f: Stage -> bool, h: Stage -> bool)
    requires forall st :: f(st) ==> h(st)
    ensures Count(ws, f) <= Count(ws, h)
  {
    if ws != [] { CountAtMostOther(ws[1..], f, h); }
  }

  predicate Anything(st: Stage) { true }

  lemma {:induction false} CountAll(ws: seq<Stage>)
    ensures Count(ws, Anything) == |ws|
  {
    if ws != [] { CountAll(ws[1..]); }
  }

  lemma HeldAtMost(cfg: Config, s: State)
    requires JobInv(cfg, s)
    ensures s.active <= cfg.totalChunks
  {
    HeldCard(cfg, s);
    SubsetSize(HeldSet(cfg, s), UpTo(cfg.totalChunks));
  }

  /** STRICT ROTATION.  If no peer can ever be full, the peer whose turn it is is always the
      one chosen. */
  lemma TurnIsTaken(cfg: Config, s: State, w: nat)
    requires JobInv(cfg, s) && CapInv(cfg, s) && NeverFull(cfg.totalChunks, |s.workers|, PerPeerLimit(cfg))
    requires w < |s.workers| && s.workers[w].Acquiring?
    ensures ScanFrom(cfg, s.peers, s.next, 0) == Some(s.next)
  {
    HeldAtMost(cfg, s);
    CountLess(s.workers, AtSlot(s.next), Holding, w);
    CountLess(s.workers, AtSlot(s.next), Anything, w);
    CountAll(s.workers);
    assert s.peers[s.next].outstanding == Count(s.workers, AtSlot(s.next));
    ScanTakesNext(cfg, s.peers, s.next);
  }

  /** While a worker holds a chunk of a download that has not failed, nothing is shut down. */
  lemma HolderKeepsOpen(cfg: Config, s: State, w: nat)
    requires JobInv(cfg, s) && !s.failure && w < |s.workers| && Holding(s.workers[w])
    ensures !s.shutting
  {
    if s.shutting { CompletedMeansIdle(cfg, s); }
  }

  // ---------------------------------------------------------------- the tour

  /** The history of a rotation: how many turns peers have had, which chunks the good peer
      was given, the first chunk given to another peer, and whether the second one given to
      another peer was a different one. */
  datatype Tour = Tour(turns: nat, blessed: set<nat>, first: nat, shared: bool)

  function OtherTurns(u: Tour): int { u.turns - |u.blessed| }

  /** How many of the other peers' turns one chunk may have had. */
  function Allowed(u: Tour): int { OtherTurns(u) - if u.shared then 1 else 0 }

  ghost predicate AtOther(cfg: Config, attempts: seq<nat>, job: nat, slot: nat, g: nat, u: Tour) {
    (slot == g <==> job in u.blessed) && (slot != g ==> job < |attempts| && attempts[job] + 1 <= Allowed(u))
  }

  ghost predicate StageOnTour(cfg: Config, attempts: seq<nat>, st: Stage, g: nat, u: Tour) {
    match st
    case Acquiring(job) => job !in u.blessed
    case Fetching(job, slot) => AtOther(cfg, attempts, job, slot, g, u)
    case Releasing(job, slot, resp) => AtOther(cfg, attempts, job, slot, g, u) && (slot == g ==> Accepted(cfg, resp))
    case Judging(job, slot, resp) => AtOther(cfg, attempts, job, slot, g, u) && (slot == g ==> Accepted(cfg, resp))
    case Requeueing(job, _, fatal, quits) => !fatal && !quits && job !in u.blessed
    case _ => true
  }

  function Next(p: nat, r: nat): nat { if r + 1 == p then 0 else r + 1 }

  /** Turns until the good peer's. */
  function Ahead(p: nat, g: nat, r: nat): nat
    requires g < p && r < p
  {
    if r <= g then g - r else g + p - r
  }

  lemma AheadStep(p: nat, g: nat, r: nat)
    requires g < p && r < p
    ensures Next(p, r) < p && (Ahead(p, g, r) == 0 <==> r == g)
    ensures Ahead(p, g, Next(p, r)) == if r == g then p - 1 else Ahead(p, g, r) - 1
  {
  }

  /** The turns of `h` rounds over all `p` peers. */
  function Rounds(h: nat, p: nat): nat {
    if h == 0 then 0 else Rounds(h - 1, p) + p
  }

  /** The good peer has had its every turn, and the chunks it got are those blessed: until
      its next one it is as many turns as complete the rounds begun. */
  ghost predicate InTurn(s: State, g: nat, u: Tour) {
    && g < |s.peers| && s.next < |s.peers|
    && u.turns + Ahead(|s.peers|, g, s.next) == Rounds(|u.blessed|, |s.peers|) + g
  }

  /** Blessed chunks are done with; no other has failed more often than it was given to other
      peers. */
  ghost predicate OnTour(cfg: Config, s: State, g: nat, u: Tour) {
    && InTurn(s, g, u) && u.blessed <= UpTo(cfg.totalChunks)
    && (forall j :: 0 <= j < |s.attempts| ==> s.attempts[j] <= Allowed(u))
    && (forall i :: 0 <= i < |s.queue| ==> s.queue[i] !in u.blessed)
    && (forall w :: 0 <= w < |s.workers| ==> StageOnTour(cfg, s.attempts, s.workers[w], g, u))
  }

  /** What one worker's step leaves behind, if it is to keep the tour. */
  ghost predicate TourKept(cfg: Config, s: State, t: State, w: nat, g: nat, u: Tour, v: Tour) {
    && w < |s.workers| && |t.workers| == |s.workers| && t.workers == s.workers[w := t.workers[w]]
    && |t.attempts| == |s.attempts|
    && InTurn(t, g, v) && Allowed(u) <= Allowed(v)
    && (forall j :: 0 <= j < |t.attempts| ==>
          t.attempts[j] == s.attempts[j] || (Holds(s.workers[w], j) && t.attempts[j] <= Allowed(v)))
    && (forall j :: j in v.blessed ==> j in u.blessed || (Holds(s.workers[w], j) && j < |s.attempts|))
    && u.blessed <= v.blessed
    && (forall i :: 0 <= i < |t.queue| ==>
          t.queue[i] in s.queue || (Holds(s.workers[w], t.queue[i]) && t.queue[i] !in v.blessed))
    && StageOnTour(cfg, t.attempts, t.workers[w], g, v)
  }

  lemma KeptTour(cfg: Config, s: State, t: State, w: nat, g: nat, u: Tour, v: Tour)
    requires Shaped(cfg, s) && Apart(s) && OnTour(cfg, s, g, u) && TourKept(cfg, s, t, w, g, u, v)
    ensures OnTour(cfg, t, g, v)
  {
    hide InTurn, Accepted;
    forall x | 0 <= x < |t.workers| && x != w
      ensures StageOnTour(cfg, t.attempts, t.workers[x], g, v)
    {
      assert t.workers[x] == s.workers[x] && StageOnTour(cfg, s.attempts, s.workers[x], g, u);
      if Holding(s.workers[x]) {
        assert StageShaped(cfg, s, s.workers[x]);
        assert !Holds(s.workers[w], JobOf(s.workers[x]));
      }
    }
  }

  /** Bounds that the position in the rotation gives. */
  lemma TurnsBound(p: nat, g: nat, turns: nat, h: nat, n: nat)
    requires g < p && turns <= Rounds(h, p) + g && h < n
    ensures turns - h <= (n - 1) * (p - 1) + g <= n * (p - 1)
  {
    RoundsAre(h, p);
    assert h * p == h * (p - 1) + h;
    MulMonotone(h, n - 1, p - 1);
    assert n * (p - 1) == (n - 1) * (p - 1) + (p - 1);
  }

  lemma {:induction false} RoundsAre(h: nat, p: nat)
    ensures Rounds(h, p) == h * p
  {
    if h > 0 {
      RoundsAre(h - 1, p);
      assert h * p == (h - 1) * p + p;
    }
  }

  // ---------------------------------------------------------------- the steps

  /** A turn: of the good peer, which blesses the chunk, or of another. */
  ghost function TurnOf(u: Tour, job: nat, good: bool, pair: bool): Tour {
    if good then u.(turns := u.turns + 1, blessed := u.blessed + {job})
    else u.(turns := u.turns + 1, first := if OtherTurns(u) == 0 then job else u.first,
            shared := u.shared || (pair && OtherTurns(u) == 1))
  }

  lemma AcquireKeepsTour(cfg: Config, s: State, w: nat, g: nat, u: Tour, pair: bool)
    requires JobInv(cfg, s) && CapInv(cfg, s) && !s.failure && OnTour(cfg, s, g, u)
    requires Enabled(cfg, s, AcquirePeer(w)) && ScanFrom(cfg, s.peers, s.next, 0) == Some(s.next)
    requires pair && OtherTurns(u) == 1 && s.next != g ==> s.attempts[s.workers[w].job] == 0
    ensures OnTour(cfg, AfterAcquire(cfg, s, w), g, TurnOf(u, s.workers[w].job, s.next == g, pair))
    ensures AfterAcquire(cfg, s, w).workers[w] == Fetching(s.workers[w].job, s.next)
  {
    hide AfterAcquire, ScanFrom, CapInv, WritesMatch, Counted, Covered, FlagsAgree, HasCapacity, AttemptLimit, Accepted;
    hide InTurn, StageShaped, TurnOf, Allowed, AtOther, KnownPeer;
    var job, t := s.workers[w].job, AfterAcquire(cfg, s, w);
    var v := TurnOf(u, job, s.next == g, pair);
    AcquiredMoves(cfg, s, w);
    assert StageOnTour(cfg, s.attempts, s.workers[w], g, u) && Holds(s.workers[w], job);
    TurnKeepsTurn(s, t, g, u, job, pair);
    TurnAllows(cfg, s.attempts, job, s.next, g, u, pair);
    KeptTour(cfg, s, t, w, g, u, v);
  }

  lemma TurnAllows(cfg: Config, attempts: seq<nat>, job: nat, slot: nat, g: nat, u: Tour, pair: bool)
    requires job < |attempts| && attempts[job] <= Allowed(u) && job !in u.blessed
    requires pair && OtherTurns(u) == 1 && slot != g ==> attempts[job] == 0
    ensures var v := TurnOf(u, job, slot == g, pair);
            && Allowed(u) <= Allowed(v) && u.blessed <= v.blessed && v.blessed <= u.blessed + {job}
            && AtOther(cfg, attempts, job, slot, g, v)
  {
    assert |u.blessed + {job}| == |u.blessed| + 1;
  }

  lemma AcquiredMoves(cfg: Config, s: State, w: nat)
    requires JobInv(cfg, s) && !s.failure
    requires Enabled(cfg, s, AcquirePeer(w)) && ScanFrom(cfg, s.peers, s.next, 0) == Some(s.next)
    ensures s.workers[w].job < |s.attempts|
    ensures var job, t := s.workers[w].job, AfterAcquire(cfg, s, w);
            && t.workers == s.workers[w := Fetching(job, s.next)] && t.attempts == s.attempts && t.queue == s.queue
            && |t.peers| == |s.peers| > s.next && t.next == (s.next + 1) % |s.peers|
  {
    HolderKeepsOpen(cfg, s, w);
    assert StageShaped(cfg, s, s.workers[w]);
    hide ScanFrom, HasCapacity, Apart, WritesMatch, Counted, Covered, FlagsAgree;
  }

  /** One more turn, of whichever peer. */
  lemma TurnKeepsTurn(s: State, t: State, g: nat, u: Tour, job: nat, pair: bool)
    requires InTurn(s, g, u) && |t.peers| == |s.peers| && t.next == (s.next + 1) % |s.peers| && job !in u.blessed
    ensures InTurn(t, g, TurnOf(u, job, s.next == g, pair))
  {
    AheadStep(|s.peers|, g, s.next);
    NextIs(|s.peers|, s.next);
    assert |u.blessed + {job}| == |u.blessed| + 1;
  }

  lemma NextIs(p: nat, r: nat)
    requires r < p
    ensures (r + 1) % p == Next(p, r)
  {
    DivModUnique(r + 1, p, if r + 1 == p then 1 else 0, Next(p, r));
  }

  lemma FetchKeepsTour(cfg: Config, s: State, w: nat, resp: Response, g: nat, u: Tour)
    requires JobInv(cfg, s) && OnTour(cfg, s, g, u) && Enabled(cfg, s, Fetch(w, resp))
    requires s.workers[w].slot == g ==> Accepted(cfg, resp)
    ensures OnTour(cfg, Apply(cfg, s, Fetch(w, resp)), g, u)
  {
    assert StageOnTour(cfg, s.attempts, s.workers[w], g, u);
    hide Accepted, WritesMatch, Counted, Covered, FlagsAgree;
    KeptTour(cfg, s, Apply(cfg, s, Fetch(w, resp)), w, g, u, u);
  }

  lemma ReleaseKeepsTour(cfg: Config, s: State, w: nat, g: nat, u: Tour)
    requires JobInv(cfg, s) && OnTour(cfg, s, g, u) && Enabled(cfg, s, ReleasePeer(w))
    ensures OnTour(cfg, AfterRelease(s, w), g, u)
  {
    assert StageOnTour(cfg, s.attempts, s.workers[w], g, u) && StageShaped(cfg, s, s.workers[w]);
    hide Accepted, WritesMatch, Counted, Covered, FlagsAgree;
    KeptTour(cfg, s, AfterRelease(s, w), w, g, u, u);
  }

  /** A failed attempt is one of the other peers' turns, and so not the last one allowed. */
  lemma JudgeKeepsTour(cfg: Config, s: State, w: nat, g: nat, u: Tour)
    requires JobInv(cfg, s) && OnTour(cfg, s, g, u) && Enabled(cfg, s, Judge(w))
    requires s.workers[w].job !in u.blessed ==> Allowed(u) < AttemptLimit(|s.peers|)
    ensures OnTour(cfg, AfterJudge(cfg, s, w), g, u)
  {
    var job, t := s.workers[w].job, AfterJudge(cfg, s, w);
    JudgedOnTour(cfg, s, w, g, u);
    hide AfterJudge, AttemptLimit, StageOnTour, Accepted, WritesMatch, Counted, Covered, FlagsAgree, StageShaped;
    KeptTour(cfg, s, t, w, g, u, u);
  }

  lemma JudgedOnTour(cfg: Config, s: State, w: nat, g: nat, u: Tour)
    requires Shaped(cfg, s) && OnTour(cfg, s, g, u) && Enabled(cfg, s, Judge(w))
    requires s.workers[w].job !in u.blessed ==> Allowed(u) < AttemptLimit(|s.peers|)
    ensures s.workers[w].job < |s.attempts| && Holds(s.workers[w], s.workers[w].job)
    ensures var job, t := s.workers[w].job, AfterJudge(cfg, s, w);
            && t.workers == s.workers[w := t.workers[w]] && t.peers == s.peers && t.next == s.next && t.queue == s.queue
            && (t.attempts == s.attempts ||
                (t.attempts == s.attempts[job := s.attempts[job] + 1] && s.attempts[job] + 1 <= Allowed(u)))
            && StageOnTour(cfg, t.attempts, t.workers[w], g, u)
  {
    assert StageOnTour(cfg, s.attempts, s.workers[w], g, u) && StageShaped(cfg, s, s.workers[w]);
    hide Accepted, Apart, AttemptLimit;
  }

  lemma RequeueKeepsTour(cfg: Config, s: State, w: nat, g: nat, u: Tour)
    requires JobInv(cfg, s) && OnTour(cfg, s, g, u) && Enabled(cfg, s, Requeue(w))
    ensures OnTour(cfg, AfterRequeue(s, w), g, u) && AfterRequeue(s, w).failure == s.failure
  {
    assert StageOnTour(cfg, s.attempts, s.workers[w], g, u);
    assert Holds(s.workers[w], s.workers[w].job);
    hide Accepted, WritesMatch, Counted, Covered, FlagsAgree;
    KeptTour(cfg, s, AfterRequeue(s, w), w, g, u, u);
  }

  lemma TakeKeepsTour(cfg: Config, s: State, w: nat, g: nat, u: Tour)
    requires JobInv(cfg, s) && OnTour(cfg, s, g, u) && Enabled(cfg, s, TakeJob(w))
    ensures OnTour(cfg, AfterTake(s, w), g, u)
  {
    hide Accepted, WritesMatch, Counted, Covered, FlagsAgree;
    KeptTour(cfg, s, AfterTake(s, w), w, g, u, u);
  }

  predicate Plain(a: Action) {
    a.CheckFailure? || (a.Write? && a.result.Written?) || a.Record? || a.Complete?
  }

  lemma PlainMoves(cfg: Config, s: State, a: Action)
    requires Shaped(cfg, s) && Enabled(cfg, s, a) && Plain(a)
    ensures var t := Apply(cfg, s, a);
            && t.queue == s.queue && t.attempts == s.attempts && t.next == s.next && |t.peers| == |s.peers|
            && t.failure == s.failure && a.w < |s.workers| == |t.workers| &&
               t.workers == s.workers[a.w := t.workers[a.w]]
            && (Holding(t.workers[a.w]) ==> t.workers[a.w].Recording? || t.workers[a.w].Completing?)
  {
    assert StageShaped(cfg, s, s.workers[a.w]);
    hide Accepted, Splice, StatOf, AfterTake, AfterAcquire, AfterJudge, AfterRequeue, AfterRelease;
  }

  lemma PlainKeepsTour(cfg: Config, s: State, a: Action, g: nat, u: Tour)
    requires JobInv(cfg, s) && OnTour(cfg, s, g, u) && Enabled(cfg, s, a) && Plain(a)
    ensures OnTour(cfg, Apply(cfg, s, a), g, u) && Apply(cfg, s, a).failure == s.failure
  {
    hide Apply, Enabled, Accepted, WritesMatch, Counted, Covered, FlagsAgree, StageShaped;
    PlainMoves(cfg, s, a);
    KeptTour(cfg, s, Apply(cfg, s, a), a.w, g, u, u);
  }

  /** The tour after a step. */
  ghost function TourAfter(s: State, a: Action, g: nat, u: Tour, pair: bool): Tour {
    if a.AcquirePeer? && a.w < |s.workers| && s.workers[a.w].Acquiring?
    then TurnOf(u, s.workers[a.w].job, s.next == g, pair) else u
  }

  /** Everything said above of one state. */
  ghost predicate Touring(cfg: Config, s: State, g: nat, gid: string, u: Tour) {
    && JobInv(cfg, s) && CapInv(cfg, s) && !s.failure && OnTour(cfg, s, g, u)
    && NeverFull(cfg.totalChunks, |s.workers|, PerPeerLimit(cfg)) && s.peers[g].id == gid
  }

  /** A chunk that the good peer has not had has not used up its attempts. */
  ghost predicate Safe(cfg: Config, s: State, u: Tour) {
    |u.blessed| < cfg.totalChunks ==> Allowed(u) < AttemptLimit(|s.peers|)
  }

  lemma TouringStep(cfg: Config, s: State, a: Action, g: nat, gid: string, u: Tour, pair: bool)
    requires Touring(cfg, s, g, gid, u) && Enabled(cfg, s, a) && StepFavours(cfg, false, s, a, gid) && Safe(cfg, s, u)
    requires pair && OtherTurns(u) == 1 && a.AcquirePeer? && s.next != g ==> s.attempts[s.workers[a.w].job] == 0
    ensures Touring(cfg, Apply(cfg, s, a), g, gid, TourAfter(s, a, g, u, pair)) && |Apply(cfg, s, a).peers| == |s.peers|
  {
    hide CapInv, OnTour, NeverFull, Apply, Enabled, TourAfter, StepFavours, Safe, Apart, WritesMatch, Counted, Covered,
      FlagsAgree, StageShaped;
    JobInvStep(cfg, s, a);
    CapInvStep(cfg, s, a);
    NoArrival(cfg, s, a, gid);
    SamePeers(cfg, s, a);
    SameWorkers(cfg, s, a);
    OnTourStep(cfg, s, a, g, gid, u, pair);
    GoodExists(cfg, s, g, u);
  }

  lemma NoArrival(cfg: Config, s: State, a: Action, gid: string)
    requires StepFavours(cfg, false, s, a, gid)
    ensures !a.AddPeer?
  {
  }

  lemma GoodExists(cfg: Config, s: State, g: nat, u: Tour)
    requires OnTour(cfg, s, g, u)
    ensures g < |s.peers|
  {
  }

  lemma OnTourStep(cfg: Config, s: State, a: Action, g: nat, gid: string, u: Tour, pair: bool)
    requires Touring(cfg, s, g, gid, u) && Enabled(cfg, s, a) && StepFavours(cfg, false, s, a, gid) && Safe(cfg, s, u)
    requires pair && OtherTurns(u) == 1 && a.AcquirePeer? && s.next != g ==> s.attempts[s.workers[a.w].job] == 0
    ensures OnTour(cfg, Apply(cfg, s, a), g, TourAfter(s, a, g, u, pair)) && !Apply(cfg, s, a).failure
  {
    hide JobInv, CapInv, OnTour, NeverFull, Accepted, StageShaped, HasCapacity, ScanFrom, AttemptLimit, Safe;
    match a {
      case AcquirePeer(w) => TurnIsTaken(cfg, s, w); AcquireKeepsTour(cfg, s, w, g, u, pair);
      case Fetch(w, resp) => FetchAtGood(cfg, s, w, resp, g, gid, u); FetchKeepsTour(cfg, s, w, resp, g, u);
      case ReleasePeer(w) => ReleaseKeepsTour(cfg, s, w, g, u);
      case Judge(w) => StillAllowed(cfg, s, w, g, u); JudgeKeepsTour(cfg, s, w, g, u);
      case Requeue(w) => RequeueKeepsTour(cfg, s, w, g, u);
      case TakeJob(w) => TakeKeepsTour(cfg, s, w, g, u);
      case _ => PlainKeepsTour(cfg, s, a, g, u);
    }
  }

  lemma FetchAtGood(cfg: Config, s: State, w: nat, resp: Response, g: nat, gid: string, u: Tour)
    requires Touring(cfg, s, g, gid, u) && Enabled(cfg, s, Fetch(w, resp))
    requires StepFavours(cfg, false, s, Fetch(w, resp), gid)
    ensures s.workers[w].slot == g ==> Accepted(cfg, resp)
  {
  }

  lemma StillAllowed(cfg: Config, s: State, w: nat, g: nat, u: Tour)
    requires JobInv(cfg, s) && OnTour(cfg, s, g, u) && Enabled(cfg, s, Judge(w)) && Safe(cfg, s, u)
    ensures s.workers[w].job !in u.blessed ==> Allowed(u) < AttemptLimit(|s.peers|)
  {
    hide AttemptLimit, StageOnTour;
    Unblessed(cfg, s, s.workers[w].job, u.blessed, w);
  }

  lemma Unblessed(cfg: Config, s: State, job: nat, blessed: set<nat>, w: nat)
    requires Shaped(cfg, s) && blessed <= UpTo(cfg.totalChunks)
    requires w < |s.workers| && Holds(s.workers[w], job)
    ensures job !in blessed ==> |blessed| < cfg.totalChunks
  {
    assert StageShaped(cfg, s, s.workers[w]);
    if job !in blessed { SubsetSize(blessed, UpTo(cfg.totalChunks) - {job}); }
  }

  const NO_TOUR := Tour(0, {}, 0, false)

  lemma InitialTouring(cfg: Config, ids: seq<string>, order: seq<nat>, states: seq<nat>, staging: seq<byte>,
                       reason: string, g: nat)
    requires Started(cfg, ids, order, states) && g < |ids|
    requires NeverFull(cfg.totalChunks, WorkerCount(cfg, |ids|), PerPeerLimit(cfg))
    ensures Touring(cfg, Initial(cfg, ids, order, states, staging, reason), g, ids[g], NO_TOUR)
  {
    InitialJobInv(cfg, ids, order, states, staging, reason);
    InitialCapInv(cfg, ids, order, states, staging, reason);
  }

  // ---------------------------------------------------------------- few chunks

  /** With `n` chunks the other peers get at most n * (p - 1) turns before the good one has
      had every chunk; one fewer if the good peer is not the last to start with. */
  lemma FewTurns(cfg: Config, s: State, g: nat, u: Tour)
    requires InTurn(s, g, u) && |u.blessed| < cfg.totalChunks
    ensures OtherTurns(u) <= cfg.totalChunks * (|s.peers| - 1)
    ensures g < |s.peers| - 1 ==> OtherTurns(u) < cfg.totalChunks * (|s.peers| - 1)
  {
    TurnsBound(|s.peers|, g, u.turns, |u.blessed|, cfg.totalChunks);
    assert cfg.totalChunks * (|s.peers| - 1) == (cfg.totalChunks - 1) * (|s.peers| - 1) + (|s.peers| - 1);
  }

  lemma FewIsSafe(cfg: Config, s: State, g: nat, gid: string, u: Tour)
    requires Touring(cfg, s, g, gid, u) && !u.shared
    requires var most := Rounds(cfg.totalChunks, |s.peers| - 1);
             most < AttemptLimit(|s.peers|) || (most == AttemptLimit(|s.peers|) && g < |s.peers| - 1)
    ensures Safe(cfg, s, u)
  {
    hide AttemptLimit, StageOnTour, JobInv, CapInv;
    RoundsAre(cfg.totalChunks, |s.peers| - 1);
    if |u.blessed| < cfg.totalChunks { FewTurns(cfg, s, g, u); }
    assert g < |s.peers|;
  }

  lemma NeverShared(s: State, a: Action, g: nat, u: Tour)
    ensures !u.shared ==> !TourAfter(s, a, g, u, false).shared
  {
  }

  lemma TouringIsFine(cfg: Config, s: State, g: nat, gid: string, u: Tour)
    requires Touring(cfg, s, g, gid, u)
    ensures !s.failure
  {
  }

  lemma {:induction false} FewChunksAlong(cfg: Config, s: State, acts: seq<Action>, g: nat, gid: string, u: Tour)
    requires Touring(cfg, s, g, gid, u) && !u.shared && Exec(cfg, s, acts).Some? && RunFavours(cfg, false, s, acts, gid)
    requires var most := Rounds(cfg.totalChunks, |s.peers| - 1);
             most < AttemptLimit(|s.peers|) || (most == AttemptLimit(|s.peers|) && g < |s.peers| - 1)
    ensures !Exec(cfg, s, acts).value.failure
    decreases |acts|
  {
    hide Touring, Enabled, Apply, InTurn, Safe, StepFavours, Rounds, AttemptLimit, Shaped;
    if acts != [] {
      FewIsSafe(cfg, s, g, gid, u);
      TouringStep(cfg, s, acts[0], g, gid, u, false);
      NeverShared(s, acts[0], g, u);
      FewChunksAlong(cfg, Apply(cfg, s, acts[0]), acts[1..], g, gid, TourAfter(s, acts[0], g, u, false));
    } else {
      TouringIsFine(cfg, s, g, gid, u);
    }
  }

  /** FEW CHUNKS.  With a fixed list of peers, if no peer can be full and the other peers' turns do not add up to a
      chunk's attempts, a download with a good peer does not fail. */
  lemma FewChunksSuffice(cfg: Config, ids: seq<string>, order: seq<nat>, states: seq<nat>, staging: seq<byte>,
                         reason: string, acts: seq<Action>, g: nat)
    requires Started(cfg, ids, order, states) && g < |ids|
    requires NeverFull(cfg.totalChunks, WorkerCount(cfg, |ids|), PerPeerLimit(cfg))
    requires var most := cfg.totalChunks * (|ids| - 1);
             most < AttemptLimit(|ids|) || (most == AttemptLimit(|ids|) && g < |ids| - 1)
    requires Exec(cfg, Initial(cfg, ids, order, states, staging, reason), acts).Some?
    requires RunFavours(cfg, false, Initial(cfg, ids, order, states, staging, reason), acts, ids[g])
    ensures !Exec(cfg, Initial(cfg, ids, order, states, staging, reason), acts).value.failure
  {
    InitialTouring(cfg, ids, order, states, staging, reason, g);
    RoundsAre(cfg.totalChunks, |ids| - 1);
    FewChunksAlong(cfg, Initial(cfg, ids, order, states, staging, reason), acts, g, ids[g], NO_TOUR);
  }

  // ---------------------------------------------------------------- two workers

  /** Chunks that no other peer has had yet, `first` aside once it has had a turn. */
  ghost predicate Unstarted(u: Tour, job: nat) {
    job !in u.blessed && !(OtherTurns(u) == 1 && job == u.first)
  }

  /** The others have had one turn at most.  Fresh chunks wait for their first peer; the one
      that has failed is behind all of them in the queue. */
  ghost predicate Untouched(s: State, u: Tour) {
    && (OtherTurns(u) == 1 ==> u.first !in u.blessed && forall i :: 0 <= i < |s.queue| - 1 ==> s.queue[i] != u.first)
    && (forall j :: 0 <= j < |s.attempts| && j < |s.writes| && Unstarted(u, j) ==>
          s.attempts[j] == 0 && s.writes[j] == 0)
    && (forall w :: 0 <= w < |s.workers| ==> StageUntouched(s.workers[w], u))
  }

  ghost predicate StageUntouched(st: Stage, u: Tour) {
    && (Holding(st) && Unstarted(u, JobOf(st)) ==> st.Acquiring?)
    && (OtherTurns(u) == 1 && st.Acquiring? ==> st.job != u.first)
  }

  /** The first two turns of the other peers go to different chunks. */
  ghost predicate Spread(s: State, u: Tour) {
    if OtherTurns(u) >= 2 then u.shared else !u.shared && OtherTurns(u) >= 0 && Untouched(s, u)
  }

  lemma TakenAgainHeld(cfg: Config, s: State, u: Tour, j: nat)
    requires JobInv(cfg, s) && !s.failure && Untouched(s, u) && OtherTurns(u) == 1
    requires s.queue != [] && s.queue[0] == u.first && j < cfg.totalChunks && Unstarted(u, j)
    ensures Held(s, j)
  {
    assert s.writes[j] == 0;
    assert |s.queue| == 1;
  }

  /** Before the failed chunk can be taken again, every other one is held or blessed. */
  lemma TakenAgain(cfg: Config, s: State, w: nat, u: Tour)
    requires JobInv(cfg, s) && !s.failure && Untouched(s, u) && OtherTurns(u) == 1 && |s.workers| == 2
    requires u.blessed <= UpTo(cfg.totalChunks)
    requires w < 2 && s.workers[w].Taking? && s.queue != [] && s.queue[0] == u.first
    ensures cfg.totalChunks <= |u.blessed| + 2
  {
    var other := s.workers[1 - w];
    var seen := u.blessed + {u.first} + (if Holding(other) then {JobOf(other)} else {});
    forall j | j in UpTo(cfg.totalChunks) ensures j in seen {
      if Unstarted(u, j) {
        TakenAgainHeld(cfg, s, u, j);
        var v :| 0 <= v < |s.workers| && Holds(s.workers[v], j);
        assert v == 1 - w;
      }
    }
    SubsetSize(UpTo(cfg.totalChunks), seen);
  }

  /** So with the good peer last and chunks enough, it is not. */
  lemma NotTakenAgain(cfg: Config, s: State, w: nat, g: nat, u: Tour)
    requires JobInv(cfg, s) && !s.failure && Untouched(s, u) && OtherTurns(u) == 1 && |s.workers| == 2
    requires InTurn(s, g, u) && u.blessed <= UpTo(cfg.totalChunks) && g == |s.peers| - 1
    requires Rounds(cfg.totalChunks, g) >= AttemptLimit(|s.peers|)
    requires w < 2 && s.workers[w].Taking? && s.queue != []
    ensures s.queue[0] != u.first
  {
    RoundsAre(|u.blessed|, |s.peers|);
    RoundsAre(cfg.totalChunks, g);
    EnoughChunks(|s.peers|, u.turns, |u.blessed|, cfg.totalChunks);
    if s.queue[0] == u.first { TakenAgain(cfg, s, w, u); }
  }

  lemma EnoughChunks(p: nat, turns: nat, h: nat, n: nat)
    requires p > 0 && turns == h + 1 && h * p + (p - 1) < turns + p && n * (p - 1) >= AttemptLimit(p)
    ensures n > h + 2
  {
    assert h * p == h * (p - 1) + h;
    if p == 2 {
      assert h <= 1 && n >= 4;
    } else {
      SmallProduct(h, p - 1);
      ThreeNeeded(n, p - 1);
    }
  }

  lemma ThreeNeeded(n: nat, m: nat)
    requires n * m > 2 * m
    ensures n > 2
  {
    if n <= 2 { MulMonotone(n, 2, m); }
  }

  lemma SmallProduct(h: nat, m: nat)
    requires h * m <= 1 && m != 1 && m > 0
    ensures h == 0
  {
    if h > 0 { MulMonotone(1, h, m); }
  }

  lemma SpreadAcquire(cfg: Config, s: State, w: nat, g: nat, u: Tour)
    requires JobInv(cfg, s) && CapInv(cfg, s) && !s.failure && OnTour(cfg, s, g, u) && Spread(s, u)
    requires Enabled(cfg, s, AcquirePeer(w)) && ScanFrom(cfg, s.peers, s.next, 0) == Some(s.next)
    ensures Spread(AfterAcquire(cfg, s, w), TurnOf(u, s.workers[w].job, s.next == g, true))
  {
    HolderKeepsOpen(cfg, s, w);
    var job := s.workers[w].job;
    var t := AfterAcquire(cfg, s, w);
    var v := TurnOf(u, job, s.next == g, true);
    assert StageOnTour(cfg, s.attempts, s.workers[w], g, u) && StageShaped(cfg, s, s.workers[w]);
    assert |u.blessed + {job}| == |u.blessed| + 1;
    hide ScanFrom, CapInv, WritesMatch, Counted, Covered, FlagsAgree, HasCapacity;
    if OtherTurns(v) <= 1 {
      assert StageUntouched(s.workers[w], u);
      assert forall j :: Unstarted(v, j) ==> Unstarted(u, j) && j != job;
      forall x | 0 <= x < |t.workers| && x != w ensures StageUntouched(t.workers[x], v) {
        assert t.workers[x] == s.workers[x] && StageUntouched(s.workers[x], u);
      }
    }
  }

  /** A step that gives nobody a turn. */
  lemma SpreadOther(cfg: Config, s: State, a: Action, g: nat, u: Tour)
    requires JobInv(cfg, s) && !s.failure && OnTour(cfg, s, g, u) && Spread(s, u) && Enabled(cfg, s, a)
    requires !a.AddPeer? && !a.AcquirePeer?
    requires OtherTurns(u) == 1 && a.TakeJob? && s.queue != [] ==> s.queue[0] != u.first
    ensures Spread(Apply(cfg, s, a), u)
  {
    var t := Apply(cfg, s, a);
    SameWorkers(cfg, s, a);
    if OtherTurns(u) <= 1 {
      OthersStand(cfg, s, a);
      assert StageUntouched(s.workers[a.w], u) && StageOnTour(cfg, s.attempts, s.workers[a.w], g, u);
      QueueUntouched(cfg, s, a, g, u);
      JobsUntouched(cfg, s, a, u);
      MoverUntouched(cfg, s, a, u);
      hide Apply, JobInv, OnTour;
      forall x | 0 <= x < |t.workers| ensures StageUntouched(t.workers[x], u) {
        if x != a.w { assert t.workers[x] == s.workers[x] && StageUntouched(s.workers[x], u); }
      }
    }
  }

  lemma OthersStand(cfg: Config, s: State, a: Action)
    requires Shaped(cfg, s) && Enabled(cfg, s, a) && !a.AddPeer?
    ensures forall x :: 0 <= x < |s.workers| && x != a.w ==>
              x < |Apply(cfg, s, a).workers| && Apply(cfg, s, a).workers[x] == s.workers[x]
  {
    assert Apply(cfg, s, a).workers == s.workers[a.w := Apply(cfg, s, a).workers[a.w]];
  }

  lemma QueueUntouched(cfg: Config, s: State, a: Action, g: nat, u: Tour)
    requires Shaped(cfg, s) && Apart(s) && Untouched(s, u) && OtherTurns(u) <= 1 && Enabled(cfg, s, a) && !a.AddPeer?
    requires StageOnTour(cfg, s.attempts, s.workers[a.w], g, u)
    ensures var t := Apply(cfg, s, a);
            OtherTurns(u) == 1 ==> u.first !in u.blessed && forall i :: 0 <= i < |t.queue| - 1 ==> t.queue[i] != u.first
  {
    var t := Apply(cfg, s, a);
    if a.Requeue? && OtherTurns(u) == 1 {
      var job := s.workers[a.w].job;
      assert StageUntouched(s.workers[a.w], u);
      assert t.queue == [] || t.queue == s.queue + [job];
      assert job == u.first && job !in s.queue;
    } else {
      assert t.queue == s.queue || t.queue == s.queue[1..];
    }
  }

  lemma JobsUntouched(cfg: Config, s: State, a: Action, u: Tour)
    requires Shaped(cfg, s) && Untouched(s, u) && Enabled(cfg, s, a) && !a.AddPeer?
    ensures var t := Apply(cfg, s, a);
            forall j :: 0 <= j < |t.attempts| && j < |t.writes| && Unstarted(u, j) ==>
              t.attempts[j] == 0 && t.writes[j] == 0
  {
    var t := Apply(cfg, s, a);
    assert StageUntouched(s.workers[a.w], u) && StageShaped(cfg, s, s.workers[a.w]);
    hide Unstarted;
    if a.Judge? || a.Write? {
      var job := s.workers[a.w].job;
      assert !Unstarted(u, job);
      assert forall j :: 0 <= j < |t.attempts| && j != job ==>
               t.attempts[j] == s.attempts[j] && t.writes[j] == s.writes[j];
    }
  }

  lemma MoverUntouched(cfg: Config, s: State, a: Action, u: Tour)
    requires Shaped(cfg, s) && Untouched(s, u) && Enabled(cfg, s, a) && !a.AddPeer? && !a.AcquirePeer?
    requires OtherTurns(u) == 1 && a.TakeJob? && s.queue != [] ==> s.queue[0] != u.first
    ensures StageUntouched(Apply(cfg, s, a).workers[a.w], u)
  {
    assert StageUntouched(s.workers[a.w], u);
    hide Unstarted, Shaped;
  }

  /** The good peer is the last of the list, and two workers share just enough chunks to use
      up one chunk's attempts if it took every turn of the others. */
  ghost predicate Paired(cfg: Config, s: State, g: nat, gid: string, u: Tour) {
    && Touring(cfg, s, g, gid, u) && Spread(s, u) && |s.workers| == 2 && g == |s.peers| - 1
    && Rounds(cfg.totalChunks, g) == AttemptLimit(|s.peers|)
  }

  lemma PairedStep(cfg: Config, s: State, a: Action, g: nat, gid: string, u: Tour)
    requires Paired(cfg, s, g, gid, u) && Enabled(cfg, s, a) && StepFavours(cfg, false, s, a, gid)
    ensures Paired(cfg, Apply(cfg, s, a), g, gid, TourAfter(s, a, g, u, true))
  {
    PairedSafe(cfg, s, g, gid, u);
    PairedSpread(cfg, s, a, g, gid, u);
    if a.AcquirePeer? { UntouchedAttempts(cfg, s, a.w, g, u); }
    SameWorkers(cfg, s, a);
    hide Touring, Spread, Apply, Enabled, StepFavours, Safe, OnTour, Shaped, TourAfter;
    TouringStep(cfg, s, a, g, gid, u, true);
  }

  lemma PairedSafe(cfg: Config, s: State, g: nat, gid: string, u: Tour)
    requires Paired(cfg, s, g, gid, u)
    ensures Safe(cfg, s, u) && OnTour(cfg, s, g, u) && Shaped(cfg, s)
  {
    hide JobInv, Untouched, StageOnTour, DistinctIds, SlotsCounted, NeverFull, StageShaped;
    if |u.blessed| < cfg.totalChunks { PairedTurns(cfg, s, g, u); }
  }

  lemma PairedTurns(cfg: Config, s: State, g: nat, u: Tour)
    requires InTurn(s, g, u) && |u.blessed| < cfg.totalChunks && g == |s.peers| - 1
    requires Rounds(cfg.totalChunks, g) == AttemptLimit(|s.peers|)
    ensures OtherTurns(u) <= AttemptLimit(|s.peers|)
  {
    RoundsAre(cfg.totalChunks, g);
    FewTurns(cfg, s, g, u);
  }

  lemma PairedSpread(cfg: Config, s: State, a: Action, g: nat, gid: string, u: Tour)
    requires Paired(cfg, s, g, gid, u) && Enabled(cfg, s, a) && StepFavours(cfg, false, s, a, gid)
    ensures Spread(Apply(cfg, s, a), TourAfter(s, a, g, u, true))
  {
    if a.AcquirePeer? {
      TurnIsTaken(cfg, s, a.w);
      SpreadAcquire(cfg, s, a.w, g, u);
    } else {
      if a.TakeJob? && OtherTurns(u) == 1 && s.queue != [] { NotTakenAgain(cfg, s, a.w, g, u); }
      hide Spread, Apply, OnTour, JobInv;
      SpreadOther(cfg, s, a, g, u);
    }
  }

  lemma UntouchedAttempts(cfg: Config, s: State, w: nat, g: nat, u: Tour)
    requires Shaped(cfg, s) && OnTour(cfg, s, g, u) && Spread(s, u) && w < |s.workers| && s.workers[w].Acquiring?
    ensures OtherTurns(u) == 1 ==> s.attempts[s.workers[w].job] == 0
  {
    assert StageShaped(cfg, s, s.workers[w]) && StageOnTour(cfg, s.attempts, s.workers[w], g, u);
    if OtherTurns(u) == 1 { assert StageUntouched(s.workers[w], u) && Unstarted(u, s.workers[w].job); }
  }

  lemma {:induction false} PairedAlong(cfg: Config, s: State, acts: seq<Action>, g: nat, gid: string, u: Tour)
    requires Paired(cfg, s, g, gid, u) && Exec(cfg, s, acts).Some? && RunFavours(cfg, false, s, acts, gid)
    ensures !Exec(cfg, s, acts).value.failure
    decreases |acts|
  {
    if acts != [] {
      PairedStep(cfg, s, acts[0], g, gid, u);
      hide Paired;
      PairedAlong(cfg, Apply(cfg, s, acts[0]), acts[1..], g, gid, TourAfter(s, acts[0], g, u, true));
    }
  }

  /** TWO WORKERS and a fixed list of peers.  They cannot give one chunk all the others' turns: the queue puts every
      other chunk before it when it has failed for the first time.  So the sum of the turns
      may even reach the limit. */
  lemma TwoWorkersSuffice(cfg: Config, ids: seq<string>, order: seq<nat>, states: seq<nat>, staging: seq<byte>,
                          reason: string, acts: seq<Action>, g: nat)
    requires Started(cfg, ids, order, states) && g < |ids| && WorkerCount(cfg, |ids|) == 2
    requires NeverFull(cfg.totalChunks, 2, PerPeerLimit(cfg)) && cfg.totalChunks * (|ids| - 1) <= AttemptLimit(|ids|)
    requires Exec(cfg, Initial(cfg, ids, order, states, staging, reason), acts).Some?
    requires RunFavours(cfg, false, Initial(cfg, ids, order, states, staging, reason), acts, ids[g])
    ensures !Exec(cfg, Initial(cfg, ids, order, states, staging, reason), acts).value.failure
  {
    var most := cfg.totalChunks * (|ids| - 1);
    if most < AttemptLimit(|ids|) || g < |ids| - 1 {
      FewChunksSuffice(cfg, ids, order, states, staging, reason, acts, g);
    } else {
      InitialTouring(cfg, ids, order, states, staging, reason, g);
      RoundsAre(cfg.totalChunks, g);
      PairedAlong(cfg, Initial(cfg, ids, order, states, staging, reason), acts, g, ids[g], NO_TOUR);
    }
  }

  // ---------------------------------------------------------------- one peer

  lemma {:induction false} OnlyPeerFlawless(cfg: Config, s: State, acts: seq<Action>, gid: string)
    requires Shaped(cfg, s) && |s.peers| == 1 && s.peers[0].id == gid
    requires Exec(cfg, s, acts).Some? && RunFavours(cfg, false, s, acts, gid)
    ensures Flawless(cfg, acts)
    decreases |acts|
  {
    if acts != [] {
      var a := acts[0];
      StepKeepsShape(cfg, s, a);
      SamePeers(cfg, s, a);
      OnlyPeerFlawless(cfg, Apply(cfg, s, a), acts[1..], gid);
      assert a.Fetch? ==> AsksPeer(s, a.w, gid) by {
        if a.Fetch? { assert StageShaped(cfg, s, s.workers[a.w]); }
      }
      hide Apply, Exec, RunFavours, Shaped, Enabled, Accepted;
      forall i | 0 <= i < |acts|
        ensures (acts[i].Fetch? ==> Accepted(cfg, acts[i].resp)) && (acts[i].Write? ==> acts[i].result.Written?)
      {
        if i > 0 { assert acts[i] == acts[1..][i - 1]; }
      }
    }
  }

  /** ONE PEER.  If it is good and stays the only one, nothing goes wrong. */
  lemma OnePeerSuffices(cfg: Config, ids: seq<string>, order: seq<nat>, states: seq<nat>, staging: seq<byte>,
                        reason: string, acts: seq<Action>)
    requires Started(cfg, ids, order, states) && |ids| == 1
    requires Exec(cfg, Initial(cfg, ids, order, states, staging, reason), acts).Some?
    requires RunFavours(cfg, false, Initial(cfg, ids, order, states, staging, reason), acts, ids[0])
    ensures !Exec(cfg, Initial(cfg, ids, order, states, staging, reason), acts).value.failure
  {
    InitialJobInv(cfg, ids, order, states, staging, reason);
    OnlyPeerFlawless(cfg, Initial(cfg, ids, order, states, staging, reason), acts, ids[0]);
    FlawlessFetchesOnce(cfg, ids, order, states, staging, reason, acts);
  }
}
