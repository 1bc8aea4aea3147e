/** Runs that fail although one of the peers is good. */
module SwarmResonance {
  import opened Wrappers
  import opened Arith
  import opened Sums
  import opened SwarmState
  import opened SwarmJobs
  import opened SwarmCapacity
  import opened SwarmRotation
  import opened SwarmSolo

  /** A favourable run that fails all the same. */
  ghost predicate FailsBy(cfg: Config, arrivals: bool, s: State, acts: seq<Action>, g: string) {
    Exec(cfg, s, acts).Some? && Exec(cfg, s, acts).value.failure && RunFavours(cfg, arrivals, s, acts, g)
  }

  ghost predicate CanFail(cfg: Config, arrivals: bool, s: State, g: string) {
    exists acts :: FailsBy(cfg, arrivals, s, acts, g)
  }

  /** What decides the course of a download that has not failed and is not complete. */
  datatype View = View(queue: seq<nat>, attempts: seq<nat>, peers: seq<Peer>, next: nat, workers: seq<Stage>)

  ghost predicate Shows(s: State, v: View) {
    && v == View(s.queue, s.attempts, s.peers, s.next, s.workers)
    && !s.failure && !s.shutting
  }

  /** Whatever else the state holds, a favourable run from here can fail. */
  ghost predicate Fails(cfg: Config, arrivals: bool, v: View, g: string) {
    forall s :: JobInv(cfg, s) && Shows(s, v) ==> CanFail(cfg, arrivals, s, g)
  }

  ghost predicate GoesTo(cfg: Config, arrivals: bool, s: State, a: Action, v: View, g: string) {
    Shaped(cfg, s) && Enabled(cfg, s, a) && StepFavours(cfg, arrivals, s, a, g) && Shows(Apply(cfg, s, a), v)
  }

  lemma StepCanFail(cfg: Config, arrivals: bool, s: State, a: Action, g: string)
    requires Shaped(cfg, s) && Enabled(cfg, s, a) && StepFavours(cfg, arrivals, s, a, g)
    requires CanFail(cfg, arrivals, Apply(cfg, s, a), g)
    ensures CanFail(cfg, arrivals, s, g)
  {
    var acts :| FailsBy(cfg, arrivals, Apply(cfg, s, a), acts, g);
    assert ([a] + acts)[1..] == acts;
    assert FailsBy(cfg, arrivals, s, [a] + acts, g);
  }

  /** A step from every state that shows one view to states that show another. */
  lemma Back(cfg: Config, arrivals: bool, v: View, a: Action, u: View, g: string)
    requires forall s :: JobInv(cfg, s) && Shows(s, v) ==> GoesTo(cfg, arrivals, s, a, u, g)
    requires Fails(cfg, arrivals, u, g)
    ensures Fails(cfg, arrivals, v, g)
  {
    forall s | JobInv(cfg, s) && Shows(s, v)
      ensures CanFail(cfg, arrivals, s, g)
    {
      assert GoesTo(cfg, arrivals, s, a, u, g);
      JobInvStep(cfg, s, a);
      assert CanFail(cfg, arrivals, Apply(cfg, s, a), g);
      StepCanFail(cfg, arrivals, s, a, g);
    }
  }

  // ---------------------------------------------------------------- single steps

  predicate Has(v: View, w: nat) { w < |v.workers| && |v.peers| > 0 && v.next < |v.peers| }

  function Moved(v: View, w: nat, st: Stage): View
    requires w < |v.workers|
  {
    v.(workers := v.workers[w := st])
  }

  lemma CheckBack(cfg: Config, arrivals: bool, v: View, w: nat, g: string)
    requires Has(v, w) && v.workers[w].Top? && Fails(cfg, arrivals, Moved(v, w, Taking), g)
    ensures Fails(cfg, arrivals, v, g)
  {
    hide Fails;
    Back(cfg, arrivals, v, CheckFailure(w), Moved(v, w, Taking), g);
  }

  lemma TakeBack(cfg: Config, arrivals: bool, v: View, w: nat, g: string)
    requires Has(v, w) && v.workers[w].Taking? && v.queue != []
    requires Fails(cfg, arrivals, Moved(v, w, Acquiring(v.queue[0])).(queue := v.queue[1..]), g)
    ensures Fails(cfg, arrivals, v, g)
  {
    hide Fails;
    Back(cfg, arrivals, v, TakeJob(w), Moved(v, w, Acquiring(v.queue[0])).(queue := v.queue[1..]), g);
  }

  function Busier(peers: seq<Peer>, slot: nat): seq<Peer>
    requires slot < |peers|
  {
    peers[slot := peers[slot].(outstanding := peers[slot].outstanding + 1)]
  }

  lemma AcquireBack(cfg: Config, arrivals: bool, v: View, w: nat, slot: nat, g: string)
    requires Has(v, w) && v.workers[w].Acquiring? && ScanFrom(cfg, v.peers, v.next, 0) == Some(slot)
    requires Fails(cfg, arrivals,
                   Moved(v, w, Fetching(v.workers[w].job, slot)).(peers := Busier(v.peers, slot),
                                                                  next := Next(|v.peers|, slot)), g)
    ensures Fails(cfg, arrivals, v, g)
  {
    hide Fails;
    DivModUnique(slot + 1, |v.peers|, if slot + 1 == |v.peers| then 1 else 0, Next(|v.peers|, slot));
    ScanFindsCapacity(cfg, v.peers, v.next);
    hide ScanFrom, HasCapacity;
    Back(cfg, arrivals, v, AcquirePeer(w),
         Moved(v, w, Fetching(v.workers[w].job, slot)).(peers := Busier(v.peers, slot),
                                                        next := Next(|v.peers|, slot)), g);
  }

  lemma FetchBack(cfg: Config, arrivals: bool, v: View, w: nat, resp: Response, g: string)
    requires Has(v, w) && v.workers[w].Fetching? && v.workers[w].slot < |v.peers|
    requires v.peers[v.workers[w].slot].id == g ==> Accepted(cfg, resp)
    requires Fails(cfg, arrivals, Moved(v, w, Releasing(v.workers[w].job, v.workers[w].slot, resp)), g)
    ensures Fails(cfg, arrivals, v, g)
  {
    hide Fails, Accepted;
    Back(cfg, arrivals, v, Fetch(w, resp), Moved(v, w, Releasing(v.workers[w].job, v.workers[w].slot, resp)), g);
  }

  /** Release after the outstanding count was raised from that of `peers`. */
  lemma ReleaseBack(cfg: Config, arrivals: bool, v: View, w: nat, peers: seq<Peer>, g: string)
    requires Has(v, w) && v.workers[w].Releasing? && v.workers[w].slot < |peers|
    requires v.peers == Busier(peers, v.workers[w].slot)
    requires Fails(cfg, arrivals,
                   Moved(v, w, Judging(v.workers[w].job, v.workers[w].slot, v.workers[w].resp)).(peers := peers), g)
    ensures Fails(cfg, arrivals, v, g)
  {
    hide Fails;
    var slot := v.workers[w].slot;
    assert v.peers[slot := v.peers[slot].(outstanding := v.peers[slot].outstanding - 1)] == peers;
    Back(cfg, arrivals, v, ReleasePeer(w),
         Moved(v, w, Judging(v.workers[w].job, slot, v.workers[w].resp)).(peers := peers), g);
  }

  const NO_ANSWER := Response(false, [], "")
  const DATA := Response(true, [0], "")

  function Failed(v: View, w: nat): View
    requires w < |v.workers| && v.workers[w].Judging? && v.workers[w].job < |v.attempts|
  {
    var job := v.workers[w].job;
    var tries := v.attempts[job] + 1;
    Moved(v, w, Requeueing(job, NOT_DOWNLOADED, tries >= AttemptLimit(|v.peers|), false))
      .(attempts := v.attempts[job := tries])
  }

  lemma JudgeBadBack(cfg: Config, arrivals: bool, v: View, w: nat, g: string)
    requires Has(v, w) && v.workers[w].Judging? && v.workers[w].resp == NO_ANSWER && v.workers[w].job < |v.attempts|
    requires Fails(cfg, arrivals, Failed(v, w), g)
    ensures Fails(cfg, arrivals, v, g)
  {
    hide Fails, AttemptLimit;
    Back(cfg, arrivals, v, Judge(w), Failed(v, w), g);
  }

  lemma JudgeGoodBack(cfg: Config, arrivals: bool, v: View, w: nat, g: string)
    requires Has(v, w) && v.workers[w].Judging? && v.workers[w].resp == DATA
    requires Fails(cfg, arrivals, Moved(v, w, Writing(v.workers[w].job, v.workers[w].slot, DATA.data)), g)
    ensures Fails(cfg, arrivals, v, g)
  {
    hide Fails;
    Back(cfg, arrivals, v, Judge(w), Moved(v, w, Writing(v.workers[w].job, v.workers[w].slot, DATA.data)), g);
  }

  lemma WriteBack(cfg: Config, arrivals: bool, v: View, w: nat, g: string)
    requires Has(v, w) && v.workers[w].Writing?
    requires Fails(cfg, arrivals, Moved(v, w, Recording(v.workers[w].job, v.workers[w].slot, v.workers[w].data)), g)
    ensures Fails(cfg, arrivals, v, g)
  {
    hide Fails, Splice;
    Back(cfg, arrivals, v, Write(w, Written),
         Moved(v, w, Recording(v.workers[w].job, v.workers[w].slot, v.workers[w].data)), g);
  }

  lemma RecordBack(cfg: Config, arrivals: bool, v: View, w: nat, g: string)
    requires Has(v, w) && v.workers[w].Recording? && Fails(cfg, arrivals, Moved(v, w, Completing(v.workers[w].job)), g)
    ensures Fails(cfg, arrivals, v, g)
  {
    hide Fails, StatOf;
    Back(cfg, arrivals, v, Record(w), Moved(v, w, Completing(v.workers[w].job)), g);
  }

  /** Some chunk is waiting besides the one in question. */
  predicate Open(v: View, w: nat) {
    v.queue != [] || exists x :: 0 <= x < |v.workers| && x != w && Holding(v.workers[x])
  }

  lemma CompleteLeads(cfg: Config, arrivals: bool, s: State, v: View, w: nat, g: string)
    requires JobInv(cfg, s) && Shows(s, v) && Has(v, w) && v.workers[w].Completing? && Open(v, w)
    ensures GoesTo(cfg, arrivals, s, Complete(w), Moved(v, w, Top), g)
  {
    var t := Apply(cfg, s, Complete(w));
    JobInvStep(cfg, s, Complete(w));
    StillOpen(v, View(t.queue, t.attempts, t.peers, t.next, t.workers), w);
    if t.shutting { CompletedMeansIdle(cfg, t); }
  }

  lemma CompleteBack(cfg: Config, arrivals: bool, v: View, w: nat, g: string)
    requires Has(v, w) && v.workers[w].Completing? && Open(v, w) && Fails(cfg, arrivals, Moved(v, w, Top), g)
    ensures Fails(cfg, arrivals, v, g)
  {
    hide Fails, Open;
    forall s | JobInv(cfg, s) && Shows(s, v) ensures GoesTo(cfg, arrivals, s, Complete(w), Moved(v, w, Top), g) {
      CompleteLeads(cfg, arrivals, s, v, w, g);
    }
    hide GoesTo, JobInv, Shows;
    Back(cfg, arrivals, v, Complete(w), Moved(v, w, Top), g);
  }

  lemma RequeueBack(cfg: Config, arrivals: bool, v: View, w: nat, g: string)
    requires Has(v, w) && v.workers[w].Requeueing? && !v.workers[w].fatal && !v.workers[w].quits
    requires Fails(cfg, arrivals, Moved(v, w, Top).(queue := v.queue + [v.workers[w].job]), g)
    ensures Fails(cfg, arrivals, v, g)
  {
    hide Fails;
    Back(cfg, arrivals, v, Requeue(w), Moved(v, w, Top).(queue := v.queue + [v.workers[w].job]), g);
  }

  lemma FatalFails(cfg: Config, arrivals: bool, v: View, w: nat, g: string)
    requires Has(v, w) && v.workers[w].Requeueing? && v.workers[w].fatal
    ensures Fails(cfg, arrivals, v, g)
  {
    forall s | JobInv(cfg, s) && Shows(s, v) ensures CanFail(cfg, arrivals, s, g) {
      JobInvStep(cfg, s, Requeue(w));
      assert FailsBy(cfg, arrivals, Apply(cfg, s, Requeue(w)), [], g);
      StepCanFail(cfg, arrivals, s, Requeue(w), g);
    }
  }

  /** A new peer turns up. */
  lemma ArriveBack(cfg: Config, v: View, id: string, g: string)
    requires id != "" && !KnownPeer(v.peers, id) && Fails(cfg, true, v.(peers := v.peers + [Peer(id, 0)]), g)
    ensures Fails(cfg, true, v, g)
  {
    hide Fails, StatOf;
    Back(cfg, true, v, AddPeer(id), v.(peers := v.peers + [Peer(id, 0)]), g);
  }

  // ---------------------------------------------------------------- whole turns

  function Grabbed(v: View, w: nat): View
    requires w < |v.workers| && v.queue != []
  {
    Moved(v, w, Acquiring(v.queue[0])).(queue := v.queue[1..])
  }

  /** An idle worker takes the next chunk. */
  lemma GrabBack(cfg: Config, arrivals: bool, v: View, w: nat, g: string)
    requires Has(v, w) && v.workers[w].Top? && v.queue != [] && Fails(cfg, arrivals, Grabbed(v, w), g)
    ensures Fails(cfg, arrivals, v, g)
  {
    hide Fails;
    var v1 := Moved(v, w, Taking);
    assert Moved(v1, w, Acquiring(v.queue[0])).(queue := v.queue[1..]) == Grabbed(v, w);
    TakeBack(cfg, arrivals, v1, w, g);
    CheckBack(cfg, arrivals, v, w, g);
  }

  /** The worker's chunk has gone to a peer and come back: as good data, or not at all. */
  predicate TakesTurn(cfg: Config, v: View, w: nat, slot: nat) {
    Has(v, w) && v.workers[w].Acquiring? && ScanFrom(cfg, v.peers, v.next, 0) == Some(slot)
  }

  lemma AnswerBack(cfg: Config, arrivals: bool, v: View, w: nat, slot: nat, resp: Response, g: string)
    requires TakesTurn(cfg, v, w, slot) && (v.peers[slot].id == g ==> Accepted(cfg, resp))
    requires Fails(cfg, arrivals, Moved(v, w, Judging(v.workers[w].job, slot, resp)).(next := Next(|v.peers|, slot)), g)
    ensures Fails(cfg, arrivals, v, g)
  {
    hide Fails, Accepted, ScanFrom;
    var job := v.workers[w].job;
    var v1 := Moved(v, w, Fetching(job, slot)).(peers := Busier(v.peers, slot), next := Next(|v.peers|, slot));
    var v2 := Moved(v1, w, Releasing(job, slot, resp));
    assert Moved(v2, w, Judging(job, slot, resp)).(peers := v.peers) ==
           Moved(v, w, Judging(job, slot, resp)).(next := Next(|v.peers|, slot));
    ReleaseBack(cfg, arrivals, v2, w, v.peers, g);
    FetchBack(cfg, arrivals, v1, w, resp, g);
    AcquireBack(cfg, arrivals, v, w, slot, g);
  }

  function Served(v: View, w: nat, slot: nat): View
    requires w < |v.workers|
  {
    Moved(v, w, Top).(next := Next(|v.peers|, slot))
  }

  /** The chunk arrives and is written. */
  lemma ServeBack(cfg: Config, arrivals: bool, v: View, w: nat, slot: nat, g: string)
    requires TakesTurn(cfg, v, w, slot) && Open(v, w) && Fails(cfg, arrivals, Served(v, w, slot), g)
    ensures Fails(cfg, arrivals, v, g)
  {
    hide Fails, ScanFrom;
    var job := v.workers[w].job;
    var v1 := Moved(v, w, Judging(job, slot, DATA)).(next := Next(|v.peers|, slot));
    var v2 := Moved(v1, w, Writing(job, slot, DATA.data));
    var v3 := Moved(v2, w, Recording(job, slot, DATA.data));
    var v4 := Moved(v3, w, Completing(job));
    assert Moved(v4, w, Top) == Served(v, w, slot);
    StillOpen(v, v4, w);
    CompleteBack(cfg, arrivals, v4, w, g);
    RecordBack(cfg, arrivals, v3, w, g);
    WriteBack(cfg, arrivals, v2, w, g);
    JudgeGoodBack(cfg, arrivals, v1, w, g);
    assert Accepted(cfg, DATA);
    AnswerBack(cfg, arrivals, v, w, slot, DATA, g);
  }

  lemma StillOpen(v: View, u: View, w: nat)
    requires Open(v, w) && u.queue == v.queue && |u.workers| == |v.workers|
    requires forall x :: 0 <= x < |v.workers| && x != w ==> u.workers[x] == v.workers[x]
    ensures Open(u, w)
  {
    if v.queue == [] {
      var x :| 0 <= x < |v.workers| && x != w && Holding(v.workers[x]);
      assert Holding(u.workers[x]);
    }
  }

  function Tried(v: View, w: nat, slot: nat): View
    requires w < |v.workers| && v.workers[w].Acquiring? && v.workers[w].job < |v.attempts|
  {
    var job := v.workers[w].job;
    Moved(v, w, Top).(queue := v.queue + [job], attempts := v.attempts[job := v.attempts[job] + 1],
                      next := Next(|v.peers|, slot))
  }

  /** The chunk fails, for good if that was its last attempt. */
  lemma TryBack(cfg: Config, arrivals: bool, v: View, w: nat, slot: nat, g: string)
    requires TakesTurn(cfg, v, w, slot) && v.peers[slot].id != g && v.workers[w].job < |v.attempts|
    requires v.attempts[v.workers[w].job] + 1 >= AttemptLimit(|v.peers|) || Fails(cfg, arrivals, Tried(v, w, slot), g)
    ensures Fails(cfg, arrivals, v, g)
  {
    hide Fails, ScanFrom, AttemptLimit;
    var job := v.workers[w].job;
    var v1 := Moved(v, w, Judging(job, slot, NO_ANSWER)).(next := Next(|v.peers|, slot));
    var v2 := Failed(v1, w);
    if v2.workers[w].fatal {
      FatalFails(cfg, arrivals, v2, w, g);
    } else {
      assert Moved(v2, w, Top).(queue := v2.queue + [job]) == Tried(v, w, slot);
      RequeueBack(cfg, arrivals, v2, w, g);
    }
    JudgeBadBack(cfg, arrivals, v1, w, g);
    AnswerBack(cfg, arrivals, v, w, slot, NO_ANSWER, g);
  }

  function Occupied(v: View, w: nat, slot: nat): View
    requires w < |v.workers| && v.workers[w].Acquiring? && slot < |v.peers|
  {
    Moved(v, w, Fetching(v.workers[w].job, slot)).(peers := Busier(v.peers, slot), next := Next(|v.peers|, slot))
  }

  // ---------------------------------------------------------------- peers with room

  /** Nobody is asking anyone, and `gi` is the good peer's place. */
  ghost predicate Idle(cfg: Config, peers: seq<Peer>, gi: nat, g: string) {
    && gi < |peers| && peers[gi].id == g && DistinctIds(peers)
    && forall p :: 0 <= p < |peers| ==> peers[p].outstanding == 0
  }

  lemma IdleTurn(cfg: Config, v: View, w: nat, gi: nat, g: string)
    requires Idle(cfg, v.peers, gi, g) && Has(v, w) && v.workers[w].Acquiring?
    ensures TakesTurn(cfg, v, w, v.next) && (v.peers[v.next].id == g <==> v.next == gi)
  {
    ScanTakesNext(cfg, v.peers, v.next);
    hide ScanFrom;
  }

  lemma ServeNext(cfg: Config, arrivals: bool, v: View, w: nat, gi: nat, g: string)
    requires Idle(cfg, v.peers, gi, g) && Has(v, w) && v.workers[w].Acquiring? && Open(v, w)
    requires Fails(cfg, arrivals, Served(v, w, v.next), g)
    ensures Fails(cfg, arrivals, v, g)
  {
    IdleTurn(cfg, v, w, gi, g);
    hide Fails;
    ServeBack(cfg, arrivals, v, w, v.next, g);
  }

  lemma TryNext(cfg: Config, arrivals: bool, v: View, w: nat, gi: nat, g: string)
    requires Idle(cfg, v.peers, gi, g) && Has(v, w) && v.workers[w].Acquiring? && v.workers[w].job < |v.attempts|
    requires v.next != gi && Fails(cfg, arrivals, Tried(v, w, v.next), g)
    ensures Fails(cfg, arrivals, v, g)
  {
    IdleTurn(cfg, v, w, gi, g);
    hide Fails;
    TryBack(cfg, arrivals, v, w, v.next, g);
  }

  /** One chunk takes every turn of the other peers until it is the good peer's. */
  lemma {:induction false} Drill(cfg: Config, arrivals: bool, v: View, w: nat, gi: nat, g: string)
    requires Idle(cfg, v.peers, gi, g) && Has(v, w) && v.workers[w].Acquiring? && v.queue == []
    requires v.workers[w].job < |v.attempts| && v.attempts[v.workers[w].job] < AttemptLimit(|v.peers|)
    requires var x, k := v.workers[w].job, Ahead(|v.peers|, gi, v.next);
             v.attempts[x] + k >= AttemptLimit(|v.peers|) ||
             Fails(cfg, arrivals, v.(attempts := v.attempts[x := v.attempts[x] + k], next := gi), g)
    ensures Fails(cfg, arrivals, v, g)
    decreases Ahead(|v.peers|, gi, v.next)
  {
    hide Fails, AttemptLimit;
    var x := v.workers[w].job;
    if v.next == gi {
      assert v.(attempts := v.attempts[x := v.attempts[x] + 0], next := gi) == v;
    } else {
      IdleTurn(cfg, v, w, gi, g);
      if v.attempts[x] + 1 < AttemptLimit(|v.peers|) {
        var u := Tried(v, w, v.next);
        var u1 := Grabbed(u, w);
        var k := Ahead(|v.peers|, gi, u1.next);
        assert u1.workers == v.workers && u1.queue == [];
        assert u1.attempts[x := u1.attempts[x] + k] == v.attempts[x := v.attempts[x] + 1 + k];
        assert u1.(attempts := u1.attempts[x := u1.attempts[x] + k], next := gi) ==
               v.(attempts := v.attempts[x := v.attempts[x] + (k + 1)], next := gi);
        Drill(cfg, arrivals, u1, w, gi, g);
        GrabBack(cfg, arrivals, u, w, g);
      }
      TryBack(cfg, arrivals, v, w, v.next, g);
    }
  }

  // ---------------------------------------------------------------- one chunk against the rest

  /** The worker holds the only chunk left that matters and gets at least `k` more turns of
      others than the limit asks for. */
  lemma DrillOut(cfg: Config, arrivals: bool, v: View, w: nat, gi: nat, g: string)
    requires Idle(cfg, v.peers, gi, g) && Has(v, w) && v.workers[w].Acquiring? && v.queue == []
    requires v.workers[w].job < |v.attempts| && v.attempts[v.workers[w].job] < AttemptLimit(|v.peers|)
    requires v.attempts[v.workers[w].job] + Ahead(|v.peers|, gi, v.next) >= AttemptLimit(|v.peers|)
    ensures Fails(cfg, arrivals, v, g)
  {
    hide Fails;
    Drill(cfg, arrivals, v, w, gi, g);
  }

  /** Drill until it is the good peer's turn, and let another worker's chunk take it. */
  lemma DrillAndServe(cfg: Config, arrivals: bool, v: View, w: nat, other: nat, gi: nat, g: string)
    requires Idle(cfg, v.peers, gi, g) && Has(v, w) && Has(v, other) && other != w
    requires v.workers[w].Acquiring? && v.workers[other].Acquiring? && v.queue == []
    requires v.workers[w].job < |v.attempts| && v.attempts[v.workers[w].job] < AttemptLimit(|v.peers|)
    requires var x, k := v.workers[w].job, Ahead(|v.peers|, gi, v.next);
             Fails(cfg, arrivals, Moved(v, other, Top).(attempts := v.attempts[x := v.attempts[x] + k],
                                                        next := Next(|v.peers|, gi)), g)
    ensures Fails(cfg, arrivals, v, g)
  {
    hide Fails, AttemptLimit;
    var x, k := v.workers[w].job, Ahead(|v.peers|, gi, v.next);
    var u := v.(attempts := v.attempts[x := v.attempts[x] + k], next := gi);
    assert Served(u, other, gi) == Moved(v, other, Top).(attempts := u.attempts, next := Next(|v.peers|, gi));
    assert Holding(u.workers[w]);
    ServeNext(cfg, arrivals, u, other, gi, g);
    Drill(cfg, arrivals, v, w, gi, g);
  }

  /** Two chunks are left, held by workers `a` and `b`, and the good peer has just had its
      turn: its next one goes to the chunk of `b`. */
  lemma LastTwo(cfg: Config, arrivals: bool, v: View, a: nat, b: nat, gi: nat, g: string)
    requires Idle(cfg, v.peers, gi, g) && Has(v, a) && Has(v, b) && a != b && v.next == Next(|v.peers|, gi)
    requires v.workers[a].Acquiring? && v.workers[b].Acquiring? && v.queue == []
    requires v.workers[a].job < |v.attempts| && v.attempts[v.workers[a].job] < AttemptLimit(|v.peers|)
    requires v.attempts[v.workers[a].job] + 2 * (|v.peers| - 1) >= AttemptLimit(|v.peers|)
    ensures Fails(cfg, arrivals, v, g)
  {
    hide Fails;
    var p, x := |v.peers|, v.workers[a].job;
    AheadStep(p, gi, gi);
    var u := Moved(v, b, Top).(attempts := v.attempts[x := v.attempts[x] + (p - 1)], next := Next(p, gi));
    if u.attempts[x] >= AttemptLimit(p) {
      DrillOut(cfg, arrivals, v, a, gi, g);
    } else {
      DrillOut(cfg, arrivals, u, a, gi, g);
      DrillAndServe(cfg, arrivals, v, a, b, gi, g);
    }
  }

  predicate AtTop(v: View, k: nat) {
    k <= |v.workers| && forall w :: 0 <= w < k ==> v.workers[w].Top?
  }

  predicate NewChunks(v: View) {
    forall i :: 0 <= i < |v.queue| ==> v.queue[i] < |v.attempts| && v.attempts[v.queue[i]] == 0
  }

  predicate DistinctChunks(v: View) {
    forall i, k :: 0 <= i < k < |v.queue| ==> v.queue[i] != v.queue[k]
  }

  /** The good peer's place, and how far ahead its turn is. */
  ghost predicate Arena(cfg: Config, v: View, gi: nat, g: string, p: nat, ahead: nat) {
    && Idle(cfg, v.peers, gi, g) && |v.peers| == p && v.next < p && Ahead(p, gi, v.next) == ahead
    && NewChunks(v) && DistinctChunks(v)
  }

  // ---------------------------------------------------------------- three workers

  /** Three workers, three chunks, at least three peers. */
  lemma ThreeWorkersFail(cfg: Config, arrivals: bool, v: View, gi: nat, g: string, p: nat)
    requires p >= 3 && Arena(cfg, v, gi, g, p, p - 1) && AtTop(v, 3) && |v.queue| == 3
    ensures Fails(cfg, arrivals, v, g)
  {
    assert gi < p;
    hide Fails, Idle;
    var x := v.queue[2];
    var u1 := Grabbed(v, 1);
    var u2 := Grabbed(u1, 2);
    var u3 := Grabbed(u2, 0);
    AheadStep(p, gi, gi);
    LastTwo(cfg, arrivals, Moved(u3, 1, Top).(attempts := v.attempts[x := p - 1], next := Next(p, gi)), 0, 2, gi, g);
    DrillAndServe(cfg, arrivals, u3, 0, 1, gi, g);
    GrabBack(cfg, arrivals, u2, 0, g);
    GrabBack(cfg, arrivals, u1, 2, g);
    GrabBack(cfg, arrivals, v, 1, g);
  }

  /** Three workers, four chunks, two peers. */
  lemma ThreeWorkersTwoPeersFail(cfg: Config, arrivals: bool, v: View, gi: nat, g: string)
    requires Arena(cfg, v, gi, g, 2, 1) && AtTop(v, 3) && |v.queue| == 4
    ensures Fails(cfg, arrivals, v, g)
  {
    assert gi < 2;
    hide Fails, Idle;
    var x := v.queue[2];
    var u1 := Grabbed(v, 1);
    var u2 := Grabbed(u1, 2);
    var u3 := Grabbed(u2, 0);
    AheadStep(2, gi, v.next);
    var u4 := Tried(u3, 0, v.next);
    var u5 := Served(u4, 1, gi);
    AfterFirst(cfg, arrivals, u5, x, gi, g);
    ServeNext(cfg, arrivals, u4, 1, gi, g);
    TryNext(cfg, arrivals, u3, 0, gi, g);
    GrabBack(cfg, arrivals, u2, 0, g);
    GrabBack(cfg, arrivals, u1, 2, g);
    GrabBack(cfg, arrivals, v, 1, g);
  }

  /** The failed chunk is second in the queue, with two workers free for it and the first. */
  lemma AfterFirst(cfg: Config, arrivals: bool, v: View, x: nat, gi: nat, g: string)
    requires Idle(cfg, v.peers, gi, g) && |v.peers| == 2 && v.next == Next(2, gi)
    requires AtTop(v, 2) && |v.workers| > 2 && v.workers[2].Acquiring?
    requires |v.queue| == 2 && v.queue[1] == x && x < |v.attempts| && v.attempts[x] == 1
    ensures Fails(cfg, arrivals, v, g)
  {
    assert gi < 2;
    hide Fails, Idle;
    var u1 := Grabbed(v, 1);
    var u2 := Grabbed(u1, 0);
    AheadStep(2, gi, gi);
    LastTwo(cfg, arrivals, Moved(u2, 2, Top).(attempts := v.attempts[x := 2]), 0, 1, gi, g);
    DrillAndServe(cfg, arrivals, u2, 0, 2, gi, g);
    GrabBack(cfg, arrivals, u1, 0, g);
    GrabBack(cfg, arrivals, v, 1, g);
  }

  // ---------------------------------------------------------------- two workers

  /** Two workers hold chunk `x` and another one, with `x` ahead of it in the queue at last. */
  lemma BothTaken(cfg: Config, arrivals: bool, v: View, a: nat, b: nat, x: nat, gi: nat, g: string)
    requires Idle(cfg, v.peers, gi, g) && v.next == Next(|v.peers|, gi)
    requires a < |v.workers| && b < |v.workers| && a != b && v.workers[a].Top? && v.workers[b].Top?
    requires |v.queue| == 2 && v.queue[0] == x && x < |v.attempts| && v.attempts[x] < AttemptLimit(|v.peers|)
    requires v.attempts[x] + 2 * (|v.peers| - 1) >= AttemptLimit(|v.peers|)
    ensures Fails(cfg, arrivals, v, g)
  {
    assert gi < |v.peers|;
    hide Fails, Idle, AttemptLimit;
    var u1 := Grabbed(v, a);
    var u2 := Grabbed(u1, b);
    LastTwo(cfg, arrivals, u2, a, b, gi, g);
    GrabBack(cfg, arrivals, u1, b, g);
    GrabBack(cfg, arrivals, v, a, g);
  }

  /** Two workers, three chunks, at least four peers. */
  lemma TwoWorkersFail(cfg: Config, arrivals: bool, v: View, gi: nat, g: string, p: nat)
    requires Arena(cfg, v, gi, g, p, 3) && p >= 4 && AtTop(v, 2) && |v.queue| == 3
    ensures Fails(cfg, arrivals, v, g)
  {
    assert gi < p;
    hide Fails, Idle;
    var x, y := v.queue[1], v.queue[2];
    var u1 := Grabbed(v, 1);
    var u2 := Grabbed(u1, 0);
    AheadStep(p, gi, v.next);
    var u3 := Tried(u2, 0, v.next);
    assert u3.queue == [y, x];
    AheadStep(p, gi, u3.next);
    SecondTry(cfg, arrivals, u3, x, y, gi, g, p);
    TryNext(cfg, arrivals, u2, 0, gi, g);
    GrabBack(cfg, arrivals, u1, 0, g);
    GrabBack(cfg, arrivals, v, 1, g);
  }

  lemma SecondTry(cfg: Config, arrivals: bool, v: View, x: nat, y: nat, gi: nat, g: string, p: nat)
    requires Idle(cfg, v.peers, gi, g) && |v.peers| == p >= 4 && v.next < p && Ahead(p, gi, v.next) == 2
    requires |v.workers| >= 2 && v.workers[0].Top? && v.workers[1].Acquiring? && v.queue == [y, x] && x != y
    requires x < |v.attempts| && y < |v.attempts| && v.attempts[x] == 1 && v.attempts[y] == 0
    ensures Fails(cfg, arrivals, v, g)
  {
    assert gi < p;
    hide Fails, Idle;
    var u1 := Grabbed(v, 0);
    AheadStep(p, gi, v.next);
    var u2 := Tried(u1, 0, v.next);
    assert u2.queue == [x, y];
    var u3 := Grabbed(u2, 0);
    AheadStep(p, gi, u3.next);
    var u4 := Tried(u3, 0, u3.next);
    assert u4.queue == [y, x] && u4.next == gi;
    var u5 := Served(u4, 1, gi);
    LastPair(cfg, arrivals, u5, x, y, gi, g);
    ServeNext(cfg, arrivals, u4, 1, gi, g);
    TryNext(cfg, arrivals, u3, 0, gi, g);
    GrabBack(cfg, arrivals, u2, 0, g);
    TryNext(cfg, arrivals, u1, 0, gi, g);
    GrabBack(cfg, arrivals, v, 0, g);
  }

  /** As `BothTaken`, with the other chunk first in the queue. */
  lemma LastPair(cfg: Config, arrivals: bool, v: View, x: nat, y: nat, gi: nat, g: string)
    requires Idle(cfg, v.peers, gi, g) && v.next == Next(|v.peers|, gi)
    requires AtTop(v, 2) && v.queue == [y, x] && x < |v.attempts| && v.attempts[x] < AttemptLimit(|v.peers|)
    requires v.attempts[x] + 2 * (|v.peers| - 1) >= AttemptLimit(|v.peers|)
    ensures Fails(cfg, arrivals, v, g)
  {
    assert gi < |v.peers|;
    hide Fails, Idle, AttemptLimit;
    var u1 := Grabbed(v, 1);
    var u2 := Grabbed(u1, 0);
    LastTwo(cfg, arrivals, u2, 0, 1, gi, g);
    GrabBack(cfg, arrivals, u1, 0, g);
    GrabBack(cfg, arrivals, v, 1, g);
  }

  /** Two workers, four chunks, three peers. */
  lemma TwoWorkersThreePeersFail(cfg: Config, arrivals: bool, v: View, gi: nat, g: string)
    requires Arena(cfg, v, gi, g, 3, 2) && AtTop(v, 2) && |v.queue| == 4
    ensures Fails(cfg, arrivals, v, g)
  {
    assert gi < 3;
    hide Fails, Idle;
    var x, y, z := v.queue[1], v.queue[2], v.queue[3];
    var u1 := Grabbed(v, 1);
    var u2 := Grabbed(u1, 0);
    AheadStep(3, gi, v.next);
    var u3 := Tried(u2, 0, v.next);
    assert u3.queue == [y, z, x];
    var u4 := Grabbed(u3, 0);
    AheadStep(3, gi, u3.next);
    var u5 := Tried(u4, 0, u3.next);
    assert u5.queue == [z, x, y] && u5.next == gi;
    var u6 := Served(u5, 1, gi);
    SecondRound(cfg, arrivals, u6, x, y, z, gi, g);
    ServeNext(cfg, arrivals, u5, 1, gi, g);
    TryNext(cfg, arrivals, u4, 0, gi, g);
    GrabBack(cfg, arrivals, u3, 0, g);
    TryNext(cfg, arrivals, u2, 0, gi, g);
    GrabBack(cfg, arrivals, u1, 0, g);
    GrabBack(cfg, arrivals, v, 1, g);
  }

  lemma SecondRound(cfg: Config, arrivals: bool, v: View, x: nat, y: nat, z: nat, gi: nat, g: string)
    requires Idle(cfg, v.peers, gi, g) && |v.peers| == 3 && v.next == Next(3, gi)
    requires AtTop(v, 2) && v.queue == [z, x, y] && x != y
    requires x < |v.attempts| && y < |v.attempts| && v.attempts[x] == 1
    requires v.attempts[y] == 1
    ensures Fails(cfg, arrivals, v, g)
  {
    assert gi < 3;
    hide Fails, Idle;
    var u1 := Grabbed(v, 1);
    var u2 := Grabbed(u1, 0);
    AheadStep(3, gi, gi);
    AheadStep(3, gi, v.next);
    var u3 := Tried(u2, 0, v.next);
    assert u3.queue == [y, x];
    var u4 := Grabbed(u3, 0);
    AheadStep(3, gi, u3.next);
    var u5 := Tried(u4, 0, u3.next);
    assert u5.queue == [x, y] && u5.next == gi;
    BothTaken(cfg, arrivals, Served(u5, 1, gi), 0, 1, x, gi, g);
    ServeNext(cfg, arrivals, u5, 1, gi, g);
    TryNext(cfg, arrivals, u4, 0, gi, g);
    GrabBack(cfg, arrivals, u3, 0, g);
    TryNext(cfg, arrivals, u2, 0, gi, g);
    GrabBack(cfg, arrivals, u1, 0, g);
    GrabBack(cfg, arrivals, v, 1, g);
  }

  /** Two workers, five chunks, two peers. */
  lemma TwoWorkersTwoPeersFail(cfg: Config, arrivals: bool, v: View, gi: nat, g: string)
    requires Arena(cfg, v, gi, g, 2, 1) && AtTop(v, 2) && |v.queue| == 5
    ensures Fails(cfg, arrivals, v, g)
  {
    assert gi < 2;
    hide Fails, Idle;
    var x, a, b, c := v.queue[1], v.queue[2], v.queue[3], v.queue[4];
    var u1 := Grabbed(v, 1);
    var u2 := Grabbed(u1, 0);
    AheadStep(2, gi, v.next);
    var u3 := Tried(u2, 0, v.next);
    assert u3.queue == [a, b, c, x];
    var u4 := Served(u3, 1, gi);
    FourLeft(cfg, arrivals, u4, x, a, b, c, gi, g);
    ServeNext(cfg, arrivals, u3, 1, gi, g);
    TryNext(cfg, arrivals, u2, 0, gi, g);
    GrabBack(cfg, arrivals, u1, 0, g);
    GrabBack(cfg, arrivals, v, 1, g);
  }

  lemma FourLeft(cfg: Config, arrivals: bool, v: View, x: nat, a: nat, b: nat, c: nat, gi: nat, g: string)
    requires Idle(cfg, v.peers, gi, g) && |v.peers| == 2 && v.next == Next(2, gi)
    requires AtTop(v, 2) && v.queue == [a, b, c, x] && a != x
    requires x < |v.attempts| && a < |v.attempts| && v.attempts[x] == 1 && v.attempts[a] == 0
    ensures Fails(cfg, arrivals, v, g)
  {
    assert gi < 2;
    hide Fails, Idle;
    var u1 := Grabbed(v, 0);
    var u2 := Grabbed(u1, 1);
    AheadStep(2, gi, gi);
    AheadStep(2, gi, v.next);
    var u3 := Tried(u2, 0, v.next);
    assert u3.queue == [c, x, a];
    var u4 := Grabbed(u3, 0);
    var u5 := Served(u4, 1, gi);
    ThreeLeft(cfg, arrivals, u5, x, a, gi, g);
    ServeNext(cfg, arrivals, u4, 1, gi, g);
    GrabBack(cfg, arrivals, u3, 0, g);
    TryNext(cfg, arrivals, u2, 0, gi, g);
    GrabBack(cfg, arrivals, u1, 1, g);
    GrabBack(cfg, arrivals, v, 0, g);
  }

  lemma ThreeLeft(cfg: Config, arrivals: bool, v: View, x: nat, a: nat, gi: nat, g: string)
    requires Idle(cfg, v.peers, gi, g) && |v.peers| == 2 && v.next == Next(2, gi)
    requires |v.workers| >= 2 && v.workers[0].Acquiring? && v.workers[1].Top? && v.queue == [x, a]
    requires x < |v.attempts| && v.attempts[x] == 1
    ensures Fails(cfg, arrivals, v, g)
  {
    assert gi < 2;
    hide Fails, Idle;
    var u1 := Grabbed(v, 1);
    AheadStep(2, gi, gi);
    AheadStep(2, gi, v.next);
    var u2 := Tried(u1, 1, v.next);
    assert u2.queue == [a, x];
    var u3 := Grabbed(u2, 1);
    var u4 := Served(u3, 0, gi);
    var u5 := Grabbed(u4, 0);
    LastTwo(cfg, arrivals, u5, 0, 1, gi, g);
    GrabBack(cfg, arrivals, u4, 0, g);
    ServeNext(cfg, arrivals, u3, 0, gi, g);
    GrabBack(cfg, arrivals, u2, 1, g);
    TryNext(cfg, arrivals, u1, 1, gi, g);
    GrabBack(cfg, arrivals, v, 1, g);
  }

  // ---------------------------------------------------------------- one worker

  /** A single worker can make the recursion of `SoloTries` come true. */
  lemma {:induction false} SoloFails(cfg: Config, arrivals: bool, v: View, i: nat, gi: nat, g: string)
    requires Idle(cfg, v.peers, gi, g) && v.next < |v.peers| && AtTop(v, 1) && DistinctChunks(v)
    requires i < |v.queue| && forall k :: 0 <= k < |v.queue| ==> v.queue[k] < |v.attempts|
    requires v.attempts[v.queue[i]] < AttemptLimit(|v.peers|)
    requires v.attempts[v.queue[i]] + SoloTries(|v.peers|, gi, v.next, i, |v.queue|) >= AttemptLimit(|v.peers|)
    ensures Fails(cfg, arrivals, v, g)
    decreases |v.queue|, Ahead(|v.peers|, gi, v.next)
  {
    assert gi < |v.peers|;
    hide Fails, Idle, AttemptLimit;
    var u := Grabbed(v, 0);
    AheadStep(|v.peers|, gi, v.next);
    if i == 0 && v.attempts[v.queue[0]] + 1 >= AttemptLimit(|v.peers|) {
      IdleTurn(cfg, u, 0, gi, g);
      TryBack(cfg, arrivals, u, 0, v.next, g);
    } else if i == 0 || (v.next != gi && Stays(v, i, gi)) {
      var t := Tried(u, 0, v.next);
      assert t.queue[if i == 0 then |t.queue| - 1 else i - 1] == v.queue[i];
      SoloFails(cfg, arrivals, t, if i == 0 then |t.queue| - 1 else i - 1, gi, g);
      TryNext(cfg, arrivals, u, 0, gi, g);
    } else {
      SoloFails(cfg, arrivals, Served(u, 0, v.next), i - 1, gi, g);
      ServeNext(cfg, arrivals, u, 0, gi, g);
    }
    GrabBack(cfg, arrivals, v, 0, g);
  }

  /** It is worse for the chunk at `i` if the front chunk fails than if it arrives. */
  predicate Stays(v: View, i: nat, gi: nat)
    requires 0 < i < |v.queue| && gi < |v.peers| && v.next < |v.peers|
  {
    SoloTries(|v.peers|, gi, Next(|v.peers|, v.next), i - 1, |v.queue|) >=
    SoloTries(|v.peers|, gi, Next(|v.peers|, v.next), i - 1, |v.queue| - 1)
  }

  // ---------------------------------------------------------------- even rounds

  function Skip(p: nat, r: nat, k: nat): (q: nat)
    requires r < p
    ensures q < p
    decreases k
  {
    if k == 0 then r else Skip(p, Next(p, r), k - 1)
  }

  /** The chunk moves up while the others' turns fail. */
  lemma {:induction false} MovesUp(p: nat, g: nat, r: nat, i: nat, m: nat, t: nat)
    requires g < p && r < p && t <= i < m && t <= Ahead(p, g, r)
    ensures Ahead(p, g, Skip(p, r, t)) == Ahead(p, g, r) - t
    ensures SoloTries(p, g, r, i, m) >= SoloTries(p, g, Skip(p, r, t), i - t, m)
    decreases t
  {
    if t > 0 {
      AheadStep(p, g, r);
      MovesUp(p, g, Next(p, r), i - 1, m, t - 1);
    }
  }

  /** Once through the line, and it has failed once more. */
  lemma Lap(p: nat, g: nat, r: nat, i: nat, m: nat) returns (q: nat)
    requires g < p && r < p && i < m <= Ahead(p, g, r)
    ensures q < p && Ahead(p, g, q) == Ahead(p, g, r) - m
    ensures SoloTries(p, g, r, i, m) >= 1 + SoloTries(p, g, q, i, m)
  {
    MovesUp(p, g, r, i, m, i);
    var front := Skip(p, r, i);
    AheadStep(p, g, front);
    MovesUp(p, g, Next(p, front), m - 1, m, m - 1 - i);
    q := Skip(p, Next(p, front), m - 1 - i);
  }

  /** A round of `k` laps ends where it began, at the good peer. */
  lemma {:induction false} Laps(p: nat, g: nat, r: nat, i: nat, m: nat, k: nat)
    requires g < p && r < p && i < m && Ahead(p, g, r) == k * m
    ensures SoloTries(p, g, r, i, m) >= k + SoloTries(p, g, g, i, m)
    decreases k
  {
    if k == 0 {
      AheadStep(p, g, r);
    } else {
      assert k * m == (k - 1) * m + m;
      MulMonotone(0, k - 1, m);
      var q := Lap(p, g, r, i, m);
      Laps(p, g, q, i, m, k - 1);
    }
  }

  /** With 25 peers, the good one first, the last of five chunks can fail 50 times. */
  lemma FiveTries()
    ensures SoloTries(25, 0, 0, 4, 5) >= AttemptLimit(25)
  {
    Laps(25, 0, 1, 3, 4, 6);
    Laps(25, 0, 1, 2, 3, 8);
    Laps(25, 0, 1, 1, 2, 12);
    Laps(25, 0, 1, 0, 1, 24);
    FromGood(25, 0, 4, 5);
    FromGood(25, 0, 3, 4);
    FromGood(25, 0, 2, 3);
    FromGood(25, 0, 1, 2);
    hide SoloTries;
  }

  /** At the good peer's turn the front chunk leaves the line. */
  lemma FromGood(p: nat, g: nat, i: nat, m: nat)
    requires g < p && 0 < i < m
    ensures SoloTries(p, g, g, i, m) == SoloTries(p, g, Next(p, g), i - 1, m - 1)
  {
  }

  // ---------------------------------------------------------------- a good peer that is full

  predicate IsAcquiring(st: Stage) { st.Acquiring? }
  predicate IsTop(st: Stage) { st.Top? }

  /** Only the good peer is busy. */
  ghost predicate Filling(cfg: Config, peers: seq<Peer>, gi: nat, g: string) {
    && gi < |peers| && |peers| >= 2 && peers[gi].id == g && DistinctIds(peers) &&
       peers[gi].outstanding <= PerPeerLimit(cfg)
    && forall p :: 0 <= p < |peers| && p != gi ==> peers[p].outstanding == 0
  }

  /** Unless the good peer has the turn and room, another peer is chosen. */
  lemma PassesOver(cfg: Config, v: View, gi: nat, g: string) returns (slot: nat)
    requires Filling(cfg, v.peers, gi, g) && Has(v, 0) && v.workers[0].Acquiring?
    requires v.next != gi || v.peers[gi].outstanding == PerPeerLimit(cfg)
    ensures slot < |v.peers| && slot != gi && v.peers[slot].id != g && TakesTurn(cfg, v, 0, slot)
  {
    if v.next != gi {
      slot := v.next;
      ScanTakesNext(cfg, v.peers, v.next);
    } else {
      slot := Next(|v.peers|, gi);
      DivModUnique(gi, |v.peers|, 0, gi);
      DivModUnique(gi + 1, |v.peers|, if gi + 1 == |v.peers| then 1 else 0, slot);
      assert ScanFrom(cfg, v.peers, gi, 0) == ScanFrom(cfg, v.peers, gi, 1);
      assert ScanFrom(cfg, v.peers, gi, 1) == Some(slot);
    }
  }

  /** Worker 0 keeps its chunk away from the good peer: while others fill that peer with slow
      requests it takes the other turns, and afterwards the good peer has no room for it. */
  lemma {:induction false} FillGood(cfg: Config, arrivals: bool, v: View, gi: nat, g: string)
    requires Filling(cfg, v.peers, gi, g) && Has(v, 0) && v.workers[0].Acquiring? && v.queue == []
    requires v.workers[0].job < |v.attempts| && v.attempts[v.workers[0].job] < AttemptLimit(|v.peers|)
    requires Count(v.workers[1..], IsAcquiring) + v.peers[gi].outstanding >= PerPeerLimit(cfg)
    ensures Fails(cfg, arrivals, v, g)
    decreases AttemptLimit(|v.peers|) - v.attempts[v.workers[0].job], Count(v.workers[1..], IsAcquiring)
  {
    hide Fails, AttemptLimit, PerPeerLimit, ScanFrom;
    if v.next == gi && v.peers[gi].outstanding < PerPeerLimit(cfg) {
      var w := CountWitness(v.workers[1..], IsAcquiring);
      ScanTakesNext(cfg, v.peers, gi);
      var u := Occupied(v, w + 1, gi);
      assert u.workers[1..] == v.workers[1..][w := u.workers[w + 1]];
      CountUpdate(v.workers[1..], w, u.workers[w + 1], IsAcquiring);
      AheadStep(|v.peers|, gi, gi);
      FillGood(cfg, arrivals, u, gi, g);
      AcquireBack(cfg, arrivals, v, w + 1, gi, g);
    } else {
      var slot := PassesOver(cfg, v, gi, g);
      AheadStep(|v.peers|, gi, slot);
      if v.attempts[v.workers[0].job] + 1 < AttemptLimit(|v.peers|) {
        var u := Tried(v, 0, slot);
        assert Grabbed(u, 0).workers == v.workers;
        FillGood(cfg, arrivals, Grabbed(u, 0), gi, g);
        GrabBack(cfg, arrivals, u, 0, g);
      }
      TryBack(cfg, arrivals, v, 0, slot, g);
    }
  }

  /** First the others take their chunks, then worker 0 the last one. */
  lemma {:induction false} SeatAll(cfg: Config, arrivals: bool, v: View, gi: nat, g: string)
    requires Filling(cfg, v.peers, gi, g) && Has(v, 0) && v.workers[0].Top? && v.queue != []
    requires NewChunks(v)
    requires Count(v.workers[1..], IsTop) >= |v.queue| - 1
    requires Count(v.workers[1..], IsAcquiring) + |v.queue| - 1 + v.peers[gi].outstanding >= PerPeerLimit(cfg)
    ensures Fails(cfg, arrivals, v, g)
    decreases |v.queue|
  {
    hide Fails, PerPeerLimit;
    if |v.queue| == 1 {
      var u := Grabbed(v, 0);
      assert u.workers[1..] == v.workers[1..];
      FillGood(cfg, arrivals, u, gi, g);
      GrabBack(cfg, arrivals, v, 0, g);
    } else {
      var w := CountWitness(v.workers[1..], IsTop);
      var u := Grabbed(v, w + 1);
      assert u.workers[1..] == v.workers[1..][w := u.workers[w + 1]];
      CountUpdate(v.workers[1..], w, u.workers[w + 1], IsTop);
      CountUpdate(v.workers[1..], w, u.workers[w + 1], IsAcquiring);
      SeatAll(cfg, arrivals, u, gi, g);
      GrabBack(cfg, arrivals, v, w + 1, g);
    }
  }

  // ---------------------------------------------------------------- the way there

  /** Any number of chunks can be fetched without trouble first, by one worker. */
  lemma {:induction false} Reduce(cfg: Config, arrivals: bool, v: View, k: nat, gi: nat, g: string)
    requires Idle(cfg, v.peers, gi, g) && v.next < |v.peers| && AtTop(v, 1) && 0 < k <= |v.queue|
    requires Fails(cfg, arrivals, v.(queue := v.queue[|v.queue| - k..],
                                     next := Skip(|v.peers|, v.next, |v.queue| - k)), g)
    ensures Fails(cfg, arrivals, v, g)
    decreases |v.queue|
  {
    hide Fails, Idle;
    if |v.queue| == k {
      assert v.(queue := v.queue[0..], next := Skip(|v.peers|, v.next, 0)) == v;
    } else {
      var u := Grabbed(v, 0);
      var t := Served(u, 0, v.next);
      assert t.workers == v.workers && t.queue == v.queue[1..];
      assert t.queue[|t.queue| - k..] == v.queue[|v.queue| - k..];
      assert t.(queue := t.queue[|t.queue| - k..], next := Skip(|v.peers|, t.next, |t.queue| - k)) ==
             v.(queue := v.queue[|v.queue| - k..], next := Skip(|v.peers|, v.next, |v.queue| - k));
      Reduce(cfg, arrivals, t, k, gi, g);
      ServeNext(cfg, arrivals, u, 0, gi, g);
      GrabBack(cfg, arrivals, v, 0, g);
    }
  }
}
