/** Peer capacity: slots are counted exactly, never overbooked, and always found. */
module SwarmCapacity {
  import opened Wrappers
  import opened Sums
  import opened Arith
  import opened SwarmState
  import opened SwarmJobs

  predicate HasSlot(st: Stage) { st.Fetching? || st.Releasing? }

  function AtSlot(p: nat): Stage -> bool {
    st => HasSlot(st) && st.slot == p
  }

  ghost predicate DistinctIds(peers: seq<Peer>) {
    && (forall p :: 0 <= p < |peers| ==> peers[p].id != "")
    && (forall p, q :: 0 <= p < q < |peers| ==> peers[p].id != peers[q].id)
  }

  /** `outstanding` is the number of workers using the peer, and within the limit. */
  ghost predicate SlotsCounted(cfg: Config, s: State) {
    forall p :: 0 <= p < |s.peers| ==>
      s.peers[p].outstanding == Count(s.workers, AtSlot(p)) && s.peers[p].outstanding <= PerPeerLimit(cfg)
  }

  ghost predicate CapInv(cfg: Config, s: State) {
    Shaped(cfg, s) && s.next < |s.peers| && DistinctIds(s.peers) && SlotsCounted(cfg, s)
  }

  // ---------------------------------------------------------------- the scan

  lemma WrapAround(start: nat, n: nat, p: nat) returns (k: nat)
    requires start < n && p < n
    ensures k < n && (start + k) % n == p
  {
    if start <= p {
      k := p - start;
      DivModUnique(p, n, 0, p);
    } else {
      k := p + n - start;
      DivModUnique(p + n, n, 1, p);
    }
  }

  /** A scan from step `i` that finds nothing has seen only full peers. */
  lemma {:induction false} ScanMisses(cfg: Config, peers: seq<Peer>, start: nat, i: nat, k: nat)
    requires i <= k < |peers| && ScanFrom(cfg, peers, start, i).None?
    ensures peers[(start + k) % |peers|].outstanding >= PerPeerLimit(cfg)
    decreases k - i
  {
    if i < k { ScanMisses(cfg, peers, start, i + 1, k); }
  }

  /** The wrap-around scan finds a slot exactly when the wait predicate saw one. */
  lemma ScanFindsCapacity(cfg: Config, peers: seq<Peer>, start: nat)
    requires start < |peers|
    ensures ScanFrom(cfg, peers, start, 0).Some? <==> HasCapacity(cfg, peers)
  {
    if HasCapacity(cfg, peers) && ScanFrom(cfg, peers, start, 0).None? {
      var p :| 0 <= p < |peers| && peers[p].outstanding < PerPeerLimit(cfg);
      var k := WrapAround(start, |peers|, p);
      ScanMisses(cfg, peers, start, 0, k);
      assert false;
    }
  }

  /** Round robin: when the next peer in turn has room, it is the one chosen. */
  lemma ScanTakesNext(cfg: Config, peers: seq<Peer>, start: nat)
    requires start < |peers| && peers[start].outstanding < PerPeerLimit(cfg)
    ensures ScanFrom(cfg, peers, start, 0) == Some(start)
  {
    Arith.DivModUnique(start, |peers|, 0, start);
  }

  // ---------------------------------------------------------------- preservation

  lemma SlotsUnchanged(cfg: Config, s: State, t: State, w: nat, st: Stage)
    requires SlotsCounted(cfg, s) && t.peers == s.peers
    requires w < |s.workers| && t.workers == s.workers[w := st]
    requires HasSlot(s.workers[w]) == HasSlot(st) && (HasSlot(st) ==> s.workers[w].slot == st.slot)
    ensures SlotsCounted(cfg, t)
  {
    forall p | 0 <= p < |t.peers| ensures t.peers[p].outstanding == Count(t.workers, AtSlot(p)) {
      CountUpdate(s.workers, w, st, AtSlot(p));
    }
  }

  lemma AcquireKeepsSlots(cfg: Config, s: State, w: nat)
    requires CapInv(cfg, s) && Enabled(cfg, s, AcquirePeer(w))
    ensures CapInv(cfg, AfterAcquire(cfg, s, w))
  {
    var t := AfterAcquire(cfg, s, w);
    var st := t.workers[w];
    StepKeepsShape(cfg, s, AcquirePeer(w));
    if s.shutting || s.failure {
      SlotsUnchanged(cfg, s, t, w, st);
    } else {
      ScanFindsCapacity(cfg, s.peers, s.next);
      forall p | 0 <= p < |t.peers|
        ensures t.peers[p].outstanding == Count(t.workers, AtSlot(p)) && t.peers[p].outstanding <= PerPeerLimit(cfg)
      {
        CountUpdate(s.workers, w, st, AtSlot(p));
      }
    }
  }

  lemma ReleaseKeepsSlots(cfg: Config, s: State, w: nat)
    requires CapInv(cfg, s) && Enabled(cfg, s, ReleasePeer(w))
    ensures CapInv(cfg, AfterRelease(s, w))
  {
    var t := AfterRelease(s, w);
    var st := t.workers[w];
    StepKeepsShape(cfg, s, ReleasePeer(w));
    forall p | 0 <= p < |t.peers|
      ensures t.peers[p].outstanding == Count(t.workers, AtSlot(p)) && t.peers[p].outstanding <= PerPeerLimit(cfg)
    {
      CountUpdate(s.workers, w, st, AtSlot(p));
    }
  }

  lemma AddPeerKeepsSlots(cfg: Config, s: State, id: string)
    requires CapInv(cfg, s) && Enabled(cfg, s, AddPeer(id))
    ensures CapInv(cfg, Apply(cfg, s, AddPeer(id)))
  {
    var t := Apply(cfg, s, AddPeer(id));
    StepKeepsShape(cfg, s, AddPeer(id));
    assert forall p :: 0 <= p < |s.peers| ==> t.peers[p] == s.peers[p];
    assert forall w :: 0 <= w < |s.workers| ==> StageShaped(cfg, s, s.workers[w]);
    CountNone(s.workers, AtSlot(|s.peers|));
  }

  lemma CapInvStep(cfg: Config, s: State, a: Action)
    requires CapInv(cfg, s) && Enabled(cfg, s, a)
    ensures CapInv(cfg, Apply(cfg, s, a))
  {
    if a.AddPeer? {
      AddPeerKeepsSlots(cfg, s, a.id);
    } else if a.AcquirePeer? {
      AcquireKeepsSlots(cfg, s, a.w);
    } else if a.ReleasePeer? {
      ReleaseKeepsSlots(cfg, s, a.w);
    } else {
      StepKeepsShape(cfg, s, a);
      SlotsUnchanged(cfg, s, Apply(cfg, s, a), a.w, Apply(cfg, s, a).workers[a.w]);
    }
  }

  lemma InitialCapInv(cfg: Config, ids: seq<string>, order: seq<nat>, states: seq<nat>, staging: seq<byte>,
                      reason: string)
    requires Started(cfg, ids, order, states)
    ensures CapInv(cfg, Initial(cfg, ids, order, states, staging, reason))
  {
    var s := Initial(cfg, ids, order, states, staging, reason);
    InitialJobInv(cfg, ids, order, states, staging, reason);
    forall p | 0 <= p < |s.peers| ensures Count(s.workers, AtSlot(p)) == 0 {
      CountNone(s.workers, AtSlot(p));
    }
  }

  lemma {:induction false} CapInvAlong(cfg: Config, s: State, acts: seq<Action>)
    requires CapInv(cfg, s) && Exec(cfg, s, acts).Some?
    ensures CapInv(cfg, Exec(cfg, s, acts).value)
    decreases |acts|
  {
    if acts != [] {
      CapInvStep(cfg, s, acts[0]);
      CapInvAlong(cfg, Apply(cfg, s, acts[0]), acts[1..]);
    }
  }

  lemma ReachableCapInv(cfg: Config, s: State)
    requires Reachable(cfg, s)
    ensures CapInv(cfg, s)
  {
    var ids, order, states, staging, reason, acts :|
      Started(cfg, ids, order, states) &&
      Exec(cfg, Initial(cfg, ids, order, states, staging, reason), acts) == Some(s);
    InitialCapInv(cfg, ids, order, states, staging, reason);
    CapInvAlong(cfg, Initial(cfg, ids, order, states, staging, reason), acts);
  }

  // ---------------------------------------------------------------- totals

  ghost function SlotCounts(ws: seq<Stage>, n: nat): (r: seq<nat>)
    ensures |r| == n && forall p :: 0 <= p < n ==> r[p] == Count(ws, AtSlot(p))
  {
    seq(n, p requires 0 <= p < n => Count(ws, AtSlot(p)))
  }

  /** Counting workers slot by slot or all at once gives the same number. */
  lemma {:induction false} SlotTotal(ws: seq<Stage>, n: nat)
    requires forall w :: 0 <= w < |ws| && HasSlot(ws[w]) ==> ws[w].slot < n
    ensures Sum(SlotCounts(ws, n)) == Count(ws, HasSlot)
  {
    var counts := SlotCounts(ws, n);
    if ws == [] {
      SumConstant(counts, 0);
    } else {
      var rest := SlotCounts(ws[1..], n);
      SlotTotal(ws[1..], n);
      if HasSlot(ws[0]) {
        var p := ws[0].slot;
        assert counts == rest[p := rest[p] + 1];
        SumUpdate(rest, p, rest[p] + 1);
      } else {
        assert counts == rest;
      }
    }
  }

  ghost function Outstandings(peers: seq<Peer>): (r: seq<nat>)
    ensures |r| == |peers| && forall p :: 0 <= p < |peers| ==> r[p] == peers[p].outstanding
  {
    seq(|peers|, p requires 0 <= p < |peers| => peers[p].outstanding)
  }

  /** CAPACITY.  In every reachable state no peer has more than its share of requests, the
      requests outstanding are exactly the fetching workers, and a worker that is let
      through finds a peer with room. */
  lemma CapacityAccounting(cfg: Config, s: State)
    requires Reachable(cfg, s)
    ensures forall p :: 0 <= p < |s.peers| ==> s.peers[p].outstanding <= PerPeerLimit(cfg)
    ensures Sum(Outstandings(s.peers)) == Count(s.workers, HasSlot)
    ensures s.next < |s.peers| && (HasCapacity(cfg, s.peers) <==> ScanFrom(cfg, s.peers, s.next, 0).Some?)
  {
    ReachableCapInv(cfg, s);
    assert forall w :: 0 <= w < |s.workers| ==> StageShaped(cfg, s, s.workers[w]);
    assert Outstandings(s.peers) == SlotCounts(s.workers, |s.peers|);
    SlotTotal(s.workers, |s.peers|);
    ScanFindsCapacity(cfg, s.peers, s.next);
  }

  // ---------------------------------------------------------------- reasons

  /** A reason that says what went wrong. */
  predicate Genuine(reason: string) { reason in {NOT_DOWNLOADED, BAD_CHECKSUM, NOT_WRITTEN} }

  lemma GenuineReasons()
    ensures Genuine(NOT_DOWNLOADED) && Genuine(BAD_CHECKSUM) && Genuine(NOT_WRITTEN) && !Genuine("")
  {
  }

  /** "Swarm shutdown" is only ever reported after a failure with a reason of its own. */
  ghost predicate ReasonInv(s: State, initial: string) {
    && (!s.failure ==> s.reason == initial)
    && (s.failure ==> s.reason == if initial != "" then initial else s.reason)
    && (s.failure && initial == "" ==> Genuine(s.reason))
    && (forall w :: 0 <= w < |s.workers| && s.workers[w].Requeueing? ==>
          Genuine(s.workers[w].reason) || (s.workers[w].reason == SHUTDOWN && s.failure))
  }

  lemma ReasonStep(cfg: Config, s: State, a: Action, initial: string)
    requires JobInv(cfg, s) && CapInv(cfg, s) && ReasonInv(s, initial) && Enabled(cfg, s, a)
    ensures ReasonInv(Apply(cfg, s, a), initial)
  {
    hide CapInv, ScanFrom, HasCapacity, StageShaped, Accepted, Genuine, Apart, WritesMatch, Counted, Covered,
      FlagsAgree;
    if a.AcquirePeer? { ShutdownMeansFailure(cfg, s, a.w); }
    GenuineReasons();
    OneMoves(cfg, s, a);
  }

  /** A worker turned away while it looks for a peer is turned away by a failure. */
  lemma ShutdownMeansFailure(cfg: Config, s: State, w: nat)
    requires JobInv(cfg, s) && CapInv(cfg, s) && Enabled(cfg, s, AcquirePeer(w))
    ensures Shaped(cfg, s)
    ensures !s.failure ==> !s.shutting && ScanFrom(cfg, s.peers, s.next, 0).Some?
  {
    hide Apart, WritesMatch, Counted, Covered, SlotsCounted;
    ScanFindsCapacity(cfg, s.peers, s.next);
    if s.shutting && !s.failure { CompletedMeansIdle(cfg, s); }
  }

  lemma {:induction false} ReasonAlong(cfg: Config, s: State, acts: seq<Action>, initial: string)
    requires JobInv(cfg, s) && CapInv(cfg, s) && ReasonInv(s, initial) && Exec(cfg, s, acts).Some?
    ensures ReasonInv(Exec(cfg, s, acts).value, initial)
    decreases |acts|
  {
    if acts != [] {
      ReasonStep(cfg, s, acts[0], initial);
      JobInvStep(cfg, s, acts[0]);
      CapInvStep(cfg, s, acts[0]);
      ReasonAlong(cfg, Apply(cfg, s, acts[0]), acts[1..], initial);
    }
  }

  /** The reason reported by a download that starts with none is a real one: it names the
      chunk that could not be fetched, verified or written, and is set only by a failure. */
  lemma ShutdownNeverTheReason(cfg: Config, ids: seq<string>, order: seq<nat>, states: seq<nat>, staging: seq<byte>,
                               acts: seq<Action>)
    requires Started(cfg, ids, order, states)
    requires Exec(cfg, Initial(cfg, ids, order, states, staging, ""), acts).Some?
    ensures var t := Exec(cfg, Initial(cfg, ids, order, states, staging, ""), acts).value;
            if t.failure then t.reason in {NOT_DOWNLOADED, BAD_CHECKSUM, NOT_WRITTEN} else t.reason == ""
  {
    InitialJobInv(cfg, ids, order, states, staging, "");
    InitialCapInv(cfg, ids, order, states, staging, "");
    ReasonAlong(cfg, Initial(cfg, ids, order, states, staging, ""), acts, "");
  }
}
