/** Connections are bound to the peers they really lead to. */
module GossipBinding {
  import opened FiniteSets
  import opened Gossip
  import opened GossipNet
  import opened Wrappers

  /** The peer at the far end of a connection end. */
  function Remote(t: Net, e: nat): Node
    requires WellFormed(t) && e < |t.ends|
  {
    t.nodes[t.ends[t.ends[e].mate].owner]
  }

  /** An unbound end has its remote's own announcement next, and nothing that is fresh after
      it; a bound end is bound to its remote, and nothing fresh is coming. */
  predicate FaithfulEnd(end: End, remote: Node) {
    match end.bound
    case None => end.inbox != [] && end.inbox[0] == Announce(remote.id, DEFAULT_TTL, remote.addr) &&
      Relayed(end.inbox[1..])
    case Some(id) => id == remote.id && Relayed(end.inbox)
  }

  ghost predicate Truthful(t: Net) {
    && WellFormed(t)
    && (forall p :: 0 <= p < |t.nodes| ==>
          t.nodes[p].id != "" && t.nodes[p].addr != "" && t.nodes[p].id in t.nodes[p].known)
    && (forall e :: 0 <= e < |t.ends| ==> FaithfulEnd(t.ends[e], Remote(t, e)))
    && (forall i :: 0 <= i < |t.posted| ==> t.posted[i].msg.Announce? && t.posted[i].msg.ttl < DEFAULT_TTL)
    && (forall p, id :: 0 <= p < |t.nodes| && id in t.nodes[p].conns ==> LeadsTo(t, p, id, t.nodes[p].conns[id]))
  }

  /** `e` is an open end at node `p` that leads to the peer named `id`, and it is bound to it. */
  predicate LeadsTo(t: Net, p: nat, id: Id, e: nat)
    requires WellFormed(t)
  {
    e < |t.ends| && t.ends[e].owner == p && t.ends[e].open && t.ends[e].bound == Some(id) && Remote(t, e).id == id
  }

  lemma RelayedAppend(end: End, remote: Node, ms: seq<Msg>)
    requires FaithfulEnd(end, remote) && Relayed(ms)
    ensures FaithfulEnd(end.(inbox := end.inbox + ms), remote)
  {
    assert end.bound.None? ==> (end.inbox + ms)[1..] == end.inbox[1..] + ms;
  }

  /** What handling the next message of a faithful end does to the binding. */
  lemma HandleBinds(n: Node, e: nat, end: End, remote: Node, order: seq<Id>, listing: seq<Id>)
    requires FaithfulEnd(end, remote) && end.inbox != [] && Applies(n, end.inbox[0], order, listing)
    requires remote.id != "" && remote.addr != ""
    ensures var o := Handle(n, e, end.bound, end.inbox[0], order, listing);
            && o.bound == Some(remote.id) && Relayed(o.reply) && Relayed(end.inbox[1..])
            && (forall i :: 0 <= i < |o.posted| ==> o.posted[i].msg.Announce? && o.posted[i].msg.ttl < DEFAULT_TTL)
            && o.node.conns == (if end.bound.None? then n.conns[remote.id := e] else n.conns)
            && o.node.id == n.id && o.node.addr == n.addr && (n.id in n.known ==> n.id in o.node.known)
  {
    var m := end.inbox[0];
    assert m in end.inbox && forall x :: x in end.inbox[1..] ==> x in end.inbox;
    HandlePosts(n, e, end.bound, m, order, listing);
    var o := Handle(n, e, end.bound, m, order, listing);
    forall i | 0 <= i < |o.posted|
      ensures o.posted[i].msg.Announce? && o.posted[i].msg.ttl < DEFAULT_TTL
    {
      assert Posts(n, m, order, o.posted[i]);
    }
    if m.PeerList? { EntriesKeepSelf(n, m.entries, order); }
    hide Posts, HandleEntries, Broadcast, Targets, Entries;
  }

  lemma {:induction false} EntriesKeepSelf(n: Node, entries: seq<Entry>, order: seq<Id>)
    requires forall x :: x in order ==> x in n.conns
    ensures n.id in n.known ==> n.id in HandleEntries(n, entries, order).0.known
  {
    if entries != [] { EntriesKeepSelf(n, entries[..|entries| - 1], order); }
  }

  lemma DeliverKeepsTruthful(t: Net, e: nat, order: seq<Id>, listing: seq<Id>)
    requires Truthful(t) && Enabled(t, Deliver(e, order, listing))
    ensures Truthful(After(t, Deliver(e, order, listing)))
  {
    var end := t.ends[e];
    var n := t.nodes[end.owner];
    HandleBinds(n, e, end, Remote(t, e), order, listing);
    StepKeepsWellFormed(t, Deliver(e, order, listing));
    DeliveredTruthful(t, e, Handle(n, e, end.bound, end.inbox[0], order, listing));
  }

  lemma DeliveredTruthful(t: Net, e: nat, o: Outcome)
    requires Truthful(t) && e < |t.ends| && t.ends[e].open && t.ends[e].inbox != [] && WellFormed(Delivered(t, e, o))
    requires o.bound == Some(Remote(t, e).id) && Relayed(o.reply) && Relayed(t.ends[e].inbox[1..])
    requires forall i :: 0 <= i < |o.posted| ==> o.posted[i].msg.Announce? && o.posted[i].msg.ttl < DEFAULT_TTL
    requires o.node.conns == var c := t.nodes[t.ends[e].owner].conns;
                             if t.ends[e].bound.None? then c[Remote(t, e).id := e] else c
    requires var n := t.nodes[t.ends[e].owner]; o.node.id == n.id && o.node.addr == n.addr && n.id in o.node.known
    ensures Truthful(Delivered(t, e, o))
  {
    DeliveredFaithful(t, e, o);
    DeliveredLeads(t, e, o);
    hide Relayed, FaithfulEnd, LeadsTo;
    var u := Delivered(t, e, o);
    assert forall p :: 0 <= p < |t.nodes| ==> u.nodes[p].id == t.nodes[p].id && u.nodes[p].addr == t.nodes[p].addr;
    hide WellFormed;
  }

  lemma DeliveredLeads(t: Net, e: nat, o: Outcome)
    requires Truthful(t) && e < |t.ends| && t.ends[e].open && t.ends[e].inbox != [] && WellFormed(Delivered(t, e, o))
    requires o.bound == Some(Remote(t, e).id)
    requires o.node.conns == var c := t.nodes[t.ends[e].owner].conns;
                             if t.ends[e].bound.None? then c[Remote(t, e).id := e] else c
    requires o.node.id == t.nodes[t.ends[e].owner].id
    ensures var u := Delivered(t, e, o);
            forall p, id :: 0 <= p < |u.nodes| && id in u.nodes[p].conns ==> LeadsTo(u, p, id, u.nodes[p].conns[id])
  {
    hide Relayed;
    var u := Delivered(t, e, o);
    forall p, id | 0 <= p < |u.nodes| && id in u.nodes[p].conns
      ensures LeadsTo(u, p, id, u.nodes[p].conns[id])
    {
      var x := u.nodes[p].conns[id];
      assert FaithfulEnd(t.ends[e], Remote(t, e));
      if id in t.nodes[p].conns && x == t.nodes[p].conns[id] {
        assert LeadsTo(t, p, id, x);
        StillLeads(t, e, o, p, id, x);
      } else {
        assert p == t.ends[e].owner && id == Remote(t, e).id && x == e;
        assert Remote(u, e).id == Remote(t, e).id;
      }
    }
  }

  lemma StillLeads(t: Net, e: nat, o: Outcome, p: nat, id: Id, x: nat)
    requires WellFormed(t) && e < |t.ends| && t.ends[e].inbox != [] && WellFormed(Delivered(t, e, o))
    requires LeadsTo(t, p, id, x) && o.node.id == t.nodes[t.ends[e].owner].id
    requires o.bound == Some(Remote(t, e).id)
    ensures LeadsTo(Delivered(t, e, o), p, id, x)
  {
  }

  lemma DeliveredFaithful(t: Net, e: nat, o: Outcome)
    requires Truthful(t) && e < |t.ends| && t.ends[e].inbox != [] && WellFormed(Delivered(t, e, o))
    requires o.bound == Some(Remote(t, e).id) && Relayed(o.reply) && Relayed(t.ends[e].inbox[1..])
    requires var n := t.nodes[t.ends[e].owner]; o.node.id == n.id && o.node.addr == n.addr
    ensures forall x :: 0 <= x < |t.ends| ==> FaithfulEnd(Delivered(t, e, o).ends[x], Remote(Delivered(t, e, o), x))
  {
    hide Relayed;
    var u := Delivered(t, e, o);
    forall x | 0 <= x < |t.ends|
      ensures FaithfulEnd(u.ends[x], Remote(u, x))
    {
      assert Remote(u, x).id == Remote(t, x).id && Remote(u, x).addr == Remote(t, x).addr;
      assert FaithfulEnd(t.ends[x], Remote(t, x));
      if x == t.ends[e].mate {
        RelayedAppend(t.ends[x], Remote(t, x), o.reply);
      }
    }
  }

  lemma FlushKeepsTruthful(t: Net, i: nat)
    requires Truthful(t) && i < |t.posted|
    ensures Truthful(After(t, Flush(i)))
  {
    var u := After(t, Flush(i));
    var m := t.posted[i].msg;
    StepKeepsWellFormed(t, Flush(i));
    SendAllKeeps(t.ends, t.posted[i].targets, m);
    hide SendAll;
    forall x | 0 <= x < |t.ends|
      ensures FaithfulEnd(u.ends[x], Remote(u, x)) && Remote(u, x) == Remote(t, x)
    {
      assert FaithfulEnd(t.ends[x], Remote(t, x));
      var ms := u.ends[x].inbox[|t.ends[x].inbox|..];
      assert u.ends[x].inbox == t.ends[x].inbox + ms;
      assert forall y :: y in ms ==> y == m;
      RelayedAppend(t.ends[x], Remote(t, x), ms);
      assert u.ends[x] == t.ends[x].(inbox := u.ends[x].inbox);
    }
    forall p, id | 0 <= p < |u.nodes| && id in u.nodes[p].conns
      ensures LeadsTo(u, p, id, u.nodes[p].conns[id])
    {
      assert LeadsTo(t, p, id, t.nodes[p].conns[id]);
    }
  }

  lemma OpenKeepsTruthful(t: Net, p: nat, q: nat, ofP: seq<Id>, ofQ: seq<Id>)
    requires Truthful(t) && Enabled(t, Open(p, q, ofP, ofQ))
    ensures Truthful(After(t, Open(p, q, ofP, ofQ)))
  {
    var u := After(t, Open(p, q, ofP, ofQ));
    StepKeepsWellFormed(t, Open(p, q, ofP, ofQ));
    hide Enumerates;
    forall x | 0 <= x < |u.ends|
      ensures FaithfulEnd(u.ends[x], Remote(u, x))
    {
      if x < |t.ends| { assert FaithfulEnd(t.ends[x], Remote(t, x)); }
    }
    forall p, id | 0 <= p < |u.nodes| && id in u.nodes[p].conns
      ensures LeadsTo(u, p, id, u.nodes[p].conns[id])
    {
      assert LeadsTo(t, p, id, t.nodes[p].conns[id]);
    }
  }

  lemma CloseKeepsTruthful(t: Net, e: nat)
    requires Truthful(t) && e < |t.ends|
    ensures Truthful(After(t, Close(e)))
  {
    hide LeadsTo, FaithfulEnd;
    ClosedWellFormed(t, e);
    ClosedFaithful(t, e);
    ClosedLeads(t, e);
    var u := Closed(t, e);
    assert forall p :: 0 <= p < |t.nodes| ==>
      u.nodes[p].id == t.nodes[p].id && u.nodes[p].addr == t.nodes[p].addr && u.nodes[p].known == t.nodes[p].known;
    hide WellFormed;
  }

  lemma ClosedFaithful(t: Net, e: nat)
    requires Truthful(t) && e < |t.ends| && WellFormed(Closed(t, e))
    ensures var u := Closed(t, e);
            forall x :: 0 <= x < |u.ends| ==> FaithfulEnd(u.ends[x], Remote(u, x)) && Remote(u, x).id == Remote(t, x).id
  {
    hide Relayed, LeadsTo;
    var u := Closed(t, e);
    forall x | 0 <= x < |u.ends|
      ensures FaithfulEnd(u.ends[x], Remote(u, x)) && Remote(u, x).id == Remote(t, x).id
    {
      assert FaithfulEnd(t.ends[x], Remote(t, x));
      assert Remote(u, x).id == Remote(t, x).id && Remote(u, x).addr == Remote(t, x).addr;
    }
  }

  lemma ClosedLeads(t: Net, e: nat)
    requires Truthful(t) && e < |t.ends| && WellFormed(Closed(t, e))
    ensures var u := Closed(t, e);
            forall p, id :: 0 <= p < |u.nodes| && id in u.nodes[p].conns ==> LeadsTo(u, p, id, u.nodes[p].conns[id])
  {
    hide FaithfulEnd, Relayed;
    var u := Closed(t, e);
    forall p, id | 0 <= p < |u.nodes| && id in u.nodes[p].conns
      ensures LeadsTo(u, p, id, u.nodes[p].conns[id])
    {
      var x := t.nodes[p].conns[id];
      assert LeadsTo(t, p, id, x);
      assert x != e;
      assert Remote(u, x).id == Remote(t, x).id;
    }
  }

  /** Peers that have a name and an address, know themselves, and have no connections yet. */
  predicate JustStarted(t: Net) {
    && t.ends == [] && t.posted == []
    && forall p :: 0 <= p < |t.nodes| ==>
         t.nodes[p].id != "" && t.nodes[p].addr != "" && t.nodes[p].id in t.nodes[p].known && t.nodes[p].conns == map[]
  }

  ghost predicate HonestRun(ts: seq<Net>, ss: seq<Step>) {
    && |ts| == |ss| + 1 && JustStarted(ts[0])
    && forall i :: 0 <= i < |ss| ==> WellFormed(ts[i]) && Enabled(ts[i], ss[i]) && ts[i + 1] == After(ts[i], ss[i])
  }

  lemma {:induction false} RunIsTruthful(ts: seq<Net>, ss: seq<Step>, k: nat)
    requires HonestRun(ts, ss) && k <= |ss|
    ensures Truthful(ts[k])
  {
    if k > 0 {
      RunIsTruthful(ts, ss, k - 1);
      hide Truthful, After, Enabled;
      assert Enabled(ts[k - 1], ss[k - 1]);
      match ss[k - 1] {
        case Deliver(e, order, listing) => DeliverKeepsTruthful(ts[k - 1], e, order, listing);
        case Flush(i) =>
          FlushNeedsBatch(ts[k - 1], i);
          FlushKeepsTruthful(ts[k - 1], i);
        case Open(p, q, ofP, ofQ) => OpenKeepsTruthful(ts[k - 1], p, q, ofP, ofQ);
        case Close(e) =>
          CloseNeedsEnd(ts[k - 1], e);
          CloseKeepsTruthful(ts[k - 1], e);
      }
    }
  }

  lemma CloseNeedsEnd(t: Net, e: nat)
    requires Enabled(t, Close(e))
    ensures e < |t.ends|
  {
  }

  lemma FlushNeedsBatch(t: Net, i: nat)
    requires Enabled(t, Flush(i))
    ensures i < |t.posted|
  {
  }

  /** At any moment of any run, with connections opened and closed as the run goes on: a
      connection is bound to the peer at its far end or to nobody, the connection a peer keeps
      for an id is open and leads to the peer of that id, and handling a message never changes
      a binding. */
  lemma BindsTrueIdentity(ts: seq<Net>, ss: seq<Step>, k: nat)
    requires HonestRun(ts, ss) && k <= |ss|
    ensures WellFormed(ts[k])
    ensures forall e :: 0 <= e < |ts[k].ends| ==>
              ts[k].ends[e].bound == None || ts[k].ends[e].bound == Some(Remote(ts[k], e).id)
    ensures forall p, id :: 0 <= p < |ts[k].nodes| && id in ts[k].nodes[p].conns ==>
              LeadsTo(ts[k], p, id, ts[k].nodes[p].conns[id])
    ensures k < |ss| && ss[k].Deliver? ==>
              ts[k + 1].ends[ss[k].e].bound == Some(Remote(ts[k], ss[k].e).id)
    ensures k < |ss| && ss[k].Deliver? && ts[k].ends[ss[k].e].bound.Some? ==>
              ts[k + 1].ends[ss[k].e].bound == ts[k].ends[ss[k].e].bound
  {
    RunIsTruthful(ts, ss, k);
    assert forall e :: 0 <= e < |ts[k].ends| ==> FaithfulEnd(ts[k].ends[e], Remote(ts[k], e));
    if k < |ss| && ss[k].Deliver? {
      var e := ss[k].e;
      HandleBinds(ts[k].nodes[ts[k].ends[e].owner], e, ts[k].ends[e], Remote(ts[k], e), ss[k].order, ss[k].listing);
    }
  }
}
