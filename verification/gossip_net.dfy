/** A network of gossiping peers over connections that deliver in order, and why its chatter
    dies out. */
module GossipNet {
  import opened FiniteSets
  import opened Gossip
  import opened Wrappers

  /** One end of a connection: the node it belongs to, the opposite end, whether it is open,
      the peer it is bound to, and the messages under way to it, oldest first. */
  datatype End = End(owner: nat, mate: nat, open: bool, bound: Option<Id>, inbox: seq<Msg>)

  datatype Net = Net(nodes: seq<Node>, ends: seq<End>, posted: seq<Batch>)

  datatype Step =
    | Deliver(e: nat, order: seq<Id>, listing: seq<Id>)    // the node at `e` handles the oldest message
    | Flush(i: nat)                                        // a posted broadcast is sent
    | Open(p: nat, q: nat, ofP: seq<Id>, ofQ: seq<Id>)     // a new connection; both ends start
    | Close(e: nat)                                        // an end closes, or is destroyed later

  /** Ends come in pairs, and every broadcast goes to ends that exist. */
  predicate WellFormed(t: Net) {
    && (forall e :: 0 <= e < |t.ends| ==> t.ends[e].owner < |t.nodes|)
    && (forall e :: 0 <= e < |t.ends| ==>
          t.ends[e].mate < |t.ends| && t.ends[e].mate != e && t.ends[t.ends[e].mate].mate == e)
    && (forall i, k :: 0 <= i < |t.posted| && 0 <= k < |t.posted[i].targets| ==> t.posted[i].targets[k] < |t.ends|)
    && (forall p, id :: 0 <= p < |t.nodes| && id in t.nodes[p].conns ==> t.nodes[p].conns[id] < |t.ends|)
  }

  /** The table is walked entry by entry, and the peer listing includes the new peer. */
  ghost predicate Walks(n: Node, m: Msg, order: seq<Id>, listing: seq<Id>) {
    && Enumerates(order, n.conns.Keys)
    && (m.Announce? ==> Enumerates(listing, n.known.Keys + {m.id}))
  }

  ghost predicate Enabled(t: Net, s: Step) {
    match s
    case Deliver(e, order, listing) =>
      e < |t.ends| && t.ends[e].open && t.ends[e].inbox != [] && t.ends[e].owner < |t.nodes| &&
      Walks(t.nodes[t.ends[e].owner], t.ends[e].inbox[0], order, listing)
    case Flush(i) => i < |t.posted|
    case Open(p, q, ofP, ofQ) =>
      p < |t.nodes| && q < |t.nodes| &&
      Enumerates(ofP, t.nodes[p].known.Keys) && Enumerates(ofQ, t.nodes[q].known.Keys)
    case Close(e) => e < |t.ends|
  }

  function Push(ends: seq<End>, e: nat, ms: seq<Msg>): (r: seq<End>)
    requires e < |ends|
    ensures |r| == |ends|
  {
    ends[e := ends[e].(inbox := ends[e].inbox + ms)]
  }

  /** Send one message on each of the given ends that are open: it arrives at their mates. */
  function SendAll(ends: seq<End>, targets: seq<nat>, m: Msg): (r: seq<End>)
    ensures |r| == |ends|
  {
    if targets == [] then ends
    else
      var before := SendAll(ends, targets[..|targets| - 1], m);
      var e := targets[|targets| - 1];
      if e < |before| && before[e].open && before[e].mate < |before| then Push(before, before[e].mate, [m]) else before
  }

  function Delivered(t: Net, e: nat, o: Outcome): Net
    requires e < |t.ends| && t.ends[e].inbox != [] && t.ends[e].owner < |t.nodes| && t.ends[e].mate < |t.ends|
  {
    var ends := t.ends[e := t.ends[e].(bound := o.bound, inbox := t.ends[e].inbox[1..])];
    Net(t.nodes[t.ends[e].owner := o.node], Push(ends, t.ends[e].mate, o.reply), t.posted + o.posted)
  }

  /** The end is closed, and its node drops the entry of the peer it was bound to. */
  function Closed(t: Net, e: nat): Net
    requires e < |t.ends| && t.ends[e].owner < |t.nodes|
  {
    var end := t.ends[e];
    var n := t.nodes[end.owner];
    t.(ends := t.ends[e := end.(open := false)],
       nodes := if end.bound.None? then t.nodes else t.nodes[end.owner := n.(conns := n.conns - {end.bound.value})])
  }

  /** What a connection sends when it starts: our announcement, then our peer list. */
  function Greeting(n: Node, listing: seq<Id>): seq<Msg>
    requires forall x :: x in listing ==> x in n.known
  {
    [Announce(n.id, DEFAULT_TTL, n.addr), PeerList(Entries(n.known, listing))]
  }

  ghost function After(t: Net, s: Step): Net
    requires WellFormed(t) && Enabled(t, s)
  {
    match s
    case Deliver(e, order, listing) =>
      var end := t.ends[e];
      Delivered(t, e, Handle(t.nodes[end.owner], e, end.bound, end.inbox[0], order, listing))
    case Flush(i) =>
      Net(t.nodes, SendAll(t.ends, t.posted[i].targets, t.posted[i].msg), t.posted[..i] + t.posted[i + 1..])
    case Open(p, q, ofP, ofQ) =>
      var a := |t.ends|;
      t.(ends := t.ends + [End(p, a + 1, true, None, Greeting(t.nodes[q], ofQ)),
                           End(q, a, true, None, Greeting(t.nodes[p], ofP))])
    case Close(e) => Closed(t, e)
  }

  // ---------------------------------------------------------------- well-formedness

  lemma {:induction false} SendAllKeeps(ends: seq<End>, targets: seq<nat>, m: Msg)
    ensures var r := SendAll(ends, targets, m);
            forall e :: 0 <= e < |ends| ==>
              r[e].owner == ends[e].owner && r[e].mate == ends[e].mate && r[e].open == ends[e].open &&
              r[e].bound == ends[e].bound && ends[e].inbox <= r[e].inbox &&
              forall k :: |ends[e].inbox| <= k < |r[e].inbox| ==> r[e].inbox[k] == m
  {
    if targets != [] {
      SendAllKeeps(ends, targets[..|targets| - 1], m);
    }
  }

  /** How often a broadcast arrives at an end: once for each time its mate is a target, if the
      mate is open. */
  lemma {:induction false} SendAllReaches(ends: seq<End>, targets: seq<nat>, m: Msg, x: nat)
    requires x < |ends| && Paired(ends, x) && forall e :: 0 <= e < |ends| ==> Paired(ends, e)
    ensures var mate := ends[x].mate;
            |SendAll(ends, targets, m)[x].inbox| ==
              |ends[x].inbox| + if ends[mate].open then multiset(targets)[mate] else 0
  {
    if targets != [] {
      var init, e := targets[..|targets| - 1], targets[|targets| - 1];
      assert targets == init + [e];
      SendAllReaches(ends, init, m, x);
      SendAllKeeps(ends, init, m);
      hide SendAll;
      SendLast(ends, targets, m);
      assert Paired(ends, x) && (e < |ends| ==> Paired(ends, e));
    }
  }

  lemma SendLast(ends: seq<End>, targets: seq<nat>, m: Msg)
    requires targets != []
    ensures var before := SendAll(ends, targets[..|targets| - 1], m);
            var e := targets[|targets| - 1];
            SendAll(ends, targets, m) ==
              if e < |before| && before[e].open && before[e].mate < |before| then Push(before, before[e].mate, [m])
              else before
  {
  }

  predicate Paired(ends: seq<End>, e: nat)
    requires e < |ends|
  {
    ends[e].mate < |ends| && ends[ends[e].mate].mate == e
  }

  function IdsOf(m: Msg): set<Id> {
    match m
    case Announce(id, _, _) => {id}
    case PeerList(entries) => set k | 0 <= k < |entries| :: entries[k].id
  }

  /** A broadcast that handling `m` may post: an announcement of somebody `m` names, one hop
      older than `m` or as fresh as the entry of a list, to ends the node is connected by. */
  predicate Posts(n: Node, m: Msg, order: seq<Id>, b: Batch) {
    && b.msg.Announce? && b.msg.id in IdsOf(m) && b.msg.id != ""
    && b.msg.ttl == (if m.Announce? then m.ttl - 1 else LIST_TTL)
    && |b.targets| <= |order| && forall x :: x in b.targets ==> x in n.conns.Values
  }

  lemma {:induction false} HandleEntriesPosts(n: Node, entries: seq<Entry>, order: seq<Id>)
    requires forall x :: x in order ==> x in n.conns
    ensures var (after, posted) := HandleEntries(n, entries, order);
            && |posted| <= |entries|
            && (forall i :: 0 <= i < |posted| ==> Posts(n, PeerList(entries), order, posted[i]))
            && after.known.Keys <= n.known.Keys + IdsOf(PeerList(entries))
  {
    if entries != [] {
      var init := entries[..|entries| - 1];
      HandleEntriesPosts(n, init, order);
      assert forall k :: 0 <= k < |init| ==> entries[k] == init[k];
      assert IdsOf(PeerList(init)) <= IdsOf(PeerList(entries));
      assert entries[|entries| - 1].id in IdsOf(PeerList(entries));
    }
  }

  lemma HandlePosts(n: Node, e: nat, bound: Option<Id>, m: Msg, order: seq<Id>, listing: seq<Id>)
    requires Applies(n, m, order, listing)
    ensures var o := Handle(n, e, bound, m, order, listing);
            && (forall i :: 0 <= i < |o.posted| ==> Posts(n, m, order, o.posted[i]))
            && (o.node.conns == n.conns || (m.Announce? && o.node.conns == n.conns[m.id := e]))
            && o.node.known.Keys <= n.known.Keys + IdsOf(m)
  {
    hide Targets, HandleEntries, AttachReply, Entries;
    if m.PeerList? {
      HandleEntriesPosts(n, m.entries, order);
    } else if m.id != "" {
      BroadcastPosts(n, m, order);
    }
  }

  lemma BroadcastPosts(n: Node, m: Msg, order: seq<Id>)
    requires m.Announce? && m.id != "" && forall x :: x in order ==> x in n.conns
    ensures var posted := Broadcast(Discover(n, m.id, m.addr), Announce(m.id, m.ttl - 1, m.addr), m.id, order);
            forall i :: 0 <= i < |posted| ==> Posts(n, m, order, posted[i])
  {
    hide Targets;
  }

  lemma DeliveredWellFormed(t: Net, e: nat, o: Outcome)
    requires WellFormed(t) && e < |t.ends| && t.ends[e].inbox != []
    requires forall i, k :: 0 <= i < |o.posted| && 0 <= k < |o.posted[i].targets| ==> o.posted[i].targets[k] < |t.ends|
    requires forall id :: id in o.node.conns ==> o.node.conns[id] < |t.ends|
    ensures WellFormed(Delivered(t, e, o))
  {
  }

  lemma DeliverTargets(t: Net, e: nat, order: seq<Id>, listing: seq<Id>)
    requires WellFormed(t) && Enabled(t, Deliver(e, order, listing))
    ensures var end := t.ends[e];
            var o := Handle(t.nodes[end.owner], e, end.bound, end.inbox[0], order, listing);
            && (forall i, k :: 0 <= i < |o.posted| && 0 <= k < |o.posted[i].targets| ==>
                  o.posted[i].targets[k] < |t.ends|)
            && (forall id :: id in o.node.conns ==> o.node.conns[id] < |t.ends|)
  {
    hide Handle, Delivered;
    var end := t.ends[e];
    var n := t.nodes[end.owner];
    var o := Handle(n, e, end.bound, end.inbox[0], order, listing);
    HandlePosts(n, e, end.bound, end.inbox[0], order, listing);
    forall i, k | 0 <= i < |o.posted| && 0 <= k < |o.posted[i].targets|
      ensures o.posted[i].targets[k] < |t.ends|
    {
      assert Posts(n, end.inbox[0], order, o.posted[i]);
      assert o.posted[i].targets[k] in o.posted[i].targets;
    }
  }

  lemma DeliverKeepsWellFormed(t: Net, e: nat, order: seq<Id>, listing: seq<Id>)
    requires WellFormed(t) && Enabled(t, Deliver(e, order, listing))
    ensures WellFormed(After(t, Deliver(e, order, listing)))
  {
    hide Handle, Delivered;
    var end := t.ends[e];
    DeliverTargets(t, e, order, listing);
    DeliveredWellFormed(t, e, Handle(t.nodes[end.owner], e, end.bound, end.inbox[0], order, listing));
  }

  lemma FlushedWellFormed(t: Net, i: nat)
    requires WellFormed(t) && i < |t.posted|
    ensures WellFormed(Net(t.nodes, SendAll(t.ends, t.posted[i].targets, t.posted[i].msg),
                           t.posted[..i] + t.posted[i + 1..]))
  {
    hide SendAll;
    SendAllKeeps(t.ends, t.posted[i].targets, t.posted[i].msg);
  }

  lemma ClosedWellFormed(t: Net, e: nat)
    requires WellFormed(t) && e < |t.ends|
    ensures WellFormed(Closed(t, e))
  {
  }

  lemma StepKeepsWellFormed(t: Net, s: Step)
    requires WellFormed(t) && Enabled(t, s)
    ensures WellFormed(After(t, s)) && |After(t, s).nodes| == |t.nodes|
  {
    hide Handle, SendAll, Walks, Enumerates;
    match s {
      case Deliver(e, order, listing) =>
        DeliverKeepsWellFormed(t, e, order, listing);
      case Flush(i) => FlushedWellFormed(t, i);
      case Open(_, _, _, _) =>
      case Close(e) => ClosedWellFormed(t, e);
    }
  }
}
