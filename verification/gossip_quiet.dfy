/** Gossip dies out: over fixed connections every run delivers finitely many messages. */
module GossipQuiet {
  import opened FiniteSets
  import opened Gossip
  import opened GossipNet
  import opened Wrappers
  import Arith

  // ---------------------------------------------------------------- the measure

  /** What an announcement with `ttl` hops can still cause among `n` peers: its own handling,
      one broadcast of it with a hop less, and, if it is fresh enough to rebind a connection,
      one peer list. */
  function AnnounceWeight(n: nat, ttl: int): nat
    decreases if ttl > 0 then ttl else 0, 0
  {
    1 + (if ttl > 1 then 1 + n * AnnounceWeight(n, ttl - 1) else 0)
    + (if ttl >= DEFAULT_TTL then ListWeight(n, n) else 0)
  }

  /** What a list of `k` entries can still cause: its handling and a broadcast per entry. */
  function ListWeight(n: nat, k: nat): nat
    decreases LIST_TTL, 1
  {
    1 + k * (1 + n * AnnounceWeight(n, LIST_TTL))
  }

  function MsgWeight(n: nat, m: Msg): nat {
    match m
    case Announce(_, ttl, _) => AnnounceWeight(n, ttl)
    case PeerList(entries) => ListWeight(n, |entries|)
  }

  function InboxWeight(n: nat, ms: seq<Msg>): nat {
    if ms == [] then 0 else InboxWeight(n, ms[..|ms| - 1]) + MsgWeight(n, ms[|ms| - 1])
  }

  /** A connection end that is not bound yet will send one peer list when it is. */
  function BoundWeight(n: nat, bound: Option<Id>): nat {
    if bound.None? then ListWeight(n, n) else 0
  }

  function EndWeight(n: nat, e: End): nat { BoundWeight(n, e.bound) + InboxWeight(n, e.inbox) }

  function EndsWeight(n: nat, ends: seq<End>): nat {
    if ends == [] then 0 else EndsWeight(n, ends[..|ends| - 1]) + EndWeight(n, ends[|ends| - 1])
  }

  function BatchWeight(n: nat, b: Batch): nat { 1 + |b.targets| * MsgWeight(n, b.msg) }

  function BatchesWeight(n: nat, bs: seq<Batch>): nat {
    if bs == [] then 0 else BatchesWeight(n, bs[..|bs| - 1]) + BatchWeight(n, bs[|bs| - 1])
  }

  function Weight(n: nat, t: Net): nat { EndsWeight(n, t.ends) + BatchesWeight(n, t.posted) }

  // ---------------------------------------------------------------- its arithmetic

  lemma {:induction false} InboxAppend(n: nat, a: seq<Msg>, b: seq<Msg>)
    ensures InboxWeight(n, a + b) == InboxWeight(n, a) + InboxWeight(n, b)
  {
    if b == [] {
      assert a + b == a;
    } else {
      assert (a + b)[..|a + b| - 1] == a + b[..|b| - 1];
      InboxAppend(n, a, b[..|b| - 1]);
    }
  }

  lemma InboxHead(n: nat, ms: seq<Msg>)
    requires ms != []
    ensures InboxWeight(n, ms) == MsgWeight(n, ms[0]) + InboxWeight(n, ms[1..])
  {
    assert ms == [ms[0]] + ms[1..];
    InboxAppend(n, [ms[0]], ms[1..]);
    assert [ms[0]][..0] == [];
  }

  lemma {:induction false} EndsUpdate(n: nat, ends: seq<End>, i: nat, e: End)
    requires i < |ends|
    ensures EndsWeight(n, ends[i := e]) == EndsWeight(n, ends) - EndWeight(n, ends[i]) + EndWeight(n, e)
  {
    var k := |ends| - 1;
    if i < k {
      assert ends[i := e][..k] == ends[..k][i := e];
      EndsUpdate(n, ends[..k], i, e);
    } else {
      assert ends[i := e][..k] == ends[..k];
    }
  }

  lemma {:induction false} BatchesAppend(n: nat, a: seq<Batch>, b: seq<Batch>)
    ensures BatchesWeight(n, a + b) == BatchesWeight(n, a) + BatchesWeight(n, b)
  {
    if b == [] {
      assert a + b == a;
    } else {
      assert (a + b)[..|a + b| - 1] == a + b[..|b| - 1];
      BatchesAppend(n, a, b[..|b| - 1]);
    }
  }

  lemma BatchesRemove(n: nat, bs: seq<Batch>, i: nat)
    requires i < |bs|
    ensures BatchesWeight(n, bs[..i] + bs[i + 1..]) == BatchesWeight(n, bs) - BatchWeight(n, bs[i])
  {
    assert bs == bs[..i] + ([bs[i]] + bs[i + 1..]);
    BatchesAppend(n, bs[..i], [bs[i]] + bs[i + 1..]);
    BatchesAppend(n, [bs[i]], bs[i + 1..]);
    BatchesAppend(n, bs[..i], bs[i + 1..]);
    assert [bs[i]][..0] == [];
  }

  lemma PushWeight(n: nat, ends: seq<End>, e: nat, ms: seq<Msg>)
    requires e < |ends|
    ensures EndsWeight(n, Push(ends, e, ms)) == EndsWeight(n, ends) + InboxWeight(n, ms)
  {
    EndsUpdate(n, ends, e, ends[e].(inbox := ends[e].inbox + ms));
    InboxAppend(n, ends[e].inbox, ms);
  }

  lemma OneMessage(n: nat, m: Msg)
    ensures InboxWeight(n, [m]) == MsgWeight(n, m)
  {
    assert [m][..0] == [];
  }

  lemma {:induction false} SendAllWeight(n: nat, ends: seq<End>, targets: seq<nat>, m: Msg)
    ensures EndsWeight(n, SendAll(ends, targets, m)) <= EndsWeight(n, ends) + |targets| * MsgWeight(n, m)
  {
    hide MsgWeight, EndsWeight, Push;
    if targets != [] {
      var init := targets[..|targets| - 1];
      SendAllWeight(n, ends, init, m);
      var before := SendAll(ends, init, m);
      var e := targets[|targets| - 1];
      if e < |before| && before[e].mate < |before| {
        PushWeight(n, before, before[e].mate, [m]);
        OneMessage(n, m);
      }
      assert |targets| * MsgWeight(n, m) == |init| * MsgWeight(n, m) + MsgWeight(n, m);
    }
  }

  // ---------------------------------------------------------------- handling pays

  lemma BroadcastWeight(n: nat, node: Node, m: Msg, except: Id, order: seq<Id>)
    requires |order| <= n && forall id :: id in order ==> id in node.conns
    ensures BatchesWeight(n, Broadcast(node, m, except, order)) <= 1 + n * MsgWeight(n, m)
  {
    var targets := Targets(node.conns, order, except);
    Arith.MulMonotone(|targets|, n, MsgWeight(n, m));
    assert [Batch(targets, m)][..0] == [];
  }

  lemma {:induction false} EntriesWeight(n: nat, node: Node, entries: seq<Entry>, order: seq<Id>)
    requires |order| <= n && forall x :: x in order ==> x in node.conns
    ensures BatchesWeight(n, HandleEntries(node, entries, order).1) + 1 <= ListWeight(n, |entries|)
  {
    if entries != [] {
      var init := entries[..|entries| - 1];
      EntriesWeight(n, node, init, order);
      var (m, posted) := HandleEntries(node, init, order);
      var entry := entries[|entries| - 1];
      var fwd := Announce(entry.id, LIST_TTL, entry.addr);
      BroadcastWeight(n, m, fwd, entry.id, order);
      BatchesAppend(n, posted, Broadcast(m, fwd, entry.id, order));
      ListWeightStep(n, |init|);
    }
  }

  lemma ListWeightStep(n: nat, k: nat)
    ensures ListWeight(n, k + 1) == ListWeight(n, k) + 1 + n * AnnounceWeight(n, LIST_TTL)
  {
    var a := 1 + n * AnnounceWeight(n, LIST_TTL);
    assert (k + 1) * a == k * a + a;
  }

  lemma ReplyWeight(n: nat, node: Node, e: nat, id: Id, listing: seq<Id>)
    requires |listing| <= n && forall x :: x in listing ==> x in node.known || x == id
    ensures InboxWeight(n, AttachReply(node, e, id, listing)) <= ListWeight(n, n)
  {
    Arith.MulMonotone(|listing|, n, 1 + n * AnnounceWeight(n, LIST_TTL));
    if !(id in node.conns && node.conns[id] == e) {
      OneMessage(n, PeerList(Entries(Attach(node, e, id).known, listing)));
    }
  }

  /** Handling a message posts and sends back less than the message weighed. */
  lemma HandlingPays(n: nat, node: Node, e: nat, bound: Option<Id>, m: Msg, order: seq<Id>, listing: seq<Id>)
    requires Applies(node, m, order, listing) && |order| <= n && (m.Announce? ==> |listing| <= n)
    ensures var o := Handle(node, e, bound, m, order, listing);
            BatchesWeight(n, o.posted) + InboxWeight(n, o.reply) + BoundWeight(n, o.bound)
              < MsgWeight(n, m) + BoundWeight(n, bound)
  {
    match m {
      case Announce(id, ttl, addr) =>
        var seen := Discover(node, id, addr);
        BroadcastWeight(n, seen, Announce(id, ttl - 1, addr), id, order);
        ReplyWeight(n, seen, e, id, listing);
        hide Broadcast, AttachReply, Attach, Discover, ListWeight;
      case PeerList(entries) => EntriesWeight(n, node, entries, order);
    }
  }

  // ---------------------------------------------------------------- steps and runs

  /** Every peer that is known, connected or named in a message is one of `ids`. */
  ghost predicate Within(ids: set<Id>, t: Net) {
    && (forall p :: 0 <= p < |t.nodes| ==> t.nodes[p].known.Keys <= ids && t.nodes[p].conns.Keys <= ids)
    && (forall e, k :: 0 <= e < |t.ends| && 0 <= k < |t.ends[e].inbox| ==> IdsOf(t.ends[e].inbox[k]) <= ids)
    && (forall i :: 0 <= i < |t.posted| ==> IdsOf(t.posted[i].msg) <= ids)
  }

  lemma DeliverLightens(ids: set<Id>, t: Net, e: nat, order: seq<Id>, listing: seq<Id>)
    requires WellFormed(t) && Within(ids, t) && Enabled(t, Deliver(e, order, listing))
    ensures Weight(|ids|, After(t, Deliver(e, order, listing))) < Weight(|ids|, t)
  {
    var n := |ids|;
    var end := t.ends[e];
    var node := t.nodes[end.owner];
    var m := end.inbox[0];
    assert IdsOf(m) <= ids;
    DistinctAtMost(order, ids);
    if m.Announce? { DistinctAtMost(listing, ids); }
    var o := Handle(node, e, end.bound, m, order, listing);
    HandlingPays(n, node, e, end.bound, m, order, listing);
    DeliveredWeight(n, t, e, o);
  }

  lemma DeliveredWeight(n: nat, t: Net, e: nat, o: Outcome)
    requires WellFormed(t) && e < |t.ends| && t.ends[e].inbox != []
    ensures Weight(n, Delivered(t, e, o)) ==
              Weight(n, t) - MsgWeight(n, t.ends[e].inbox[0]) - BoundWeight(n, t.ends[e].bound) +
              BatchesWeight(n, o.posted) + InboxWeight(n, o.reply) + BoundWeight(n, o.bound)
  {
    hide MsgWeight, BoundWeight, EndsWeight, BatchesWeight;
    var end := t.ends[e].(bound := o.bound, inbox := t.ends[e].inbox[1..]);
    InboxHead(n, t.ends[e].inbox);
    EndsUpdate(n, t.ends, e, end);
    PushWeight(n, t.ends[e := end], t.ends[e].mate, o.reply);
    BatchesAppend(n, t.posted, o.posted);
  }

  lemma FlushLightens(n: nat, t: Net, i: nat)
    requires WellFormed(t) && i < |t.posted|
    ensures Weight(n, After(t, Flush(i))) < Weight(n, t)
  {
    SendAllWeight(n, t.ends, t.posted[i].targets, t.posted[i].msg);
    BatchesRemove(n, t.posted, i);
  }

  lemma DeliverKeepsWithin(ids: set<Id>, t: Net, e: nat, order: seq<Id>, listing: seq<Id>)
    requires WellFormed(t) && Within(ids, t) && Enabled(t, Deliver(e, order, listing))
    ensures Within(ids, After(t, Deliver(e, order, listing)))
  {
    var end := t.ends[e];
    var node := t.nodes[end.owner];
    var m := end.inbox[0];
    assert IdsOf(m) <= ids;
    HandlePosts(node, e, end.bound, m, order, listing);
    HandleNames(ids, node, e, end.bound, m, order, listing);
    DeliveredWithin(ids, t, e, Handle(node, e, end.bound, m, order, listing));
  }

  lemma HandleNames(ids: set<Id>, node: Node, e: nat, bound: Option<Id>, m: Msg, order: seq<Id>, listing: seq<Id>)
    requires Applies(node, m, order, listing) && IdsOf(m) <= ids && node.known.Keys <= ids && node.conns.Keys <= ids
    ensures var o := Handle(node, e, bound, m, order, listing);
            && o.node.known.Keys <= ids && o.node.conns.Keys <= ids
            && (forall k :: 0 <= k < |o.reply| ==> IdsOf(o.reply[k]) <= ids)
            && (forall i :: 0 <= i < |o.posted| ==> IdsOf(o.posted[i].msg) <= ids)
  {
    HandlePosts(node, e, bound, m, order, listing);
    var o := Handle(node, e, bound, m, order, listing);
    forall i | 0 <= i < |o.posted|
      ensures IdsOf(o.posted[i].msg) <= ids
    {
      assert Posts(node, m, order, o.posted[i]);
    }
  }

  lemma DeliveredWithin(ids: set<Id>, t: Net, e: nat, o: Outcome)
    requires WellFormed(t) && Within(ids, t) && e < |t.ends| && t.ends[e].inbox != []
    requires o.node.known.Keys <= ids && o.node.conns.Keys <= ids
    requires forall k :: 0 <= k < |o.reply| ==> IdsOf(o.reply[k]) <= ids
    requires forall i :: 0 <= i < |o.posted| ==> IdsOf(o.posted[i].msg) <= ids
    ensures Within(ids, Delivered(t, e, o))
  {
    hide IdsOf;
  }

  lemma FlushKeepsWithin(ids: set<Id>, t: Net, i: nat)
    requires WellFormed(t) && Within(ids, t) && i < |t.posted|
    ensures Within(ids, After(t, Flush(i)))
  {
    SendAllKeeps(t.ends, t.posted[i].targets, t.posted[i].msg);
    hide IdsOf, SendAll;
  }

  /** A run in which no new connection is made; any may be closed. */
  ghost predicate FixedRun(ts: seq<Net>, ss: seq<Step>) {
    && |ts| == |ss| + 1
    && forall i :: 0 <= i < |ss| ==>
         WellFormed(ts[i]) && Enabled(ts[i], ss[i]) && !ss[i].Open? && ts[i + 1] == After(ts[i], ss[i])
  }

  function Chatter(ss: seq<Step>): nat {
    if ss == [] then 0
    else Chatter(ss[..|ss| - 1]) + if ss[|ss| - 1].Deliver? || ss[|ss| - 1].Flush? then 1 else 0
  }

  /** Whatever the messages under way, their hop counts and the order of events: the number of
      deliveries and broadcasts in a run without new connections is bounded by the weight of
      the net it starts from. */
  lemma {:induction false} GossipIsBounded(ids: set<Id>, ts: seq<Net>, ss: seq<Step>, k: nat)
    requires FixedRun(ts, ss) && WellFormed(ts[0]) && Within(ids, ts[0]) && k <= |ss|
    ensures WellFormed(ts[k]) && Within(ids, ts[k])
    ensures Chatter(ss[..k]) + Weight(|ids|, ts[k]) <= Weight(|ids|, ts[0])
  {
    hide WellFormed, Within, Enabled, Weight, After;
    if k > 0 {
      GossipIsBounded(ids, ts, ss, k - 1);
      assert ss[..k][..k - 1] == ss[..k - 1];
      StepKeepsWellFormed(ts[k - 1], ss[k - 1]);
      match ss[k - 1] {
        case Deliver(e, order, listing) =>
          DeliverLightens(ids, ts[k - 1], e, order, listing);
          DeliverKeepsWithin(ids, ts[k - 1], e, order, listing);
        case Flush(i) =>
          FlushApplies(ts[k - 1], i);
          FlushLightens(|ids|, ts[k - 1], i);
          FlushKeepsWithin(ids, ts[k - 1], i);
        case Close(e) =>
          CloseNeedsEnd(ts[k - 1], e);
          CloseKeepsWithin(ids, ts[k - 1], e);
      }
    }
  }

  lemma CloseKeepsWithin(ids: set<Id>, t: Net, e: nat)
    requires WellFormed(t) && Within(ids, t) && e < |t.ends|
    ensures Within(ids, After(t, Close(e))) && Weight(|ids|, After(t, Close(e))) == Weight(|ids|, t)
  {
    EndsUpdate(|ids|, t.ends, e, t.ends[e].(open := false));
    hide IdsOf, EndsWeight, BatchesWeight, MsgWeight;
  }

  lemma CloseNeedsEnd(t: Net, e: nat)
    requires Enabled(t, Close(e))
    ensures e < |t.ends|
  {
  }

  lemma FlushApplies(t: Net, i: nat)
    requires Enabled(t, Flush(i))
    ensures i < |t.posted|
  {
  }

  predicate Quiet(t: Net) {
    t.posted == [] && forall e :: 0 <= e < |t.ends| && t.ends[e].open ==> t.ends[e].inbox == []
  }

  /** A net that is not quiet can take a step; so a run that cannot go on ends with every
      message delivered, those to closed connections aside. */
  lemma NeverStuck(t: Net)
    requires WellFormed(t)
    ensures Quiet(t) <==> forall s :: Enabled(t, s) ==> s.Open? || s.Close?
  {
    if t.posted != [] {
      assert Enabled(t, Flush(0));
    } else if e :| 0 <= e < |t.ends| && t.ends[e].open && t.ends[e].inbox != [] {
      var n := t.nodes[t.ends[e].owner];
      var order := AnyOrder(n.conns.Keys);
      var listing := AnyOrder(n.known.Keys + if t.ends[e].inbox[0].Announce? then {t.ends[e].inbox[0].id} else {});
      assert Enabled(t, Deliver(e, order, listing));
    }
  }
}
