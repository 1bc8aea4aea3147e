/** How a peer handles announcements and peer lists (src/peer_manager.cpp). */
module Gossip {
  import opened Wrappers

  type Id = string
  type Addr = string

  /** The hop count a peer puts on the announcement of itself, and on those it makes from the
      entries of a list. */
  const DEFAULT_TTL := 5
  const LIST_TTL := 3

  datatype Entry = Entry(id: Id, addr: Addr)

  datatype Msg = Announce(id: Id, ttl: int, addr: Addr) | PeerList(entries: seq<Entry>)

  /** A broadcast that has been posted: the connection ends it will be sent on. */
  datatype Batch = Batch(targets: seq<nat>, msg: Msg)

  /** A peer: its own id and address, the address it knows of every peer it has heard of, and
      the connection end it uses for each peer it is connected to. */
  datatype Node = Node(id: Id, addr: Addr, known: map<Id, Addr>, conns: map<Id, nat>)

  /** What handling a message does: the node, the id the connection is bound to, the
      broadcasts posted, and the messages sent back on the connection itself. */
  datatype Outcome = Outcome(node: Node, bound: Option<Id>, posted: seq<Batch>, reply: seq<Msg>)

  function Discover(n: Node, id: Id, addr: Addr): Node {
    if id == n.id then n else n.(known := n.known[id := addr])
  }

  function Targets(conns: map<Id, nat>, order: seq<Id>, except: Id): (ts: seq<nat>)
    requires forall id :: id in order ==> id in conns
    ensures |ts| <= |order|
    ensures forall t :: t in ts ==> t in conns.Values
  {
    if order == [] then [] else
      var init := Targets(conns, order[..|order| - 1], except);
      var id := order[|order| - 1];
      if id == except then init else init + [conns[id]]
  }

  /** `order` is the order in which the connection table is walked. */
  function Broadcast(n: Node, m: Msg, except: Id, order: seq<Id>): seq<Batch>
    requires forall id :: id in order ==> id in n.conns
  {
    var targets := Targets(n.conns, order, except);
    if targets == [] then [] else [Batch(targets, m)]
  }

  /** A broadcast goes to every connection but the excluded peer's. */
  lemma {:induction false} TargetsExactly(conns: map<Id, nat>, order: seq<Id>, except: Id, t: nat)
    requires forall id :: id in order ==> id in conns
    ensures t in Targets(conns, order, except) <==> exists id :: id in order && id != except && conns[id] == t
  {
    if order != [] {
      var init := order[..|order| - 1];
      TargetsExactly(conns, init, except, t);
      assert forall x :: x in order <==> x in init || x == order[|order| - 1];
    }
  }

  function Entries(known: map<Id, Addr>, listing: seq<Id>): (es: seq<Entry>)
    requires forall id :: id in listing ==> id in known
    ensures |es| == |listing|
    ensures forall i :: 0 <= i < |es| ==> es[i] == Entry(listing[i], known[listing[i]])
  {
    seq(|listing|, i requires 0 <= i < |listing| => Entry(listing[i], known[listing[i]]))
  }

  /** The connection is that peer's from now on; if that is news, it gets our peer list. */
  function Attach(n: Node, e: nat, id: Id): Node {
    if id in n.conns && n.conns[id] == e then n
    else n.(conns := n.conns[id := e], known := if id in n.known then n.known else n.known[id := ""])
  }

  function AttachReply(n: Node, e: nat, id: Id, listing: seq<Id>): seq<Msg>
    requires forall x :: x in listing ==> x in n.known || x == id
  {
    if id in n.conns && n.conns[id] == e then [] else [PeerList(Entries(Attach(n, e, id).known, listing))]
  }

  /** `listing` is the order in which the peer table is walked. */
  function HandleAnnounce(n: Node, e: nat, bound: Option<Id>, id: Id, ttl: int, addr: Addr, order: seq<Id>,
                          listing: seq<Id>): Outcome
    requires forall x :: x in order ==> x in n.conns
    requires forall x :: x in listing ==> x in n.known || x == id
  {
    if id == "" || addr == "" then Outcome(n, bound, [], [])
    else
      var seen := Discover(n, id, addr);
      var posted := if ttl > 1 then Broadcast(seen, Announce(id, ttl - 1, addr), id, order) else [];
      if bound.None? || (bound.value != id && ttl >= DEFAULT_TTL) then
        Outcome(Attach(seen, e, id), Some(id), posted, AttachReply(seen, e, id, listing))
      else
        Outcome(seen, bound, posted, [])
  }

  function HandleEntries(n: Node, entries: seq<Entry>, order: seq<Id>): (r: (Node, seq<Batch>))
    requires forall x :: x in order ==> x in n.conns
    ensures r.0.conns == n.conns && r.0.id == n.id && r.0.addr == n.addr
  {
    if entries == [] then (n, []) else
      var (m, posted) := HandleEntries(n, entries[..|entries| - 1], order);
      var entry := entries[|entries| - 1];
      if entry.id == "" then (m, posted)
      else (Discover(m, entry.id, entry.addr),
            posted + Broadcast(m, Announce(entry.id, LIST_TTL, entry.addr), entry.id, order))
  }

  predicate Applies(n: Node, m: Msg, order: seq<Id>, listing: seq<Id>) {
    && (forall x :: x in order ==> x in n.conns)
    && (m.Announce? ==> forall x :: x in listing ==> x in n.known || x == m.id)
  }

  function Handle(n: Node, e: nat, bound: Option<Id>, m: Msg, order: seq<Id>, listing: seq<Id>): Outcome
    requires Applies(n, m, order, listing)
  {
    match m
    case Announce(id, ttl, addr) => HandleAnnounce(n, e, bound, id, ttl, addr, order, listing)
    case PeerList(entries) =>
      var (after, posted) := HandleEntries(n, entries, order);
      Outcome(after, bound, posted, [])
  }

  // ---------------------------------------------------------------- what is passed on

  /** One of the broadcasts sends `m` on the connection end `t`. */
  ghost predicate Sends(posted: seq<Batch>, m: Msg, t: nat) {
    exists b :: b in posted && b.msg == m && t in b.targets
  }

  /** `t` is the connection of a peer other than `except`. */
  ghost predicate Reaches(n: Node, except: Id, t: nat) { exists c :: c in n.conns && c != except && n.conns[c] == t }

  /** `m` and nothing else is sent, on exactly the connections of the peers it is not about. */
  ghost predicate SendsOnly(n: Node, m: Msg, posted: seq<Batch>)
    requires m.Announce?
  {
    && |posted| <= 1 && (forall b :: b in posted ==> b.msg == m)
    && forall t :: Sends(posted, m, t) <==> Reaches(n, m.id, t)
  }

  lemma BroadcastReaches(n: Node, m: Msg, order: seq<Id>)
    requires m.Announce? && forall id :: id in order <==> id in n.conns
    ensures SendsOnly(n, m, Broadcast(n, m, m.id, order))
  {
    var posted := Broadcast(n, m, m.id, order);
    forall t ensures Sends(posted, m, t) <==> Reaches(n, m.id, t) {
      TargetsExactly(n.conns, order, m.id, t);
      hide Targets;
      if c :| c in n.conns && c != m.id && n.conns[c] == t {
        assert c in order;
        assert posted[0] in posted && t in posted[0].targets;
      }
    }
  }

  /** AN ANNOUNCEMENT IS PASSED ON AS IT CAME.  One with an id, an address and hops left goes,
      with that id and that address and one hop fewer, to exactly the connections of the peers
      other than the one it is about; any other announcement goes nowhere. */
  lemma AnnouncementIsPassedOn(n: Node, e: nat, bound: Option<Id>, m: Msg, order: seq<Id>, listing: seq<Id>)
    requires m.Announce? && Applies(n, m, order, listing) && forall id :: id in n.conns ==> id in order
    ensures var posted := Handle(n, e, bound, m, order, listing).posted;
            if m.id != "" && m.addr != "" && m.ttl > 1
            then SendsOnly(n, Announce(m.id, m.ttl - 1, m.addr), posted)
            else posted == []
  {
    var seen := Discover(n, m.id, m.addr);
    var on := Announce(m.id, m.ttl - 1, m.addr);
    BroadcastReaches(seen, on, order);
    assert forall t :: Reaches(n, m.id, t) <==> Reaches(seen, m.id, t);
    hide Broadcast;
  }

  /** What is sent about an entry of a list. */
  function AboutEntry(entry: Entry): Msg { Announce(entry.id, LIST_TTL, entry.addr) }

  /** Each named entry goes to all it is not about, and nothing else goes anywhere. */
  ghost predicate SendsEntries(n: Node, entries: seq<Entry>, posted: seq<Batch>) {
    && (forall x, t :: x in entries && x.id != "" && Reaches(n, x.id, t) ==>
          Sends(posted, Announce(x.id, LIST_TTL, x.addr), t))
    && (forall b, t :: b in posted && t in b.targets ==>
          exists x :: x in entries && x.id != "" && b.msg == Announce(x.id, LIST_TTL, x.addr) && Reaches(n, x.id, t))
  }

  /** A LIST IS PASSED ON ENTRY BY ENTRY.  Every entry with an id goes, with that id and its
      own address and three hops, to the connections of all peers other than the one it is
      about; and nothing else is sent. */
  lemma {:induction false} ListIsPassedOn(n: Node, entries: seq<Entry>, order: seq<Id>)
    requires forall id :: id in order <==> id in n.conns
    ensures SendsEntries(n, entries, HandleEntries(n, entries, order).1)
  {
    if entries != [] {
      hide SendsEntries, Broadcast, SendsOnly;
      var init, last := entries[..|entries| - 1], entries[|entries| - 1];
      ListIsPassedOn(n, init, order);
      var (before, posted) := HandleEntries(n, init, order);
      assert init + [last] == entries;
      if last.id != "" {
        var seen := Discover(before, last.id, last.addr);
        BroadcastReaches(seen, AboutEntry(last), order);
        SameReach(n, seen, AboutEntry(last), Broadcast(seen, AboutEntry(last), last.id, order));
        OneEntryMore(n, init, last, posted, Broadcast(seen, AboutEntry(last), last.id, order));
      } else {
        NamelessEntry(n, init, last, posted);
      }
    } else {
      assert HandleEntries(n, entries, order).1 == [];
    }
  }

  lemma SameReach(n: Node, seen: Node, m: Msg, posted: seq<Batch>)
    requires m.Announce? && SendsOnly(seen, m, posted) && seen.conns == n.conns
    ensures SendsOnly(n, m, posted)
  {
    hide Sends;
    assert forall t :: Reaches(n, m.id, t) <==> Reaches(seen, m.id, t);
  }

  lemma OneEntryMore(n: Node, entries: seq<Entry>, last: Entry, posted: seq<Batch>, more: seq<Batch>)
    requires SendsEntries(n, entries, posted) && SendsOnly(n, AboutEntry(last), more) && last.id != ""
    ensures SendsEntries(n, entries + [last], posted + more)
  {
    hide Reaches;
    forall x, t | x in entries + [last] && x.id != "" && Reaches(n, x.id, t)
      ensures Sends(posted + more, Announce(x.id, LIST_TTL, x.addr), t)
    {
      if x in entries {
        assert Sends(posted, Announce(x.id, LIST_TTL, x.addr), t);
      } else {
        assert Sends(more, AboutEntry(last), t);
      }
      SendsMore(posted, more, Announce(x.id, LIST_TTL, x.addr), t);
    }
    forall b, t | b in posted + more && t in b.targets
      ensures exists x :: x in entries + [last] && x.id != "" && b.msg == Announce(x.id, LIST_TTL, x.addr) &&
                          Reaches(n, x.id, t)
    {
      if b in posted {
        var x :| x in entries && x.id != "" && b.msg == Announce(x.id, LIST_TTL, x.addr) && Reaches(n, x.id, t);
        assert x in entries + [last];
      } else {
        assert Sends(more, AboutEntry(last), t);
        assert last in entries + [last];
      }
    }
  }

  lemma SendsMore(posted: seq<Batch>, more: seq<Batch>, m: Msg, t: nat)
    requires Sends(posted, m, t) || Sends(more, m, t)
    ensures Sends(posted + more, m, t)
  {
    var b :| (b in posted || b in more) && b.msg == m && t in b.targets;
    assert b in posted + more;
  }

  lemma NamelessEntry(n: Node, entries: seq<Entry>, last: Entry, posted: seq<Batch>)
    requires SendsEntries(n, entries, posted) && last.id == ""
    ensures SendsEntries(n, entries + [last], posted)
  {
    hide Reaches, Sends;
    forall b, t | b in posted && t in b.targets
      ensures exists x :: x in entries + [last] && x.id != "" && b.msg == Announce(x.id, LIST_TTL, x.addr) &&
                          Reaches(n, x.id, t)
    {
      var x :| x in entries && x.id != "" && b.msg == Announce(x.id, LIST_TTL, x.addr) && Reaches(n, x.id, t);
      assert x in entries + [last];
    }
  }

  /** `addr` is what the last entry about `id` says. */
  ghost predicate LastSaid(entries: seq<Entry>, id: Id, addr: Addr) {
    exists k :: 0 <= k < |entries| && entries[k] == Entry(id, addr) && forall j :: k < j < |entries| ==>
        entries[j].id != id
  }

  /** One more entry changes what is known of the peer it is about, if that is not ourselves. */
  lemma EntryIsKnown(n: Node, init: seq<Entry>, last: Entry, order: seq<Id>, id: Id)
    requires forall x :: x in order ==> x in n.conns
    ensures var before, after := HandleEntries(n, init, order).0.known, HandleEntries(n, init + [last], order).0.known;
            if last.id == id && id != "" && id != n.id then id in after && after[id] == last.addr
            else (id in after <==> id in before) && (id in after ==> after[id] == before[id])
  {
    hide Broadcast;
    assert (init + [last])[..|init|] == init;
  }

  predicate Mentions(entries: seq<Entry>, id: Id) { exists x :: x in entries && x.id == id }

  /** The address known for a peer after a list is that of its last entry there, if it has one
      and is not ourselves. */
  lemma {:induction false} LastEntryIsKnown(n: Node, entries: seq<Entry>, order: seq<Id>, id: Id)
    requires forall x :: x in order ==> x in n.conns
    ensures var known := HandleEntries(n, entries, order).0.known;
            if id != "" && id != n.id && Mentions(entries, id)
            then id in known && LastSaid(entries, id, known[id])
            else (id in known <==> id in n.known) && (id in known ==> known[id] == n.known[id])
  {
    hide HandleEntries, LastSaid, Mentions;
    if entries == [] {
      NothingKnown(n, order, id);
    } else {
      var init, last := entries[..|entries| - 1], entries[|entries| - 1];
      assert init + [last] == entries;
      LastEntryIsKnown(n, init, order, id);
      EntryIsKnown(n, init, last, order, id);
      SaidMore(init, last, id);
    }
  }

  lemma NothingKnown(n: Node, order: seq<Id>, id: Id)
    requires forall x :: x in order ==> x in n.conns
    ensures HandleEntries(n, [], order).0.known == n.known && !Mentions([], id)
  {
  }

  lemma SaidMore(entries: seq<Entry>, last: Entry, id: Id)
    ensures last.id == id ==> LastSaid(entries + [last], id, last.addr)
    ensures last.id != id ==> forall addr :: LastSaid(entries, id, addr) ==> LastSaid(entries + [last], id, addr)
    ensures Mentions(entries + [last], id) <==> Mentions(entries, id) || last.id == id
  {
    assert last in entries + [last] && forall x :: x in entries + [last] <==> x in entries || x == last;
    if last.id == id { assert (entries + [last])[|entries|] == Entry(id, last.addr); }
    forall addr | last.id != id && LastSaid(entries, id, addr) ensures LastSaid(entries + [last], id, addr) {
      var k :| 0 <= k < |entries| && entries[k] == Entry(id, addr) &&
        forall j :: k < j < |entries| ==> entries[j].id != id;
      assert (entries + [last])[k] == Entry(id, addr);
    }
  }

  /** A NEWCOMER IS TOLD EVERYTHING.  The connection is answered exactly when it becomes the
      connection of a peer that did not have it; the answer is one list, of all peers known
      and with the addresses known, the newcomer included. */
  lemma NewcomerIsTold(n: Node, e: nat, bound: Option<Id>, m: Msg, order: seq<Id>, listing: seq<Id>)
    requires Applies(n, m, order, listing)
    requires (m.Announce? ==> forall id :: id in listing <==> id in n.known || id == m.id)
    requires n.id in n.known
    ensures var o := Handle(n, e, bound, m, order, listing);
            if o.bound != bound && !(m.id in n.conns && n.conns[m.id] == e) then
              && |o.reply| == 1 && o.reply[0].PeerList?
              && (forall x :: x in o.reply[0].entries <==> x.id in o.node.known && x.addr == o.node.known[x.id])
              && o.node.conns == n.conns[m.id := e]
            else o.reply == [] && o.node.conns == n.conns
  {
    if m.Announce? && Handle(n, e, bound, m, order, listing).reply != [] {
      var o := Handle(n, e, bound, m, order, listing);
      forall x: Entry | x.id in o.node.known && x.addr == o.node.known[x.id] ensures x in o.reply[0].entries {
        assert x.id in n.known || x.id == m.id;
        assert x.id in listing;
        var k :| 0 <= k < |listing| && listing[k] == x.id;
        assert o.reply[0].entries[k] == x;
      }
    }
  }

  /** A connection bound to one peer is bound to another by nothing but an announcement fresh
      from its sender, and an unbound one by any announcement that has an address. */
  lemma BindingChangesExactly(n: Node, e: nat, bound: Option<Id>, m: Msg, order: seq<Id>, listing: seq<Id>)
    requires Applies(n, m, order, listing)
    ensures var after := Handle(n, e, bound, m, order, listing).bound;
            after != bound <==>
              m.Announce? && m.id != "" && m.addr != "" && bound != Some(m.id) && (bound.None? || m.ttl >= DEFAULT_TTL)
    ensures var after := Handle(n, e, bound, m, order, listing).bound;
            after != bound ==> m.Announce? && after == Some(m.id)
  {
  }

  // ---------------------------------------------------------------- one connection's stream

  /** Handling `m` on connection `e`, by some peer in some state, turns one binding into
      the other. */
  ghost predicate Rebinds(e: nat, bound: Option<Id>, m: Msg, after: Option<Id>) {
    exists n, order, listing :: Applies(n, m, order, listing) && Handle(n, e, bound, m, order, listing).bound == after
  }

  /** The bindings of an unbound connection before and after each message of its stream, as
      the handler leaves them, whatever else the peer does between two of them. */
  ghost predicate BoundAlong(e: nat, ms: seq<Msg>, bounds: seq<Option<Id>>) {
    && |bounds| == |ms| + 1 && bounds[0] == None
    && forall i :: 0 <= i < |ms| ==> Rebinds(e, bounds[i], ms[i], bounds[i + 1])
  }

  /** The binding after the messages `ms`, which depends on them alone. */
  function BoundAfter(bound: Option<Id>, ms: seq<Msg>): Option<Id> {
    if ms == [] then bound else
      var before := BoundAfter(bound, ms[..|ms| - 1]);
      var m := ms[|ms| - 1];
      if m.Announce? && m.id != "" && m.addr != "" && (before.None? || m.ttl >= DEFAULT_TTL) then Some(m.id) else before
  }

  lemma BoundAfterIsHandled(n: Node, e: nat, bound: Option<Id>, ms: seq<Msg>, order: seq<Id>, listing: seq<Id>)
    requires ms != [] && Applies(n, ms[|ms| - 1], order, listing)
    ensures Handle(n, e, BoundAfter(bound, ms[..|ms| - 1]), ms[|ms| - 1], order, listing).bound == BoundAfter(bound, ms)
  {
  }

  /** Along every stream there are bindings, and only these. */
  lemma {:induction false} BoundAlongExactly(e: nat, ms: seq<Msg>, bounds: seq<Option<Id>>)
    ensures BoundAlong(e, ms, bounds) <==>
              |bounds| == |ms| + 1 && forall k :: 0 <= k <= |ms| ==> bounds[k] == BoundAfter(None, ms[..k])
  {
    if |bounds| == |ms| + 1 {
      forall i | 0 <= i < |ms|
        ensures Rebinds(e, BoundAfter(None, ms[..i]), ms[i], bounds[i + 1]) <==>
          bounds[i + 1] == BoundAfter(None, ms[..i + 1])
      {
        BoundStep(e, ms, i, bounds[i + 1]);
      }
      if BoundAlong(e, ms, bounds) {
        for k := 0 to |ms|
          invariant forall j :: 0 <= j <= k ==> bounds[j] == BoundAfter(None, ms[..j])
        {
          assert Rebinds(e, bounds[k], ms[k], bounds[k + 1]);
        }
      }
    }
  }

  lemma BoundStep(e: nat, ms: seq<Msg>, i: nat, after: Option<Id>)
    requires i < |ms|
    ensures Rebinds(e, BoundAfter(None, ms[..i]), ms[i], after) <==> after == BoundAfter(None, ms[..i + 1])
  {
    var before := BoundAfter(None, ms[..i]);
    assert ms[..i + 1][..i] == ms[..i];
    hide Handle;
    if n, order, listing :|
      Applies(n, ms[i], order, listing) && Handle(n, e, before, ms[i], order, listing).bound == after {
      BoundAfterIsHandled(n, e, None, ms[..i + 1], order, listing);
    }
    var n := Node("", "", map[], map[]);
    assert Applies(n, ms[i], [], []);
    BoundAfterIsHandled(n, e, None, ms[..i + 1], [], []);
  }

  /** What an honest remote peer sends after its own announcement: lists, and announcements
      that are at least one hop old. */
  predicate Relayed(ms: seq<Msg>) {
    forall m :: m in ms && m.Announce? ==> m.ttl < DEFAULT_TTL
  }

  lemma {:induction false} StaysBound(id: Id, ms: seq<Msg>)
    requires Relayed(ms)
    ensures BoundAfter(Some(id), ms) == Some(id)
  {
    if ms != [] {
      assert forall m :: m in ms[..|ms| - 1] ==> m in ms;
      assert ms[|ms| - 1] in ms;
      StaysBound(id, ms[..|ms| - 1]);
    }
  }

  lemma {:induction false} BoundAfterAppend(bound: Option<Id>, a: seq<Msg>, b: seq<Msg>)
    ensures BoundAfter(bound, a + b) == BoundAfter(BoundAfter(bound, a), b)
  {
    if b == [] {
      assert a + b == a;
    } else {
      var init := b[..|b| - 1];
      assert (a + b)[..|a + b| - 1] == a + init;
      BoundAfterAppend(bound, a, init);
    }
  }

  lemma OwnAnnouncementBinds(id: Id, addr: Addr)
    requires id != ""
    ensures BoundAfter(None, [Announce(id, DEFAULT_TTL, addr)]) == if addr == "" then None else Some(id)
  {
    assert [Announce(id, DEFAULT_TTL, addr)][..0] == [];
  }

  /** Along every stream that starts with the remote's own announcement, the connection is
      bound to the remote once that has been handled, and stays so. */
  ghost predicate BindsToSender(e: nat, id: Id, addr: Addr) {
    forall relayed, bounds | Relayed(relayed) && BoundAlong(e, [Announce(id, DEFAULT_TTL, addr)] + relayed, bounds) ::
      forall k :: 1 <= k < |bounds| ==> bounds[k] == Some(id)
  }

  /** A connection whose first message is the remote's own announcement is bound to that
      remote, whatever it relays afterwards, exactly when the remote announces an address.
      Without one its announcement is ignored, and the first relayed one takes its place. */
  lemma BindsToSenderExactly(e: nat, id: Id, addr: Addr)
    requires id != ""
    ensures BindsToSender(e, id, addr) <==> addr != ""
  {
    hide BindsToSender;
    if addr != "" { AddressBinds(e, id, addr); } else { RelayTakesOver(e, id); }
  }

  lemma AddressBinds(e: nat, id: Id, addr: Addr)
    requires id != "" && addr != ""
    ensures BindsToSender(e, id, addr)
  {
    hide BoundAlong, BoundAfter;
    var own := Announce(id, DEFAULT_TTL, addr);
    OwnAnnouncementBinds(id, addr);
    forall relayed, bounds | Relayed(relayed) && BoundAlong(e, [own] + relayed, bounds)
      ensures forall k :: 1 <= k < |bounds| ==> bounds[k] == Some(id)
    {
      BoundAlongExactly(e, [own] + relayed, bounds);
      forall k | 1 <= k < |bounds| ensures bounds[k] == Some(id) {
        assert ([own] + relayed)[..k] == [own] + relayed[..k - 1];
        BoundAfterAppend(None, [own], relayed[..k - 1]);
        StaysBound(id, relayed[..k - 1]);
      }
    }
  }

  lemma RelayTakesOver(e: nat, id: Id)
    requires id != ""
    ensures !BindsToSender(e, id, "")
  {
    hide BoundAlong;
    var own := Announce(id, DEFAULT_TTL, "");
    var other := id + "'";
    var relayed := [Announce(other, DEFAULT_TTL - 1, "10.0.0.1:1")];
    var ms := [own] + relayed;
    var bounds := seq(3, k requires 0 <= k < 3 => BoundAfter(None, ms[..k]));
    OwnAnnouncementBinds(id, "");
    BoundAlongExactly(e, ms, bounds);
    BoundAfterAppend(None, [own], relayed);
    assert relayed[..0] == [] && ms[..2] == ms;
    assert bounds[2] == Some(other) && |other| != |id|;
  }

  // ---------------------------------------------------------------- the class

  class GossipPeer {
    const id: Id
    const addr: Addr
    var known: map<Id, Addr>
    var conns: map<Id, nat>

    function Abs(): Node
      reads this
    {
      Node(id, addr, known, conns)
    }

    constructor (id: Id, addr: Addr)
      ensures Abs() == Node(id, addr, map[id := addr], map[])
    {
      this.id, this.addr := id, addr;
      known, conns := map[id := addr], map[];
    }

    method AddPeerDiscovered(peer: Id, addr: Addr)
      modifies this`known
      ensures Abs() == Discover(old(Abs()), peer, addr)
    {
      if peer == id { return; }
      known := known[peer := addr];
    }

    method BroadcastJson(m: Msg, except: Id, order: seq<Id>) returns (posted: seq<Batch>)
      requires forall x :: x in order ==> x in conns
      ensures posted == Broadcast(Abs(), m, except, order)
    {
      var targets := [];
      for i := 0 to |order|
        invariant targets == Targets(conns, order[..i], except)
      {
        assert order[..i + 1][..i] == order[..i];
        if order[i] == except { continue; }
        targets := targets + [conns[order[i]]];
      }
      assert order[..|order|] == order;
      if targets == [] { return []; }
      posted := [Batch(targets, m)];
    }

    /** Returns what is sent to the connection: our peer list, if the connection is new. */
    method OnConnected(peer: Id, e: nat, listing: seq<Id>) returns (reply: seq<Msg>)
      requires forall x :: x in listing ==> x in known || x == peer
      modifies this
      ensures Abs() == Attach(old(Abs()), e, peer)
      ensures reply == AttachReply(old(Abs()), e, peer, listing)
    {
      if peer in conns && conns[peer] == e { return []; }
      conns := conns[peer := e];
      if peer !in known { known := known[peer := ""]; }
      reply := [PeerList(Entries(known, listing))];
    }

    /** The announcement and list branches of `handle_message`. */
    method HandleMessage(e: nat, bound: Option<Id>, m: Msg, order: seq<Id>, listing: seq<Id>)
      returns (after: Option<Id>, posted: seq<Batch>, reply: seq<Msg>)
      requires Applies(Abs(), m, order, listing)
      modifies this
      ensures Outcome(Abs(), after, posted, reply) == Handle(old(Abs()), e, bound, m, order, listing)
    {
      after, posted, reply := bound, [], [];
      if m.Announce? {
        if m.id == "" || m.addr == "" { return; }
        AddPeerDiscovered(m.id, m.addr);
        if m.ttl > 1 {
          posted := BroadcastJson(Announce(m.id, m.ttl - 1, m.addr), m.id, order);
        }
        if bound.None? {
          after := Some(m.id);
          reply := OnConnected(m.id, e, listing);
        } else if bound.value == m.id {
        } else if m.ttl >= DEFAULT_TTL {
          after := Some(m.id);
          reply := OnConnected(m.id, e, listing);
        }
      } else {
        for i := 0 to |m.entries|
          invariant conns == old(conns)
          invariant (Abs(), posted) == HandleEntries(old(Abs()), m.entries[..i], order)
        {
          assert m.entries[..i + 1][..i] == m.entries[..i];
          var entry := m.entries[i];
          if entry.id != "" {
            AddPeerDiscovered(entry.id, entry.addr);
            var more := BroadcastJson(Announce(entry.id, LIST_TTL, entry.addr), entry.id, order);
            posted := posted + more;
          }
        }
        assert m.entries[..|m.entries|] == m.entries;
      }
    }
  }
}
