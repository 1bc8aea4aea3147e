/** Nobody's address is distorted on its way through the network. */
module GossipTruth {
  import opened Gossip
  import opened GossipBinding
  import opened GossipNet
  import opened Wrappers

  /** What a message says about addresses is what `book` says. */
  predicate TrueMsg(book: map<Id, Addr>, m: Msg) {
    match m
    case Announce(id, _, addr) => id in book && book[id] == addr
    case PeerList(entries) => forall k :: 0 <= k < |entries| ==> TrueEntry(book, entries[k])
  }

  predicate TrueEntry(book: map<Id, Addr>, entry: Entry) { entry.id in book && book[entry.id] == entry.addr }

  predicate TrueMsgs(book: map<Id, Addr>, ms: seq<Msg>) { forall k :: 0 <= k < |ms| ==> TrueMsg(book, ms[k]) }

  predicate TrueBatches(book: map<Id, Addr>, posted: seq<Batch>) {
    forall i :: 0 <= i < |posted| ==> TrueMsg(book, posted[i].msg)
  }

  predicate TrueNode(book: map<Id, Addr>, n: Node) {
    && n.id in n.known && n.id in book && book[n.id] == n.addr
    && forall id :: id in n.known ==> id in book && n.known[id] == book[id]
  }

  /** All that is known, under way or posted agrees with `book`, which has every peer's own
      address. */
  ghost predicate AllTrue(book: map<Id, Addr>, t: Net) {
    && (forall p :: 0 <= p < |t.nodes| ==> TrueNode(book, t.nodes[p]))
    && (forall e :: 0 <= e < |t.ends| ==> TrueMsgs(book, t.ends[e].inbox))
    && TrueBatches(book, t.posted)
  }

  lemma {:induction false} EntriesStayTrue(book: map<Id, Addr>, n: Node, entries: seq<Entry>, order: seq<Id>)
    requires TrueNode(book, n) && TrueMsg(book, PeerList(entries)) && forall x :: x in order ==> x in n.conns
    ensures var (after, posted) := HandleEntries(n, entries, order);
            TrueNode(book, after) && TrueBatches(book, posted)
  {
    if entries != [] {
      var init, last := entries[..|entries| - 1], entries[|entries| - 1];
      assert forall k :: 0 <= k < |init| ==> entries[k] == init[k];
      EntriesStayTrue(book, n, init, order);
      assert TrueEntry(book, last);
      hide Targets;
    }
  }

  /** Handling a true message makes a node no less true, and it passes on only the truth. */
  lemma HandlingStaysTrue(book: map<Id, Addr>, n: Node, e: nat, bound: Option<Id>, m: Msg, order: seq<Id>,
                          listing: seq<Id>)
    requires TrueNode(book, n) && TrueMsg(book, m) && Applies(n, m, order, listing)
    ensures var o := Handle(n, e, bound, m, order, listing);
            TrueNode(book, o.node) && TrueBatches(book, o.posted) && TrueMsgs(book, o.reply)
  {
    hide Targets;
    if m.PeerList? { EntriesStayTrue(book, n, m.entries, order); }
  }

  lemma DeliverStaysTrue(book: map<Id, Addr>, t: Net, e: nat, order: seq<Id>, listing: seq<Id>)
    requires WellFormed(t) && AllTrue(book, t) && Enabled(t, Deliver(e, order, listing))
    ensures AllTrue(book, After(t, Deliver(e, order, listing)))
  {
    hide TrueMsg, TrueNode, Handle;
    var end := t.ends[e];
    assert TrueMsgs(book, end.inbox) && TrueMsg(book, end.inbox[0]);
    HandlingStaysTrue(book, t.nodes[end.owner], e, end.bound, end.inbox[0], order, listing);
  }

  lemma FlushStaysTrue(book: map<Id, Addr>, t: Net, i: nat)
    requires WellFormed(t) && AllTrue(book, t) && i < |t.posted|
    ensures AllTrue(book, After(t, Flush(i)))
  {
    hide TrueMsg, TrueNode, SendAll;
    var m := t.posted[i].msg;
    SendAllKeeps(t.ends, t.posted[i].targets, m);
    var u := After(t, Flush(i));
    forall e | 0 <= e < |u.ends| ensures TrueMsgs(book, u.ends[e].inbox) {
      assert TrueMsgs(book, t.ends[e].inbox) && t.ends[e].inbox <= u.ends[e].inbox;
    }
  }

  lemma GreetingIsTrue(book: map<Id, Addr>, n: Node, listing: seq<Id>)
    requires TrueNode(book, n) && forall x :: x in listing ==> x in n.known
    ensures TrueMsgs(book, Greeting(n, listing))
  {
  }

  lemma OpenStaysTrue(book: map<Id, Addr>, t: Net, p: nat, q: nat, ofP: seq<Id>, ofQ: seq<Id>)
    requires WellFormed(t) && AllTrue(book, t) && Enabled(t, Open(p, q, ofP, ofQ))
    ensures AllTrue(book, After(t, Open(p, q, ofP, ofQ)))
  {
    hide TrueMsgs, TrueNode, Greeting;
    GreetingIsTrue(book, t.nodes[p], ofP);
    GreetingIsTrue(book, t.nodes[q], ofQ);
  }

  lemma CloseStaysTrue(book: map<Id, Addr>, t: Net, e: nat)
    requires WellFormed(t) && AllTrue(book, t) && e < |t.ends|
    ensures AllTrue(book, After(t, Close(e)))
  {
    hide TrueMsgs;
  }

  lemma StepStaysTrue(book: map<Id, Addr>, t: Net, s: Step)
    requires WellFormed(t) && AllTrue(book, t) && Enabled(t, s)
    ensures AllTrue(book, After(t, s))
  {
    hide AllTrue, After;
    match s {
      case Deliver(e, order, listing) => DeliverStaysTrue(book, t, e, order, listing);
      case Flush(i) => FlushStaysTrue(book, t, i);
      case Open(p, q, ofP, ofQ) => OpenStaysTrue(book, t, p, q, ofP, ofQ);
      case Close(e) => CloseStaysTrue(book, t, e);
    }
  }

  lemma {:induction false} RunStaysTrue(book: map<Id, Addr>, ts: seq<Net>, ss: seq<Step>, k: nat)
    requires HonestRun(ts, ss) && k <= |ss| && AllTrue(book, ts[0])
    ensures AllTrue(book, ts[k])
  {
    if k > 0 {
      RunStaysTrue(book, ts, ss, k - 1);
      hide AllTrue, After, Enabled;
      StepStaysTrue(book, ts[k - 1], ss[k - 1]);
    }
  }

  /** ADDRESSES ARE NOT DISTORTED.  In every run with honest peers that start with true
      addresses, any announcement of a peer that is under way or posted, any list entry about
      it and any address known for it carries the address the peer itself announces. */
  lemma AddressesAreTrue(book: map<Id, Addr>, ts: seq<Net>, ss: seq<Step>, k: nat, p: nat)
    requires HonestRun(ts, ss) && k <= |ss| && AllTrue(book, ts[0])
    requires p < |ts[k].nodes|
    ensures var id, addr := ts[k].nodes[p].id, ts[k].nodes[p].addr;
            && (forall q :: 0 <= q < |ts[k].nodes| && id in ts[k].nodes[q].known ==> ts[k].nodes[q].known[id] == addr)
            && (forall e, i :: 0 <= e < |ts[k].ends| && 0 <= i < |ts[k].ends[e].inbox| ==>
                  Tells(ts[k].ends[e].inbox[i], id, addr))
            && (forall i :: 0 <= i < |ts[k].posted| ==> Tells(ts[k].posted[i].msg, id, addr))
  {
    RunStaysTrue(book, ts, ss, k);
    assert TrueNode(book, ts[k].nodes[p]);
    forall e, i | 0 <= e < |ts[k].ends| && 0 <= i < |ts[k].ends[e].inbox|
      ensures Tells(ts[k].ends[e].inbox[i], ts[k].nodes[p].id, ts[k].nodes[p].addr)
    {
      assert TrueMsgs(book, ts[k].ends[e].inbox) && TrueMsg(book, ts[k].ends[e].inbox[i]);
    }
  }

  /** Whatever a message says about the address of `id` is `addr`. */
  predicate Tells(m: Msg, id: Id, addr: Addr) {
    match m
    case Announce(x, _, a) => x == id ==> a == addr
    case PeerList(entries) => forall k :: 0 <= k < |entries| && entries[k].id == id ==> entries[k].addr == addr
  }
}
