/** Matching responses to requests: the pending-handler tables of `PeerManager`
    (src/peer_manager.cpp).  A request id is the peer's own name, a fixed word and a
    counter; the counter alone tells ids apart, so ids are numbers here. */
module Correlation {
  import opened Wrappers

  datatype Table<H> = Table(pending: map<nat, H>, counter: nat)

  /** The critical sections that touch the table, as they follow one another. */
  datatype Event<H, R> =
    | Issue(handler: H)
    | Cancel(id: nat)
    | Respond(id: nat, response: R)

  function After<H, R>(t: Table<H>, e: Event<H, R>): Table<H> {
    match e
    case Issue(h) => Table(t.pending[t.counter + 1 := h], t.counter + 1)
    case Cancel(id) => t.(pending := t.pending - {id})
    case Respond(id, _) => t.(pending := t.pending - {id})
  }

  /** The table after a whole history of events. */
  function TableAfter<H, R>(es: seq<Event<H, R>>): Table<H> {
    if es == [] then Table(map[], 0) else After(TableAfter(es[..|es| - 1]), es[|es| - 1])
  }

  /** Event `k` calls `h`: it is a response that finds `h` in the table. */
  predicate Calls<H(==), R>(es: seq<Event<H, R>>, k: nat, h: H)
    requires k < |es|
  {
    var t := TableAfter(es[..k]);
    es[k].Respond? && es[k].id in t.pending && t.pending[es[k].id] == h
  }

  /** Event `k` is a cancel that returns true. */
  predicate Cancels<H, R>(es: seq<Event<H, R>>, k: nat)
    requires k < |es|
  {
    es[k].Cancel? && es[k].id in TableAfter(es[..k]).pending
  }

  predicate Settles<H, R>(e: Event<H, R>, id: nat) {
    !e.Issue? && e.id == id
  }

  /** Event `i` issued `id` for `h`, and nothing before `k` has answered or cancelled it. */
  predicate Waiting<H(==), R(==)>(es: seq<Event<H, R>>, i: nat, k: nat, id: nat, h: H)
    requires k <= |es|
  {
    && i < k && es[i] == Issue(h) && TableAfter(es[..i]).counter + 1 == id
    && forall j :: i < j < k ==> !Settles(es[j], id)
  }

  /** Some request issued `id` for `h`, and `id` is still unsettled before event `k`. */
  ghost predicate Outstanding<H, R>(es: seq<Event<H, R>>, k: nat, id: nat, h: H)
    requires k <= |es|
  {
    exists i :: Waiting(es, i, k, id, h)
  }

  lemma HistoryStep<H, R>(es: seq<Event<H, R>>, k: nat)
    requires k < |es|
    ensures TableAfter(es[..k + 1]) == After(TableAfter(es[..k]), es[k])
  {
    assert es[..k + 1][..k] == es[..k];
  }

  /** Ids only ever grow, so none is used twice. */
  lemma {:induction false} CounterGrows<H, R>(es: seq<Event<H, R>>, i: nat, k: nat)
    requires i <= k <= |es|
    ensures TableAfter(es[..i]).counter <= TableAfter(es[..k]).counter
    ensures i < k && es[i].Issue? ==> TableAfter(es[..i]).counter < TableAfter(es[..k]).counter
  {
    if i < k {
      HistoryStep(es, k - 1);
      if i < k - 1 {
        CounterGrows(es, i, k - 1);
      }
    }
  }

  lemma OutstandingStep<H, R>(es: seq<Event<H, R>>, k: nat, id: nat, h: H)
    requires k < |es|
    ensures Outstanding(es, k + 1, id, h) <==>
              if es[k].Issue? && TableAfter(es[..k]).counter + 1 == id then es[k].handler == h
              else !Settles(es[k], id) && Outstanding(es, k, id, h)
  {
    var k1 := k + 1;
    if i: nat :| Waiting(es, i, k1, id, h) {
      CounterGrows(es, i, k);
      assert i < k ==> Waiting(es, i, k, id, h);
    }
    if es[k].Issue? && TableAfter(es[..k]).counter + 1 == id {
      assert es[k].handler == h ==> Waiting(es, k, k1, id, h);
    } else if i: nat :| Waiting(es, i, k, id, h) {
      assert !Settles(es[k], id) ==> Waiting(es, i, k1, id, h);
    }
  }

  /** What is in the table: exactly the requests issued and neither answered nor cancelled
      since, each with the handler it was issued with. */
  lemma {:induction false} PendingExactly<H, R>(es: seq<Event<H, R>>, k: nat, id: nat, h: H)
    requires k <= |es|
    ensures id in TableAfter(es[..k]).pending && TableAfter(es[..k]).pending[id] == h <==> Outstanding(es, k, id, h)
  {
    if k > 0 {
      PendingExactly(es, k - 1, id, h);
      HistoryStep(es, k - 1);
      OutstandingStep(es, k - 1, id, h);
      hide Outstanding, TableAfter;
    }
  }

  /** A response runs a handler exactly when it is the first event, after the request with
      that id was issued, to answer or cancel it; and it runs the handler of that request. */
  lemma CalledExactly<H, R>(es: seq<Event<H, R>>, k: nat, h: H)
    requires k < |es|
    ensures Calls(es, k, h) <==> es[k].Respond? && Outstanding(es, k, es[k].id, h)
  {
    if es[k].Respond? {
      PendingExactly(es, k, es[k].id, h);
    }
  }

  /** No request is settled twice: neither called twice, nor called after a cancel that
      returned true, nor cancelled successfully after being called. */
  lemma SettledAtMostOnce<H, R>(es: seq<Event<H, R>>, a: nat, b: nat, g: H, h: H)
    requires a < b < |es| && !es[a].Issue? && !es[b].Issue? && es[a].id == es[b].id
    requires Calls(es, a, g) || Cancels(es, a)
    ensures !Calls(es, b, h) && !Cancels(es, b)
  {
    var id := es[a].id;
    var first := TableAfter(es[..a]).pending[id];
    PendingExactly(es, a, id, first);
    var i: nat :| Waiting(es, i, a, id, first);
    CounterGrows(es, i, a);
    if id in TableAfter(es[..b]).pending {
      var again := TableAfter(es[..b]).pending[id];
      PendingExactly(es, b, id, again);
      var j: nat :| Waiting(es, j, b, id, again);
      assert Settles(es[a], id);
      CounterGrows(es, a, j);
    }
  }

  // ---------------------------------------------------------------- between two sections

  /** The table after further events, from any table. */
  function Follow<H, R>(t: Table<H>, es: seq<Event<H, R>>): Table<H> {
    if es == [] then t else After(Follow(t, es[..|es| - 1]), es[|es| - 1])
  }

  /** The handler that event `e` runs. */
  function Handled<H, R>(t: Table<H>, e: Event<H, R>): Option<H> {
    if e.Respond? && e.id in t.pending then Some(t.pending[e.id]) else None
  }

  function HandledAll<H, R>(t: Table<H>, es: seq<Event<H, R>>): seq<Option<H>> {
    seq(|es|, k requires 0 <= k < |es| => Handled(Follow(t, es[..k]), es[k]))
  }

  lemma {:induction false} FollowHistory<H, R>(past: seq<Event<H, R>>, es: seq<Event<H, R>>)
    ensures Follow(TableAfter(past), es) == TableAfter(past + es)
  {
    if es == [] {
      assert past + es == past;
    } else {
      FollowHistory(past, es[..|es| - 1]);
      assert (past + es)[..|past + es| - 1] == past + es[..|es| - 1];
    }
  }

  /** Nothing in `es` answers or cancels `id`. */
  ghost predicate Unsettled<H, R>(es: seq<Event<H, R>>, id: nat) {
    forall j :: 0 <= j < |es| ==> !Settles(es[j], id)
  }

  /** Tables that differ at most in request `id` go on doing so. */
  lemma AlikeStep<H, R>(a: Table<H>, b: Table<H>, id: nat, e: Event<H, R>)
    requires a.counter == b.counter && a.pending - {id} == b.pending - {id}
    ensures After(a, e).pending - {id} == After(b, e).pending - {id}
  {
    var ap, bp := a.pending - {id}, b.pending - {id};
    assert forall k :: k != id ==> (k in ap <==> k in a.pending) && (k in bp <==> k in b.pending);
    assert forall k :: k in ap ==> ap[k] == a.pending[k] && bp[k] == b.pending[k];
  }

  /** What the others see of a new request: they run the handlers they would have run
      without it, and besides, its own, at the first response to it if no cancel came first.
      Once it is cancelled the table is what it would have been without it. */
  lemma {:induction false} FollowIssued<H, R>(t: Table<H>, h: H, es: seq<Event<H, R>>)
    ensures var id := t.counter + 1;
            var issued, other := Follow(After<H, R>(t, Issue(h)), es), Follow(t.(counter := id), es);
            && issued.counter == other.counter >= id
            && issued.pending - {id} == other.pending - {id}
            && (id in issued.pending && issued.pending[id] == h <==> Unsettled(es, id))
            && (id in issued.pending <==> Unsettled(es, id))
  {
    if es != [] {
      FollowIssued(t, h, es[..|es| - 1]);
      AlikeStep(Follow(After<H, R>(t, Issue(h)), es[..|es| - 1]), Follow(t.(counter := t.counter + 1), es[..|es| - 1]),
                t.counter + 1, es[|es| - 1]);
      assert Unsettled(es, t.counter + 1) <==>
        Unsettled(es[..|es| - 1], t.counter + 1) && !Settles(es[|es| - 1], t.counter + 1);
    }
  }

  lemma HandledIssued<H, R>(t: Table<H>, h: H, es: seq<Event<H, R>>, k: nat)
    requires k < |es|
    ensures var id := t.counter + 1;
            HandledAll(After<H, R>(t, Issue(h)), es)[k] ==
              if es[k].Respond? && es[k].id == id then (if Unsettled(es[..k], id) then Some(h) else None)
              else HandledAll(t.(counter := id), es)[k]
  {
    FollowIssued(t, h, es[..k]);
    var id := t.counter + 1;
    var issued, other := Follow(After<H, R>(t, Issue(h)), es[..k]), Follow(t.(counter := id), es[..k]);
    if es[k].Respond? && es[k].id != id {
      assert es[k].id in issued.pending <==> es[k].id in issued.pending - {id};
      assert es[k].id in other.pending <==> es[k].id in other.pending - {id};
    }
    hide Follow, Unsettled;
  }

  // ---------------------------------------------------------------- the class

  class Requests<H> {
    var pending: map<nat, H>
    var counter: nat

    function Abs(): Table<H>
      reads this
    {
      Table(pending, counter)
    }

    ghost predicate Valid()
      reads this
    {
      forall k :: k in pending ==> k <= counter
    }

    constructor ()
      ensures Valid() && Abs() == Table(map[], 0)
    {
      pending, counter := map[], 0;
    }

    method Issue(handler: H) returns (id: nat)
      requires Valid()
      modifies this
      ensures Valid() && Abs() == After<H, ()>(old(Abs()), Event.Issue(handler)) && id == counter
    {
      counter := counter + 1;
      id := counter;
      pending := pending[id := handler];
    }

    method Cancel(id: nat) returns (removed: bool)
      requires Valid()
      modifies this
      ensures Valid() && Abs() == After<H, ()>(old(Abs()), Event.Cancel(id))
      ensures removed <==> id in old(pending)
    {
      removed := id in pending;
      pending := pending - {id};
    }

    /** Returns the handler to run, if any. */
    method Respond<R>(id: nat, response: R) returns (handler: Option<H>)
      requires Valid()
      modifies this
      ensures Valid() && Abs() == After<H, R>(old(Abs()), Event.Respond(id, response))
      ensures handler == if id in old(pending) then Some(old(pending)[id]) else None
    {
      if id !in pending { return None; }
      handler := Some(pending[id]);
      pending := pending - {id};
    }

    /** One event of another thread; returns the handler it runs. */
    method ByAnother<R>(e: Event<H, R>) returns (handler: Option<H>)
      requires Valid()
      modifies this
      ensures Valid() && Abs() == After(old(Abs()), e) && handler == Handled(old(Abs()), e)
    {
      handler := None;
      match e {
        case Issue(h) => var _ := Issue(h);
        case Cancel(id) => var _ := Cancel(id);
        case Respond(id, response) => handler := Respond(id, response);
      }
    }

    /** Ask for a chunk.  `connected` says whether the peer was in the connection table,
        `sent` whether it still was when the message was handed over; `meanwhile` is what
        other threads do to the table in between, and `ran` the handlers they run. */
    method RequestFileChunk<R>(handler: Option<H>, connected: bool, meanwhile: seq<Event<H, R>>, sent: bool)
      returns (id: Option<nat>, ran: seq<Option<H>>)
      requires Valid()
      modifies this
      ensures Valid()
      ensures id.Some? <==> handler.Some? && connected && sent
      ensures handler.None? || !connected ==> Abs() == old(Abs()) && ran == []
      ensures handler.Some? && connected ==>
                var issued := After<H, R>(old(Abs()), Event.Issue(handler.value));
                && ran == HandledAll(issued, meanwhile)
                && (sent ==> id == Some(issued.counter) && Abs() == Follow(issued, meanwhile))
                && (!sent ==> Abs() == Follow(old(Abs()).(counter := issued.counter), meanwhile))
    {
      if handler.None? || !connected { return None, []; }
      ghost var before := Abs();
      var issued := Issue(handler.value);
      ran := Meanwhile(meanwhile);
      if sent { return Some(issued), ran; }
      FollowIssued(before, handler.value, meanwhile);
      KeepsAbsent(before.(counter := issued), issued, meanwhile);
      hide Follow, HandledAll;
      var removed := Cancel(issued);
      return None, ran;
    }

    method Meanwhile<R>(es: seq<Event<H, R>>) returns (ran: seq<Option<H>>)
      requires Valid()
      modifies this
      ensures Valid() && Abs() == Follow(old(Abs()), es) && ran == HandledAll(old(Abs()), es)
    {
      ran := [];
      ghost var t := Abs();
      for k := 0 to |es|
        invariant Valid() && Abs() == Follow(t, es[..k])
        invariant |ran| == k && forall i :: 0 <= i < k ==> ran[i] == Handled(Follow(t, es[..i]), es[i])
      {
        assert es[..k + 1][..k] == es[..k];
        var h := ByAnother(es[k]);
        ran := ran + [h];
      }
      assert es[..|es|] == es;
    }
  }

  /** An id already passed over never becomes pending. */
  lemma {:induction false} KeepsAbsent<H, R>(t: Table<H>, id: nat, es: seq<Event<H, R>>)
    requires id <= t.counter && id !in t.pending
    ensures id !in Follow(t, es).pending && t.counter <= Follow(t, es).counter
  {
    if es != [] { KeepsAbsent(t, id, es[..|es| - 1]); }
  }
}
