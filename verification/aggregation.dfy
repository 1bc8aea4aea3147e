/** The fan-out of `request_hash_listing_all` (src/peer_manager.cpp): one list request to
    every connected peer, and one call of the handler when the last of them has completed. */
module Aggregation {
  import opened Correlation
  import opened FiniteSets
  import opened Wrappers

  /** `fired` is the history of the lists the handler was called with. */
  datatype Aggregate<T> = Aggregate(pending: nat, items: seq<T>, fired: seq<seq<T>>)

  /** The context once the peers have been counted; without peers the handler runs at once. */
  function Opened<T>(local: seq<T>, peers: nat): Aggregate<T> {
    Aggregate(peers, local, if peers == 0 then [local] else [])
  }

  function Notified<T>(a: Aggregate<T>, list: seq<T>): Aggregate<T> {
    var items := a.items + list;
    Aggregate(if a.pending == 0 then 0 else a.pending - 1, items, if a.pending == 1 then a.fired + [items] else a.fired)
  }

  function NotifiedAll<T>(a: Aggregate<T>, lists: seq<seq<T>>): Aggregate<T> {
    if lists == [] then a else Notified(NotifiedAll(a, lists[..|lists| - 1]), lists[|lists| - 1])
  }

  function Concat<T>(lists: seq<seq<T>>): seq<T> {
    if lists == [] then [] else Concat(lists[..|lists| - 1]) + lists[|lists| - 1]
  }

  /** Whatever notifications arrive, even too many: the handler runs at the one that is as
      late as there are peers, with the local items and then all lists so far in the order
      they came, and never again. */
  lemma {:induction false} FiresAtTheLast<T>(local: seq<T>, peers: nat, lists: seq<seq<T>>)
    ensures var a := NotifiedAll(Opened(local, peers), lists);
              && a.fired == (if |lists| < peers then [] else [local + Concat(lists[..peers])])
              && a.items == local + Concat(lists)
              && a.pending == if |lists| < peers then peers - |lists| else 0
  {
    if lists == [] {
      assert lists[..0] == [];
      assert local + Concat<T>([]) == local;
    } else {
      var n := |lists| - 1;
      FiresAtTheLast(local, peers, lists[..n]);
      assert local + Concat(lists) == local + Concat(lists[..n]) + lists[n];
      if peers <= n {
        assert lists[..n][..peers] == lists[..peers];
      } else if peers == |lists| {
        assert lists[..peers] == lists;
      }
    }
  }

  // ---------------------------------------------------------------- with the request table

  /** Who a list handler belongs to: a peer of this fan-out, or some other caller. */
  datatype Handler = Ours(peer: nat) | Other

  /** Where the asking thread is: between two peers, handing over request `id` to the peer
      last asked, or about to report that this peer could not be reached. */
  datatype Phase = Between | Sending(id: nat) | Failing

  datatype Completion<T> = Completion(peer: nat, list: seq<T>)

  /** The fan-out in progress.  Peers are numbered in the order they are asked, and `asked`
      have been.  `owed` are the answers whose handlers have been taken out of the table but
      have not notified the context yet; `done` is the history of the notifications. */
  datatype Fan<T> = Fan(peers: nat, local: seq<T>, table: Table<Handler>, asked: nat, phase: Phase,
                        owed: seq<Completion<T>>, aggregate: Aggregate<T>, done: seq<Completion<T>>)

  /** Each region guarded by a mutex is one step: the first five are the asking thread's. */
  datatype Step<T> =
    | Ask                                  // the next peer is connected: its request is issued
    | AskLost                              // the next peer has gone
    | Sent                                 // the request was handed over
    | SendFailed                           // it could not be, and is cancelled
    | Tell                                 // the asking thread notifies in place of the peer
    | Answer(id: nat, list: seq<T>)        // a response, to anyone's request, takes its handler
    | Deliver(k: nat)                      // one of these handlers notifies
    | Foreign                              // some other caller issues a request

  predicate Enabled<T>(f: Fan<T>, s: Step<T>) {
    match s
    case Ask => f.asked < f.peers && f.phase.Between?
    case AskLost => f.asked < f.peers && f.phase.Between?
    case Sent => f.phase.Sending?
    case SendFailed => f.phase.Sending?
    case Tell => f.phase.Failing? && f.asked > 0
    case _ => true
  }

  function Completed<T>(f: Fan<T>, c: Completion<T>): Fan<T> {
    f.(aggregate := Notified(f.aggregate, c.list), done := f.done + [c])
  }

  function Without<X>(s: seq<X>, k: nat): seq<X>
    requires k < |s|
  {
    s[..k] + s[k + 1..]
  }

  function After<T>(f: Fan<T>, s: Step<T>): Fan<T>
    requires Enabled(f, s)
  {
    match s
    case Ask =>
      var t := Correlation.After<Handler, seq<T>>(f.table, Issue(Ours(f.asked)));
      f.(table := t, asked := f.asked + 1, phase := Sending(t.counter))
    case AskLost => f.(asked := f.asked + 1, phase := Failing)
    case Sent => f.(phase := Between)
    case SendFailed => f.(table := Correlation.After<Handler, seq<T>>(f.table, Cancel(f.phase.id)), phase := Failing)
    case Tell => Completed(f.(phase := Between), Completion(f.asked - 1, []))
    case Answer(id, list) =>
      var g := f.(table := Correlation.After(f.table, Respond(id, list)));
      if Waits(f, id) then g.(owed := f.owed + [Completion(f.table.pending[id].peer, list)]) else g
    case Deliver(k) => if k < |f.owed| then Completed(f.(owed := Without(f.owed, k)), f.owed[k]) else f
    case Foreign => f.(table := Correlation.After<Handler, seq<T>>(f.table, Issue(Other)))
  }

  /** Request `id` is pending and one of ours. */
  predicate Waits<T>(f: Fan<T>, id: nat) {
    id in f.table.pending && f.table.pending[id].Ours?
  }

  predicate Untouched<T(==)>(f: Fan<T>) {
    && f.asked == 0 && f.phase.Between? && f.done == [] && f.owed == []
    && f.aggregate == Opened(f.local, f.peers)
    && forall id :: id in f.table.pending ==> id <= f.table.counter && f.table.pending[id].Other?
  }

  /** `fs` is a run of the fan-out, from any table in which nothing of it is pending yet. */
  ghost predicate FanRun<T>(fs: seq<Fan<T>>, ss: seq<Step<T>>) {
    && |fs| == |ss| + 1 && Untouched(fs[0])
    && forall i :: 0 <= i < |ss| ==> Enabled(fs[i], ss[i]) && fs[i + 1] == After(fs[i], ss[i])
  }

  /** The failing case: the hand-over of a request fails that has been answered already.
      Nothing rules it out, as a response is matched by its id alone. */
  predicate Twice<T>(f: Fan<T>, s: Step<T>) {
    s.SendFailed? && f.phase.Sending? && f.phase.id !in f.table.pending
  }

  // ---------------------------------------------------------------- who has completed

  function Completions<T>(cs: seq<Completion<T>>, p: nat): nat {
    if cs == [] then 0 else Completions(cs[..|cs| - 1], p) + if cs[|cs| - 1].peer == p then 1 else 0
  }

  function Lists<T>(cs: seq<Completion<T>>): (r: seq<seq<T>>)
    ensures |r| == |cs|
  {
    seq(|cs|, i requires 0 <= i < |cs| => cs[i].list)
  }

  function Who<T>(cs: seq<Completion<T>>): (r: seq<nat>)
    ensures |r| == |cs|
  {
    seq(|cs|, i requires 0 <= i < |cs| => cs[i].peer)
  }

  lemma {:induction false} TimesJoin<T>(a: seq<Completion<T>>, b: seq<Completion<T>>, p: nat)
    ensures Completions(a + b, p) == Completions(a, p) + Completions(b, p)
  {
    if b == [] {
      assert a + b == a;
    } else {
      TimesJoin(a, b[..|b| - 1], p);
      assert (a + b)[..|a + b| - 1] == a + b[..|b| - 1];
    }
  }

  lemma TimesLast<T>(a: seq<Completion<T>>, c: Completion<T>, p: nat)
    ensures Completions(a + [c], p) == Completions(a, p) + if c.peer == p then 1 else 0
  {
    assert (a + [c])[..|a|] == a;
  }

  lemma TimesWithout<T>(a: seq<Completion<T>>, k: nat, p: nat)
    requires k < |a|
    ensures Completions(a, p) == Completions(Without(a, k), p) + if a[k].peer == p then 1 else 0
  {
    assert a == a[..k] + [a[k]] + a[k + 1..];
    TimesJoin(a[..k] + [a[k]], a[k + 1..], p);
    TimesLast(a[..k], a[k], p);
    TimesJoin(a[..k], a[k + 1..], p);
  }

  lemma {:induction false} TimesPositive<T>(cs: seq<Completion<T>>, p: nat)
    ensures Completions(cs, p) > 0 <==> p in Who(cs)
  {
    if cs != [] {
      var init := cs[..|cs| - 1];
      TimesPositive(init, p);
      assert Who(cs) == Who(init) + [cs[|cs| - 1].peer];
    }
  }

  /** Nobody appears twice exactly if the list of names has no repetition. */
  lemma {:induction false} TimesDistinct<T>(cs: seq<Completion<T>>)
    ensures Distinct(Who(cs)) <==> AtMostOnce(cs)
  {
    if cs != [] {
      var n := |cs| - 1;
      var init, c := cs[..n], cs[n];
      TimesDistinct(init);
      TimesPositive(init, c.peer);
      assert Who(cs) == Who(init) + [c.peer];
      DistinctLast(Who(init), c.peer);
      assert cs == init + [c];
      OnceLast(init, c);
    }
  }

  lemma OnceLast<T>(init: seq<Completion<T>>, c: Completion<T>)
    ensures AtMostOnce(init + [c]) <==> AtMostOnce(init) && Completions(init, c.peer) == 0
  {
    forall p: nat
      ensures Completions(init + [c], p) == Completions(init, p) + if c.peer == p then 1 else 0
    {
      TimesLast(init, c, p);
    }
    hide Completions;
    if AtMostOnce(init + [c]) {
      forall p: nat ensures Completions(init, p) <= 1 { assert Completions(init + [c], p) <= 1; }
      assert Completions(init + [c], c.peer) <= 1;
      assert AtMostOnce(init) && Completions(init, c.peer) == 0;
    }
    if AtMostOnce(init) && Completions(init, c.peer) == 0 {
      assert AtMostOnce(init + [c]);
    }
  }

  ghost predicate AtMostOnce<T>(cs: seq<Completion<T>>) {
    forall p: nat :: Completions(cs, p) <= 1
  }

  lemma DistinctLast(s: seq<nat>, x: nat)
    ensures Distinct(s + [x]) <==> Distinct(s) && x !in s
  {
    if Distinct(s + [x]) {
      assert forall i :: 0 <= i < |s| ==> s[i] == (s + [x])[i] && (s + [x])[|s|] == x;
    }
  }

  /** How often peer `p` has been settled: notified, on its way, or about to be reported. */
  function Settled<T>(f: Fan<T>, p: nat): nat {
    Completions(f.done, p) + InFlight(f, p)
  }

  function InFlight<T>(f: Fan<T>, p: nat): nat {
    Completions(f.owed, p) + if f.phase.Failing? && f.asked == p + 1 then 1 else 0
  }

  ghost predicate Waited<T>(f: Fan<T>, p: nat) {
    exists id :: id in f.table.pending && f.table.pending[id] == Ours(p)
  }

  /** Before step `n`, the hand-over to `p` has failed after `p` had answered. */
  ghost predicate Doubled<T>(fs: seq<Fan<T>>, ss: seq<Step<T>>, n: nat, p: nat)
    requires n <= |ss| < |fs|
  {
    exists i: nat :: i < n && Twice(fs[i], ss[i]) && fs[i].asked == p + 1
  }

  /** Requests of ours are for different peers, all asked. */
  ghost predicate PendingInv<T>(f: Fan<T>) {
    && f.asked <= f.peers
    && (forall id :: id in f.table.pending ==> id <= f.table.counter)
    && (forall id :: Waits(f, id) ==> f.table.pending[id].peer < f.asked)
    && (forall a, b :: Waits(f, a) && Waits(f, b) && f.table.pending[a] == f.table.pending[b] ==> a == b)
  }

  /** The request being handed over, if still pending, is the one for the peer last asked. */
  ghost predicate PhaseInv<T>(f: Fan<T>) {
    && (!f.phase.Between? ==> f.asked > 0)
    && (f.phase.Failing? ==> !Waited(f, f.asked - 1))
    && (f.phase.Sending? && f.phase.id in f.table.pending ==> f.table.pending[f.phase.id] == Ours(f.asked - 1))
    && (f.phase.Sending? && f.phase.id !in f.table.pending ==> f.phase.id <= f.table.counter && !Waited(f, f.asked - 1))
  }

  ghost predicate TableInv<T>(f: Fan<T>) {
    PendingInv(f) && PhaseInv(f)
  }

  ghost predicate ListsInv<T>(f: Fan<T>) {
    f.aggregate == NotifiedAll(Opened(f.local, f.peers), Lists(f.done))
  }

  lemma StepKeepsPending<T>(f: Fan<T>, s: Step<T>)
    requires PendingInv(f) && Enabled(f, s)
    ensures PendingInv(After(f, s))
  {
    hide Notified;
    var g := After(f, s);
    if s.Ask? {
      assert forall id :: Waits(g, id) ==> id == g.table.counter || Waits(f, id);
    } else {
      assert forall id :: Waits(g, id) ==> Waits(f, id) && g.table.pending[id] == f.table.pending[id];
    }
  }

  lemma StepKeepsPhase<T>(f: Fan<T>, s: Step<T>)
    requires TableInv(f) && Enabled(f, s)
    ensures PhaseInv(After(f, s))
  {
    hide Notified;
    var g := After(f, s);
    if !g.phase.Between? {
      StepWaited(f, s, g.asked - 1);
      hide Waited;
      if s.Answer? && f.phase.Sending? && s.id == f.phase.id && s.id in f.table.pending { assert Waits(f, s.id); }
    }
  }

  /** The steps after which a peer is waited for. */
  lemma StepWaited<T>(f: Fan<T>, s: Step<T>, p: nat)
    requires TableInv(f) && Enabled(f, s)
    ensures Waited(After(f, s), p) <==>
              || (s.Ask? && f.asked == p)
              || (Waited(f, p) && !(s.SendFailed? && f.asked == p + 1)
                  && !(s.Answer? && Waits(f, s.id) && f.table.pending[s.id].peer == p))
  {
    hide Notified;
    var g := After(f, s);
    if id :| id in f.table.pending && f.table.pending[id] == Ours(p) {
      assert Waits(f, id);
      assert id in g.table.pending ==> g.table.pending[id] == Ours(p);
    }
    if s.Ask? {
      assert g.table.pending[g.table.counter] == Ours(f.asked);
    }
  }

  lemma StepKeepsLists<T>(f: Fan<T>, s: Step<T>)
    requires ListsInv(f) && Enabled(f, s)
    ensures ListsInv(After(f, s)) && After(f, s).peers == f.peers && After(f, s).local == f.local
  {
    var g := After(f, s);
    if g.done != f.done {
      var c := g.done[|f.done|];
      assert Lists(g.done)[..|f.done|] == Lists(f.done);
    }
  }

  /** One step settles a peer when the peer stops being waited for, and once more when it is
      the failing case. */
  lemma StepSettles<T>(f: Fan<T>, s: Step<T>, p: nat)
    requires TableInv(f) && Enabled(f, s)
    ensures var g := After(f, s);
            Settled(g, p) == Settled(f, p)
              + (if Resolved(g, p) && !Resolved(f, p) then 1 else 0)
              + (if Twice(f, s) && f.asked == p + 1 then 1 else 0)
    ensures Resolved(f, p) ==> Resolved(After(f, s), p)
  {
    var g := After(f, s);
    if s.Tell? {
      TimesLast(f.done, Completion(f.asked - 1, []), p);
    } else if s.Answer? && Waits(f, s.id) {
      TimesLast(f.owed, Completion(f.table.pending[s.id].peer, s.list), p);
    } else if s.Deliver? && s.k < |f.owed| {
      TimesLast(f.done, f.owed[s.k], p);
      TimesWithout(f.owed, s.k, p);
    }
    hide Completions, Notified;
    StepResolves(f, s, p);
  }

  /** `p` has been asked and nothing is pending for it. */
  ghost predicate Resolved<T>(f: Fan<T>, p: nat) {
    p < f.asked && !Waited(f, p)
  }

  /** The steps after which a peer is not waited for any more. */
  lemma StepResolves<T>(f: Fan<T>, s: Step<T>, p: nat)
    requires TableInv(f) && Enabled(f, s)
    ensures Resolved(After(f, s), p) <==>
              || Resolved(f, p)
              || (s.AskLost? && f.asked == p)
              || (s.SendFailed? && f.asked == p + 1)
              || (s.Answer? && Waits(f, s.id) && f.table.pending[s.id].peer == p)
  {
    StepWaited(f, s, p);
    if Waited(f, p) {
      var id :| id in f.table.pending && f.table.pending[id] == Ours(p);
      assert Waits(f, id);
    }
    hide Waited, Notified;
  }

  lemma {:induction false} RunKeepsInv<T>(fs: seq<Fan<T>>, ss: seq<Step<T>>, n: nat)
    requires FanRun(fs, ss) && n <= |ss|
    ensures TableInv(fs[n]) && ListsInv(fs[n]) && fs[n].peers == fs[0].peers && fs[n].local == fs[0].local
  {
    if n > 0 {
      RunKeepsInv(fs, ss, n - 1);
      StepKeepsPending(fs[n - 1], ss[n - 1]);
      StepKeepsPhase(fs[n - 1], ss[n - 1]);
      StepKeepsLists(fs[n - 1], ss[n - 1]);
      hide PendingInv, PhaseInv, ListsInv;
    }
  }

  /** How often a peer has been settled: once when it has been asked and is not waited for,
      and once more exactly if it met the failing case. */
  lemma {:induction false} SettledExactly<T>(fs: seq<Fan<T>>, ss: seq<Step<T>>, n: nat, p: nat)
    requires FanRun(fs, ss) && n <= |ss|
    ensures Settled(fs[n], p) == (if Resolved(fs[n], p) then 1 else 0) + (if Doubled(fs, ss, n, p) then 1 else 0)
    ensures Doubled(fs, ss, n, p) ==> Resolved(fs[n], p)
  {
    if n > 0 {
      var m := n - 1;
      SettledExactly(fs, ss, m, p);
      RunKeepsInv(fs, ss, m);
      StepSettles(fs[m], ss[m], p);
      StepResolves(fs[m], ss[m], p);
      DoubledStep(fs, ss, m, p);
      if Doubled(fs, ss, m, p) { OnceDoubled(fs, ss, m, p); }
      hide TableInv, Settled, Resolved, Doubled, After;
    }
  }
  lemma DoubledStep<T>(fs: seq<Fan<T>>, ss: seq<Step<T>>, n: nat, p: nat)
    requires n < |ss| < |fs|
    ensures Doubled(fs, ss, n + 1, p) <==> Doubled(fs, ss, n, p) || (Twice(fs[n], ss[n]) && fs[n].asked == p + 1)
  {
  }

  /** The asking thread has left a peer whose hand-over failed. */
  lemma {:induction false} OnceDoubled<T>(fs: seq<Fan<T>>, ss: seq<Step<T>>, n: nat, p: nat)
    requires FanRun(fs, ss) && n <= |ss| && Doubled(fs, ss, n, p)
    ensures p < fs[n].asked && (fs[n].asked == p + 1 ==> !fs[n].phase.Sending?)
  {
    if n > 0 {
      DoubledStep(fs, ss, n - 1, p);
      if Doubled(fs, ss, n - 1, p) { OnceDoubled(fs, ss, n - 1, p); }
      hide Doubled, Notified;
    }
  }

  /** No peer is ever settled twice, exactly if no hand-over fails after its request has
      been answered. */
  lemma OnceExactly<T>(fs: seq<Fan<T>>, ss: seq<Step<T>>, n: nat)
    requires FanRun(fs, ss) && n <= |ss|
    ensures (forall p :: Settled(fs[n], p) <= 1) <==> (forall i: nat :: i < n ==> !Twice(fs[i], ss[i]))
  {
    forall p ensures Settled(fs[n], p) <= 1 <==> !Doubled(fs, ss, n, p) { SettledExactly(fs, ss, n, p); }
    if i: nat :| i < n && Twice(fs[i], ss[i]) {
      RunKeepsInv(fs, ss, i);
      assert Doubled(fs, ss, n, fs[i].asked - 1);
    }
    hide Settled;
  }

  // ---------------------------------------------------------------- when the handler runs

  /** In every run: the handler runs with the notification that is as late as there are
      peers, once, with the local items and then the lists in the order they came. */
  lemma FiresExactly<T>(fs: seq<Fan<T>>, ss: seq<Step<T>>, n: nat)
    requires FanRun(fs, ss) && n <= |ss|
    ensures var f, peers := fs[n], fs[0].peers;
            f.aggregate.fired == if |f.done| < peers then [] else [fs[0].local + Concat(Lists(f.done[..peers]))]
    ensures fs[n].aggregate.pending == if |fs[n].done| < fs[0].peers then fs[0].peers - |fs[n].done| else 0
  {
    RunKeepsInv(fs, ss, n);
    var f := fs[n];
    FiresAtTheLast(f.local, f.peers, Lists(f.done));
    assert f.peers <= |f.done| ==> Lists(f.done)[..f.peers] == Lists(f.done[..f.peers]);
  }

  /** In step `i` the answer `c` was given to a pending request to that peer, or the asking
      thread reported that peer as out of reach. */
  predicate Source<T(==)>(f: Fan<T>, s: Step<T>, c: Completion<T>) {
    || (s.Answer? && s.list == c.list && Waits(f, s.id) && f.table.pending[s.id] == Ours(c.peer))
    || (s.Tell? && c.peer + 1 == f.asked && c.list == [])
  }

  /** NOTHING IS MADE UP.  Every list that is on its way or has been notified is the answer
      that was given to a pending request to that peer, or empty for a peer out of reach. */
  lemma {:induction false} ListsAreAnswers<T>(fs: seq<Fan<T>>, ss: seq<Step<T>>, n: nat, c: Completion<T>)
    requires FanRun(fs, ss) && n <= |ss| && (c in fs[n].done || c in fs[n].owed)
    ensures exists i: nat :: i < n && Source(fs[i], ss[i], c)
  {
    if n > 0 {
      var f, s := fs[n - 1], ss[n - 1];
      if c in f.done || c in f.owed {
        ListsAreAnswers(fs, ss, n - 1, c);
      } else {
        assert fs[n] == After(f, s);
        hide Notified;
        assert Source(f, s, c);
      }
    }
  }

  lemma {:induction false} DoneAreAsked<T>(fs: seq<Fan<T>>, ss: seq<Step<T>>, n: nat)
    requires FanRun(fs, ss) && n <= |ss|
    ensures forall p :: p in Who(fs[n].done) ==> p < fs[n].asked <= fs[0].peers
  {
    RunKeepsInv(fs, ss, n);
    forall p | p in Who(fs[n].done) ensures p < fs[n].asked {
      TimesPositive(fs[n].done, p);
      SettledExactly(fs, ss, n, p);
    }
  }

  /** As many different names as there are peers are all of them. */
  lemma AllExactly(who: seq<nat>, peers: nat)
    requires forall p :: p in who ==> p < peers
    ensures Distinct(who) ==> (|who| == peers <==> forall p: nat :: p < peers ==> p in who) && |who| <= peers
    ensures |who| == peers && (forall p: nat :: p < peers ==> p in who) ==> Distinct(who)
    ensures (forall p: nat :: p < peers ==> p in who) ==> peers <= |who|
  {
    if Distinct(who) {
      DistinctAtMost(who, UpTo(peers));
      assert forall p: nat :: p < peers <==> p in UpTo(peers);
    }
    if forall p: nat :: p < peers ==> p in who {
      DistinctExactly(who);
      assert Members(who) == UpTo(peers);
    }
  }

  /** When the handler runs, some peer has not completed exactly if another has completed
      twice: its hand-over failed after it had answered, and both notifications are in. */
  lemma FiresEarlyExactly<T>(fs: seq<Fan<T>>, ss: seq<Step<T>>, n: nat)
    requires FanRun(fs, ss) && n <= |ss| && |fs[n].done| == fs[0].peers
    ensures fs[n].aggregate.fired == [fs[0].local + Concat(Lists(fs[n].done))]
    ensures (exists p: nat :: p < fs[0].peers && p !in Who(fs[n].done)) <==>
              exists p: nat :: Doubled(fs, ss, n, p) && InFlight(fs[n], p) == 0
  {
    var f := fs[n];
    FiresExactly(fs, ss, n);
    assert f.done[..|f.done|] == f.done;
    DoneAreAsked(fs, ss, n);
    AllExactly(Who(f.done), fs[0].peers);
    TimesDistinct(f.done);
    forall p: nat ensures Completions(f.done, p) > 1 <==> Doubled(fs, ss, n, p) && InFlight(f, p) == 0 {
      SettledExactly(fs, ss, n, p);
    }
    if p: nat :| Completions(f.done, p) > 1 { assert Doubled(fs, ss, n, p) && InFlight(fs[n], p) == 0; }
    if p: nat :| Doubled(fs, ss, n, p) && InFlight(fs[n], p) == 0 { assert Completions(f.done, p) > 1; }
  }

  /** Without the failing case no peer completes twice, and the handler has run exactly when
      every peer has completed. */
  lemma FiresWhenAllAreDone<T>(fs: seq<Fan<T>>, ss: seq<Step<T>>, n: nat)
    requires FanRun(fs, ss) && n <= |ss|
    ensures (forall i: nat :: i < n ==> !Twice(fs[i], ss[i])) ==>
              && Distinct(Who(fs[n].done))
              && (fs[n].aggregate.fired != [] <==> forall p: nat :: p < fs[0].peers ==> p in Who(fs[n].done))
  {
    if forall i: nat :: i < n ==> !Twice(fs[i], ss[i]) {
      OnceExactly(fs, ss, n);
      FiresExactly(fs, ss, n);
      DoneAreAsked(fs, ss, n);
      TimesDistinct(fs[n].done);
      assert forall p :: Completions(fs[n].done, p) <= Settled(fs[n], p);
      AllExactly(Who(fs[n].done), fs[0].peers);
    }
  }

  /** When everyone has been asked, nothing is pending and no notification is on its way,
      everyone has completed and the handler has run. */
  lemma FiresInTheEnd<T>(fs: seq<Fan<T>>, ss: seq<Step<T>>, n: nat)
    requires FanRun(fs, ss) && n <= |ss|
    requires fs[n].asked == fs[0].peers && fs[n].phase.Between? && fs[n].owed == []
    requires forall id :: id in fs[n].table.pending ==> fs[n].table.pending[id].Other?
    ensures |fs[n].aggregate.fired| == 1 && forall p: nat :: p < fs[0].peers ==> p in Who(fs[n].done)
  {
    forall p: nat | p < fs[0].peers ensures p in Who(fs[n].done) {
      SettledExactly(fs, ss, n, p);
      TimesPositive(fs[n].done, p);
    }
    DoneAreAsked(fs, ss, n);
    AllExactly(Who(fs[n].done), fs[0].peers);
    FiresExactly(fs, ss, n);
  }

  function Forged(k: nat): Fan<string>
    requires k <= 5
  {
    var start := Begun(Table.Table(map[], 0), ["local"], 2);
    var asked := start.(table := Table.Table(map[1 := Ours(0)], 1), asked := 1, phase := Sending(1));
    var answered := asked.(table := Table.Table(map[], 1), owed := [Completion(0, ["forged"])]);
    var notified := answered.(owed := [], aggregate := Aggregate(1, ["local", "forged"], []),
                              done := [Completion(0, ["forged"])]);
    if k == 0 then start else if k == 1 then asked else if k == 2 then answered else if k == 3 then notified
    else if k == 4 then notified.(phase := Failing)
    else notified.(phase := Between, aggregate := Aggregate(0, ["local", "forged"], [["local", "forged"]]),
                   done := [Completion(0, ["forged"]), Completion(0, [])])
  }

  function ForgedSteps(): seq<Step<string>> {
    [Ask, Answer(1, ["forged"]), Deliver(0), SendFailed, Tell]
  }

  lemma ForgedRun(k: nat)
    requires k < 5
    ensures Enabled(Forged(k), ForgedSteps()[k]) && After(Forged(k), ForgedSteps()[k]) == Forged(k + 1)
  {
    assert ["local", "forged"] + [] == ["local", "forged"];
    hide Opened;
  }

  /** Ids can be guessed: with two peers, one forged answer while the hand-over to the first
      is failing makes the handler run although the second was never asked. */
  lemma GuessedAnswerFiresEarly()
    ensures var fs := seq(6, k requires 0 <= k < 6 => Forged(k));
            FanRun(fs, ForgedSteps()) && Twice(fs[3], ForgedSteps()[3])
            && fs[5].asked == 1 < fs[5].peers && fs[5].aggregate.fired == [["local", "forged"]]
  {
    forall k: nat | k < 5
      ensures Enabled(Forged(k), ForgedSteps()[k]) && After(Forged(k), ForgedSteps()[k]) == Forged(k + 1)
    {
      ForgedRun(k);
    }
    hide Enabled, After;
  }

  // ---------------------------------------------------------------- the context object

  class AggregateContext<T> {
    var pending: nat
    var items: seq<T>
    ghost var fired: seq<seq<T>>

    ghost function Abs(): Aggregate<T>
      reads this
    {
      Aggregate(pending, items, fired)
    }

    /** Returns the list to call the handler with, if it is to be called at once. */
    constructor (local: seq<T>, peers: nat)
      ensures Abs() == Opened(local, peers)
    {
      pending, items := peers, local;
      fired := if peers == 0 then [local] else [];
    }

    method Notify(list: seq<T>) returns (call: Option<seq<T>>)
      modifies this
      ensures Abs() == Notified(old(Abs()), list)
      ensures fired == old(fired) + if call.Some? then [call.value] else []
    {
      items := items + list;
      if pending == 0 { return None; }
      pending := pending - 1;
      if pending == 0 {
        fired := fired + [items];
        return Some(items);
      }
      return None;
    }
  }

  // ---------------------------------------------------------------- the asking loop

  function Begun<T>(table: Table<Handler>, local: seq<T>, peers: nat): Fan<T> {
    Fan(peers, local, table, 0, Between, [], Opened(local, peers), [])
  }

  /** What other threads do meanwhile. */
  type Outside<T> = s: Step<T> | s.Answer? || s.Deliver? || s.Foreign? witness Foreign

  /** How asking a peer went: it had gone, the request could not be handed over, or it was. */
  datatype Reach = Lost | Unsent | Reached

  /** One turn of the loop, and what others do before the request, during the hand-over, and
      before the notification that replaces an answer. */
  datatype PeerTurn<T> = PeerTurn(reach: Reach, before: seq<Outside<T>>, during: seq<Outside<T>>, late: seq<Outside<T>>)

  function RequestSteps<T>(t: PeerTurn<T>): seq<Step<T>> {
    match t.reach
    case Lost => t.before + [AskLost]
    case Unsent => t.before + [Ask] + t.during + [SendFailed]
    case Reached => t.before + [Ask] + t.during + [Sent]
  }

  function TurnSteps<T>(t: PeerTurn<T>): seq<Step<T>> {
    RequestSteps(t) + if t.reach.Reached? then [] else t.late + [Tell]
  }

  function Plan<T>(turns: seq<PeerTurn<T>>): seq<Step<T>> {
    if turns == [] then [] else Plan(turns[..|turns| - 1]) + TurnSteps(turns[|turns| - 1])
  }

  lemma Extended<T>(fs: seq<Fan<T>>, ss: seq<Step<T>>, s: Step<T>)
    requires FanRun(fs, ss) && Enabled(fs[|ss|], s)
    ensures FanRun(fs + [After(fs[|ss|], s)], ss + [s])
  {
    hide Enabled, After, Untouched;
  }

  ghost predicate Mirrors<T>(requests: Requests<Handler>, ctx: AggregateContext<T>, owed: seq<Completion<T>>, f: Fan<T>)
    reads requests, ctx
  {
    requests.Valid() && requests.Abs() == f.table && ctx.Abs() == f.aggregate && owed == f.owed
  }

  /** Other threads at work: responses take handlers out, handlers notify, requests are issued. */
  method Meanwhile<T>(requests: Requests<Handler>, ctx: AggregateContext<T>, owed: seq<Completion<T>>,
                      steps: seq<Outside<T>>, ghost fs: seq<Fan<T>>, ghost ss: seq<Step<T>>)
    returns (left: seq<Completion<T>>, ghost gs: seq<Fan<T>>)
    requires FanRun(fs, ss) && Mirrors(requests, ctx, owed, fs[|ss|])
    modifies requests, ctx
    ensures FanRun(gs, ss + steps) && gs[0] == fs[0] && Mirrors(requests, ctx, left, gs[|gs| - 1])
    ensures gs[|gs| - 1].asked == fs[|ss|].asked && gs[|gs| - 1].phase == fs[|ss|].phase
    ensures gs[|gs| - 1].peers == fs[|ss|].peers
  {
    left, gs := owed, fs;
    assert ss + steps[..0] == ss;
    for k := 0 to |steps|
      invariant FanRun(gs, ss + steps[..k]) && gs[0] == fs[0] && Mirrors(requests, ctx, left, gs[|gs| - 1])
      invariant gs[|gs| - 1].asked == fs[|ss|].asked && gs[|gs| - 1].phase == fs[|ss|].phase
      invariant gs[|gs| - 1].peers == fs[|ss|].peers
    {
      Extended(gs, ss + steps[..k], steps[k]);
      assert ss + steps[..k + 1] == ss + steps[..k] + [steps[k]];
      ghost var f := gs[|gs| - 1];
      gs := gs + [After(f, steps[k])];
      left := ByAnother(requests, ctx, left, steps[k], f);
    }
    assert steps[..|steps|] == steps;
  }

  /** One step of another thread. */
  method ByAnother<T>(requests: Requests<Handler>, ctx: AggregateContext<T>, owed: seq<Completion<T>>,
                  step: Outside<T>, ghost f: Fan<T>)
    returns (left: seq<Completion<T>>)
    requires Mirrors(requests, ctx, owed, f)
    modifies requests, ctx
    ensures Mirrors(requests, ctx, left, After(f, step))
  {
    left := owed;
    match step {
      case Answer(id, list) =>
        var handler := requests.Respond(id, list);
        if handler.Some? && handler.value.Ours? {
          left := left + [Completion(handler.value.peer, list)];
        }
      case Deliver(k) =>
        if k < |left| {
          var _ := ctx.Notify(left[k].list);
          left := Without(left, k);
        }
      case Foreign =>
        var _ := requests.Issue(Other);
    }
  }

  /** Hand over the request just issued, and withdraw it if that fails. */
  method HandOver<T>(requests: Requests<Handler>, ctx: AggregateContext<T>, owed: seq<Completion<T>>,
                     id: nat, turn: PeerTurn<T>, ghost fs: seq<Fan<T>>, ghost ss: seq<Step<T>>)
    returns (success: bool, left: seq<Completion<T>>, ghost gs: seq<Fan<T>>)
    requires FanRun(fs, ss) && Mirrors(requests, ctx, owed, fs[|ss|])
    requires fs[|ss|].phase == Sending(id) && !turn.reach.Lost?
    modifies requests, ctx
    ensures success <==> turn.reach.Reached?
    ensures FanRun(gs, ss + turn.during + [if success then Sent else SendFailed]) && gs[0] == fs[0]
    ensures Mirrors(requests, ctx, left, gs[|gs| - 1])
    ensures gs[|gs| - 1].asked == fs[|ss|].asked && gs[|gs| - 1].peers == fs[|ss|].peers
    ensures gs[|gs| - 1].phase == if success then Between else Failing
  {
    hide Opened, Notified, TableInv, Concat, NotifiedAll, Untouched, Waits, FanRun;
    left, gs := Meanwhile(requests, ctx, owed, turn.during, fs, ss);
    ghost var ts, f := ss + turn.during, gs[|gs| - 1];
    success := turn.reach.Reached?;
    if success {
      Extended(gs, ts, Sent);
      gs := gs + [After(f, Sent)];
    } else {
      var _ := requests.Cancel(id);
      Extended(gs, ts, SendFailed);
      gs := gs + [After(f, SendFailed)];
    }
  }

  /** Ask one peer: its request is issued, handed over, and withdrawn if that fails. */
  method RequestPeerListing<T>(requests: Requests<Handler>, ctx: AggregateContext<T>, owed: seq<Completion<T>>,
                               peer: nat, turn: PeerTurn<T>, ghost fs: seq<Fan<T>>, ghost ss: seq<Step<T>>)
    returns (success: bool, left: seq<Completion<T>>, ghost gs: seq<Fan<T>>)
    requires FanRun(fs, ss) && Mirrors(requests, ctx, owed, fs[|ss|])
    requires fs[|ss|].phase.Between? && fs[|ss|].asked == peer < fs[|ss|].peers
    modifies requests, ctx
    ensures success <==> turn.reach.Reached?
    ensures FanRun(gs, ss + RequestSteps(turn)) && gs[0] == fs[0] && Mirrors(requests, ctx, left, gs[|gs| - 1])
    ensures gs[|gs| - 1].asked == peer + 1 && gs[|gs| - 1].peers == fs[|ss|].peers
    ensures gs[|gs| - 1].phase == if success then Between else Failing
  {
    hide Opened, Notified, TableInv, Concat, NotifiedAll, Untouched, Waits, FanRun;
    left, gs := Meanwhile(requests, ctx, owed, turn.before, fs, ss);
    ghost var ts, f := ss + turn.before, gs[|gs| - 1];
    if turn.reach.Lost? {
      Extended(gs, ts, AskLost);
      gs := gs + [After(f, AskLost)];
      assert ss + RequestSteps(turn) == ts + [AskLost];
      return false, left, gs;
    }
    var id := requests.Issue(Ours(peer));
    Extended(gs, ts, Ask);
    gs, ts := gs + [After(f, Ask)], ts + [Ask];
    success, left, gs := HandOver(requests, ctx, left, id, turn, gs, ts);
    assert ss + RequestSteps(turn) == ts + turn.during + [if success then Sent else SendFailed];
  }

  /** One turn of the loop: a peer that cannot be reached is notified for. */
  method AskPeer<T>(requests: Requests<Handler>, ctx: AggregateContext<T>, owed: seq<Completion<T>>,
                    peer: nat, turn: PeerTurn<T>, ghost fs: seq<Fan<T>>, ghost ss: seq<Step<T>>)
    returns (left: seq<Completion<T>>, ghost gs: seq<Fan<T>>)
    requires FanRun(fs, ss) && Mirrors(requests, ctx, owed, fs[|ss|])
    requires fs[|ss|].phase.Between? && fs[|ss|].asked == peer < fs[|ss|].peers
    modifies requests, ctx
    ensures FanRun(gs, ss + TurnSteps(turn)) && gs[0] == fs[0] && Mirrors(requests, ctx, left, gs[|gs| - 1])
    ensures gs[|gs| - 1].asked == peer + 1 && gs[|gs| - 1].peers == fs[|ss|].peers && gs[|gs| - 1].phase.Between?
  {
    hide RequestSteps, Opened, Notified, Concat, Untouched;
    var success;
    success, left, gs := RequestPeerListing(requests, ctx, owed, peer, turn, fs, ss);
    ghost var ts := ss + RequestSteps(turn);
    if success {
      assert ss + TurnSteps(turn) == ts;
      return;
    }
    left, gs := Meanwhile(requests, ctx, left, turn.late, gs, ts);
    ts := ts + turn.late;
    var _ := ctx.Notify([]);
    Extended(gs, ts, Tell);
    gs := gs + [After(gs[|gs| - 1], Tell)];
    assert ss + TurnSteps(turn) == ts + [Tell];
  }

  /** The loop over the peers is a run of the fan-out, whatever other threads do at its
      seams; it ends with every peer asked. */
  method RequestHashListingAll<T>(requests: Requests<Handler>, local: seq<T>, turns: seq<PeerTurn<T>>)
    returns (ctx: AggregateContext<T>, owed: seq<Completion<T>>, ghost fs: seq<Fan<T>>)
    requires requests.Valid() && forall id :: id in requests.pending ==> requests.pending[id].Other?
    modifies requests
    ensures fresh(ctx)
    ensures FanRun(fs, Plan(turns)) && fs[0] == Begun(old(requests.Abs()), local, |turns|)
    ensures Mirrors(requests, ctx, owed, fs[|fs| - 1])
    ensures fs[|fs| - 1].asked == |turns| && fs[|fs| - 1].phase.Between?
  {
    hide *;
    ctx := new AggregateContext(local, |turns|);
    owed, fs := [], [Begun(requests.Abs(), local, |turns|)];
    LoopStarts(requests, ctx, local, turns);
    for p := 0 to |turns|
      invariant |fs| == |Plan(turns[..p])| + 1 && FanRun(fs, Plan(turns[..p]))
      invariant fs[0] == Begun(old(requests.Abs()), local, |turns|)
      invariant Mirrors(requests, ctx, owed, fs[|fs| - 1])
      invariant fs[|fs| - 1].asked == p && fs[|fs| - 1].peers == |turns| && fs[|fs| - 1].phase.Between?
    {
      owed, fs := AskPeer(requests, ctx, owed, p, turns[p], fs, Plan(turns[..p]));
      PlanGrows(turns, p);
      RunLength(fs, Plan(turns[..p + 1]));
    }
    assert turns[..|turns|] == turns;
  }

  lemma LoopStarts<T>(requests: Requests<Handler>, ctx: AggregateContext<T>, local: seq<T>, turns: seq<PeerTurn<T>>)
    requires requests.Valid() && forall id :: id in requests.pending ==> requests.pending[id].Other?
    requires ctx.Abs() == Opened(local, |turns|)
    ensures var f := Begun(requests.Abs(), local, |turns|);
            && Plan(turns[..0]) == [] && FanRun([f], Plan(turns[..0])) && Mirrors(requests, ctx, [], f)
            && f.asked == 0 && f.peers == |turns| && f.phase.Between?
  {
  }

  lemma PlanGrows<T>(turns: seq<PeerTurn<T>>, p: nat)
    requires p < |turns|
    ensures Plan(turns[..p + 1]) == Plan(turns[..p]) + TurnSteps(turns[p])
  {
    hide TurnSteps;
    assert turns[..p + 1][..p] == turns[..p];
  }

  lemma RunLength<T>(fs: seq<Fan<T>>, ss: seq<Step<T>>)
    requires FanRun(fs, ss)
    ensures |fs| == |ss| + 1
  {
  }

  // ---------------------------------------------------------------- while nobody answers

  predicate Own<T>(s: Step<T>) {
    s.Ask? || s.AskLost? || s.Sent? || s.SendFailed? || s.Tell?
  }

  function Handed<T>(ss: seq<Step<T>>): nat {
    if ss == [] then 0 else Handed(ss[..|ss| - 1]) + if ss[|ss| - 1].Sent? then 1 else 0
  }

  lemma {:induction false} SilentRun<T>(fs: seq<Fan<T>>, ss: seq<Step<T>>, n: nat)
    requires FanRun(fs, ss) && n <= |ss| && forall i :: 0 <= i < n ==> Own(ss[i])
    ensures Handed(ss[..n]) + |fs[n].done| + (if fs[n].phase.Between? then 0 else 1) == fs[n].asked
    ensures fs[n].owed == [] && Concat(Lists(fs[n].done)) == []
  {
    if n > 0 {
      SilentRun(fs, ss, n - 1);
      assert ss[..n][..n - 1] == ss[..n - 1];
      var f, g := fs[n - 1], fs[n];
      if ss[n - 1].Tell? {
        assert Lists(g.done) == Lists(f.done) + [[]];
        assert Lists(g.done)[..|f.done|] == Lists(f.done);
      }
      hide Opened, Notified, Lists, Twice;
    }
  }

  lemma FiresOnEmpties<T>(f: Fan<T>, local: seq<T>, peers: nat)
    requires |f.done| <= peers && Concat(Lists(f.done)) == []
    requires f.aggregate.fired == if |f.done| < peers then [] else [local + Concat(Lists(f.done[..peers]))]
    ensures f.aggregate.fired == if |f.done| < peers then [] else [local]
  {
    assert f.done[..|f.done|] == f.done;
    assert local + [] == local;
  }

  /** When everyone has been asked, and nobody has answered yet, as many completions are
      awaited as requests got through; the handler has run exactly if none did. */
  lemma AwaitsTheReached<T>(fs: seq<Fan<T>>, ss: seq<Step<T>>)
    requires FanRun(fs, ss) && forall i :: 0 <= i < |ss| ==> Own(ss[i])
    requires fs[|ss|].asked == fs[0].peers && fs[|ss|].phase.Between?
    ensures var a := fs[|ss|].aggregate;
            a.pending == Handed(ss) && a.fired == if Handed(ss) == 0 then [fs[0].local] else []
  {
    assert |fs| == |ss| + 1;
    hide FanRun, Own, Lists, Concat, Handed;
    SilentRun(fs, ss, |ss|);
    FiresExactly(fs, ss, |ss|);
    FiresOnEmpties(fs[|ss|], fs[0].local, fs[0].peers);
    assert ss[..|ss|] == ss;
  }
}
