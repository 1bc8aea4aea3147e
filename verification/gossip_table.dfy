/** `PeerTable` and `Gossip` model the same table (src/peer_manager.cpp), the one with
    states and dialling, the other with what gossip needs.  The second is a view of the first. */
module GossipTable {
  import opened Gossip
  import PeerTable

  /** The peer as gossip sees it. */
  function View(t: PeerTable.Table): Node {
    Node(t.local, t.localAddr, map id | id in t.peers :: t.peers[id].localAddr, t.connections)
  }

  /** What an event of the table is in terms of gossip. */
  function Viewed(n: Node, e: PeerTable.Event): Node {
    match e
    case Discover(id, _, localAddr, _) => Discover(n, id, localAddr)
    case Connect(id, conn) => Attach(n, conn, id)
    case Disconnect(id, _) => n.(conns := n.conns - {id})
    case Attempt(_) => n
  }

  lemma KnownIsViewed(t: PeerTable.Table, u: PeerTable.Table, id: string, info: PeerTable.PeerInfo)
    requires u.peers == t.peers[id := info]
    ensures View(u).known == View(t).known[id := info.localAddr]
  {
  }

  lemma DiallingIsHidden(t: PeerTable.Table, u: PeerTable.Table, dialled: set<string>)
    requires PeerTable.DialledOnly(t, u, dialled)
    ensures View(u) == View(t)
  {
    hide PeerTable.Eligible;
    assert View(u).known == View(t).known;
  }

  /** Every event of the table is, in the view, exactly what gossip takes it for: names,
      external addresses, states and dialling do not reach it. */
  lemma EventIsViewed(t: PeerTable.Table, u: PeerTable.Table, e: PeerTable.Event)
    requires PeerTable.Happens(t, u, e)
    ensures View(u) == Viewed(View(t), e)
  {
    hide PeerTable.Eligible, PeerTable.FreePlaces, PeerTable.DialledOnly;
    match e {
      case Attempt(dialled) => DiallingIsHidden(t, u, dialled);
      case _ =>
        if e.id in u.peers {
          KnownIsViewed(t, t.(peers := t.peers[e.id := u.peers[e.id]]), e.id, u.peers[e.id]);
          assert e.id in t.peers && u.peers[e.id].localAddr == t.peers[e.id].localAddr ==>
            View(u).known == View(t).known;
        }
    }
  }

  /** So the view after any history of the table is the view of its start, taken through
      the same history. */
  function ViewedAll(n: Node, es: seq<PeerTable.Event>): Node {
    if es == [] then n else Viewed(ViewedAll(n, es[..|es| - 1]), es[|es| - 1])
  }

  lemma {:induction false} HistoryIsViewed(ts: seq<PeerTable.Table>, es: seq<PeerTable.Event>, n: nat)
    requires |ts| == |es| + 1 && n <= |es|
    requires forall i :: 0 <= i < |es| ==> PeerTable.Happens(ts[i], ts[i + 1], es[i])
    ensures View(ts[n]) == ViewedAll(View(ts[0]), es[..n])
  {
    if n > 0 {
      HistoryIsViewed(ts, es, n - 1);
      EventIsViewed(ts[n - 1], ts[n], es[n - 1]);
      assert es[..n][..n - 1] == es[..n - 1];
    }
  }
}
