/** The peer table of `PeerManager` (src/peer_manager.cpp): who is known, connected, being
    dialled, and whom to dial next. */
module PeerTable {
  import opened FiniteSets
  import opened Wrappers

  datatype PeerState = Disconnected | Connecting | Connected

  datatype PeerInfo = PeerInfo(state: PeerState, name: string, localAddr: string, externalAddr: string)

  /** A connection object, told apart by its number. */
  type Conn = nat

  datatype Table = Table(local: string, maxPeers: nat, localAddr: string,
                         peers: map<string, PeerInfo>, connections: map<string, Conn>, inProgress: set<string>)

  datatype Dial = Dial(peer: string, host: string, port: int)

  // ---------------------------------------------------------------- addresses

  function IndexOf(s: string, c: char): (i: nat)
    ensures i <= |s| && (i < |s| ==> s[i] == c) && forall k :: 0 <= k < i ==> s[k] != c
  {
    if s == "" || s[0] == c then 0 else 1 + IndexOf(s[1..], c)
  }

  lemma IndexOfIn(s: string, c: char)
    ensures IndexOf(s, c) < |s| <==> c in s
  {
    hide IndexOf;
  }

  /** Prefer the local address on the same subnet, otherwise the external one. */
  function BestAddr(p: PeerInfo, subnet: string): string {
    if p.localAddr != "" && subnet != "" && subnet <= p.localAddr then p.localAddr
    else if p.externalAddr != "" then p.externalAddr
    else p.localAddr
  }

  function LocalIp(addr: string): string {
    if IndexOf(addr, ':') < |addr| then addr[..IndexOf(addr, ':')] else ""
  }

  /** An address that starts with our IP, the part of ours before its first colon. */
  ghost predicate SameNetwork(ours: string, theirs: string) {
    exists i: nat :: 0 < i < |ours| && ours[i] == ':' && ':' !in ours[..i] && ours[..i] <= theirs
  }

  /** A peer is reached at its local address exactly if that is on our network or it has no
      other; otherwise at its external one. */
  lemma BestAddrExactly(p: PeerInfo, ours: string)
    ensures BestAddr(p, LocalIp(ours)) ==
              if SameNetwork(ours, p.localAddr) || p.externalAddr == "" then p.localAddr else p.externalAddr
  {
    var i := IndexOf(ours, ':');
    IndexOfIn(ours, ':');
    if 0 < i < |ours| && LocalIp(ours) <= p.localAddr {
      assert ours[i] == ':' && ':' !in ours[..i] && ours[..i] <= p.localAddr;
    }
    if SameNetwork(ours, p.localAddr) {
      var k: nat :| 0 < k < |ours| && ours[k] == ':' && ':' !in ours[..k] && ours[..k] <= p.localAddr;
      assert forall j :: 0 <= j < k ==> ours[j] == ours[..k][j];
      assert k == i;
    }
  }

  // ---------------------------------------------------------------- the events

  function Discovered(t: Table, id: string, name: string, localAddr: string, externalAddr: string): Table {
    if id == t.local then t
    else if id in t.peers
    then t.(peers := t.peers[id := t.peers[id].(localAddr := localAddr, externalAddr := externalAddr)])
    else t.(peers := t.peers[id := PeerInfo(Disconnected, name, localAddr, externalAddr)])
  }

  function OnConnected(t: Table, id: string, conn: Conn): Table {
    if id in t.connections && t.connections[id] == conn then t
    else
      t.(connections := t.connections[id := conn],
         peers := t.peers[id := if id in t.peers then t.peers[id].(state := Connected)
                                else PeerInfo(Connected, "", "", "")],
         inProgress := t.inProgress - {id})
  }

  function OnDisconnected(t: Table, id: string): Table {
    t.(connections := t.connections - {id},
       peers := if id in t.peers then t.peers[id := t.peers[id].(state := Disconnected)] else t.peers,
       inProgress := t.inProgress - {id})
  }

  function DialOne(t: Table, id: string): Table
    requires id in t.peers
  {
    t.(inProgress := t.inProgress + {id}, peers := t.peers[id := t.peers[id].(state := Connecting)])
  }

  /** Worth dialling: known, disconnected, not us, and with an address that has a port. */
  predicate Eligible(t: Table, id: string) {
    && id != t.local && id in t.peers && id !in t.connections && id !in t.inProgress
    && t.peers[id].state.Disconnected?
    && ':' in BestAddr(t.peers[id], LocalIp(t.localAddr))
  }

  function Address(t: Table, id: string): string
    requires id in t.peers
  {
    BestAddr(t.peers[id], LocalIp(t.localAddr))
  }

  function Port(t: Table, id: string, parsePort: string -> Option<int>): Option<int>
    requires Eligible(t, id)
  {
    parsePort(Address(t, id)[IndexOf(Address(t, id), ':') + 1..])
  }

  predicate BadPort(t: Table, id: string, parsePort: string -> Option<int>) {
    Eligible(t, id) && Port(t, id, parsePort).None?
  }

  /** The host before the colon and the number after it, cut down to 16 bits. */
  predicate DialFits(t: Table, d: Dial, parsePort: string -> Option<int>) {
    && Eligible(t, d.peer) && Port(t, d.peer, parsePort).Some?
    && d.host + ":" <= Address(t, d.peer) && ':' !in d.host
    && d.port == Port(t, d.peer, parsePort).value % 0x1_0000
  }

  /** What a dial is: host, colon and port are the peer's local address if that is on our
      network or it has no other, and its external one otherwise; and the port is a number,
      cut down to 16 bits. */
  ghost predicate GoesTo(t: Table, d: Dial, parsePort: string -> Option<int>) {
    d.peer in t.peers &&
    var p := t.peers[d.peer];
    var addr := if SameNetwork(t.localAddr, p.localAddr) || p.externalAddr == "" then p.localAddr else p.externalAddr;
    && ':' !in d.host
    && exists port :: addr == d.host + ":" + port && parsePort(port).Some? && d.port == parsePort(port).value % 0x1_0000
  }

  lemma FittingDialGoes(t: Table, d: Dial, parsePort: string -> Option<int>)
    requires DialFits(t, d, parsePort)
    ensures GoesTo(t, d, parsePort)
  {
    hide BestAddr, LocalIp, SameNetwork;
    BestAddrExactly(t.peers[d.peer], t.localAddr);
    var addr := Address(t, d.peer);
    var i := IndexOf(addr, ':');
    assert addr[|d.host|] == (d.host + ":")[|d.host|];
    assert forall k :: 0 <= k < |d.host| ==> addr[k] == (d.host + ":")[k] == d.host[k];
    assert i == |d.host|;
    assert addr == d.host + ":" + addr[i + 1..];
  }

  /** Whom it is worth dialling: a disconnected peer other than ourselves, not being dialled,
      whose address, chosen in that way, has a port. */
  lemma EligibleExactly(t: Table, id: string)
    ensures Eligible(t, id) <==>
              id != t.local && id in t.peers && id !in t.connections && id !in t.inProgress &&
              t.peers[id].state.Disconnected? &&
              ':' in (if SameNetwork(t.localAddr, t.peers[id].localAddr) || t.peers[id].externalAddr == ""
                      then t.peers[id].localAddr else t.peers[id].externalAddr)
  {
    if id in t.peers { BestAddrExactly(t.peers[id], t.localAddr); }
  }

  /** How many peers we are connected to. */
  function Others(t: Table): nat { |t.connections.Keys - {t.local}| }

  /** Places free by the count of `attempt_connect_more`: dials under way are not counted. */
  function FreePlaces(t: Table): nat {
    if Others(t) >= t.maxPeers then 0 else t.maxPeers - Others(t)
  }

  // ---------------------------------------------------------------- consistency

  /** Connecting means being dialled, a connection means Connected, and Connected means a
      connection, our own entry aside. */
  ghost predicate Consistent(t: Table) {
    && t.local in t.peers
    && (forall id :: id in t.peers ==> (t.peers[id].state.Connecting? <==> id in t.inProgress))
    && (forall id :: id in t.inProgress ==> id in t.peers)
    && (forall id :: id in t.connections ==> id in t.peers && t.peers[id].state.Connected?)
    && (forall id :: id in t.peers && t.peers[id].state.Connected? ==> id in t.connections || id == t.local)
  }

  /** `dialled` peers have been dialled, and nothing else has happened. */
  ghost predicate DialledOnly(t: Table, u: Table, dialled: set<string>) {
    && u.local == t.local && u.maxPeers == t.maxPeers && u.localAddr == t.localAddr
    && u.connections == t.connections && u.inProgress == t.inProgress + dialled
    && u.peers.Keys == t.peers.Keys
    && (forall id :: id in t.peers ==>
          u.peers[id] == if id in dialled then t.peers[id].(state := Connecting) else t.peers[id])
    && (forall id :: id in dialled ==> Eligible(t, id))
  }

  /** What happens to the table.  A disconnect is reported by a connection `conn` that closes
      or is destroyed; the table is only told the peer it is bound to. */
  datatype Event =
    | Discover(id: string, name: string, localAddr: string, externalAddr: string)
    | Connect(id: string, conn: Conn)
    | Disconnect(id: string, conn: Conn)
    | Attempt(dialled: set<string>)

  ghost predicate Happens(t: Table, u: Table, e: Event) {
    match e
    case Discover(id, name, localAddr, externalAddr) => u == Discovered(t, id, name, localAddr, externalAddr)
    case Connect(id, conn) => u == OnConnected(t, id, conn)
    case Disconnect(id, _) => u == OnDisconnected(t, id)
    case Attempt(dialled) => DialledOnly(t, u, dialled) && |dialled| <= FreePlaces(t)
  }

  lemma AttemptKeepsConsistent(t: Table, u: Table, dialled: set<string>)
    requires Consistent(t) && DialledOnly(t, u, dialled)
    ensures Consistent(u)
  {
    hide IndexOf, BestAddr, LocalIp;
    assert forall id :: id in dialled ==> Eligible(t, id);
  }

  lemma EventKeepsConsistent(t: Table, u: Table, e: Event)
    requires Consistent(t) && Happens(t, u, e)
    ensures Consistent(u)
  {
    hide Consistent, Discovered, OnConnected, OnDisconnected, DialledOnly;
    match e {
      case Discover(id, name, localAddr, externalAddr) => DiscoverKeepsConsistent(t, id, name, localAddr, externalAddr);
      case Connect(id, conn) => ConnectKeepsConsistent(t, id, conn);
      case Disconnect(id, _) => DisconnectKeepsConsistent(t, id);
      case Attempt(dialled) => AttemptKeepsConsistent(t, u, dialled);
    }
  }

  lemma DiscoverKeepsConsistent(t: Table, id: string, name: string, localAddr: string, externalAddr: string)
    requires Consistent(t)
    ensures Consistent(Discovered(t, id, name, localAddr, externalAddr))
  {
  }

  lemma ConnectKeepsConsistent(t: Table, id: string, conn: Conn)
    requires Consistent(t)
    ensures Consistent(OnConnected(t, id, conn))
  {
  }

  lemma DisconnectKeepsConsistent(t: Table, id: string)
    requires Consistent(t)
    ensures Consistent(OnDisconnected(t, id))
  {
  }

  /** Whatever happens in whatever order, the table stays consistent. */
  lemma {:induction false} AlwaysConsistent(tables: seq<Table>, events: seq<Event>, n: nat)
    requires |tables| == |events| + 1 && n <= |events| && Consistent(tables[0])
    requires forall i :: 0 <= i < |events| ==> Happens(tables[i], tables[i + 1], events[i])
    ensures Consistent(tables[n])
  {
    if n > 0 {
      AlwaysConsistent(tables, events, n - 1);
      EventKeepsConsistent(tables[n - 1], tables[n], events[n - 1]);
    }
  }

  lemma EventKeepsDialling(t: Table, u: Table, e: Event, id: string)
    requires Consistent(t) && Happens(t, u, e) && id in t.inProgress
    requires !(e.Connect? && e.id == id) && !(e.Disconnect? && e.id == id)
    ensures id in u.inProgress && (e.Attempt? ==> id !in e.dialled)
  {
    hide IndexOf, BestAddr;
  }

  lemma DiallingIsConnecting(t: Table, id: string)
    requires Consistent(t) && id in t.inProgress
    ensures id in t.peers && t.peers[id].state.Connecting?
  {
  }

  /** A peer that was dialled stays Connecting until it connects or disconnects; discovery
      and further attempts leave it alone, so it is never dialled twice at a time. */
  lemma {:induction false} NoSecondDial(tables: seq<Table>, events: seq<Event>, id: string, n: nat)
    requires |tables| == |events| + 1 && n <= |events|
    requires Consistent(tables[0]) && id in tables[0].inProgress
    requires forall i :: 0 <= i < |events| ==> Happens(tables[i], tables[i + 1], events[i])
    requires forall i :: 0 <= i < n ==>
               !(events[i].Connect? && events[i].id == id) && !(events[i].Disconnect? && events[i].id == id)
    ensures id in tables[n].inProgress && id in tables[n].peers && tables[n].peers[id].state.Connecting?
    ensures forall i :: 0 <= i < n && events[i].Attempt? ==> id !in events[i].dialled
  {
    hide Happens, Consistent;
    AlwaysConsistent(tables, events, n);
    if n > 0 {
      NoSecondDial(tables, events, id, n - 1);
      AlwaysConsistent(tables, events, n - 1);
      EventKeepsDialling(tables[n - 1], tables[n], events[n - 1], id);
    }
    DiallingIsConnecting(tables[n], id);
  }

  predicate Ends(e: Event, id: string) {
    (e.Connect? || e.Disconnect?) && e.id == id
  }

  /** A dial that fails reports nothing, so a peer once dialled counts as being dialled for
      ever, exactly unless a connection to it opens or one closes. */
  lemma {:induction false} DialledForEverExactly(tables: seq<Table>, events: seq<Event>, id: string, n: nat)
    requires |tables| == |events| + 1 && n <= |events|
    requires Consistent(tables[0]) && id in tables[0].inProgress
    requires forall i :: 0 <= i < |events| ==> Happens(tables[i], tables[i + 1], events[i])
    ensures (forall k :: 0 <= k <= n ==> id in tables[k].inProgress) <==>
      (forall i :: 0 <= i < n ==> !Ends(events[i], id))
  {
    hide Happens, Consistent;
    if n > 0 {
      DialledForEverExactly(tables, events, id, n - 1);
      AlwaysConsistent(tables, events, n - 1);
      if id in tables[n - 1].inProgress { EndsExactly(tables[n - 1], tables[n], events[n - 1], id); }
    }
  }

  lemma EndsExactly(t: Table, u: Table, e: Event, id: string)
    requires Consistent(t) && Happens(t, u, e) && id in t.inProgress
    ensures id in u.inProgress <==> !Ends(e, id)
  {
    hide IndexOf, BestAddr, LocalIp, FreePlaces;
    DiallingIsConnecting(t, id);
  }

  // ---------------------------------------------------------------- late disconnects

  /** All connections but `conn` keep their entries. */
  ghost predicate OthersKept(t: Table, u: Table, conn: Conn) {
    forall id :: id in t.connections && t.connections[id] != conn ==>
      id in u.connections && u.connections[id] == t.connections[id]
  }

  /** A disconnect takes the entry of whatever connection the peer has.  No other connection
      loses its entry exactly if the one that reports is the one in the table, or there is none. */
  lemma DisconnectSparesExactly(t: Table, u: Table, id: string, conn: Conn)
    requires Happens(t, u, Disconnect(id, conn))
    ensures OthersKept(t, u, conn) <==> (id in t.connections ==> t.connections[id] == conn)
  {
    if id in t.connections && t.connections[id] != conn {
      assert id !in u.connections;
    }
  }

  /** Event `i` entered `conn` for `id`, and nothing before event `n` has replaced or removed it. */
  predicate Entered(events: seq<Event>, i: nat, n: nat, id: string, conn: Conn)
    requires n <= |events|
  {
    i < n && events[i] == Connect(id, conn) && forall j :: i < j < n ==> events[j] == events[i] || !Ends(events[j], id)
  }

  ghost predicate IsEntered(events: seq<Event>, n: nat, id: string, conn: Conn)
    requires n <= |events|
  {
    exists i: nat :: Entered(events, i, n, id, conn)
  }

  lemma NothingEntered(events: seq<Event>, id: string, conn: Conn)
    ensures !IsEntered(events, 0, id, conn)
  {
  }

  lemma EnteredStep(events: seq<Event>, n: nat, id: string, conn: Conn)
    requires n < |events|
    ensures IsEntered(events, n + 1, id, conn) <==>
              events[n] == Connect(id, conn) || (!Ends(events[n], id) && IsEntered(events, n, id, conn))
  {
    var m := n + 1;
    if i: nat :| Entered(events, i, m, id, conn) { assert i < n ==> Entered(events, i, n, id, conn); }
    if events[n] == Connect(id, conn) {
      assert Entered(events, n, m, id, conn);
    } else if i: nat :| Entered(events, i, n, id, conn) {
      assert !Ends(events[n], id) ==> Entered(events, i, m, id, conn);
    }
  }

  /** Which connection the table holds for a peer: the one that was last entered, if no
      connection of the peer, this one or another, has reported a disconnect since. */
  lemma {:induction false} EntryExactly(tables: seq<Table>, events: seq<Event>, n: nat, id: string, conn: Conn)
    requires |tables| == |events| + 1 && n <= |events| && tables[0].connections == map[]
    requires forall i :: 0 <= i < |events| ==> Happens(tables[i], tables[i + 1], events[i])
    ensures id in tables[n].connections && tables[n].connections[id] == conn <==> IsEntered(events, n, id, conn)
  {
    hide Happens, IsEntered;
    if n == 0 {
      NothingEntered(events, id, conn);
    } else {
      EntryExactly(tables, events, n - 1, id, conn);
      EntryStep(tables[n - 1], tables[n], events[n - 1], id, conn);
      EnteredStep(events, n - 1, id, conn);
    }
  }

  lemma EntryStep(t: Table, u: Table, e: Event, id: string, conn: Conn)
    requires Happens(t, u, e)
    ensures id in u.connections && u.connections[id] == conn <==>
              e == Connect(id, conn) || (!Ends(e, id) && id in t.connections && t.connections[id] == conn)
  {
    hide Eligible, FreePlaces;
  }

  /** So a peer that has connected again loses its live connection when the old one closes: it
      counts as disconnected, and is worth dialling if its address has a port. */
  lemma LateDisconnect(t: Table, id: string, former: Conn, latest: Conn)
    requires Consistent(t) && id != t.local && id in t.connections && t.connections[id] == former != latest
    ensures var u := OnDisconnected(OnConnected(t, id, latest), id);
            && !OthersKept(OnConnected(t, id, latest), u, former) && id !in u.connections
            && (Eligible(u, id) <==> ':' in Address(u, id))
  {
    hide BestAddr, LocalIp;
    assert id in OnConnected(t, id, latest).connections;
  }

  // ---------------------------------------------------------------- what is known of a peer

  /** What an event leaves of a peer: only its own discovery changes its addresses, and names
      it if it is new; nothing removes it. */
  lemma EventMeaning(t: Table, u: Table, e: Event, id: string)
    requires Happens(t, u, e)
    ensures id in t.peers ==> id in u.peers && u.peers[id].name == t.peers[id].name
    ensures id in t.peers && !Tells(e, id, t.local) ==>
              u.peers[id].localAddr == t.peers[id].localAddr && u.peers[id].externalAddr == t.peers[id].externalAddr
    ensures Tells(e, id, t.local) ==>
              && id in u.peers && u.peers[id].localAddr == e.localAddr && u.peers[id].externalAddr == e.externalAddr
              && (id !in t.peers ==> u.peers[id].name == e.name && u.peers[id].state.Disconnected?)
              && (id in t.peers ==> u.peers[id].state == t.peers[id].state)
    ensures id !in t.peers && id in u.peers ==> Tells(e, id, t.local) || (e.Connect? && e.id == id)
    ensures u.local == t.local
  {
    hide IndexOf, BestAddr, LocalIp;
  }

  /** The event tells about a peer other than ourselves. */
  predicate Tells(e: Event, id: string, local: string) { e.Discover? && e.id == id != local }

  /** The last that was told about a peer in the first `n` events. */
  ghost predicate LastTold(events: seq<Event>, n: nat, id: string, localAddr: string, externalAddr: string)
    requires n <= |events|
  {
    exists i: nat :: i < n && events[i].Discover? && events[i].id == id
      && events[i].localAddr == localAddr && events[i].externalAddr == externalAddr
      && forall j :: i < j < n ==> !(events[j].Discover? && events[j].id == id)
  }

  /** One of the first `n` events tells about the peer. */
  ghost predicate IsTold(events: seq<Event>, n: nat, id: string)
    requires n <= |events|
  {
    exists i: nat :: i < n && events[i].Discover? && events[i].id == id
  }

  lemma ToldStep(events: seq<Event>, n: nat, id: string)
    requires n < |events|
    ensures var m, e := n + 1, events[n];
            if e.Discover? && e.id == id then
              IsTold(events, m, id) && LastTold(events, m, id, e.localAddr, e.externalAddr)
            else
              && (IsTold(events, m, id) <==> IsTold(events, n, id))
              && forall l, x :: LastTold(events, n, id, l, x) ==> LastTold(events, m, id, l, x)
  {
    var m := n + 1;
    if i: nat :| i < m && events[i].Discover? && events[i].id == id {
      assert i < n ==> IsTold(events, n, id);
    }
    forall l, x | LastTold(events, n, id, l, x) && !(events[n].Discover? && events[n].id == id)
      ensures LastTold(events, m, id, l, x)
    {
    }
  }

  /** After any history the addresses kept for another peer are the last that were told about
      it, and it is known if anything was. */
  lemma {:induction false} AddressesExactly(tables: seq<Table>, events: seq<Event>, n: nat, id: string)
    requires |tables| == |events| + 1 && n <= |events| && id != tables[0].local
    requires forall i :: 0 <= i < |events| ==> Happens(tables[i], tables[i + 1], events[i])
    ensures tables[n].local == tables[0].local
    ensures IsTold(events, n, id) ==>
              id in tables[n].peers &&
              LastTold(events, n, id, tables[n].peers[id].localAddr, tables[n].peers[id].externalAddr)
  {
    hide Happens, LastTold;
    if n > 0 {
      AddressesExactly(tables, events, n - 1, id);
      EventMeaning(tables[n - 1], tables[n], events[n - 1], id);
      ToldStep(events, n - 1, id);
      hide IsTold;
    } else {
      assert !IsTold(events, 0, id);
    }
  }

  // ---------------------------------------------------------------- dials under way

  /** Those worth dialling. */
  function AllEligible(t: Table): set<string> { set id | id in t.peers && Eligible(t, id) }

  /** The peers connected and those being dialled are no more than there are to be. */
  predicate WithinLimit(t: Table) { Others(t) + |t.inProgress| <= t.maxPeers }

  ghost predicate AttemptsStayWithin(t: Table) {
    forall u, dialled :: Happens(t, u, Attempt(dialled)) ==> WithinLimit(u)
  }

  function DialAll(t: Table, dialled: set<string>): Table {
    t.(inProgress := t.inProgress + dialled,
       peers := map id | id in t.peers :: if id in dialled then t.peers[id].(state := Connecting) else t.peers[id])
  }

  lemma DialledTogether(t: Table, dialled: set<string>)
    requires dialled <= AllEligible(t) && |dialled| <= FreePlaces(t)
    ensures Happens(t, DialAll(t, dialled), Attempt(dialled))
  {
    hide Eligible, FreePlaces;
    assert forall id :: id in dialled ==> id in AllEligible(t);
  }

  lemma DialledAreNew(t: Table, dialled: set<string>)
    requires dialled <= AllEligible(t)
    ensures |DialAll(t, dialled).inProgress| == |t.inProgress| + |dialled|
  {
    hide IndexOf, BestAddr, LocalIp;
    forall id | id in dialled ensures id !in t.inProgress { assert id in AllEligible(t); }
    assert t.inProgress !! dialled;
  }

  lemma {:induction false} SomeOf(s: set<string>, n: nat) returns (r: set<string>)
    requires n <= |s|
    ensures r <= s && |r| == n
  {
    if n == 0 {
      r := {};
    } else {
      var x :| x in s;
      r := SomeOf(s - {x}, n - 1);
      r := r + {x};
    }
  }

  /** Dials under way are not counted against the limit.  No attempt takes the peers connected
      and dialled beyond it exactly if none is being dialled yet, or the places left by those
      suffice for everybody worth dialling. */
  lemma AttemptsStayWithinExactly(t: Table)
    requires WithinLimit(t)
    ensures AttemptsStayWithin(t) <==> t.inProgress == {} || Others(t) + |t.inProgress| + |AllEligible(t)| <= t.maxPeers
  {
    if t.inProgress == {} || Others(t) + |t.inProgress| + |AllEligible(t)| <= t.maxPeers {
      forall u, dialled | Happens(t, u, Attempt(dialled)) ensures WithinLimit(u) {
        AttemptCounts(t, u, dialled);
      }
    } else {
      var most := if |AllEligible(t)| < FreePlaces(t) then |AllEligible(t)| else FreePlaces(t);
      var dialled := SomeOf(AllEligible(t), most);
      DialledTogether(t, dialled);
      DialledAreNew(t, dialled);
      hide AllEligible, DialledOnly;
      assert !WithinLimit(DialAll(t, dialled));
    }
  }

  lemma AttemptCounts(t: Table, u: Table, dialled: set<string>)
    requires Happens(t, u, Attempt(dialled))
    ensures Others(u) == Others(t) && u.maxPeers == t.maxPeers && |u.inProgress| <= |t.inProgress| + |dialled|
    ensures |dialled| <= FreePlaces(t) && |dialled| <= |AllEligible(t)|
  {
    hide IndexOf, BestAddr, LocalIp;
    assert dialled <= AllEligible(t);
    SubsetSize(dialled, AllEligible(t));
    assert |t.inProgress + dialled| <= |t.inProgress| + |dialled|;
  }

  // ---------------------------------------------------------------- the class

  class Peers {
    var table: map<string, PeerInfo>
    var connections: map<string, Conn>
    var inProgress: set<string>
    const local: string
    const maxPeers: nat
    const localAddr: string

    function Abs(): Table
      reads this
    {
      Table(local, maxPeers, localAddr, table, connections, inProgress)
    }

    constructor (local: string, name: string, localAddr: string, externalAddr: string, maxPeers: nat)
      ensures Consistent(Abs()) && this.local == local && this.maxPeers == maxPeers && this.localAddr == localAddr
      ensures table == map[local := PeerInfo(PeerState.Connected, name, localAddr, externalAddr)]
      ensures connections == map[] && inProgress == {}
    {
      this.local, this.maxPeers, this.localAddr := local, maxPeers, localAddr;
      table := map[local := PeerInfo(PeerState.Connected, name, localAddr, externalAddr)];
      connections, inProgress := map[], {};
    }

    method AddPeerDiscovered(id: string, name: string, localAddr: string, externalAddr: string)
      modifies this
      ensures Abs() == Discovered(old(Abs()), id, name, localAddr, externalAddr)
    {
      if id == local { return; }
      if id !in table {
        table := table[id := PeerInfo(PeerState.Disconnected, name, localAddr, externalAddr)];
      } else {
        if table[id].localAddr != localAddr { table := table[id := table[id].(localAddr := localAddr)]; }
        if table[id].externalAddr != externalAddr { table := table[id := table[id].(externalAddr := externalAddr)]; }
        assert table == old(table)[id := old(table)[id].(localAddr := localAddr, externalAddr := externalAddr)];
      }
    }

    /** Returns whether the connection is new, in which case it is sent the peer list. */
    method Connected(id: string, conn: Conn) returns (isNew: bool)
      modifies this
      ensures Abs() == OnConnected(old(Abs()), id, conn)
      ensures isNew <==> !(id in old(connections) && old(connections)[id] == conn)
    {
      if id in connections && connections[id] == conn { return false; }
      connections := connections[id := conn];
      if id in table {
        table := table[id := table[id].(state := PeerState.Connected)];
      } else {
        table := table[id := PeerInfo(PeerState.Connected, "", "", "")];
      }
      inProgress := inProgress - {id};
      isNew := true;
    }

    method Disconnected(id: string)
      modifies this
      ensures Abs() == OnDisconnected(old(Abs()), id)
    {
      connections := connections - {id};
      if id in table { table := table[id := table[id].(state := PeerState.Disconnected)]; }
      inProgress := inProgress - {id};
    }

    /** The turn of one peer.  A port that does not parse throws. */
    method TryDial(id: string, parsePort: string -> Option<int>) returns (dial: Option<Dial>, threw: bool)
      requires id in table
      modifies this
      ensures dial.None? ==>
        Abs() == old(Abs()) && (threw <==> BadPort(Abs(), id, parsePort)) && (threw || !Eligible(Abs(), id))
      ensures dial.Some? ==>
        dial.value.peer == id && !threw && DialFits(old(Abs()), dial.value, parsePort) &&
          Abs() == DialOne(old(Abs()), id)
      ensures dial.Some? ==> GoesTo(old(Abs()), dial.value, parsePort)
    {
      hide IndexOf, BestAddr, LocalIp;
      if id == local || id in connections || id in inProgress { return None, false; }
      var addr := BestAddr(table[id], LocalIp(localAddr));
      if table[id].state.Disconnected? && addr != "" {
        var pos := IndexOf(addr, ':');
        IndexOfIn(addr, ':');
        if pos == |addr| { return None, false; }
        assert Eligible(Abs(), id) && Address(Abs(), id) == addr;
        var port := parsePort(addr[pos + 1..]);
        if port.None? { return None, true; }
        dial := Some(Dial(id, addr[..pos], port.value % 0x1_0000));
        threw := false;
        assert addr[..pos] + ":" == addr[..pos + 1];
        FittingDialGoes(Abs(), dial.value, parsePort);
        inProgress := inProgress + {id};
        table := table[id := table[id].(state := PeerState.Connecting)];
      } else {
        dial, threw := None, false;
      }
    }

    /** One `attempt_connect_more`.  `order` is the order in which the map is walked;
        `parsePort` is `std::stoi`, whose exception ends the call. */
    method AttemptConnectMore(order: seq<string>, parsePort: string -> Option<int>)
      returns (dials: seq<Dial>, threw: bool)
      requires forall id :: id in order <==> id in table
      modifies this
      ensures Dialled(old(Abs()), Abs(), dials, parsePort) && |dials| <= FreePlaces(old(Abs()))
      ensures forall d :: d in dials ==> GoesTo(old(Abs()), d, parsePort)
      // it stops early only when nobody is left to dial, or when a port does not parse
      ensures |dials| == FreePlaces(old(Abs())) || threw || forall id :: id in order ==> !Eligible(Abs(), id)
      ensures threw ==> exists id :: id in order && BadPort(Abs(), id, parsePort)
    {
      hide Eligible, BadPort, DialFits, Dialled, DialledOnly;
      dials, threw := [], false;
      NothingDialled(Abs(), parsePort);
      var connected := |connections.Keys - {local}|;
      if connected >= maxPeers { return; }
      for i := 0 to |order|
        invariant Dialled(old(Abs()), Abs(), dials, parsePort)
        invariant connected == |old(connections).Keys - {local}| + |dials| < maxPeers
        invariant forall k :: 0 <= k < i ==> !Eligible(Abs(), order[k])
        invariant table.Keys == old(table).Keys
        invariant !threw
      {
        ghost var before := Abs();
        assert order[i] in order;
        var dial, bad := TryDial(order[i], parsePort);
        if bad { AllGo(old(Abs()), Abs(), dials, parsePort); return dials, true; }
        if dial.Some? {
          DialOneMore(old(Abs()), before, Abs(), dials, dial.value, parsePort);
          dials := dials + [dial.value];
          connected := connected + 1;
          if connected >= maxPeers { break; }
        }
      }
      AllGo(old(Abs()), Abs(), dials, parsePort);
    }
  }

  function DialledPeers(dials: seq<Dial>): set<string> {
    if dials == [] then {} else DialledPeers(dials[..|dials| - 1]) + {dials[|dials| - 1].peer}
  }

  /** `dials` went to different peers, each worth dialling and at its address, and the
      table changed for those peers only. */
  ghost predicate Dialled(s: Table, t: Table, dials: seq<Dial>, parsePort: string -> Option<int>) {
    && DialledOnly(s, t, DialledPeers(dials))
    && |DialledPeers(dials)| == |dials|
    && forall d :: d in dials ==> DialFits(s, d, parsePort)
  }

  lemma AllGo(s: Table, t: Table, dials: seq<Dial>, parsePort: string -> Option<int>)
    requires Dialled(s, t, dials, parsePort)
    ensures forall d :: d in dials ==> GoesTo(s, d, parsePort)
  {
    hide DialFits, GoesTo, DialledOnly;
    forall d | d in dials ensures GoesTo(s, d, parsePort) { FittingDialGoes(s, d, parsePort); }
  }

  lemma NothingDialled(s: Table, parsePort: string -> Option<int>)
    ensures Dialled(s, s, [], parsePort)
  {
    assert s.inProgress + DialledPeers([]) == s.inProgress;
  }

  lemma DialOneMore(s: Table, t: Table, u: Table, dials: seq<Dial>, d: Dial, parsePort: string -> Option<int>)
    requires Dialled(s, t, dials, parsePort) && DialFits(t, d, parsePort) && u == DialOne(t, d.peer)
    ensures Dialled(s, u, dials + [d], parsePort)
    ensures u.peers.Keys == t.peers.Keys && !Eligible(u, d.peer)
    ensures forall k :: k != d.peer ==> (Eligible(u, k) <==> Eligible(t, k))
  {
    hide DialledOnly, DialFits, Eligible;
    PeersGrow(dials, d);
    FitsEarlier(s, t, DialledPeers(dials), d, parsePort);
    OthersUnchanged(t, u, d.peer);
    DialledGrows(s, t, u, DialledPeers(dials), d.peer);
  }

  lemma PeersGrow(dials: seq<Dial>, d: Dial)
    ensures DialledPeers(dials + [d]) == DialledPeers(dials) + {d.peer}
  {
    assert (dials + [d])[..|dials|] == dials;
  }

  lemma OthersUnchanged(t: Table, u: Table, id: string)
    requires Eligible(t, id) && u == DialOne(t, id)
    ensures u.peers.Keys == t.peers.Keys && !Eligible(u, id)
    ensures forall k :: k != id ==> (Eligible(u, k) <==> Eligible(t, k))
  {
    hide IndexOf, BestAddr, LocalIp;
  }

  lemma DialledGrows(s: Table, t: Table, u: Table, dialled: set<string>, id: string)
    requires DialledOnly(s, t, dialled) && Eligible(t, id) && u == DialOne(t, id)
    ensures DialledOnly(s, u, dialled + {id}) && id !in dialled
  {
    hide IndexOf, BestAddr, LocalIp;
  }

  lemma FitsEarlier(s: Table, t: Table, dialled: set<string>, d: Dial, parsePort: string -> Option<int>)
    requires DialledOnly(s, t, dialled) && DialFits(t, d, parsePort)
    ensures DialFits(s, d, parsePort) && Eligible(t, d.peer)
  {
    hide IndexOf, BestAddr, LocalIp;
  }
}
