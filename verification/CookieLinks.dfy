// Whose destination an accepted socket is linked to, over every sequence of connect, established and close events of one
// address family (attestation/networktrace/bpf/connect.bpf.c, attestation/networktrace/bpf/sockops.bpf.c).
module CookieLinks {
  import opened Options
  import opened Linking

  /**
   * The maps, and beside them what really happened: the destination each client last recorded, the tuple each client
   * established its connection with, who owns a tuple now, whose established event was stored, and the client at the
   * other end of each accepted socket.
   */
  datatype World = World(
    maps: Maps,
    recorded: map<Cookie, OrigDst>,
    established: map<Cookie, Tuple>,
    live: map<Tuple, Cookie>,
    stored: set<Cookie>,
    peers: map<Cookie, Cookie>)

  datatype Event =
    | Connect(client: Cookie, dst: OrigDst, redirected: bool)
    | ActiveEstablished(client: Cookie, t: Tuple, handled: bool)
    | PassiveEstablished(server: Cookie, t: Tuple, handled: bool)
    | Close(client: Cookie)

  /**
   * The kernel's part: cookies are unique and belong to one socket for good, a tuple has one live client socket, and the
   * client's established event comes before that of the accepted socket.
   */
  ghost predicate Enabled(w: World, e: Event) {
    match e
    case Connect(client, _, _) => client !in w.established && client !in w.peers
    case ActiveEstablished(client, t, _) => client !in w.established && client !in w.peers && t !in w.live
    case PassiveEstablished(server, t, _) =>
      t in w.live && server !in w.peers && server !in w.established && server !in w.recorded
    case Close(client) =>
      client in w.established && w.established[client] in w.live && w.live[w.established[client]] == client
  }

  /** An event that is not handled, or whose map update fails, changes no map. */
  ghost function Apply(w: World, e: Event): World
    requires Enabled(w, e)
  {
    match e
    case Connect(client, dst, redirected) =>
      if redirected then w.(maps := Recorded(w.maps, client, dst), recorded := w.recorded[client := dst]) else w
    case ActiveEstablished(client, t, handled) =>
      var seen := w.(established := w.established[client := t], live := w.live[t := client]);
      if handled then seen.(maps := w.maps.(tuples := w.maps.tuples[t := client]), stored := w.stored + {client}) else seen
    case PassiveEstablished(server, t, handled) =>
      w.(peers := w.peers[server := w.live[t]], maps := if handled then Linked(w.maps, t, server) else w.maps)
    case Close(client) => w.(live := w.live - {w.established[client]})
  }

  const START: World := World(Maps(map[], map[]), map[], map[], map[], {}, map[])

  ghost predicate IsHistory(worlds: seq<World>, events: seq<Event>) {
    && |worlds| == |events| + 1 && worlds[0] == START
    && (forall k :: 0 <= k < |events| ==> Happens(worlds, events, k))
  }

  ghost predicate Happens(worlds: seq<World>, events: seq<Event>, k: nat)
    requires k < |events| < |worlds|
  {
    Enabled(worlds[k], events[k]) && worlds[k + 1] == Apply(worlds[k], events[k])
  }

  // ---- the invariant --------------------------------------------------------------------------

  /** Clients and accepted sockets are different sockets, and every peer is an established client. */
  ghost predicate SocketsOk(w: World) {
    && w.peers.Keys !! w.established.Keys && w.peers.Keys !! w.recorded.Keys
    && w.stored <= w.established.Keys
    && (forall s :: s in w.peers ==> w.peers[s] in w.established)
    && (forall t :: t in w.live ==> w.live[t] in w.established && w.established[w.live[t]] == t)
  }

  /** A client's entry is the destination it recorded, and all other entries belong to accepted sockets. */
  ghost predicate ClientEntriesOk(w: World) {
    && w.maps.origDst.Keys <= w.recorded.Keys + w.peers.Keys
    && (forall c :: c in w.recorded ==> c in w.maps.origDst && w.maps.origDst[c] == w.recorded[c])
  }

  /** The tuple map names a client that was stored with the tuple, and the live owner whenever that was stored. */
  ghost predicate TuplesOk(w: World) {
    && (forall t :: t in w.maps.tuples ==> w.maps.tuples[t] in w.stored && w.maps.tuples[t] in w.established)
    && (forall t :: t in w.live && w.live[t] in w.stored ==> t in w.maps.tuples && w.maps.tuples[t] == w.live[t])
  }

  /** Entry `s` of an accepted socket is the destination its peer recorded, provided the peer's event was stored. */
  ghost predicate LinkOk(w: World, s: Cookie) {
    s in w.peers && s in w.maps.origDst && w.peers[s] in w.stored ==>
      w.peers[s] in w.recorded && w.maps.origDst[s] == w.recorded[w.peers[s]]
  }

  ghost predicate LinksOk(w: World) {
    forall s :: LinkOk(w, s)
  }

  ghost predicate Inv(w: World) {
    SocketsOk(w) && ClientEntriesOk(w) && TuplesOk(w) && LinksOk(w)
  }

  lemma ConnectPreserves(w: World, e: Event)
    requires Inv(w) && Enabled(w, e) && e.Connect?
    ensures Inv(Apply(w, e))
  {
    var v := Apply(w, e);
    forall s ensures LinkOk(v, s) {
      assert LinkOk(w, s);
    }
  }

  lemma ActivePreserves(w: World, e: Event)
    requires Inv(w) && Enabled(w, e) && e.ActiveEstablished?
    ensures Inv(Apply(w, e))
  {
    var v := Apply(w, e);
    forall s ensures LinkOk(v, s) {
      assert LinkOk(w, s);
    }
  }

  lemma PassivePreserves(w: World, e: Event)
    requires Inv(w) && Enabled(w, e) && e.PassiveEstablished?
    ensures Inv(Apply(w, e))
  {
    var v := Apply(w, e);
    forall s ensures LinkOk(v, s) {
      assert LinkOk(w, s);
    }
  }

  lemma ClosePreserves(w: World, e: Event)
    requires Inv(w) && Enabled(w, e) && e.Close?
    ensures Inv(Apply(w, e))
  {
    var v := Apply(w, e);
    forall s ensures LinkOk(v, s) {
      assert LinkOk(w, s);
    }
  }

  lemma EventPreserves(w: World, e: Event)
    requires Inv(w) && Enabled(w, e)
    ensures Inv(Apply(w, e))
  {
    match e {
      case Connect(_, _, _) => ConnectPreserves(w, e);
      case ActiveEstablished(_, _, _) => ActivePreserves(w, e);
      case PassiveEstablished(_, _, _) => PassivePreserves(w, e);
      case Close(_) => ClosePreserves(w, e);
    }
  }

  lemma Invariant(worlds: seq<World>, events: seq<Event>, k: nat)
    requires IsHistory(worlds, events) && k < |worlds|
    ensures Inv(worlds[k])
  {
    for j := 0 to k
      invariant Inv(worlds[j])
    {
      assert Happens(worlds, events, j);
      EventPreserves(worlds[j], events[j]);
    }
  }

  // ---- what the proxy may rely on -------------------------------------------------------------

  /**
   * Whatever the proxy finds under the cookie of an accepted socket whose peer's own established event was stored is, in
   * every reachable state, the destination that peer recorded when it connected. What other sockets do is immaterial.
   */
  lemma AcceptedEntriesAreThePeers(worlds: seq<World>, events: seq<Event>, k: nat, s: Cookie)
    requires IsHistory(worlds, events) && k < |worlds|
    requires s in worlds[k].peers && s in worlds[k].maps.origDst && worlds[k].peers[s] in worlds[k].stored
    ensures worlds[k].peers[s] in worlds[k].recorded
    ensures worlds[k].maps.origDst[s] == worlds[k].recorded[worlds[k].peers[s]]
  {
    Invariant(worlds, events, k);
    assert LinkOk(worlds[k], s);
  }

  /** The client whose destination a lookup of the tuple leads to. */
  ghost function LinkedFrom(w: World, t: Tuple): Option<Cookie> {
    if t in w.maps.tuples && w.maps.tuples[t] in w.recorded then Some(w.maps.tuples[t]) else None
  }

  /**
   * What the event of an accepted socket does, exactly. The socket gets the destination of the client the tuple names, if
   * that recorded one. That client is the peer if and only if the peer's own event was stored; and the entry is the
   * peer's destination if and only if it comes from the peer or from a client that recorded the same one.
   */
  lemma PassiveEntryIs(worlds: seq<World>, events: seq<Event>, k: nat)
    requires IsHistory(worlds, events) && k < |events| && events[k].PassiveEstablished?
    ensures Happens(worlds, events, k)
    ensures
      var w, entries, server := worlds[k], worlds[k + 1].maps.origDst, events[k].server;
      var peer, from := w.live[events[k].t], LinkedFrom(w, events[k].t);
      && (server in entries <==> events[k].handled && from.Some?)
      && (server in entries ==> entries[server] == w.recorded[from.value])
      && (from == Some(peer) <==> peer in w.stored && peer in w.recorded)
      && (server in entries && peer in w.recorded ==>
            (entries[server] == w.recorded[peer] <==> from == Some(peer) || w.recorded[from.value] == w.recorded[peer]))
      && worlds[k + 1].peers[server] == peer
  {
    assert Happens(worlds, events, k);
    Invariant(worlds, events, k);
    PassiveEntry(worlds[k], events[k]);
  }

  lemma PassiveEntry(w: World, e: Event)
    requires Inv(w) && Enabled(w, e) && e.PassiveEstablished?
    ensures
      var entries, from := Apply(w, e).maps.origDst, LinkedFrom(w, e.t);
      && (e.server in entries <==> e.handled && from.Some?)
      && (e.server in entries ==> entries[e.server] == w.recorded[from.value])
  {
    assert e.server !in w.maps.origDst.Keys;
    if e.t in w.maps.tuples {
      var client := w.maps.tuples[e.t];
      assert client in w.established.Keys && client !in w.peers.Keys;
      assert client in w.maps.origDst.Keys <==> client in w.recorded.Keys;
    }
  }

  /** An accepted socket is linked if its peer was stored and had recorded a destination. */
  lemma StoredPeersAreLinked(worlds: seq<World>, events: seq<Event>, k: nat)
    requires IsHistory(worlds, events) && k < |events| && events[k].PassiveEstablished? && events[k].handled
    requires Happens(worlds, events, k)
    requires worlds[k].live[events[k].t] in worlds[k].stored
    ensures
      var peer := worlds[k].live[events[k].t];
      events[k].server in worlds[k + 1].maps.origDst <==> peer in worlds[k].recorded
  {
    Invariant(worlds, events, k);
    var w := worlds[k];
    var peer := w.live[events[k].t];
    assert peer in w.established.Keys && peer !in w.peers.Keys;
    assert peer in w.maps.origDst.Keys <==> peer in w.recorded.Keys;
    assert events[k].server !in w.maps.origDst.Keys;
  }

  /** The lookup goes by the live peer if and only if the peer's established event was stored. */
  lemma LookupFindsPeerIff(worlds: seq<World>, events: seq<Event>, k: nat, t: Tuple)
    requires IsHistory(worlds, events) && k < |worlds| && t in worlds[k].live
    ensures t in worlds[k].maps.tuples && worlds[k].maps.tuples[t] == worlds[k].live[t] <==>
      worlds[k].live[t] in worlds[k].stored
  {
    Invariant(worlds, events, k);
  }

  /** Otherwise a tuple left behind by an earlier client can link the socket to that client's destination. */
  lemma StaleTupleMislinks(t: Tuple, dst: OrigDst) returns (worlds: seq<World>, events: seq<Event>)
    ensures IsHistory(worlds, events)
    ensures
      var w := worlds[|events|];
      3 in w.peers && w.peers[3] == 2 && 2 !in w.recorded && 3 in w.maps.origDst && w.maps.origDst[3] == dst
  {
    events := [Connect(1, dst, true), ActiveEstablished(1, t, true), Close(1), ActiveEstablished(2, t, false),
               PassiveEstablished(3, t, true)];
    var w1 := Apply(START, events[0]);
    var w2 := Apply(w1, events[1]);
    var w3 := Apply(w2, events[2]);
    var w4 := Apply(w3, events[3]);
    var w5 := Apply(w4, events[4]);
    worlds := [START, w1, w2, w3, w4, w5];
    forall k | 0 <= k < |events| ensures Happens(worlds, events, k) {
      assert k == 0 || k == 1 || k == 2 || k == 3 || k == 4;
    }
  }

  // ---- the programs take these steps ----------------------------------------------------------

  /** Running the connect program has the effect of a connect event on the maps of its family. */
  method RunConnect(p: Programs, ghost w: World, family: Family, ctx: SockAddr, cookie: Cookie, cur: Current,
                    updateOk: bool) returns (ghost e: Event)
    requires p.Valid() && w.maps == p.maps[family] && cookie !in w.established && cookie !in w.peers
    modifies p`maps, ctx
    ensures p.Valid() && Enabled(w, e) && p.maps == old(p.maps)[family := Apply(w, e).maps]
    ensures e == Connect(cookie, OrigDst(old(ctx.ip), Swap16(old(ctx.port)), cur.cgroup, cur.pid, cur.comm),
                         Redirects(p.config, cur, ctx.stream, old(ctx.port)) && updateOk)
  {
    var dst := OrigDst(ctx.ip, Swap16(ctx.port), cur.cgroup, cur.pid, cur.comm);
    e := Connect(cookie, dst, Redirects(p.config, cur, ctx.stream, ctx.port) && updateOk);
    assert p.maps == p.maps[family := p.maps[family]];
    p.InterceptConnect(family, ctx, cookie, cur, updateOk);
  }

  /** Running the established program has the effect of an established event on the maps of its family. */
  method RunSockops(p: Programs, ghost w: World, ops: SockOps, cookie: Cookie, cur: Current, updateOk: bool)
    returns (ghost e: Event)
    requires p.Valid() && PortsOk(ops) && w.maps == p.maps[ops.family]
    requires cookie !in w.established && cookie !in w.peers
    requires ops.active ==> ClientTuple(ops) !in w.live
    requires !ops.active ==> ClientTuple(ops) in w.live && cookie !in w.recorded
    modifies p`maps
    ensures p.Valid() && Enabled(w, e) && p.maps == old(p.maps)[ops.family := Apply(w, e).maps]
    ensures
      var handled := Handles(p.config, cur, ops.stream) && updateOk;
      e == if ops.active then ActiveEstablished(cookie, ClientTuple(ops), handled)
           else PassiveEstablished(cookie, ClientTuple(ops), handled)
  {
    ghost var handled := Handles(p.config, cur, ops.stream) && updateOk;
    e := if ops.active then ActiveEstablished(cookie, ClientTuple(ops), handled)
         else PassiveEstablished(cookie, ClientTuple(ops), handled);
    assert p.maps == p.maps[ops.family := p.maps[ops.family]];
    p.TcpSockops(ops, cookie, cur, updateOk);
  }
}
