// The BPF programs that redirect connections to the proxy and remember where they were going
// (attestation/networktrace/bpf/connect.bpf.c, attestation/networktrace/bpf/sockops.bpf.c).
module Linking {
  import opened AncestorWalk

  // ---- byte order -----------------------------------------------------------------------------

  const K16: nat := 0x1_0000
  const K32: nat := 0x1_0000_0000

  /** `ntohs` and `htons` on a little-endian machine, after cutting the value down to 16 bits. */
  function Swap16(x: nat): (y: nat)
    ensures y < K16
  {
    (x % 256) * 256 + (x / 256) % 256
  }

  /** `ntohl` and `htonl`. */
  function Swap32(x: nat): (y: nat)
    requires x < K32
    ensures y < K32
  {
    Swap16(x % K16) * K16 + Swap16(x / K16)
  }

  lemma Swap16IsInvolution(x: nat)
    requires x < K16
    ensures Swap16(Swap16(x)) == x
  {
  }

  lemma Halves(high: nat, low: nat)
    requires low < K16
    ensures (high * K16 + low) % K16 == low && (high * K16 + low) / K16 == high
  {
  }

  lemma Swap32IsInvolution(x: nat)
    requires x < K32
    ensures Swap32(Swap32(x)) == x
  {
    var low, high := x % K16, x / K16;
    Swap16IsInvolution(low);
    Swap16IsInvolution(high);
    Halves(Swap16(low), Swap16(high));
  }

  /** The two bytes of a half word change places. */
  lemma SwapsTwoBytes(high: nat, low: nat)
    requires high < 256 && low < 256
    ensures Swap16(high * 256 + low) == low * 256 + high
  {
  }

  /** The word made of four bytes, the first one the highest. */
  function Word(a: nat, b: nat, c: nat, d: nat): nat {
    (a * 256 + b) * K16 + (c * 256 + d)
  }

  /** The four bytes of a word are reversed. */
  lemma SwapsFourBytes(a: nat, b: nat, c: nat, d: nat)
    requires a < 256 && b < 256 && c < 256 && d < 256
    ensures Word(a, b, c, d) < K32 && Swap32(Word(a, b, c, d)) == Word(d, c, b, a)
  {
    var high, low := a * 256 + b, c * 256 + d;
    Halves(high, low);
    SwapsTwoBytes(a, b);
    SwapsTwoBytes(c, d);
  }

  // ---- the shared maps ------------------------------------------------------------------------

  datatype Family = V4 | V6

  /** One word for IPv4, four for IPv6, in network byte order. */
  type Address = seq<nat>

  datatype Tuple = Tuple(localIp: Address, localPort: nat, remoteIp: Address, remotePort: nat)

  datatype OrigDst = OrigDst(ip: Address, port: nat, cgroup: nat, pid: nat, comm: string)

  type Cookie = nat

  /** The maps of one address family. */
  datatype Maps = Maps(origDst: map<Cookie, OrigDst>, tuples: map<Tuple, Cookie>)

  /** What the programs ask the kernel about the current task. */
  datatype Current = Current(pid: nat, cgroup: nat, comm: string, netns: nat, task: Task)

  datatype Config = Config(proxyPort: nat, proxyIp: nat, hostNetns: nat, lists: Allowlists)

  /** The address a socket is about to connect to, which the program may rewrite. The port is in network byte order. */
  class SockAddr {
    const stream: bool
    var ip: Address
    var port: nat

    constructor (stream: bool, ip: Address, port: nat)
      ensures this.stream == stream && this.ip == ip && this.port == port
    {
      this.stream, this.ip, this.port := stream, ip, port;
    }
  }

  // ---- specification --------------------------------------------------------------------------

  ghost predicate Watched(c: Config, cur: Current) {
    ShouldIntercept(cur.pid, cur.cgroup, cur.comm, cur.task, c.lists)
  }

  /** A connection that gets redirected, if its destination can be recorded. */
  ghost predicate Redirects(c: Config, cur: Current, stream: bool, port: nat) {
    stream && Watched(c, cur) && cur.netns == c.hostNetns && Swap16(port) != 53
  }

  function Recorded(m: Maps, cookie: Cookie, dst: OrigDst): Maps {
    m.(origDst := m.origDst[cookie := dst])
  }

  /** Both established events are looked at under the same conditions. The namespace check is off while it is unset. */
  ghost predicate Handles(c: Config, cur: Current, stream: bool) {
    stream && Watched(c, cur) && (c.hostNetns == 0 || cur.netns == c.hostNetns)
  }

  function Linked(m: Maps, t: Tuple, server: Cookie): Maps {
    if t in m.tuples && m.tuples[t] in m.origDst
    then m.(origDst := m.origDst[server := m.origDst[m.tuples[t]]])
    else m
  }

  function ProxyAddress(c: Config, family: Family): Address
    requires c.proxyIp < K32
  {
    match family
    case V4 => [Swap32(c.proxyIp)]
    case V6 => [0, 0, 0, Swap32(1)]
  }

  /** Name servers are left alone (port 53, 13568 with its bytes swapped), and so are sockets of other namespaces. */
  lemma RedirectsIff(c: Config, cur: Current, stream: bool, port: nat)
    requires port < K16
    ensures Redirects(c, cur, stream, port) <==>
      && stream && cur.netns == c.hostNetns && port != 13568
      && ShouldIntercept(cur.pid, cur.cgroup, cur.comm, cur.task, c.lists)
  {
    Swap16IsInvolution(port);
    SwapsTwoBytes(0, 53);
    assert Swap16(port) == 53 <==> port == 13568;
  }

  /** Before the host namespace is known every watched stream socket is handled, and afterwards those in it. */
  lemma HandlesIff(c: Config, cur: Current, stream: bool)
    ensures c.hostNetns == 0 ==>
      (Handles(c, cur, stream) <==> stream && ShouldIntercept(cur.pid, cur.cgroup, cur.comm, cur.task, c.lists))
    ensures c.hostNetns != 0 ==>
      (Handles(c, cur, stream) <==>
        stream && cur.netns == c.hostNetns && ShouldIntercept(cur.pid, cur.cgroup, cur.comm, cur.task, c.lists))
  {
  }

  /** The address written is the proxy's, bytes in network order: for IPv6 that is the loopback address. */
  lemma ProxyAddressIs(c: Config, a: nat, b: nat, x: nat, y: nat)
    requires a < 256 && b < 256 && x < 256 && y < 256 && c.proxyIp == Word(a, b, x, y)
    ensures c.proxyIp < K32
    ensures ProxyAddress(c, V4) == [Word(y, x, b, a)]
    ensures ProxyAddress(c, V6) == [0, 0, 0, Word(1, 0, 0, 0)]
  {
    SwapsFourBytes(a, b, x, y);
    SwapsFourBytes(0, 0, 0, 1);
  }

  // ---- the programs ---------------------------------------------------------------------------

  /** An event on an established connection, with the port on the far side in network byte order. */
  datatype SockOps = SockOps(
    active: bool, family: Family, stream: bool, localIp: Address, localPort: nat, remoteIp: Address, remotePort: nat)

  predicate PortsOk(ops: SockOps) {
    ops.localPort < K16 && ops.remotePort < K32
  }

  /** The tuple from the client's side: what the client's event stores and what the proxy's event looks up. */
  function ClientTuple(ops: SockOps): Tuple
    requires PortsOk(ops)
  {
    if ops.active
    then Tuple(ops.localIp, ops.localPort, ops.remoteIp, Swap32(ops.remotePort) % K16)
    else Tuple(ops.remoteIp, Swap32(ops.remotePort) % K16, ops.localIp, ops.localPort)
  }

  class Programs {
    const config: Config
    var maps: map<Family, Maps>

    ghost predicate Valid()
      reads this
    {
      (forall family: Family :: family in maps) && config.proxyIp < K32
    }

    constructor (config: Config)
      requires config.proxyIp < K32
      ensures Valid() && this.config == config
      ensures maps[V4] == Maps(map[], map[]) && maps[V6] == Maps(map[], map[])
    {
      this.config := config;
      maps := map[V4 := Maps(map[], map[]), V6 := Maps(map[], map[])];
      new;
      forall family: Family ensures family in maps {
        assert family == V4 || family == V6;
      }
    }

    /**
     * `intercept_connect4` and `intercept_connect6`. The destination is rewritten exactly when it has been recorded,
     * under the socket's own cookie.
     */
    method InterceptConnect(family: Family, ctx: SockAddr, cookie: Cookie, cur: Current, updateOk: bool)
      requires Valid()
      modifies this`maps, ctx
      ensures Valid()
      ensures
        var redirects := Redirects(config, cur, ctx.stream, old(ctx.port)) && updateOk;
        if redirects then
          && maps == old(maps)[family := Recorded(old(maps)[family], cookie,
               OrigDst(old(ctx.ip), Swap16(old(ctx.port)), cur.cgroup, cur.pid, cur.comm))]
          && ctx.ip == ProxyAddress(config, family) && ctx.port == Swap16(config.proxyPort)
        else maps == old(maps) && ctx.ip == old(ctx.ip) && ctx.port == old(ctx.port)
    {
      if !ctx.stream {
        return;
      }
      var intercept := Intercepts(cur.pid, cur.cgroup, cur.comm, cur.task, config.lists);
      if !intercept {
        return;
      }
      var destPort, destIp := Swap16(ctx.port), ctx.ip;
      if cur.netns != config.hostNetns {
        return;
      }
      if destPort == 53 {
        return;
      }
      if !updateOk {
        return;
      }
      var dst := OrigDst(destIp, destPort, cur.cgroup, cur.pid, cur.comm);
      maps := maps[family := maps[family].(origDst := maps[family].origDst[cookie := dst])];
      match family {
        case V4 => ctx.ip := [Swap32(config.proxyIp)];
        case V6 => ctx.ip := [0, 0, 0, Swap32(1)];
      }
      ctx.port := Swap16(config.proxyPort);
    }

    /** `tcp_sockops`. */
    method TcpSockops(ops: SockOps, cookie: Cookie, cur: Current, updateOk: bool)
      requires Valid() && PortsOk(ops)
      modifies this`maps
      ensures Valid()
      ensures
        var m, t := old(maps)[ops.family], ClientTuple(ops);
        if !Handles(config, cur, ops.stream) || !updateOk then maps == old(maps)
        else maps == old(maps)[ops.family :=
          if ops.active then m.(tuples := m.tuples[t := cookie]) else Linked(m, t, cookie)]
    {
      assert maps == maps[ops.family := maps[ops.family]];
      if !ops.stream {
        return;
      }
      var intercept := Intercepts(cur.pid, cur.cgroup, cur.comm, cur.task, config.lists);
      if !intercept {
        return;
      }
      if config.hostNetns != 0 && cur.netns != config.hostNetns {
        return;
      }
      var m := maps[ops.family];
      if ops.active {
        var tkey := Tuple(ops.localIp, ops.localPort, ops.remoteIp, Swap32(ops.remotePort) % K16);
        if updateOk {
          maps := maps[ops.family := m.(tuples := m.tuples[tkey := cookie])];
        }
      } else {
        var tkey := Tuple(ops.remoteIp, Swap32(ops.remotePort) % K16, ops.localIp, ops.localPort);
        if tkey in m.tuples {
          var clientCookie := m.tuples[tkey];
          if clientCookie in m.origDst && updateOk {
            maps := maps[ops.family := m.(origDst := m.origDst[cookie := m.origDst[clientCookie]])];
          }
        }
      }
    }
  }

  lemma PortComesBack(port: nat)
    requires port < K16
    ensures Swap32(Swap32(port)) % K16 == port
  {
    Swap32IsInvolution(port);
    LowHalf(Swap32(Swap32(port)), port);
  }

  lemma LowHalf(x: nat, y: nat)
    requires x == y && y < K16
    ensures x % K16 == y
  {
  }

  /** The two ends of a connection build the same key, although each gets the other's port in network byte order. */
  lemma EndsAgreeOnTuple(clientIp: Address, clientPort: nat, proxyIp: Address, proxyPort: nat, family: Family)
    requires clientPort < K16 && proxyPort < K16
    ensures
      var client := SockOps(true, family, true, clientIp, clientPort, proxyIp, Swap32(proxyPort));
      var server := SockOps(false, family, true, proxyIp, proxyPort, clientIp, Swap32(clientPort));
      PortsOk(client) && PortsOk(server) && ClientTuple(client) == ClientTuple(server)
        == Tuple(clientIp, clientPort, proxyIp, proxyPort)
  {
    PortComesBack(clientPort);
    PortComesBack(proxyPort);
  }
}
