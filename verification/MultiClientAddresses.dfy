/** The addresses and static ARP entries of the multi-client extension: when each address has one holder and each
    entry names the actual peer. */
module MultiClientAddresses {
  import opened Text
  import opened Routing
  import opened TopoBuilder
  import opened MultiInterface
  import opened Wiring
  import opened InterfaceNaming
  import opened MultiInterfaceConfig
  import opened PathSeparation
  import opened MultiClientTopo
  import opened MultiClientConfig

  datatype Host = Client(i: nat) | Server(k: nat) | Router {
    function Name(): string {
      match this case Client(i) => ClientName(i) case Server(k) => ServerName(k) case Router => RouterName(0)
    }

    predicate Exists(nc: nat) {
      match this case Client(i) => i <= nc case Server(k) => k <= nc case Router => true
    }
  }

  /** The parameters of a configuration: the two prefixes as text and as octets, and the numbers of links. */
  datatype Setup = Setup(left: string, right: string, la: nat, lb: nat, ra: nat, rb: nat, nc: nat, ns: nat) {
    ghost predicate Valid() {
      IsPrefix(left, la, lb) && IsPrefix(right, ra, rb) && (la != ra || lb != rb) && nc > 0
    }
  }

  function LogOf(u: Setup, h: Host): Log {
    match h
    case Client(i) => ClientLog(u.left, u.nc, i)
    case Server(k) => ServerLog(u.right, u.nc, u.ns, k)
    case Router => RouterLog(u.left, u.right, u.nc, u.ns)
  }

  /** Port p of host h has address x. */
  predicate Holds(u: Setup, h: Host, p: nat, x: Ip) {
    (IfName(End(h.Name(), p)), x) in Addresses(LogOf(u, h))
  }

  // ------------------------------------------------------------ addresses with at most one link to the server

  lemma UpAlone(log: Log, node: string, prefix: string, a: nat, b: nat, i: nat, h: nat)
    requires IsPrefix(prefix, a, b) && h < 256 && Addresses(log) == []
    ensures Addresses(log + [IfUp(IfName(End(node, 0)), Address(prefix, i, Dec(h)))])
            == if i < 256 then [(IfName(End(node, 0)), Ip(a, b, i, h))] else []
  {
    hide IfName, Address, Addresses, Dec, IsPrefix, ParseIp;
    AddressParses(prefix, a, b, i, h);
    AddressesNext(log, IfUp(IfName(End(node, 0)), Address(prefix, i, Dec(h))));
    assert Without([], IfName(End(node, 0))) == [];
  }

  lemma CongestionClientHolds(u: Setup, i: nat)
    requires u.Valid()
    ensures Addresses(LogOf(u, Client(i + 1))) == if i < 256 then [(IfName(End(ClientName(i + 1), 0)), Ip(u.la, u.lb, i, 10))] else []
  {
    hide IfName, Address, Addresses, Dec, IsPrefix, ClientName, RouterInterfaceToClient;
    var log := LogOf(u, Client(i + 1));
    assert Addresses([]) == [] by { NothingUp("", 0); }
    TenText();
    InterfaceIs(i + 1);
    UpAlone([], ClientName(i + 1), u.left, u.la, u.lb, i, 10);
    assert log == [] + [log[0]] + [log[1]] + [log[2]];
    AddressesNext([] + [log[0]], log[1]);
    AddressesNext([] + [log[0]] + [log[1]], log[2]);
  }

  lemma TenText()
    ensures Dec(10) == "10" && Dec(1) == "1" && Dec(2) == "2"
  {
    assert DigitChar(0) == '0' && DigitChar(1) == '1' && DigitChar(2) == '2';
    assert Dec(10) == Dec(1) + [DigitChar(0)];
  }

  lemma InterfaceIs(k: nat)
    ensures ClientInterface(k, 0) == IfName(End(ClientName(k), 0)) && ServerInterface(k, 0) == IfName(End(ServerName(k), 0))
  {
  }

  lemma FurtherServerHolds(u: Setup, k: nat)
    requires u.Valid() && k > 0
    ensures Addresses(LogOf(u, Server(k))) == if k < 256 then [(IfName(End(ServerName(k), 0)), Ip(u.ra, u.rb, k, 1))] else []
  {
    hide IfName, Address, Addresses, Dec, IsPrefix, ServerName, RouterInterfaceToServer;
    var log := LogOf(u, Server(k));
    assert Addresses([]) == [] by { NothingUp("", 0); }
    TenText();
    InterfaceIs(k);
    AddressesNext([], log[0]);
    UpAlone([] + [log[0]], ServerName(k), u.right, u.ra, u.rb, k, 1);
    assert log == [] + [log[0]] + [log[1]] + [log[2]];
    AddressesNext([] + [log[0]] + [log[1]], log[2]);
  }

  /** Commands that change no address. */
  predicate Quiet(log: Log) {
    forall i :: 0 <= i < |log| ==> !log[i].IfUp? && !log[i].Flush?
  }

  lemma {:induction false} QuietKeeps(log: Log, more: Log)
    requires Quiet(more)
    ensures Addresses(log + more) == Addresses(log)
    decreases |more|
  {
    hide Addresses;
    if more == [] {
      assert log + more == log;
    } else {
      var front, last := more[..|more| - 1], more[|more| - 1];
      QuietKeeps(log, front);
      AddressesNext(log + front, last);
      assert log + more == log + front + [last];
    }
  }

  lemma {:induction false} TablesQuiet(node: string, prefix: string, n: nat)
    ensures Quiet(Tables(node, prefix, n)) && Quiet(RouterClients(prefix, n))
    decreases n
  {
    hide IfName, Address, ClientInterface;
    if n > 0 {
      TablesQuiet(node, prefix, n - 1);
    }
  }

  lemma FirstClientHolds(u: Setup)
    requires u.Valid()
    ensures Addresses(LogOf(u, Client(0))) == Held(ClientName(0), 0, u.la, u.lb, 1, u.nc)
  {
    hide IfName, Address, Addresses, IsPrefix, ClientName, RouterName, Table, Rules, TableOf, RulesOf, Held, ClientInterfaces, ClientRouting;
    ClientIsEndHost(u.left, u.right, u.la, u.lb, u.nc, u.ns);
  }

  /** Server 0 sets its first interface a second time. */
  lemma FirstServerHolds(u: Setup)
    requires u.Valid()
    ensures Addresses(LogOf(u, Server(0)))
            == Without(Held(ServerName(0), 0, u.ra, u.rb, 1, AtLeastOne(u.ns)), IfName(End(ServerName(0), 0)))
               + [(IfName(End(ServerName(0), 0)), Ip(u.ra, u.rb, 0, 1))]
  {
    hide IfName, Address, Addresses, IsPrefix, ServerName, RouterInterfaceToServer, ServerNear, Held, Without, Dec, Tables, ParseIp;
    var near := ServerInterfaces(u.right, u.nc, u.ns);
    assert Addresses([]) == [] by { NothingUp("", 0); }
    ServerNearHolds([], u.right, u.ra, u.rb, u.nc, AtLeastOne(u.ns));
    assert [] + near == near;
    var cs := FurtherServer(u.right, u.nc, 0);
    TenText();
    InterfaceIs(0);
    AddressesNext(near, cs[0]);
    AddressesNext(near + [cs[0]], cs[1]);
    AddressParses(u.right, u.ra, u.rb, 0, 1);
    var after := near + [cs[0]] + [cs[1]];
    var routing := ServerRouting(u.right, u.ns) + FurtherServerRouting(u.right, 0);
    TablesQuiet(ServerName(0), u.right, u.ns);
    QuietKeeps(after, routing);
    assert LogOf(u, Server(0)) == after + routing;
  }

  lemma ReUp(held: seq<(string, Ip)>, ifname: string, x: Ip)
    requires !Named(held, ifname)
    ensures Without(held + [(ifname, x)], ifname) == held
    decreases |held|
  {
    if held == [] {
      assert ([] + [(ifname, x)])[1..] == [];
    } else {
      assert held[0].0 != ifname;
      assert forall i :: 0 <= i < |held[1..]| ==> held[1..][i] == held[i + 1];
      ReUp(held[1..], ifname, x);
      assert (held + [(ifname, x)])[1..] == held[1..] + [(ifname, x)];
    }
  }

  /** The router's second setting of its port to server 0 changes nothing when that port is the last one. */
  lemma RouterFirstServer(log: Log, u: Setup, pre: seq<(string, Ip)>)
    requires u.Valid() && NoneUp(pre, RouterName(0), u.nc) && Addresses(log) == pre + Held(RouterName(0), u.nc, u.ra, u.rb, 2, 1)
    ensures Addresses(log + RouterServer(u.right, u.nc, 0)) == Addresses(log)
  {
    hide IfName, Address, Addresses, IsPrefix, RouterName, Dec, ParseIp;
    var cs, ifname, x := RouterServer(u.right, u.nc, 0), IfName(End(RouterName(0), u.nc)), Ip(u.ra, u.rb, 0, 2);
    NamesOfEnds(u.nc, 0);
    AddressParses(u.right, u.ra, u.rb, 0, 2);
    AddressesNext(log, cs[0]);
    AddressesNext(log + [cs[0]], cs[1]);
    assert log + cs == log + [cs[0]] + [cs[1]];
    assert Held(RouterName(0), u.nc, u.ra, u.rb, 2, 1) == [(ifname, x)];
    ReUp(pre, ifname, x);
  }

  lemma RouterNextServer(log: Log, u: Setup, pre: seq<(string, Ip)>, n: nat)
    requires u.Valid() && NoneUp(pre, RouterName(0), u.nc) && Addresses(log) == pre + Held(RouterName(0), u.nc, u.ra, u.rb, 2, n)
    ensures Addresses(log + RouterServer(u.right, u.nc, n)) == pre + Held(RouterName(0), u.nc, u.ra, u.rb, 2, n + 1)
  {
    hide IfName, Address, Addresses, IsPrefix, RouterName, Dec, Held, NoneUp;
    var cs := RouterServer(u.right, u.nc, n);
    NamesOfEnds(u.nc, n);
    UpAdds(log, pre, RouterName(0), u.nc, u.right, u.ra, u.rb, 2, n);
    AddressesNext(log + [cs[0]], cs[1]);
    assert log + cs == log + [cs[0]] + [cs[1]];
  }

  lemma {:induction false} RouterServersHold(log: Log, u: Setup, pre: seq<(string, Ip)>, n: nat)
    requires u.Valid() && NoneUp(pre, RouterName(0), u.nc) && n > 0
    requires Addresses(log) == pre + Held(RouterName(0), u.nc, u.ra, u.rb, 2, 1)
    ensures Addresses(log + RouterServers(u.right, u.nc, n)) == pre + Held(RouterName(0), u.nc, u.ra, u.rb, 2, n)
    decreases n
  {
    hide IfName, Addresses, RouterName, Held, NoneUp, RouterServer;
    var before := log + RouterServers(u.right, u.nc, n - 1);
    assert log + RouterServers(u.right, u.nc, n) == before + RouterServer(u.right, u.nc, n - 1);
    if n == 1 {
      assert before == log;
      RouterFirstServer(log, u, pre);
    } else {
      RouterServersHold(log, u, pre, n - 1);
      RouterNextServer(before, u, pre, n - 1);
    }
  }

  lemma RouterHoldsAll(u: Setup)
    requires u.Valid() && u.ns <= 1
    ensures Addresses(LogOf(u, Router)) == RouterHolds(u.la, u.lb, u.ra, u.rb, u.nc, u.nc + 1)
  {
    hide IfName, Addresses, IsPrefix, RouterName, ClientName, Held, NoneUp, RouterInterfaces, RouterClients, RouterServers, NoRouting;
    var base, clients := RouterInterfaces(u.left, u.right, u.nc, u.ns), RouterClients(u.left, u.nc);
    RouterAddresses(u.left, u.right, u.la, u.lb, u.ra, u.rb, u.nc, u.ns);
    TablesQuiet("", u.left, u.nc);
    QuietKeeps(base, clients);
    HeldBelow(RouterName(0), 0, u.la, u.lb, 2, u.nc);
    RouterServersHold(base + clients, u, Held(RouterName(0), 0, u.la, u.lb, 2, u.nc), u.nc + 1);
  }

  // ------------------------------------------------------------ one holder for each address

  /** With at most one link to the server, the host and port an address is meant for. */
  function HolderOf(u: Setup, x: Ip): (Host, nat) {
    if x.a == u.la && x.b == u.lb then
      if x.d == 1 then (Client(0), x.c) else if x.d == 10 then (Client(x.c + 1), 0) else (Router, x.c)
    else if x.d == 1 then (Server(x.c), 0)
    else (Router, u.nc + x.c)
  }

  lemma HeldMember(node: string, p: nat, a: nat, b: nat, h: nat, n: nat, port: nat, x: Ip)
    requires (IfName(End(node, port)), x) in Held(node, p, a, b, h, n)
    ensures port >= p && x == Ip(a, b, port - p, h) && port - p < Min(n, 256)
  {
    hide IfName;
    var held := Held(node, p, a, b, h, n);
    var i :| 0 <= i < |held| && held[i] == (IfName(End(node, port)), x);
    IfNameInjective(End(node, port), End(node, p + i));
  }

  lemma AloneMember(node: string, port: nat, x: Ip, y: Ip)
    requires (IfName(End(node, port)), x) in [(IfName(End(node, 0)), y)]
    ensures port == 0 && x == y
  {
    hide IfName;
    IfNameInjective(End(node, port), End(node, 0));
  }

  lemma FirstServerAlone(u: Setup)
    requires u.Valid() && u.ns <= 1
    ensures Addresses(LogOf(u, Server(0))) == [(IfName(End(ServerName(0), 0)), Ip(u.ra, u.rb, 0, 1))]
  {
    hide IfName, Addresses, IsPrefix, ServerName, ServerLog;
    FirstServerHolds(u);
    var ifname, x := IfName(End(ServerName(0), 0)), Ip(u.ra, u.rb, 0, 1);
    assert Held(ServerName(0), 0, u.ra, u.rb, 1, 1) == [] + [(ifname, x)];
    ReUp([], ifname, x);
    assert [] + [(ifname, x)] == [(ifname, x)];
  }

  lemma AddressTellsHolder(u: Setup, h: Host, p: nat, x: Ip)
    requires u.Valid() && u.ns <= 1 && Holds(u, h, p, x)
    ensures HolderOf(u, x) == (h, p)
  {
    hide IfName, Addresses, IsPrefix, LogOf, ClientName, ServerName, RouterName, Held;
    match h
    case Client(i) =>
      if i == 0 {
        FirstClientHolds(u);
        HeldMember(ClientName(0), 0, u.la, u.lb, 1, u.nc, p, x);
      } else {
        CongestionClientHolds(u, i - 1);
        AloneMember(ClientName(i), p, x, Ip(u.la, u.lb, i - 1, 10));
      }
    case Server(k) =>
      if k == 0 {
        FirstServerAlone(u);
      } else {
        FurtherServerHolds(u, k);
      }
      AloneMember(ServerName(k), p, x, Ip(u.ra, u.rb, k, 1));
    case Router =>
      RouterHoldsAll(u);
      var left := Held(RouterName(0), 0, u.la, u.lb, 2, u.nc);
      if (IfName(End(RouterName(0), p)), x) in left {
        HeldMember(RouterName(0), 0, u.la, u.lb, 2, u.nc, p, x);
      } else {
        HeldMember(RouterName(0), u.nc, u.ra, u.rb, 2, u.nc + 1, p, x);
      }
  }

  lemma {:induction false} WithoutKeeps(held: seq<(string, Ip)>, ifname: string, other: string, x: Ip)
    requires (other, x) in held && other != ifname
    ensures (other, x) in Without(held, ifname)
  {
    if held[0] != (other, x) {
      assert held == [held[0]] + held[1..];
      WithoutKeeps(held[1..], ifname, other, x);
    }
  }

  /** With two links or more, server 1 is given the address of server 0's second interface. */
  lemma AddressTwice(u: Setup)
    requires u.Valid() && u.ns >= 2
    ensures Holds(u, Server(0), 1, Ip(u.ra, u.rb, 1, 1)) && Holds(u, Server(1), 0, Ip(u.ra, u.rb, 1, 1))
  {
    hide IfName, Addresses, IsPrefix, LogOf, ServerName;
    FirstServerHolds(u);
    FurtherServerHolds(u, 1);
    var held, name0, name1 := Held(ServerName(0), 0, u.ra, u.rb, 1, u.ns), IfName(End(ServerName(0), 0)), IfName(End(ServerName(0), 1));
    if name0 == name1 {
      IfNameInjective(End(ServerName(0), 0), End(ServerName(0), 1));
    }
    assert held[1] == (name1, Ip(u.ra, u.rb, 1, 1));
    WithoutKeeps(held, name0, name1, Ip(u.ra, u.rb, 1, 1));
  }

  /** No address is on two ports. */
  ghost predicate OneHolder(u: Setup) {
    forall h: Host, t: Host, p: nat, q: nat, x: Ip ::
      h.Exists(u.nc) && t.Exists(u.nc) && Holds(u, h, p, x) && Holds(u, t, q, x) ==> h == t && p == q
  }

  /** For all numbers of links: the assigned addresses are pairwise distinct exactly when there is at most one link
      between router and server. */
  lemma AddressesDistinct(u: Setup)
    requires u.Valid()
    ensures OneHolder(u) <==> u.ns <= 1
  {
    hide Holds, IsPrefix;
    if u.ns <= 1 {
      forall h: Host, t: Host, p: nat, q: nat, x: Ip | Holds(u, h, p, x) && Holds(u, t, q, x)
        ensures h == t && p == q
      {
        AddressTellsHolder(u, h, p, x);
        AddressTellsHolder(u, t, q, x);
      }
    } else {
      AddressTwice(u);
      var x := Ip(u.ra, u.rb, 1, 1);
      assert Holds(u, Server(0), 1, x) && Holds(u, Server(1), 0, x);
      assert Server(0).Exists(u.nc) && Server(1).Exists(u.nc) && Server(0) != Server(1);
    }
  }

  // ------------------------------------------------------------ static ARP entries

  /** The entry on host h for port p of host t, reached from h's own port q: t has the address x there, h has an
      address y of the same network, and the ports share a LAN. */
  ghost predicate PeerAt(links: seq<Link>, u: Setup, h: Host, q: nat, y: Ip, t: Host, p: nat, x: Ip) {
    Holds(u, h, q, y) && Holds(u, t, p, x) && SameNet(x, y) && h != t
    && SameLan(Extended(links), End(h.Name(), q), End(t.Name(), p))
  }

  ghost predicate NamesPeer(links: seq<Link>, u: Setup, h: Host, ip: string, ifname: string) {
    exists q: nat, y: Ip, t: Host, p: nat, x: Ip ::
      ParseIp(ip) == Some(x) && ifname == IfName(End(t.Name(), p)) && PeerAt(links, u, h, q, y, t, p, x)
  }

  /** Every static entry of the host names the actual peer. */
  ghost predicate EntriesNamePeers(links: seq<Link>, u: Setup, h: Host, log: Log) {
    forall i :: 0 <= i < |log| && log[i].Arp? ==> NamesPeer(links, u, h, log[i].ip, log[i].ifname)
  }

  ghost predicate Matches(links: seq<Link>, u: Setup) {
    Unique(links) && u.Valid() && u.nc == |C2r(links)| && u.ns == |R2s(links)|
  }

  lemma AtIndex(u: Setup, h: Host, p: nat, x: Ip, i: nat)
    requires i < |Addresses(LogOf(u, h))| && Addresses(LogOf(u, h))[i] == (IfName(End(h.Name(), p)), x)
    ensures Holds(u, h, p, x)
  {
  }

  /** The addresses on link i and those on the way to server k. */
  lemma LinkAddresses(u: Setup, i: nat)
    requires u.Valid() && u.ns <= 1 && u.nc <= 255
    ensures i < u.nc ==> Holds(u, Client(0), i, Ip(u.la, u.lb, i, 1)) && Holds(u, Router, i, Ip(u.la, u.lb, i, 2))
                         && Holds(u, Client(i + 1), 0, Ip(u.la, u.lb, i, 10))
    ensures i <= u.nc ==> Holds(u, Router, u.nc + i, Ip(u.ra, u.rb, i, 2)) && Holds(u, Server(i), 0, Ip(u.ra, u.rb, i, 1))
  {
    hide IfName, Addresses, IsPrefix, LogOf, ClientName, ServerName, RouterName, Holds;
    RouterHoldsAll(u);
    if i < u.nc {
      FirstClientHolds(u);
      AtIndex(u, Client(0), i, Ip(u.la, u.lb, i, 1), i);
      AtIndex(u, Router, i, Ip(u.la, u.lb, i, 2), i);
      CongestionClientHolds(u, i);
      AtIndex(u, Client(i + 1), 0, Ip(u.la, u.lb, i, 10), 0);
    }
    if i <= u.nc {
      AtIndex(u, Router, u.nc + i, Ip(u.ra, u.rb, i, 2), u.nc + i);
      if i == 0 {
        FirstServerAlone(u);
      } else {
        FurtherServerHolds(u, i);
      }
      AtIndex(u, Server(i), 0, Ip(u.ra, u.rb, i, 1), 0);
    }
  }

  /** The LAN of link i: client 0, the router and congestion client i + 1. */
  lemma LinkLan(links: seq<Link>, i: nat)
    requires Unique(links) && i < |C2r(links)|
    ensures var n, c, r, d := Extended(links), End(ClientName(0), i), End(RouterName(0), i), End(ClientName(i + 1), 0);
            SameLan(n, c, r) && SameLan(n, r, c) && SameLan(n, d, r) && SameLan(n, r, d)
  {
    hide BsName, ClientName, ServerName, RouterName, C2r, R2s, SameLan, Extended, Unique, HostEnd;
    var c, r, d := End(ClientName(0), i), End(RouterName(0), i), End(ClientName(i + 1), 0);
    HostsAreHostEnds(links, 0, i);
    HostsAreHostEnds(links, i + 1, 0);
    assert AtLink(links, i, c) && AtLink(links, i, r) && AtLink(links, i, d);
    ExtendedLans(links, c, r);
    ExtendedLans(links, r, c);
    ExtendedLans(links, d, r);
    ExtendedLans(links, r, d);
  }

  lemma PeerNamed(links: seq<Link>, u: Setup, h: Host, ip: string, ifname: string, q: nat, y: Ip, t: Host, p: nat, x: Ip)
    requires ParseIp(ip) == Some(x) && ifname == IfName(End(t.Name(), p)) && PeerAt(links, u, h, q, y, t, p, x)
    ensures NamesPeer(links, u, h, ip, ifname)
  {
  }

  /** The four entries about link i name the actual peers. */
  lemma LinkEntries(links: seq<Link>, u: Setup, i: nat)
    requires Matches(links, u) && u.ns <= 1 && u.nc <= 255 && i < u.nc
    ensures NamesPeer(links, u, Client(0), RouterIpToClientSwitch(u.left, i), RouterInterfaceToClient(i))
    ensures NamesPeer(links, u, Client(i + 1), RouterIpToClientSwitch(u.left, i), RouterInterfaceToClient(i))
    ensures NamesPeer(links, u, Router, ClientIp(u.left, i), ClientInterface(0, i))
    ensures NamesPeer(links, u, Router, CongestionClientIp(u.left, i), ClientInterface(i + 1, 0))
  {
    hide Address, ParseIp, IsPrefix, Holds, SameLan, Extended, C2r, R2s, Unique, NamesPeer, Dec, ClientName, ServerName, RouterName;
    LinkAddresses(u, i);
    LinkLan(links, i);
    TenText();
    AddressParses(u.left, u.la, u.lb, i, 1);
    AddressParses(u.left, u.la, u.lb, i, 2);
    AddressParses(u.left, u.la, u.lb, i, 10);
    var c, r, d := Ip(u.la, u.lb, i, 1), Ip(u.la, u.lb, i, 2), Ip(u.la, u.lb, i, 10);
    PeerNamed(links, u, Client(0), RouterIpToClientSwitch(u.left, i), RouterInterfaceToClient(i), i, c, Router, i, r);
    PeerNamed(links, u, Client(i + 1), RouterIpToClientSwitch(u.left, i), RouterInterfaceToClient(i), 0, d, Router, i, r);
    PeerNamed(links, u, Router, ClientIp(u.left, i), ClientInterface(0, i), i, r, Client(0), i, c);
    PeerNamed(links, u, Router, CongestionClientIp(u.left, i), ClientInterface(i + 1, 0), i, r, Client(i + 1), 0, d);
  }

  /** And the two about server k. */
  lemma ServerEntries(links: seq<Link>, u: Setup, k: nat)
    requires Matches(links, u) && u.ns <= 1 && u.nc <= 255 && k <= u.nc
    ensures NamesPeer(links, u, Server(k), RouterIpToServerSwitch(u.right, k), RouterInterfaceToServer(u.nc, k))
    ensures NamesPeer(links, u, Router, ServerIp(u.right, k), ServerInterface(k, 0))
  {
    hide Address, ParseIp, IsPrefix, Holds, SameLan, Extended, C2r, R2s, Unique, NamesPeer, Dec, ClientName, ServerName, RouterName;
    LinkAddresses(u, k);
    RouterPortOf(links, k);
    TenText();
    AddressParses(u.right, u.ra, u.rb, k, 1);
    AddressParses(u.right, u.ra, u.rb, k, 2);
    var s, r := Ip(u.ra, u.rb, k, 1), Ip(u.ra, u.rb, k, 2);
    PeerNamed(links, u, Server(k), RouterIpToServerSwitch(u.right, k), RouterInterfaceToServer(u.nc, k), 0, s, Router, u.nc + k, r);
    PeerNamed(links, u, Router, ServerIp(u.right, k), ServerInterface(k, 0), u.nc + k, r, Server(k), 0, s);
  }

  // ------------------------------------------------------------ the entries of each log

  lemma EntriesAppend(links: seq<Link>, u: Setup, h: Host, a: Log, b: Log)
    requires EntriesNamePeers(links, u, h, a) && EntriesNamePeers(links, u, h, b)
    ensures EntriesNamePeers(links, u, h, a + b)
  {
    hide NamesPeer;
  }

  lemma {:induction false} NoEntries(links: seq<Link>, u: Setup, h: Host, node: string, prefix: string, host: string, n: nat)
    ensures EntriesNamePeers(links, u, h, Ups(node, prefix, host, n)) && EntriesNamePeers(links, u, h, Tables(node, prefix, n))
    decreases n
  {
    hide NamesPeer, IfName, Address;
    if n > 0 {
      NoEntries(links, u, h, node, prefix, host, n - 1);
    }
  }

  lemma {:induction false} ArpEntries(links: seq<Link>, u: Setup, h: Host, prefix: string, host: string, node: string, n: nat)
    requires forall i: nat :: i < n ==> NamesPeer(links, u, h, Address(prefix, i, host), IfName(End(node, i)))
    ensures EntriesNamePeers(links, u, h, Arps(prefix, host, node, n))
    decreases n
  {
    hide NamesPeer, IfName, Address;
    if n > 0 {
      ArpEntries(links, u, h, prefix, host, node, n - 1);
    }
  }

  lemma FirstClientEntries(links: seq<Link>, u: Setup)
    requires Matches(links, u) && u.ns <= 1 && u.nc <= 255
    ensures EntriesNamePeers(links, u, Client(0), LogOf(u, Client(0)))
  {
    hide NamesPeer, Address, C2r, R2s, Unique, IsPrefix, ClientName, RouterName, ServerName, EntriesNamePeers, Tables, Ups, Arps;
    NoEntries(links, u, Client(0), ClientName(0), u.left, "1", u.nc);
    forall i: nat | i < u.nc
      ensures NamesPeer(links, u, Client(0), Address(u.left, i, "2"), IfName(End(RouterName(0), i)))
    {
      LinkEntries(links, u, i);
    }
    ArpEntries(links, u, Client(0), u.left, "2", RouterName(0), u.nc);
    var ups, arps, tables := Ups(ClientName(0), u.left, "1", u.nc), Arps(u.left, "2", RouterName(0), u.nc), Tables(ClientName(0), u.left, u.nc);
    var last := [GlobalDefault(RouterIpToClientSwitch(u.left, 0), ClientInterface(0, 0))];
    OneQuiet(links, u, Client(0), last[0]);
    EntriesAppend(links, u, Client(0), ups, arps);
    EntriesAppend(links, u, Client(0), tables, last);
    EntriesAppend(links, u, Client(0), ups + arps, tables + last);
  }

  lemma OneQuiet(links: seq<Link>, u: Setup, h: Host, c: Command)
    requires !c.Arp?
    ensures EntriesNamePeers(links, u, h, [c])
  {
  }

  lemma CongestionClientEntries(links: seq<Link>, u: Setup, i: nat)
    requires Matches(links, u) && u.ns <= 1 && u.nc <= 255 && i < u.nc
    ensures EntriesNamePeers(links, u, Client(i + 1), LogOf(u, Client(i + 1)))
  {
    hide NamesPeer, Address, C2r, R2s, Unique, IsPrefix, ClientInterface, RouterInterfaceToClient;
    LinkEntries(links, u, i);
    assert |LogOf(u, Client(i + 1))| == 3;
  }

  lemma FurtherServerEntries(links: seq<Link>, u: Setup, k: nat)
    requires Matches(links, u) && u.ns <= 1 && u.nc <= 255 && 0 < k <= u.nc
    ensures EntriesNamePeers(links, u, Server(k), LogOf(u, Server(k)))
  {
    hide NamesPeer, Address, C2r, R2s, Unique, IsPrefix, ServerInterface, RouterInterfaceToServer;
    ServerEntries(links, u, k);
    assert |LogOf(u, Server(k))| == 3;
  }

  lemma FirstServerEntries(links: seq<Link>, u: Setup)
    requires Matches(links, u) && u.ns <= 1 && u.nc <= 255
    ensures EntriesNamePeers(links, u, Server(0), LogOf(u, Server(0)))
  {
    hide NamesPeer, Address, C2r, R2s, Unique, IsPrefix, ServerInterface, RouterInterfaceToServer, Tables, ServerName, IfName;
    ServerEntries(links, u, 0);
    NoEntries(links, u, Server(0), ServerName(0), u.right, "1", u.ns);
    var near := ServerNearOne(u.right, u.nc, 0) + FurtherServer(u.right, u.nc, 0);
    var tables := Tables(ServerName(0), u.right, u.ns);
    var last := [SimpleDefault(RouterIpToServerSwitch(u.right, 0)), SimpleDefault(RouterIpToServerSwitch(u.right, 0))];
    assert ServerNear(u.right, u.nc, 0) == [] && [] + ServerNearOne(u.right, u.nc, 0) == ServerNearOne(u.right, u.nc, 0);
    assert LogOf(u, Server(0)) == near + (tables + last);
    assert EntriesNamePeers(links, u, Server(0), near);
    assert EntriesNamePeers(links, u, Server(0), last);
    EntriesAppend(links, u, Server(0), tables, last);
    EntriesAppend(links, u, Server(0), near, tables + last);
  }

  lemma {:induction false} RouterClientEntries(links: seq<Link>, u: Setup, n: nat)
    requires Matches(links, u) && u.ns <= 1 && u.nc <= 255 && n <= u.nc
    ensures EntriesNamePeers(links, u, Router, RouterClients(u.left, n))
    decreases n
  {
    hide NamesPeer, Matches, ClientInterface, CongestionClientIp;
    if n > 0 {
      RouterClientEntries(links, u, n - 1);
      LinkEntries(links, u, n - 1);
    }
  }

  lemma {:induction false} RouterServerEntries(links: seq<Link>, u: Setup, n: nat)
    requires Matches(links, u) && u.ns <= 1 && u.nc <= 255 && n <= u.nc + 1
    ensures EntriesNamePeers(links, u, Router, RouterServers(u.right, u.nc, n))
    decreases n
  {
    hide NamesPeer, Matches, ServerInterface, ServerIp, RouterInterfaceToServer;
    if n > 0 {
      RouterServerEntries(links, u, n - 1);
      ServerEntries(links, u, n - 1);
    }
  }

  lemma RouterEntries(links: seq<Link>, u: Setup)
    requires Matches(links, u) && u.ns <= 1 && u.nc <= 255
    ensures EntriesNamePeers(links, u, Router, LogOf(u, Router))
  {
    hide NamesPeer, Address, C2r, R2s, Unique, IsPrefix, ClientName, RouterName, ServerInterface, RouterInterfaceToServer,
         EntriesNamePeers, Ups, Arps, RouterClients, RouterServers;
    forall i: nat | i < u.nc
      ensures NamesPeer(links, u, Router, Address(u.left, i, "1"), IfName(End(ClientName(0), i)))
    {
      LinkEntries(links, u, i);
    }
    ArpEntries(links, u, Router, u.left, "1", ClientName(0), u.nc);
    NoEntries(links, u, Router, RouterName(0), u.left, "2", u.nc);
    ServerEntries(links, u, 0);
    RouterClientEntries(links, u, u.nc);
    RouterServerEntries(links, u, u.nc + 1);
    var arps, ups, far := Arps(u.left, "1", ClientName(0), u.nc), Ups(RouterName(0), u.left, "2", u.nc), RouterFar(u.right, u.nc, 1);
    FarEntry(links, u);
    EntriesAppend(links, u, Router, arps, ups);
    EntriesAppend(links, u, Router, arps + ups, far);
    EntriesAppend(links, u, Router, arps + ups + far, RouterClients(u.left, u.nc));
    EntriesAppend(links, u, Router, arps + ups + far + RouterClients(u.left, u.nc), RouterServers(u.right, u.nc, u.nc + 1));
  }

  lemma FarEntry(links: seq<Link>, u: Setup)
    requires NamesPeer(links, u, Router, ServerIp(u.right, 0), ServerInterface(0, 0))
    ensures EntriesNamePeers(links, u, Router, RouterFar(u.right, u.nc, 1))
  {
    hide NamesPeer, ServerInterface, ServerIp, RouterInterfaceToServer;
    assert RouterFar(u.right, u.nc, 0) == [];
    assert [] + RouterFarOne(u.right, u.nc, 0) == RouterFarOne(u.right, u.nc, 0);
  }

  /** With two links or more to the server, server 1's entry for the router does not name its peer. */
  lemma ServerOneEntryFails(links: seq<Link>, u: Setup)
    requires Matches(links, u) && u.ns >= 2
    ensures !NamesPeer(links, u, Server(1), RouterIpToServerSwitch(u.right, 1), RouterInterfaceToServer(u.nc, 1))
  {
    hide Address, ParseIp, IsPrefix, Holds, SameLan, Extended, C2r, R2s, Unique, ClientName, ServerName, RouterName;
    FormulaMisses(links);
    forall q: nat, y: Ip, t: Host, p: nat, x: Ip
      | RouterInterfaceToServer(u.nc, 1) == IfName(End(t.Name(), p)) && PeerAt(links, u, Server(1), q, y, t, p, x)
      ensures false
    {
      IfNameInjective(End(RouterName(0), u.nc + 1), End(t.Name(), p));
    }
  }

  /** With 256 links or more, server 256 is given no address that fits. */
  lemma LateEntryFails(links: seq<Link>, u: Setup)
    requires Matches(links, u) && u.nc > 255
    ensures !NamesPeer(links, u, Server(256), RouterIpToServerSwitch(u.right, 256), RouterInterfaceToServer(u.nc, 256))
  {
    hide Address, ParseIp, IsPrefix, Holds, SameLan, Extended, C2r, R2s, Unique, RouterInterfaceToServer, Dec;
    TenText();
    AddressParses(u.right, u.ra, u.rb, 256, 2);
  }

  /** For all numbers of links: every static ARP entry on every host names the interface that has the address, on a
      LAN with a port of the host in the same network, exactly when there is at most one link between router and
      server and at most 255 between client and router. */
  lemma ArpEntriesNamePeers(links: seq<Link>, u: Setup)
    requires Matches(links, u)
    ensures (forall h: Host :: h.Exists(u.nc) ==> EntriesNamePeers(links, u, h, LogOf(u, h))) <==> u.ns <= 1 && u.nc <= 255
  {
    hide NamesPeer, C2r, R2s, Unique, IsPrefix, EntriesNamePeers, LogOf;
    if u.ns <= 1 && u.nc <= 255 {
      forall h: Host | h.Exists(u.nc)
        ensures EntriesNamePeers(links, u, h, LogOf(u, h))
      {
        match h
        case Client(i) => if i == 0 { FirstClientEntries(links, u); } else { CongestionClientEntries(links, u, i - 1); }
        case Server(k) => if k == 0 { FirstServerEntries(links, u); } else { FurtherServerEntries(links, u, k); }
        case Router => RouterEntries(links, u);
      }
    } else {
      var k := if u.ns >= 2 then 1 else 256;
      if u.ns >= 2 {
        ServerOneEntryFails(links, u);
      } else {
        LateEntryFails(links, u);
      }
      EntryOfServer(links, u, k);
      assert Server(k).Exists(u.nc);
    }
  }

  lemma EntryOfServer(links: seq<Link>, u: Setup, k: nat)
    requires k > 0 && !NamesPeer(links, u, Server(k), RouterIpToServerSwitch(u.right, k), RouterInterfaceToServer(u.nc, k))
    ensures !EntriesNamePeers(links, u, Server(k), LogOf(u, Server(k)))
  {
    hide NamesPeer, Address, ServerInterface, RouterInterfaceToServer;
    assert LogOf(u, Server(k))[0] == Arp(RouterIpToServerSwitch(u.right, k), RouterInterfaceToServer(u.nc, k));
  }
}
