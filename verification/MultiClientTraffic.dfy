/** Traffic of the multi-client extension: every client on the LAN of link i uses link i to every server. */
module MultiClientTraffic {
  import opened Text
  import opened Routing
  import opened TopoBuilder
  import opened MultiInterface
  import opened Wiring
  import opened InterfaceNaming
  import opened MultiInterfaceConfig
  import opened PathSeparation
  import opened MultiClientTopo
  import opened MultiClientConfig
  import opened MultiClientAddresses

  /** A packet at host h leaves through port p and arrives at port q of host t. */
  ghost predicate Passes(links: seq<Link>, u: Setup, src: Ip, dst: Ip, h: Host, p: nat, t: Host, q: nat) {
    && h != t && SameLan(Extended(links), End(h.Name(), p), End(t.Name(), q))
    && match Lookup(LogOf(u, h), src, dst)
       case None => false
       case Some(hop) => hop.dev == IfName(End(h.Name(), p)) && Holds(u, t, q, hop.next)
  }

  // ------------------------------------------------------------ hosts with one interface

  /** A host with a single address and its default route through it. */
  ghost predicate OneWayOut(log: Log, ifname: string, own: Ip, gateway: Ip) {
    && Addresses(log) == [(ifname, own)] && Rules(log) == []
    && forall t: nat :: Table(log, t) == if t == MAIN then [Default(gateway, ifname)] else []
  }

  lemma OneWayLookup(log: Log, ifname: string, own: Ip, gateway: Ip, src: Ip, dst: Ip)
    requires OneWayOut(log, ifname, own, gateway) && !SameNet(own, dst)
    ensures Lookup(log, src, dst) == Some(Hop(ifname, gateway))
  {
    hide Addresses, Rules, Table;
    assert [(ifname, own)][1..] == [];
    assert ConnectedDev([(ifname, own)], dst).None?;
    OnlyGateway(Default(gateway, ifname), dst);
  }

  /** An interface brought up in a network, an entry, and a default route through the network's gateway. */
  lemma DefaultOfOne(log: Log, ifname: string, own: Ip, gateway: Ip, c: Command)
    requires NoRouting(log) && Addresses(log) == [(ifname, own)] && SameNet(own, gateway)
    requires c.SimpleDefault? || (c.GlobalDefault? && c.ifname == ifname)
    requires ParseIp(c.via) == Some(gateway)
    ensures OneWayOut(log + [c], ifname, own, gateway)
  {
    hide Addresses, Rules, Table, ParseIp, NoRouting;
    AddressesNext(log, c);
    RulesNext(log, c);
    assert ConnectedDev([(ifname, own)], gateway) == Some(ifname);
    NoRoutingIsEmpty(log, MAIN);
    forall t: nat
      ensures Table(log + [c], t) == if t == MAIN then [Default(gateway, ifname)] else []
    {
      NoRoutingIsEmpty(log, t);
      TableNext(log, c, t);
      assert [] + [Default(gateway, ifname)] == [Default(gateway, ifname)];
    }
  }

  lemma CongestionClientOut(u: Setup, i: nat)
    requires u.Valid() && i < 256
    ensures OneWayOut(LogOf(u, Client(i + 1)), IfName(End(ClientName(i + 1), 0)), Ip(u.la, u.lb, i, 10), Ip(u.la, u.lb, i, 2))
  {
    hide IfName, Address, Addresses, Dec, IsPrefix, ClientName, RouterInterfaceToClient, ParseIp, OneWayOut;
    var log := LogOf(u, Client(i + 1));
    var front := CongestionClient(u.left, i);
    CongestionClientHolds(u, i);
    InterfaceIs(i + 1);
    TenText();
    AddressParses(u.left, u.la, u.lb, i, 2);
    assert log == front + [log[2]];
    AddressesNext(front, log[2]);
    DefaultOfOne(front, IfName(End(ClientName(i + 1), 0)), Ip(u.la, u.lb, i, 10), Ip(u.la, u.lb, i, 2), log[2]);
  }

  lemma FurtherServerOut(u: Setup, k: nat)
    requires u.Valid() && 0 < k < 256
    ensures OneWayOut(LogOf(u, Server(k)), IfName(End(ServerName(k), 0)), Ip(u.ra, u.rb, k, 1), Ip(u.ra, u.rb, k, 2))
  {
    hide IfName, Address, Addresses, Dec, IsPrefix, ServerName, RouterInterfaceToServer, ParseIp, OneWayOut;
    var log := LogOf(u, Server(k));
    var front := FurtherServer(u.right, u.nc, k);
    FurtherServerHolds(u, k);
    InterfaceIs(k);
    TenText();
    AddressParses(u.right, u.ra, u.rb, k, 2);
    assert log == front + [log[2]];
    AddressesNext(front, log[2]);
    DefaultOfOne(front, IfName(End(ServerName(k), 0)), Ip(u.ra, u.rb, k, 1), Ip(u.ra, u.rb, k, 2), log[2]);
  }

  // ------------------------------------------------------------ server 0

  /** A second default route is refused. */
  lemma SecondDefault(log: Log, node: string, a: nat, b: nat, n: nat, k: nat, via: string)
    requires EndHost(log, node, a, b, n, k)
    ensures EndHost(log + [SimpleDefault(via)], node, a, b, n, k)
  {
    hide IfName, Addresses, Rules, Table, ParseIp, Held, RulesOf;
    var c := SimpleDefault(via);
    AddressesNext(log, c);
    RulesNext(log, c);
    forall t: nat | t != MAIN
      ensures Table(log + [c], t) == TableOf(node, a, b, k, t)
    {
      TableNext(log, c, t);
    }
    TableNext(log, c, MAIN);
    var gateway := Table(log, MAIN)[0];
    assert Table(log, MAIN) == [gateway];
    OnlyGateway(gateway, Ip(0, 0, 0, 0));
  }

  lemma FirstServerIsEndHost(u: Setup)
    requires u.Valid() && u.ns <= 1
    ensures EndHost(LogOf(u, Server(0)), ServerName(0), u.ra, u.rb, 1, u.ns)
  {
    hide IfName, Address, Addresses, Table, Rules, IsPrefix, Held, ServerName, NoRouting, Tables, EndHost, ServerNear, NoneUp,
         TableOf, RulesOf, Dec, FurtherServer, ServerLog;
    var front := ServerInterfaces(u.right, u.nc, u.ns) + FurtherServer(u.right, u.nc, 0);
    FirstServerFront(u);
    var log := front + Tables(ServerName(0), u.right, u.ns);
    forall t: nat
      ensures Table(log, t) == TableOf(ServerName(0), u.ra, u.rb, u.ns, t)
    {
      TablesHold(front, ServerName(0), u.right, u.ra, u.rb, 1, u.ns, t);
    }
    TablesHold(front, ServerName(0), u.right, u.ra, u.rb, 1, u.ns, 0);
    var c := SimpleDefault(RouterIpToServerSwitch(u.right, 0));
    LastDefault(log, ServerName(0), u.right, u.ra, u.rb, 1, u.ns, c);
    SecondDefault(log + [c], ServerName(0), u.ra, u.rb, 1, u.ns, RouterIpToServerSwitch(u.right, 0));
    FirstServerLog(u);
    assert LogOf(u, Server(0)) == log + [c] + [c];
  }

  lemma FirstServerLog(u: Setup)
    ensures LogOf(u, Server(0)) == ServerInterfaces(u.right, u.nc, u.ns) + FurtherServer(u.right, u.nc, 0)
                                   + (Tables(ServerName(0), u.right, u.ns) + [SimpleDefault(RouterIpToServerSwitch(u.right, 0))])
                                   + [SimpleDefault(RouterIpToServerSwitch(u.right, 0))]
  {
    hide Address, Tables, ServerInterfaces, FurtherServer;
  }

  /** Its interface commands leave it one address. */
  lemma FirstServerFront(u: Setup)
    requires u.Valid() && u.ns <= 1
    ensures var front := ServerInterfaces(u.right, u.nc, u.ns) + FurtherServer(u.right, u.nc, 0);
            NoRouting(front) && Addresses(front) == Held(ServerName(0), 0, u.ra, u.rb, 1, 1)
  {
    hide IfName, Address, Addresses, IsPrefix, ServerName, RouterInterfaceToServer, ServerNear, Dec, Tables, ServerInterface, LogOf;
    var front := ServerInterfaces(u.right, u.nc, u.ns) + FurtherServer(u.right, u.nc, 0);
    InterfaceLogs(ServerName(0), u.right, "1", u.nc, 1);
    FirstServerAlone(u);
    FirstServerLog(u);
    TablesQuiet(ServerName(0), u.right, u.ns);
    var c := SimpleDefault(RouterIpToServerSwitch(u.right, 0));
    var rest := Tables(ServerName(0), u.right, u.ns) + [c] + [c];
    QuietKeeps(front, rest);
    assert LogOf(u, Server(0)) == front + rest;
    assert Held(ServerName(0), 0, u.ra, u.rb, 1, 1) == [(IfName(End(ServerName(0), 0)), Ip(u.ra, u.rb, 0, 1))];
  }

  // ------------------------------------------------------------ the router

  lemma {:induction false} FurtherLogs(u: Setup, n: nat)
    ensures NoRouting(RouterClients(u.left, n)) && NoRouting(RouterServers(u.right, u.nc, n))
    decreases n
  {
    hide Address, ClientInterface, RouterInterfaceToServer, ServerInterface, CongestionClientIp;
    if n > 0 {
      FurtherLogs(u, n - 1);
    }
  }

  lemma RouterOnlyConnected(u: Setup)
    requires u.Valid() && u.ns <= 1
    ensures NoRouting(LogOf(u, Router)) && Addresses(LogOf(u, Router)) == RouterHolds(u.la, u.lb, u.ra, u.rb, u.nc, u.nc + 1)
  {
    hide IfName, Addresses, IsPrefix, NoRouting, RouterInterfaces, RouterClients, RouterServers, Held;
    RouterHoldsAll(u);
    RouterAddresses(u.left, u.right, u.la, u.lb, u.ra, u.rb, u.nc, u.ns);
    FurtherLogs(u, u.nc);
    FurtherLogs(u, u.nc + 1);
    NoRoutingAppend(RouterInterfaces(u.left, u.right, u.nc, u.ns), RouterClients(u.left, u.nc));
    NoRoutingAppend(RouterInterfaces(u.left, u.right, u.nc, u.ns) + RouterClients(u.left, u.nc), RouterServers(u.right, u.nc, u.nc + 1));
  }

  // ------------------------------------------------------------ the flows

  /** The two clients on link i, with port and host number. */
  function ClientOn(i: nat, congestion: bool): (Host, nat, nat) {
    if congestion then (Client(i + 1), 0, 10) else (Client(0), i, 1)
  }

  lemma ClientSends(u: Setup, i: nat, congestion: bool, dst: Ip)
    requires u.Valid() && u.nc <= 254 && i < u.nc && Foreign(dst, u.la, u.lb)
    ensures var (h, p, d) := ClientOn(i, congestion);
            Lookup(LogOf(u, h), Ip(u.la, u.lb, i, d), dst) == Some(Hop(IfName(End(h.Name(), p)), Ip(u.la, u.lb, i, 2)))
  {
    hide IfName, IsPrefix, Lookup, ClientName, EndHost, OneWayOut, ClientInterfaces, ClientRouting;
    if congestion {
      CongestionClientOut(u, i);
      OneWayLookup(LogOf(u, Client(i + 1)), IfName(End(ClientName(i + 1), 0)), Ip(u.la, u.lb, i, 10), Ip(u.la, u.lb, i, 2),
                   Ip(u.la, u.lb, i, 10), dst);
    } else {
      ClientIsEndHost(u.left, u.right, u.la, u.lb, u.nc, u.ns);
      SourceChoosesInterface(LogOf(u, Client(0)), ClientName(0), u.la, u.lb, u.nc, u.nc, i, dst);
    }
  }

  lemma ServerSends(u: Setup, k: nat, dst: Ip)
    requires u.Valid() && u.ns <= 1 && k < 256 && Foreign(dst, u.ra, u.rb)
    ensures Lookup(LogOf(u, Server(k)), Ip(u.ra, u.rb, k, 1), dst) == Some(Hop(IfName(End(ServerName(k), 0)), Ip(u.ra, u.rb, k, 2)))
  {
    hide IfName, IsPrefix, Lookup, ServerName, EndHost, OneWayOut, LogOf;
    if k > 0 {
      FurtherServerOut(u, k);
      OneWayLookup(LogOf(u, Server(k)), IfName(End(ServerName(k), 0)), Ip(u.ra, u.rb, k, 1), Ip(u.ra, u.rb, k, 2),
                   Ip(u.ra, u.rb, k, 1), dst);
    } else {
      FirstServerIsEndHost(u);
      SourceChoosesInterface(LogOf(u, Server(0)), ServerName(0), u.ra, u.rb, 1, u.ns, 0, dst);
    }
  }

  /** A packet from a client on link i to server k crosses link i and then the router port computed for server k, and
      its reply the same two backwards. */
  ghost predicate FlowUsesLink(links: seq<Link>, u: Setup, i: nat, k: nat, congestion: bool) {
    var (h, p, d) := ClientOn(i, congestion);
    var c, s := Ip(u.la, u.lb, i, d), Ip(u.ra, u.rb, k, 1);
    && Passes(links, u, c, s, h, p, Router, i) && Passes(links, u, c, s, Router, u.nc + k, Server(k), 0)
    && Passes(links, u, s, c, Server(k), 0, Router, u.nc + k) && Passes(links, u, s, c, Router, i, h, p)
  }

  lemma OneFlow(links: seq<Link>, u: Setup, i: nat, k: nat, congestion: bool)
    requires Matches(links, u) && u.ns <= 1 && u.nc <= 254 && i < u.nc && k <= u.nc
    ensures FlowUsesLink(links, u, i, k, congestion)
  {
    hide IfName, IsPrefix, Lookup, ClientName, ServerName, RouterName, C2r, R2s, Unique, SameLan, Extended, LogOf, Holds, Addresses,
         NoRouting;
    var (h, p, d) := ClientOn(i, congestion);
    var c, s := Ip(u.la, u.lb, i, d), Ip(u.ra, u.rb, k, 1);
    LinkLan(links, i);
    RouterPortOf(links, k);
    LinkAddresses(u, i);
    LinkAddresses(u, k);
    ClientSends(u, i, congestion, s);
    ServerSends(u, k, c);
    RouterOnlyConnected(u);
    RouterForwards(LogOf(u, Router), u.la, u.lb, u.ra, u.rb, u.nc, u.nc + 1, i, d, s);
    RouterForwards(LogOf(u, Router), u.la, u.lb, u.ra, u.rb, u.nc, u.nc + 1, k, 1, c);
  }

  /** With 255 links to the client, its first address does not use link 0. */
  lemma FirstClientStrays(links: seq<Link>, u: Setup)
    requires Matches(links, u) && u.nc > 254
    ensures !FlowUsesLink(links, u, 0, 0, false)
  {
    hide IfName, IsPrefix, Lookup, ClientName, C2r, R2s, Unique, SameLan, Extended, Holds, EndHost, ClientInterfaces, ClientRouting;
    var c, s := Ip(u.la, u.lb, 0, 1), Ip(u.ra, u.rb, 0, 1);
    ClientIsEndHost(u.left, u.right, u.la, u.lb, u.nc, u.ns);
    LocalTableCaptures(LogOf(u, Client(0)), ClientName(0), u.la, u.lb, u.nc, u.nc, c, s);
    OtherPort(ClientName(0));
  }

  /** With two links to the server, server 1 is not reached through the port computed for it. */
  lemma SecondServerMissed(links: seq<Link>, u: Setup)
    requires Matches(links, u) && u.ns >= 2
    ensures !FlowUsesLink(links, u, 0, 1, false)
  {
    hide IfName, IsPrefix, Lookup, ClientName, ServerName, RouterName, C2r, R2s, Unique, SameLan, Extended, Holds, LogOf;
    FormulaMisses(links);
  }

  /** For all numbers of links: every packet from either client on any link i to any server k, and its reply, cross
      link i and the router port computed for server k, exactly when there is at most one link between router and
      server and at most 254 between client and router. */
  lemma FlowsUseTheirLinks(links: seq<Link>, u: Setup)
    requires Matches(links, u)
    ensures (forall i: nat, k: nat, congestion: bool | i < u.nc && k <= u.nc :: FlowUsesLink(links, u, i, k, congestion))
            <==> u.ns <= 1 && u.nc <= 254
  {
    hide FlowUsesLink, Unique, IsPrefix, C2r, R2s;
    if u.ns <= 1 && u.nc <= 254 {
      forall i: nat, k: nat, congestion: bool | i < u.nc && k <= u.nc
        ensures FlowUsesLink(links, u, i, k, congestion)
      {
        OneFlow(links, u, i, k, congestion);
      }
    } else if u.ns >= 2 {
      SecondServerMissed(links, u);
    } else {
      FirstClientStrays(links, u);
    }
  }
}
