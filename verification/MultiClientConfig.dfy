/** Configuration of the multi-client extension: ports by formula, addresses, and static ARP entries. */
module MultiClientConfig {
  import opened Routing
  import opened TopoBuilder
  import opened MultiInterface
  import opened Wiring
  import opened InterfaceNaming
  import opened MultiInterfaceConfig
  import opened MultiClientTopo

  // ------------------------------------------------------------ the logs

  function CongestionClientIp(left: string, i: nat): string {
    Address(left, i, "10")
  }

  function CongestionClient(left: string, i: nat): Log {
    [IfUp(ClientInterface(i + 1, 0), CongestionClientIp(left, i)), Arp(RouterIpToClientSwitch(left, i), RouterInterfaceToClient(i))]
  }

  function CongestionClientRouting(left: string, i: nat): Log {
    [GlobalDefault(RouterIpToClientSwitch(left, i), ClientInterface(i + 1, 0))]
  }

  function FurtherServer(right: string, nc: nat, k: nat): Log {
    [Arp(RouterIpToServerSwitch(right, k), RouterInterfaceToServer(nc, k)), IfUp(ServerInterface(k, 0), ServerIp(right, k))]
  }

  function FurtherServerRouting(right: string, k: nat): Log {
    [SimpleDefault(RouterIpToServerSwitch(right, k))]
  }

  /** The router's entries for the first n congestion clients. */
  function RouterClients(left: string, n: nat): Log {
    if n == 0 then [] else RouterClients(left, n - 1) + [Arp(CongestionClientIp(left, n - 1), ClientInterface(n, 0))]
  }

  function RouterServer(right: string, nc: nat, k: nat): Log {
    [IfUp(RouterInterfaceToServer(nc, k), RouterIpToServerSwitch(right, k)), Arp(ServerIp(right, k), ServerInterface(k, 0))]
  }

  /** The router's interfaces and entries for the first n servers. */
  function RouterServers(right: string, nc: nat, n: nat): Log {
    if n == 0 then [] else RouterServers(right, nc, n - 1) + RouterServer(right, nc, n - 1)
  }

  /** The commands that every host gets, those of the base configuration first within each phase. */
  function ClientLog(left: string, nc: nat, i: nat): Log {
    if i == 0 then ClientInterfaces(left, nc) + ClientRouting(left, nc)
    else CongestionClient(left, i - 1) + CongestionClientRouting(left, i - 1)
  }

  function ServerLog(right: string, nc: nat, ns: nat, k: nat): Log {
    if k == 0 then
      ServerInterfaces(right, nc, ns) + FurtherServer(right, nc, 0) + ServerRouting(right, ns) + FurtherServerRouting(right, 0)
    else FurtherServer(right, nc, k) + FurtherServerRouting(right, k)
  }

  function RouterLog(left: string, right: string, nc: nat, ns: nat): Log {
    RouterInterfaces(left, right, nc, ns) + RouterClients(left, nc) + RouterServers(right, nc, nc + 1)
  }

  class MultiInterfaceMultiClientConfig {
    const left: string
    const right: string
    const nc: nat
    const ns: nat
    var clients: seq<Log>
    var servers: seq<Log>
    var router: Log

    constructor (left: string, right: string, nc: nat, ns: nat)
      ensures this.left == left && this.right == right && this.nc == nc && this.ns == ns
      ensures clients == Silent(nc + 1) && servers == Silent(nc + 1) && router == []
    {
      this.left, this.right, this.nc, this.ns := left, right, nc, ns;
      clients, servers, router := Silent(nc + 1), Silent(nc + 1), [];
    }

    /** Hosts without commands. */
    static function Silent(n: nat): (logs: seq<Log>)
      ensures |logs| == n && forall i :: 0 <= i < n ==> logs[i] == []
    {
      seq(n, _ => [])
    }

    method ConfigureInterfaces()
      requires clients == Silent(nc + 1) && servers == Silent(nc + 1) && router == []
      modifies this
      ensures |clients| == nc + 1 && |servers| == nc + 1
      ensures forall i: nat :: i <= nc ==> clients[i] == if i == 0 then ClientInterfaces(left, nc) else CongestionClient(left, i - 1)
      ensures forall k: nat :: k <= nc ==>
                servers[k] == (if k == 0 then ServerInterfaces(right, nc, ns) else []) + FurtherServer(right, nc, k)
      ensures router == RouterLog(left, right, nc, ns)
    {
      hide ClientInterfaces, RouterInterfaces, ServerInterfaces, CongestionClient, FurtherServer, RouterServer, ClientInterface,
           CongestionClientIp;
      var base := new MultiInterfaceConfig(left, right, nc, ns);
      base.ConfigureInterfaces();
      assert base.client == ClientInterfaces(left, nc) && base.server == ServerInterfaces(right, nc, ns)
             && base.router == RouterInterfaces(left, right, nc, ns);
      clients := clients[0 := base.client];
      servers := servers[0 := base.server];
      router := base.router;
      ghost var half := router;
      for i := 0 to nc
        invariant |clients| == nc + 1 && servers == Silent(nc + 1)[0 := ServerInterfaces(right, nc, ns)]
        invariant clients[0] == ClientInterfaces(left, nc)
        invariant forall k: nat :: 1 <= k <= nc ==> clients[k] == if k <= i then CongestionClient(left, k - 1) else []
        invariant router == half + RouterClients(left, i)
      {
        AddClient(i);
      }
      ghost var more := router;
      for k := 0 to nc + 1
        invariant |clients| == nc + 1 && |servers| == nc + 1
        invariant forall i: nat :: i <= nc ==> clients[i] == if i == 0 then ClientInterfaces(left, nc) else CongestionClient(left, i - 1)
        invariant forall j: nat :: j <= nc ==>
                    servers[j] == (if j == 0 then ServerInterfaces(right, nc, ns) else [])
                                  + if j < k then FurtherServer(right, nc, j) else []
        invariant router == more + RouterServers(right, nc, k)
      {
        AddServer(k);
      }
    }

    method AddClient(i: nat)
      requires i + 1 < |clients| && clients[i + 1] == []
      modifies this`clients, this`router
      ensures clients == old(clients)[i + 1 := CongestionClient(left, i)]
      ensures router == old(router) + [Arp(CongestionClientIp(left, i), ClientInterface(i + 1, 0))]
    {
      clients := clients[i + 1 := clients[i + 1] + [IfUp(ClientInterface(i + 1, 0), CongestionClientIp(left, i))]];
      router := router + [Arp(CongestionClientIp(left, i), ClientInterface(i + 1, 0))];
      clients := clients[i + 1 := clients[i + 1] + [Arp(RouterIpToClientSwitch(left, i), RouterInterfaceToClient(i))]];
      assert clients[i + 1] == CongestionClient(left, i);
    }

    method AddServer(k: nat)
      requires k < |servers|
      modifies this`servers, this`router
      ensures servers == old(servers)[k := old(servers)[k] + FurtherServer(right, nc, k)]
      ensures router == old(router) + RouterServer(right, nc, k)
    {
      router := router + [IfUp(RouterInterfaceToServer(nc, k), RouterIpToServerSwitch(right, k))];
      servers := servers[k := servers[k] + [Arp(RouterIpToServerSwitch(right, k), RouterInterfaceToServer(nc, k))]];
      servers := servers[k := servers[k] + [IfUp(ServerInterface(k, 0), ServerIp(right, k))]];
      router := router + [Arp(ServerIp(right, k), ServerInterface(k, 0))];
      assert servers[k] == old(servers)[k] + FurtherServer(right, nc, k);
    }

    method ConfigureRouting()
      requires |clients| == nc + 1 && |servers| == nc + 1
      modifies this`clients, this`servers
      ensures |clients| == nc + 1 && |servers| == nc + 1
      ensures forall i: nat :: i <= nc ==>
                clients[i] == old(clients)[i] + if i == 0 then ClientRouting(left, nc) else CongestionClientRouting(left, i - 1)
      ensures forall k: nat :: k <= nc ==>
                servers[k] == old(servers)[k] + (if k == 0 then ServerRouting(right, ns) else []) + FurtherServerRouting(right, k)
    {
      hide ClientRouting, ServerRouting, CongestionClientRouting, FurtherServerRouting;
      var base := new MultiInterfaceConfig(left, right, nc, ns);
      base.ConfigureRouting();
      assert base.client == ClientRouting(left, nc) && base.server == ServerRouting(right, ns);
      ghost var cs, ss := clients, servers;
      clients := clients[0 := clients[0] + base.client];
      servers := servers[0 := servers[0] + base.server];
      for i := 0 to nc
        invariant |clients| == nc + 1 && servers == ss[0 := ss[0] + ServerRouting(right, ns)]
        invariant clients[0] == cs[0] + ClientRouting(left, nc)
        invariant forall k: nat :: 1 <= k <= nc ==> clients[k] == if k <= i then cs[k] + CongestionClientRouting(left, k - 1) else cs[k]
      {
        RouteClient(i);
      }
      for k := 0 to nc + 1
        invariant |clients| == nc + 1 && |servers| == nc + 1
        invariant forall i: nat :: i <= nc ==>
                    clients[i] == cs[i] + if i == 0 then ClientRouting(left, nc) else CongestionClientRouting(left, i - 1)
        invariant forall j: nat :: j <= nc ==>
                    servers[j] == ss[j] + (if j == 0 then ServerRouting(right, ns) else [])
                                  + if j < k then FurtherServerRouting(right, j) else []
      {
        RouteServer(k);
      }
    }

    method RouteClient(i: nat)
      requires i + 1 < |clients|
      modifies this`clients
      ensures clients == old(clients)[i + 1 := old(clients)[i + 1] + CongestionClientRouting(left, i)]
    {
      clients := clients[i + 1 := clients[i + 1] + [GlobalDefault(RouterIpToClientSwitch(left, i), ClientInterface(i + 1, 0))]];
    }

    method RouteServer(k: nat)
      requires k < |servers|
      modifies this`servers
      ensures servers == old(servers)[k := old(servers)[k] + FurtherServerRouting(right, k)]
    {
      servers := servers[k := servers[k] + [SimpleDefault(RouterIpToServerSwitch(right, k))]];
    }

    /** Both phases, as `configure_network` runs them. */
    method Configure()
      requires clients == Silent(nc + 1) && servers == Silent(nc + 1) && router == []
      modifies this
      ensures |clients| == nc + 1 && |servers| == nc + 1 && router == RouterLog(left, right, nc, ns)
      ensures forall i: nat :: i <= nc ==> clients[i] == ClientLog(left, nc, i)
      ensures forall k: nat :: k <= nc ==> servers[k] == ServerLog(right, nc, ns, k)
    {
      hide ClientInterfaces, ServerInterfaces, CongestionClient, FurtherServer, ClientRouting, ServerRouting,
           CongestionClientRouting, FurtherServerRouting, RouterLog;
      ConfigureInterfaces();
      ConfigureRouting();
    }
  }

  // ------------------------------------------------------------ the router port of server k

  /** The configuration's router port for server k is the one that server is joined to, for every server, exactly
      when the base topology has at most one link between router and server. */
  lemma PortFormula(links: seq<Link>)
    requires Unique(links) && |C2r(links)| > 0
    ensures (forall k: nat | k <= |C2r(links)| :: SameLan(Extended(links), End(RouterName(0), |C2r(links)| + k), End(ServerName(k), 0)))
            <==> |R2s(links)| <= 1
  {
    hide BsName, ClientName, ServerName, RouterName, C2r, R2s, SameLan, Extended, Unique, OwnSome, HostEnd;
    var nc := |C2r(links)|;
    if |R2s(links)| <= 1 {
      forall k: nat | k <= nc
        ensures SameLan(Extended(links), End(RouterName(0), nc + k), End(ServerName(k), 0))
      {
        RouterPortOf(links, k);
      }
    } else {
      FormulaMisses(links);
    }
  }

  lemma HostsAreHostEnds(links: seq<Link>, i: nat, port: nat)
    ensures HostEnd(links, End(ClientName(i), port)) && HostEnd(links, End(ServerName(i), port))
    ensures HostEnd(links, End(RouterName(0), port))
  {
    hide ClientName, ServerName, RouterName, OwnSome, Built;
    HostsAreNotOwn(links, i);
    HostsAreNotOwn(links, 0);
  }

  lemma RouterPortOf(links: seq<Link>, k: nat)
    requires Unique(links) && |R2s(links)| <= 1 && k <= |C2r(links)|
    ensures SameLan(Extended(links), End(RouterName(0), |C2r(links)| + k), End(ServerName(k), 0))
    ensures SameLan(Extended(links), End(ServerName(k), 0), End(RouterName(0), |C2r(links)| + k))
  {
    hide BsName, ClientName, ServerName, RouterName, C2r, R2s, SameLan, Extended, Unique, OwnSome, HostEnd;
    var nc := |C2r(links)|;
    var a, b := End(RouterName(0), nc + k), End(ServerName(k), 0);
    HostsAreHostEnds(links, k, 0);
    HostsAreHostEnds(links, k, nc + k);
    ExtendedLans(links, a, b);
    ExtendedLans(links, b, a);
    if k > 0 {
      assert Joined(links, a, b);
    } else if R2s(links) != [] {
      assert AtLink(links, nc, a) && AtLink(links, nc, b);
    }
  }

  /** With two links or more, server 1 is not on the LAN of the port computed for it. */
  lemma FormulaMisses(links: seq<Link>)
    requires Unique(links) && |R2s(links)| >= 2 && |C2r(links)| > 0
    ensures forall port: nat :: !SameLan(Extended(links), End(ServerName(1), port), End(RouterName(0), |C2r(links)| + 1))
    ensures !SameLan(Extended(links), End(RouterName(0), |C2r(links)| + 1), End(ServerName(1), 0))
  {
    hide BsName, ClientName, ServerName, RouterName, C2r, R2s, SameLan, Extended, Unique, OwnSome, HostEnd, Built;
    var a := End(RouterName(0), |C2r(links)| + 1);
    forall port: nat
      ensures !SameLan(Extended(links), End(ServerName(1), port), a) && !SameLan(Extended(links), a, End(ServerName(1), port))
    {
      var b := End(ServerName(1), port);
      HostsAreHostEnds(links, 1, port);
      HostsAreHostEnds(links, 1, |C2r(links)| + 1);
      ExtendedLans(links, b, a);
      ExtendedLans(links, a, b);
      ServerOneElsewhere(links, port);
    }
  }

  lemma ServerOneElsewhere(links: seq<Link>, port: nat)
    requires |R2s(links)| >= 2
    ensures var a, b := End(RouterName(0), |C2r(links)| + 1), End(ServerName(1), port);
            && !Direct(links, a, b) && !Direct(links, b, a) && !Joined(links, a, b) && !Joined(links, b, a)
            && forall g: nat :: !AtLink(links, g, b)
  {
    hide BsName, ClientName, ServerName, RouterName, C2r, R2s;
    var a, b := End(RouterName(0), |C2r(links)| + 1), End(ServerName(1), port);
    HostNamesDiffer(1, 0);
    HostNamesDiffer(0, 1);
    forall k: nat
      ensures ServerName(k) != RouterName(0) && (k != 1 ==> ServerName(k) != ServerName(1)) && ClientName(k) != ServerName(1)
    {
      HostNamesDiffer(k, 0);
      HostNamesDiffer(k, 1);
    }
  }
}
