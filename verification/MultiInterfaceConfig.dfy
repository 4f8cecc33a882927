/** Addresses, interfaces and routes of the multi-interface topology, as command logs of its three hosts. */
module MultiInterfaceConfig {
  import opened Routing
  import opened TopoBuilder
  import opened MultiInterface
  import opened InterfaceNaming

  function ClientIp(left: string, i: nat): string {
    Address(left, i, "1")
  }

  function ClientSubnet(left: string, i: nat): string {
    Address(left, i, "0/24")
  }

  function RouterIpToClientSwitch(left: string, i: nat): string {
    Address(left, i, "2")
  }

  function RouterIpToServerSwitch(right: string, j: nat): string {
    Address(right, j, "2")
  }

  function ServerIp(right: string, j: nat): string {
    Address(right, j, "1")
  }

  function ServerSubnet(right: string, j: nat): string {
    Address(right, j, "0/24")
  }

  // ------------------------------------------------------------ the logs

  /** Interfaces k < n of a node, each with host number `host` in its own /24. */
  function Ups(node: string, prefix: string, host: string, n: nat): Log {
    if n == 0 then [] else Ups(node, prefix, host, n - 1) + [IfUp(IfName(End(node, n - 1)), Address(prefix, n - 1, host))]
  }

  function Arps(prefix: string, host: string, node: string, n: nat): Log {
    if n == 0 then [] else Arps(prefix, host, node, n - 1) + [Arp(Address(prefix, n - 1, host), IfName(End(node, n - 1)))]
  }

  function RouterFarOne(right: string, nc: nat, j: nat): Log {
    [Flush(RouterInterfaceToServer(nc, j)), IfUp(RouterInterfaceToServer(nc, j), RouterIpToServerSwitch(right, j)),
     Arp(ServerIp(right, j), ServerInterface(0, j))]
  }

  function RouterFar(right: string, nc: nat, m: nat): Log {
    if m == 0 then [] else RouterFar(right, nc, m - 1) + RouterFarOne(right, nc, m - 1)
  }

  function ServerNearOne(right: string, nc: nat, j: nat): Log {
    [Flush(ServerInterface(0, j)), Arp(RouterIpToServerSwitch(right, j), RouterInterfaceToServer(nc, j)),
     IfUp(ServerInterface(0, j), ServerIp(right, j))]
  }

  function ServerNear(right: string, nc: nat, m: nat): Log {
    if m == 0 then [] else ServerNear(right, nc, m - 1) + ServerNearOne(right, nc, m - 1)
  }

  /** One table for each interface of an end host. */
  function TableOne(node: string, prefix: string, k: nat): Log {
    [RuleFrom(Address(prefix, k, "1"), k + 1), LinkRoute(Address(prefix, k, "0/24"), IfName(End(node, k)), k + 1),
     TableDefault(Address(prefix, k, "2"), k + 1)]
  }

  function Tables(node: string, prefix: string, n: nat): Log {
    if n == 0 then [] else Tables(node, prefix, n - 1) + TableOne(node, prefix, n - 1)
  }

  /** At least one interface towards the server: the direct cable's, when there is no link. */
  function AtLeastOne(ns: nat): nat {
    if ns == 0 then 1 else ns
  }

  function ClientInterfaces(left: string, nc: nat): Log {
    Ups(ClientName(0), left, "1", nc) + Arps(left, "2", RouterName(0), nc)
  }

  function RouterInterfaces(left: string, right: string, nc: nat, ns: nat): Log {
    Arps(left, "1", ClientName(0), nc) + Ups(RouterName(0), left, "2", nc) + RouterFar(right, nc, AtLeastOne(ns))
  }

  function ServerInterfaces(right: string, nc: nat, ns: nat): Log {
    ServerNear(right, nc, AtLeastOne(ns))
  }

  function ClientRouting(left: string, nc: nat): Log {
    Tables(ClientName(0), left, nc) + [GlobalDefault(RouterIpToClientSwitch(left, 0), ClientInterface(0, 0))]
  }

  function ServerRouting(right: string, ns: nat): Log {
    Tables(ServerName(0), right, ns) + [SimpleDefault(RouterIpToServerSwitch(right, 0))]
  }

  class MultiInterfaceConfig {
    const left: string
    const right: string
    const nc: nat
    const ns: nat
    var client: Log
    var router: Log
    var server: Log

    constructor (left: string, right: string, nc: nat, ns: nat)
      ensures this.left == left && this.right == right && this.nc == nc && this.ns == ns
      ensures client == [] && router == [] && server == []
    {
      this.left, this.right, this.nc, this.ns := left, right, nc, ns;
      client, router, server := [], [], [];
    }

    method ConfigureInterfaces()
      modifies this
      ensures client == old(client) + ClientInterfaces(left, nc)
      ensures router == old(router) + RouterInterfaces(left, right, nc, ns)
      ensures server == old(server) + ServerInterfaces(right, nc, ns)
    {
      hide Ups, Arps, ClientName, RouterName, RouterFar, ServerNear;
      ClientSide();
      RouterSide();
      ServerSide();
    }

    /** Client interfaces, and their entries at the router. */
    method ClientSide()
      modifies this`client, this`router
      ensures client == old(client) + Ups(ClientName(0), left, "1", nc)
      ensures router == old(router) + Arps(left, "1", ClientName(0), nc)
    {
      hide Address, ClientName;
      for i := 0 to nc
        invariant client == old(client) + Ups(ClientName(0), left, "1", i)
        invariant router == old(router) + Arps(left, "1", ClientName(0), i)
      {
        client := client + [IfUp(ClientInterface(0, i), ClientIp(left, i))];
        router := router + [Arp(ClientIp(left, i), ClientInterface(0, i))];
      }
    }

    /** Router interfaces to the client, and their entries at the client. */
    method RouterSide()
      modifies this`client, this`router
      ensures client == old(client) + Arps(left, "2", RouterName(0), nc)
      ensures router == old(router) + Ups(RouterName(0), left, "2", nc)
    {
      hide Address, RouterName;
      for i := 0 to nc
        invariant client == old(client) + Arps(left, "2", RouterName(0), i)
        invariant router == old(router) + Ups(RouterName(0), left, "2", i)
      {
        router := router + [IfUp(RouterInterfaceToClient(i), RouterIpToClientSwitch(left, i))];
        client := client + [Arp(RouterIpToClientSwitch(left, i), RouterInterfaceToClient(i))];
      }
    }

    /** The links between router and server, or the direct cable when there are none. */
    method ServerSide()
      modifies this`router, this`server
      ensures router == old(router) + RouterFar(right, nc, AtLeastOne(ns))
      ensures server == old(server) + ServerNear(right, nc, AtLeastOne(ns))
    {
      hide RouterFarOne, ServerNearOne;
      if ns == 0 {
        assert RouterFar(right, nc, 0) == [] && ServerNear(right, nc, 0) == [];
        ToServer(0);
      } else {
        for j := 0 to ns
          invariant router == old(router) + RouterFar(right, nc, j)
          invariant server == old(server) + ServerNear(right, nc, j)
        {
          ToServer(j);
        }
      }
    }

    /** The commands for one link between router and server, in the order sent. */
    method ToServer(j: nat)
      modifies this`router, this`server
      ensures router == old(router) + RouterFarOne(right, nc, j)
      ensures server == old(server) + ServerNearOne(right, nc, j)
    {
      var sIf, sIp := ServerInterface(0, j), ServerIp(right, j);
      var rIf, rIp := RouterInterfaceToServer(nc, j), RouterIpToServerSwitch(right, j);
      router := router + [Flush(rIf)];
      server := server + [Flush(sIf)];
      router := router + [IfUp(rIf, rIp)];
      server := server + [Arp(rIp, rIf)];
      server := server + [IfUp(sIf, sIp)];
      router := router + [Arp(sIp, sIf)];
    }

    method ConfigureRouting()
      modifies this`client, this`server
      ensures client == old(client) + ClientRouting(left, nc)
      ensures server == old(server) + ServerRouting(right, ns)
    {
      hide Tables, Address, ClientName, ServerName;
      ClientTables();
      ServerTables();
      client := client + [GlobalDefault(RouterIpToClientSwitch(left, 0), ClientInterface(0, 0))];
      server := server + [SimpleDefault(RouterIpToServerSwitch(right, 0))];
    }

    method ClientTables()
      modifies this`client
      ensures client == old(client) + Tables(ClientName(0), left, nc)
    {
      hide Address, ClientName;
      for i := 0 to nc
        invariant client == old(client) + Tables(ClientName(0), left, i)
      {
        ghost var before := client;
        client := client + [RuleFrom(ClientIp(left, i), i + 1)];
        client := client + [LinkRoute(ClientSubnet(left, i), ClientInterface(0, i), i + 1)];
        client := client + [TableDefault(RouterIpToClientSwitch(left, i), i + 1)];
        assert client == before + TableOne(ClientName(0), left, i);
      }
    }

    method ServerTables()
      modifies this`server
      ensures server == old(server) + Tables(ServerName(0), right, ns)
    {
      hide Address, ServerName;
      for i := 0 to ns
        invariant server == old(server) + Tables(ServerName(0), right, i)
      {
        ghost var before := server;
        server := server + [RuleFrom(ServerIp(right, i), i + 1)];
        server := server + [LinkRoute(ServerSubnet(right, i), ServerInterface(0, i), i + 1)];
        server := server + [TableDefault(RouterIpToServerSwitch(right, i), i + 1)];
        assert server == before + TableOne(ServerName(0), right, i);
      }
    }
  }
}
