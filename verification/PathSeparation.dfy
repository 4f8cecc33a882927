/** Traffic between client address i and server address j uses link i and link j, in both directions. */
module PathSeparation {
  import opened Text
  import opened Routing
  import opened TopoBuilder
  import opened MultiInterface
  import opened Wiring
  import opened InterfaceNaming
  import opened MultiInterfaceConfig

  function Min(a: nat, b: nat): nat {
    if a < b then a else b
  }

  /** Interfaces p, p + 1, … of a node with host h of networks 0, 1, …, as far as the index fits an octet. */
  function Held(node: string, p: nat, a: nat, b: nat, h: nat, n: nat): (held: seq<(string, Ip)>)
    ensures |held| == Min(n, 256)
    ensures forall i: nat :: i < |held| ==> held[i] == (IfName(End(node, p + i)), Ip(a, b, i, h))
  {
    seq(Min(n, 256), i requires 0 <= i < 256 => (IfName(End(node, p + i)), Ip(a, b, i, h)))
  }

  // ------------------------------------------------------------ addresses

  /** No interface of the node from port p on has an address yet. */
  ghost predicate NoneUp(held: seq<(string, Ip)>, node: string, p: nat) {
    forall port: nat :: port >= p ==> !Named(held, IfName(End(node, port)))
  }

  lemma NotYetUp(pre: seq<(string, Ip)>, node: string, p: nat, a: nat, b: nat, h: nat, n: nat)
    requires NoneUp(pre, node, p)
    ensures !Named(pre + Held(node, p, a, b, h, n), IfName(End(node, p + n)))
  {
    hide IfName;
    var all := pre + Held(node, p, a, b, h, n);
    forall i | 0 <= i < |all|
      ensures all[i].0 != IfName(End(node, p + n))
    {
      if i < |pre| {
        assert Named(pre, pre[i].0);
        assert !Named(pre, IfName(End(node, p + n)));
      } else if all[i].0 == IfName(End(node, p + n)) {
        IfNameInjective(End(node, p + (i - |pre|)), End(node, p + n));
      }
    }
  }

  lemma HeldNext(pre: seq<(string, Ip)>, node: string, p: nat, a: nat, b: nat, h: nat, n: nat)
    ensures pre + Held(node, p, a, b, h, n + 1)
            == if n < 256 then pre + Held(node, p, a, b, h, n) + [(IfName(End(node, p + n)), Ip(a, b, n, h))]
               else pre + Held(node, p, a, b, h, n)
  {
    hide IfName;
    assert n < 256 ==> Held(node, p, a, b, h, n + 1) == Held(node, p, a, b, h, n) + [(IfName(End(node, p + n)), Ip(a, b, n, h))];
    assert n >= 256 ==> Held(node, p, a, b, h, n + 1) == Held(node, p, a, b, h, n);
  }

  /** One more interface, by name and parsed address. */
  lemma UpAdds(log: Log, pre: seq<(string, Ip)>, node: string, p: nat, prefix: string, a: nat, b: nat, h: nat, n: nat)
    requires IsPrefix(prefix, a, b) && h < 256 && NoneUp(pre, node, p)
    requires Addresses(log) == pre + Held(node, p, a, b, h, n)
    ensures Addresses(log + [IfUp(IfName(End(node, p + n)), Address(prefix, n, Dec(h)))]) == pre + Held(node, p, a, b, h, n + 1)
    ensures Addresses(log + [Flush(IfName(End(node, p + n)))]) == pre + Held(node, p, a, b, h, n)
  {
    hide IfName, ParseIp, Dec, Address, Addresses, NoneUp, IsPrefix, Without, Held, Named;
    var ifname, text := IfName(End(node, p + n)), Address(prefix, n, Dec(h));
    NotYetUp(pre, node, p, a, b, h, n);
    WithoutUnnamed(pre + Held(node, p, a, b, h, n), ifname);
    AddressParses(prefix, a, b, n, h);
    AddressesNext(log, IfUp(ifname, text));
    AddressesNext(log, Flush(ifname));
    HeldNext(pre, node, p, a, b, h, n);
  }

  lemma {:induction false} UpsHold(log: Log, pre: seq<(string, Ip)>, node: string, prefix: string, a: nat, b: nat, h: nat, n: nat)
    requires IsPrefix(prefix, a, b) && h < 256 && Addresses(log) == pre && NoneUp(pre, node, 0)
    ensures Addresses(log + Ups(node, prefix, Dec(h), n)) == pre + Held(node, 0, a, b, h, n)
    decreases n
  {
    hide IfName, Address, Addresses, Dec, NoneUp;
    if n == 0 {
      assert log + [] == log;
    } else {
      UpsHold(log, pre, node, prefix, a, b, h, n - 1);
      var before := log + Ups(node, prefix, Dec(h), n - 1);
      UpAdds(before, pre, node, 0, prefix, a, b, h, n - 1);
      assert log + Ups(node, prefix, Dec(h), n) == before + [IfUp(IfName(End(node, n - 1)), Address(prefix, n - 1, Dec(h)))];
    }
  }

  lemma {:induction false} ArpsChangeNothing(log: Log, prefix: string, host: string, node: string, n: nat)
    ensures Addresses(log + Arps(prefix, host, node, n)) == Addresses(log)
    decreases n
  {
    hide IfName, Address, Addresses;
    if n == 0 {
      assert log + [] == log;
    } else {
      ArpsChangeNothing(log, prefix, host, node, n - 1);
      var before := log + Arps(prefix, host, node, n - 1);
      var c := Arp(Address(prefix, n - 1, host), IfName(End(node, n - 1)));
      AddressesNext(before, c);
      assert log + Arps(prefix, host, node, n) == before + [c];
    }
  }

  lemma {:induction false} RouterFarHolds(log: Log, pre: seq<(string, Ip)>, right: string, a: nat, b: nat, nc: nat, m: nat)
    requires IsPrefix(right, a, b) && Addresses(log) == pre && NoneUp(pre, RouterName(0), nc)
    ensures Addresses(log + RouterFar(right, nc, m)) == pre + Held(RouterName(0), nc, a, b, 2, m)
    decreases m
  {
    hide IfName, Address, Addresses, RouterName, NoneUp, IsPrefix, Dec;
    if m == 0 {
      assert log + [] == log;
    } else {
      RouterFarHolds(log, pre, right, a, b, nc, m - 1);
      var before := log + RouterFar(right, nc, m - 1);
      var cs := RouterFarOne(right, nc, m - 1);
      NamesOfEnds(nc, m - 1);
      UpAdds(before, pre, RouterName(0), nc, right, a, b, 2, m - 1);
      UpAdds(before + [cs[0]], pre, RouterName(0), nc, right, a, b, 2, m - 1);
      AddressesNext(before + [cs[0]] + [cs[1]], cs[2]);
      assert log + RouterFar(right, nc, m) == before + [cs[0]] + [cs[1]] + [cs[2]];
    }
  }

  lemma NamesOfEnds(nc: nat, j: nat)
    ensures RouterInterfaceToServer(nc, j) == IfName(End(RouterName(0), nc + j))
    ensures ServerInterface(0, j) == IfName(End(ServerName(0), j)) && ClientInterface(0, j) == IfName(End(ClientName(0), j))
    ensures Dec(1) == "1" && Dec(2) == "2"
  {
    ZeroText();
  }

  lemma {:induction false} ServerNearHolds(log: Log, right: string, a: nat, b: nat, nc: nat, m: nat)
    requires IsPrefix(right, a, b) && Addresses(log) == []
    ensures Addresses(log + ServerNear(right, nc, m)) == Held(ServerName(0), 0, a, b, 1, m)
    decreases m
  {
    hide IfName, Address, Addresses, ServerName, RouterInterfaceToServer, IsPrefix, Dec;
    if m == 0 {
      assert log + [] == log;
    } else {
      ServerNearHolds(log, right, a, b, nc, m - 1);
      var before := log + ServerNear(right, nc, m - 1);
      var cs := ServerNearOne(right, nc, m - 1);
      NamesOfEnds(nc, m - 1);
      var held := Held(ServerName(0), 0, a, b, 1, m - 1);
      assert [] + held == held && [] + Held(ServerName(0), 0, a, b, 1, m) == Held(ServerName(0), 0, a, b, 1, m);
      UpAdds(before, [], ServerName(0), 0, right, a, b, 1, m - 1);
      AddressesNext(before + [cs[0]], cs[1]);
      UpAdds(before + [cs[0]] + [cs[1]], [], ServerName(0), 0, right, a, b, 1, m - 1);
      assert log + ServerNear(right, nc, m) == before + [cs[0]] + [cs[1]] + [cs[2]];
    }
  }

  lemma HeldBelow(node: string, p: nat, a: nat, b: nat, h: nat, n: nat)
    ensures NoneUp(Held(node, 0, a, b, h, n), node, n + p)
  {
    hide IfName;
    var held := Held(node, 0, a, b, h, n);
    forall port: nat, i | port >= n + p && 0 <= i < |held|
      ensures held[i].0 != IfName(End(node, port))
    {
      if held[i].0 == IfName(End(node, port)) {
        IfNameInjective(End(node, i), End(node, port));
      }
    }
  }

  // ------------------------------------------------------------ no routes from interface commands

  predicate OnInterfaces(c: Command) {
    c.IfUp? || c.Flush? || c.Arp?
  }

  predicate NoRouting(log: Log) {
    forall i :: 0 <= i < |log| ==> OnInterfaces(log[i])
  }

  lemma {:induction false} NoRoutingIsEmpty(log: Log, t: nat)
    requires NoRouting(log)
    ensures Rules(log) == [] && Table(log, t) == []
    decreases |log|
  {
    if log != [] {
      NoRoutingIsEmpty(log[..|log| - 1], t);
    }
  }

  lemma {:induction false} InterfaceLogs(node: string, prefix: string, host: string, nc: nat, n: nat)
    ensures NoRouting(Ups(node, prefix, host, n)) && NoRouting(Arps(prefix, host, node, n))
    ensures NoRouting(RouterFar(prefix, nc, n)) && NoRouting(ServerNear(prefix, nc, n))
    decreases n
  {
    hide IfName, Address;
    if n > 0 {
      InterfaceLogs(node, prefix, host, nc, n - 1);
    }
  }

  // ------------------------------------------------------------ the tables of an end host

  /** The rules after n tables. */
  function RulesOf(a: nat, b: nat, n: nat): (rules: seq<(Ip, nat)>)
    ensures |rules| == Min(n, 256) && forall i: nat :: i < |rules| ==> rules[i] == (Ip(a, b, i, 1), i + 1)
  {
    seq(Min(n, 256), i requires 0 <= i < 256 => (Ip(a, b, i, 1), i + 1))
  }

  /** Table t after n tables: the network and the gateway of index t - 1, but no network in the main table, where it
      is connected. */
  function TableOf(node: string, a: nat, b: nat, n: nat, t: nat): seq<Route> {
    if t == 0 || t > Min(n, 256) then []
    else
      var gateway := Default(Ip(a, b, t - 1, 2), IfName(End(node, t - 1)));
      if t == MAIN then [gateway] else [OnLink(Ip(a, b, t - 1, 0), IfName(End(node, t - 1))), gateway]
  }

  lemma ConnectedHeld(node: string, a: nat, b: nat, n: nat, i: nat, d: nat)
    ensures ConnectedDev(Held(node, 0, a, b, 1, n), Ip(a, b, i, d))
            == if i < Min(n, 256) then Some(IfName(End(node, i))) else None
  {
    hide IfName;
    var held := Held(node, 0, a, b, 1, n);
    if i < Min(n, 256) {
      ConnectedAt(held, Ip(a, b, i, d), i);
    } else {
      ConnectedNowhere(held, Ip(a, b, i, d));
    }
  }

  /** The network and the gateway of one index into an empty table. */
  lemma RoutesOfOne(node: string, prefix: string, a: nat, b: nat, n: nat, k: nat)
    requires IsPrefix(prefix, a, b) && k < n
    ensures var held := Held(node, 0, a, b, 1, n);
            AddDefault(AddOnLink([], held, k + 1, Address(prefix, k, "0/24"), IfName(End(node, k))), held, Address(prefix, k, "2"))
            == TableOf(node, a, b, k + 1, k + 1)
  {
    hide IfName, Address, Dec, IsPrefix, ParseIp, ParseNet, ConnectedDev, Held;
    NamesOfEnds(0, 0);
    SubnetParses(prefix, a, b, k);
    AddressParses(prefix, a, b, k, 2);
    ConnectedHeld(node, a, b, n, k, 0);
    ConnectedHeld(node, a, b, n, k, 2);
    var net, gateway := OnLink(Ip(a, b, k, 0), IfName(End(node, k))), Default(Ip(a, b, k, 2), IfName(End(node, k)));
    assert [] + [net] == [net] && [net][1..] == [] && [] + [gateway] == [gateway] && [net] + [gateway] == [net, gateway];
    var held := Held(node, 0, a, b, 1, n);
    var first := AddOnLink([], held, k + 1, Address(prefix, k, "0/24"), IfName(End(node, k)));
    if k >= 256 {
      assert first == [];
      assert AddDefault(first, held, Address(prefix, k, "2")) == [];
      assert TableOf(node, a, b, k + 1, k + 1) == [];
    } else if k + 1 == MAIN {
      assert first == [];
      assert AddDefault(first, held, Address(prefix, k, "2")) == [gateway];
    } else {
      assert first == [net];
      assert FirstDefault(first).None?;
      assert AddDefault(first, held, Address(prefix, k, "2")) == [net, gateway];
    }
  }

  /** What the three commands of one table do to any table. */
  lemma TableStep(log: Log, node: string, prefix: string, a: nat, b: nat, n: nat, k: nat, t: nat)
    requires IsPrefix(prefix, a, b) && k < n
    requires Addresses(log) == Held(node, 0, a, b, 1, n) && Table(log, t) == TableOf(node, a, b, k, t)
    ensures Addresses(log + TableOne(node, prefix, k)) == Addresses(log)
    ensures Table(log + TableOne(node, prefix, k), t) == TableOf(node, a, b, k + 1, t)
  {
    hide IfName, Address, Addresses, IsPrefix, Table, Held, AddOnLink, AddDefault;
    var cs := TableOne(node, prefix, k);
    var l1, l2 := log + [cs[0]], log + [cs[0]] + [cs[1]];
    assert log + cs == l2 + [cs[2]];
    AddressesNext(log, cs[0]);
    AddressesNext(l1, cs[1]);
    AddressesNext(l2, cs[2]);
    TableNext(log, cs[0], t);
    TableNext(l1, cs[1], t);
    TableNext(l2, cs[2], t);
    RoutesOfOne(node, prefix, a, b, n, k);
  }

  lemma RulesStep(log: Log, node: string, prefix: string, a: nat, b: nat, k: nat)
    requires IsPrefix(prefix, a, b) && Rules(log) == RulesOf(a, b, k)
    ensures Rules(log + TableOne(node, prefix, k)) == RulesOf(a, b, k + 1)
  {
    hide IfName, Address, Dec, IsPrefix, ParseIp, Rules;
    NamesOfEnds(0, 0);
    var cs := TableOne(node, prefix, k);
    assert log + cs == log + [cs[0]] + [cs[1]] + [cs[2]];
    AddressParses(prefix, a, b, k, 1);
    RulesNext(log, cs[0]);
    RulesNext(log + [cs[0]], cs[1]);
    RulesNext(log + [cs[0]] + [cs[1]], cs[2]);
  }

  /** Rules and tables of an end host with n interfaces after k of its tables. */
  lemma {:induction false} TablesHold(log: Log, node: string, prefix: string, a: nat, b: nat, n: nat, k: nat, t: nat)
    requires IsPrefix(prefix, a, b) && k <= n && NoRouting(log) && Addresses(log) == Held(node, 0, a, b, 1, n)
    ensures Addresses(log + Tables(node, prefix, k)) == Held(node, 0, a, b, 1, n)
    ensures Rules(log + Tables(node, prefix, k)) == RulesOf(a, b, k)
    ensures Table(log + Tables(node, prefix, k), t) == TableOf(node, a, b, k, t)
    decreases k
  {
    hide IfName, Address, Addresses, IsPrefix, Table, Rules, Held, NoRouting, TableOne;
    if k == 0 {
      assert log + [] == log;
      NoRoutingIsEmpty(log, t);
    } else {
      TablesHold(log, node, prefix, a, b, n, k - 1, t);
      var before := log + Tables(node, prefix, k - 1);
      TableStep(before, node, prefix, a, b, n, k - 1, t);
      RulesStep(before, node, prefix, a, b, k - 1);
      assert log + Tables(node, prefix, k) == before + TableOne(node, prefix, k - 1);
    }
  }

  // ------------------------------------------------------------ an end host's choices

  /** The state of a client or server with n interfaces and k tables when the configuration is done. */
  ghost predicate EndHost(log: Log, node: string, a: nat, b: nat, n: nat, k: nat) {
    && Addresses(log) == Held(node, 0, a, b, 1, n) && Rules(log) == RulesOf(a, b, k)
    && (forall t: nat :: t != MAIN ==> Table(log, t) == TableOf(node, a, b, k, t))
    && Table(log, MAIN) == if MAIN <= k then TableOf(node, a, b, k, MAIN) else [Default(Ip(a, b, 0, 2), IfName(End(node, 0)))]
  }

  lemma LastDefault(log: Log, node: string, prefix: string, a: nat, b: nat, n: nat, k: nat, c: Command)
    requires IsPrefix(prefix, a, b) && 0 < n && k <= n
    requires Addresses(log) == Held(node, 0, a, b, 1, n) && Rules(log) == RulesOf(a, b, k)
    requires forall t: nat :: Table(log, t) == TableOf(node, a, b, k, t)
    requires c == SimpleDefault(Address(prefix, 0, "2")) || c == GlobalDefault(Address(prefix, 0, "2"), IfName(End(node, 0)))
    ensures EndHost(log + [c], node, a, b, n, k)
  {
    hide IfName, Address, Addresses, Dec, IsPrefix, ParseIp, Table, ConnectedDev, Held, Rules, RulesOf;
    NamesOfEnds(0, 0);
    AddressParses(prefix, a, b, 0, 2);
    ConnectedHeld(node, a, b, n, 0, 2);
    AddressesNext(log, c);
    RulesNext(log, c);
    forall t: nat | t != MAIN
      ensures Table(log + [c], t) == TableOf(node, a, b, k, t)
    {
      TableNext(log, c, t);
    }
    TableNext(log, c, MAIN);
    var main, last := TableOf(node, a, b, k, MAIN), Default(Ip(a, b, 0, 2), IfName(End(node, 0)));
    assert Table(log, MAIN) == main;
    if MAIN <= k {
      assert FirstDefault(main).Some?;
    } else {
      assert main == [] && [] + [last] == [last];
    }
  }

  /** An address outside the host's own networks. */
  predicate Foreign(x: Ip, a: nat, b: nat) {
    x.a != a || x.b != b
  }

  /** The default route of a table. */
  function DefaultOf(node: string, a: nat, b: nat, k: nat, t: nat): Option<Hop> {
    if 1 <= t <= Min(k, 256) then Some(Hop(IfName(End(node, t - 1)), Ip(a, b, t - 1, 2)))
    else if t == MAIN then Some(Hop(IfName(End(node, 0)), Ip(a, b, 0, 2)))
    else None
  }

  lemma ForeignInTable(log: Log, node: string, a: nat, b: nat, n: nat, k: nat, t: nat, x: Ip)
    requires EndHost(log, node, a, b, n, k) && Foreign(x, a, b)
    ensures InTable(log, t, x) == DefaultOf(node, a, b, k, t)
  {
    hide IfName, Addresses, Table, Rules, RulesOf;
    ConnectedNowhere(Held(node, 0, a, b, 1, n), x);
    var routes := Table(log, t);
    if 1 <= t <= Min(k, 256) && t != MAIN {
      var net := OnLink(Ip(a, b, t - 1, 0), IfName(End(node, t - 1)));
      var gateway := Default(Ip(a, b, t - 1, 2), IfName(End(node, t - 1)));
      assert routes == [net, gateway];
      NetworkThenGateway(net, gateway, x);
    } else if t == MAIN {
      assert ConnectedDev(Addresses(log), x).None?;
      OnlyGateway(routes[0], x);
      assert routes == [routes[0]];
    } else {
      assert routes == [];
    }
  }

  lemma OnlyGateway(gateway: Route, x: Ip)
    requires gateway.Default?
    ensures FirstOnLink([gateway], x).None? && FirstDefault([gateway]) == Some(Hop(gateway.dev, gateway.via))
  {
    assert [gateway][1..] == [];
  }

  lemma NetworkThenGateway(net: Route, gateway: Route, x: Ip)
    requires net.OnLink? && !SameNet(net.net, x) && gateway.Default?
    ensures FirstOnLink([net, gateway], x).None? && FirstDefault([net, gateway]) == Some(Hop(gateway.dev, gateway.via))
  {
    assert [net, gateway][1..] == [gateway] && [gateway][1..] == [];
    assert FirstOnLink([gateway], x) == None;
  }

  lemma {:induction false} RuleOfSource(log: Log, node: string, a: nat, b: nat, n: nat, k: nat, m: nat, i: nat, x: Ip)
    requires EndHost(log, node, a, b, n, k) && Foreign(x, a, b) && i < m <= Min(k, 256)
    ensures ByRules(log, RulesOf(a, b, m), Ip(a, b, i, 1), x) == DefaultOf(node, a, b, k, i + 1)
    decreases m
  {
    hide IfName, EndHost, InTable;
    assert RulesOf(a, b, m)[..m - 1] == RulesOf(a, b, m - 1);
    ForeignInTable(log, node, a, b, n, k, i + 1, x);
    if i < m - 1 {
      RuleOfSource(log, node, a, b, n, k, m - 1, i, x);
    }
  }

  lemma ForeignNotOwn(node: string, a: nat, b: nat, n: nat, x: Ip)
    requires Foreign(x, a, b)
    ensures !Owns(Held(node, 0, a, b, 1, n), x)
  {
    hide IfName;
  }

  /** Up to 254 tables, traffic from address i leaves through interface i; without tables, through the first. */
  lemma SourceChoosesInterface(log: Log, node: string, a: nat, b: nat, n: nat, k: nat, i: nat, x: Ip)
    requires EndHost(log, node, a, b, n, k) && Foreign(x, a, b) && k <= MAIN && (if k == 0 then i == 0 else i < k)
    ensures Lookup(log, Ip(a, b, i, 1), x) == Some(Hop(IfName(End(node, i)), Ip(a, b, i, 2)))
  {
    hide IfName, InTable, Table, Addresses, Rules, Owns, Held;
    ForeignNotOwn(node, a, b, n, x);
    ForeignInTable(log, node, a, b, n, k, LOCAL, x);
    ForeignInTable(log, node, a, b, n, k, MAIN, x);
    if k == 0 {
      assert RulesOf(a, b, 0) == [];
    } else {
      RuleOfSource(log, node, a, b, n, k, k, i, x);
    }
  }

  /** From 255 on, the table of index 254 is the kernel's own local table, which comes before every rule. */
  lemma LocalTableCaptures(log: Log, node: string, a: nat, b: nat, n: nat, k: nat, src: Ip, x: Ip)
    requires EndHost(log, node, a, b, n, k) && Foreign(x, a, b) && k > MAIN
    ensures Lookup(log, src, x) == Some(Hop(IfName(End(node, 254)), Ip(a, b, 254, 2)))
  {
    hide IfName, InTable, Table, Addresses, Rules, Owns, Held, ByRules;
    ForeignNotOwn(node, a, b, n, x);
    ForeignInTable(log, node, a, b, n, k, LOCAL, x);
  }

  // ------------------------------------------------------------ the three hosts

  datatype World = World(client: Log, router: Log, server: Log)

  /** The logs after `configure_interfaces` and `configure_routing`. */
  function Configured(left: string, right: string, nc: nat, ns: nat): World {
    World(ClientInterfaces(left, nc) + ClientRouting(left, nc), RouterInterfaces(left, right, nc, ns),
          ServerInterfaces(right, nc, ns) + ServerRouting(right, ns))
  }

  function LogAt(w: World, node: string): Log {
    if node == ClientName(0) then w.client
    else if node == RouterName(0) then w.router
    else if node == ServerName(0) then w.server
    else []
  }

  lemma NoRoutingAppend(a: Log, b: Log)
    requires NoRouting(a) && NoRouting(b)
    ensures NoRouting(a + b)
  {
  }

  lemma NothingUp(node: string, p: nat)
    ensures NoneUp([], node, p) && Addresses([]) == []
  {
    hide IfName;
  }

  lemma ClientIsEndHost(left: string, right: string, a: nat, b: nat, nc: nat, ns: nat)
    requires IsPrefix(left, a, b) && nc > 0
    ensures EndHost(Configured(left, right, nc, ns).client, ClientName(0), a, b, nc, nc)
  {
    hide IfName, Address, Addresses, Table, Rules, IsPrefix, Held, ClientName, RouterName, NoRouting, Tables, Ups, Arps, EndHost,
         NoneUp, TableOf, RulesOf, Dec;
    NamesOfEnds(0, 0);
    var ups, arps := Ups(ClientName(0), left, "1", nc), Arps(left, "2", RouterName(0), nc);
    NothingUp(ClientName(0), 0);
    UpsHold([], [], ClientName(0), left, a, b, 1, nc);
    assert [] + ups == ups && [] + Held(ClientName(0), 0, a, b, 1, nc) == Held(ClientName(0), 0, a, b, 1, nc);
    ArpsChangeNothing(ups, left, "2", RouterName(0), nc);
    InterfaceLogs(ClientName(0), left, "1", 0, nc);
    InterfaceLogs(RouterName(0), left, "2", 0, nc);
    NoRoutingAppend(ups, arps);
    var log := ups + arps + Tables(ClientName(0), left, nc);
    forall t: nat
      ensures Table(log, t) == TableOf(ClientName(0), a, b, nc, t)
    {
      TablesHold(ups + arps, ClientName(0), left, a, b, nc, nc, t);
    }
    TablesHold(ups + arps, ClientName(0), left, a, b, nc, nc, 0);
    var c := GlobalDefault(RouterIpToClientSwitch(left, 0), ClientInterface(0, 0));
    LastDefault(log, ClientName(0), left, a, b, nc, nc, c);
    assert Configured(left, right, nc, ns).client == log + [c];
  }

  lemma ServerIsEndHost(left: string, right: string, a: nat, b: nat, nc: nat, ns: nat)
    requires IsPrefix(right, a, b)
    ensures EndHost(Configured(left, right, nc, ns).server, ServerName(0), a, b, AtLeastOne(ns), ns)
  {
    hide IfName, Address, Addresses, Table, Rules, IsPrefix, Held, ServerName, NoRouting, Tables, EndHost, ServerNear,
         NoneUp, TableOf, RulesOf, Dec;
    NamesOfEnds(0, 0);
    var m := AtLeastOne(ns);
    var near := ServerNear(right, nc, m);
    NothingUp(ServerName(0), 0);
    ServerNearHolds([], right, a, b, nc, m);
    assert [] + near == near;
    InterfaceLogs(ServerName(0), right, "1", nc, m);
    var log := near + Tables(ServerName(0), right, ns);
    forall t: nat
      ensures Table(log, t) == TableOf(ServerName(0), a, b, ns, t)
    {
      TablesHold(near, ServerName(0), right, a, b, m, ns, t);
    }
    TablesHold(near, ServerName(0), right, a, b, m, ns, 0);
    var c := SimpleDefault(RouterIpToServerSwitch(right, 0));
    LastDefault(log, ServerName(0), right, a, b, m, ns, c);
    assert Configured(left, right, nc, ns).server == log + [c];
  }

  /** The router's addresses: one in the network of every link. */
  function RouterHolds(la: nat, lb: nat, ra: nat, rb: nat, nc: nat, m: nat): seq<(string, Ip)> {
    Held(RouterName(0), 0, la, lb, 2, nc) + Held(RouterName(0), nc, ra, rb, 2, m)
  }

  lemma RouterAddresses(left: string, right: string, la: nat, lb: nat, ra: nat, rb: nat, nc: nat, ns: nat)
    requires IsPrefix(left, la, lb) && IsPrefix(right, ra, rb)
    ensures Addresses(Configured(left, right, nc, ns).router) == RouterHolds(la, lb, ra, rb, nc, AtLeastOne(ns))
    ensures NoRouting(Configured(left, right, nc, ns).router)
  {
    hide IfName, Address, Addresses, IsPrefix, Held, ClientName, RouterName, NoRouting, Ups, Arps, RouterFar, NoneUp, Dec;
    NamesOfEnds(0, 0);
    var arps, ups := Arps(left, "1", ClientName(0), nc), Ups(RouterName(0), left, "2", nc);
    NothingUp(RouterName(0), 0);
    ArpsChangeNothing([], left, "1", ClientName(0), nc);
    assert [] + arps == arps;
    UpsHold(arps, [], RouterName(0), left, la, lb, 2, nc);
    var held := Held(RouterName(0), 0, la, lb, 2, nc);
    assert [] + held == held;
    HeldBelow(RouterName(0), 0, la, lb, 2, nc);
    RouterFarHolds(arps + ups, held, right, ra, rb, nc, AtLeastOne(ns));
    InterfaceLogs(ClientName(0), left, "1", nc, nc);
    InterfaceLogs(RouterName(0), left, "2", nc, nc);
    InterfaceLogs(RouterName(0), right, "2", nc, AtLeastOne(ns));
    NoRoutingAppend(arps, ups);
    NoRoutingAppend(arps + ups, RouterFar(right, nc, AtLeastOne(ns)));
  }

  /** A host that only has addresses sends to the interface of the destination's network. */
  lemma ConnectedLookup(log: Log, src: Ip, dst: Ip)
    requires NoRouting(log) && !Owns(Addresses(log), dst) && ConnectedDev(Addresses(log), dst).Some?
    ensures Lookup(log, src, dst) == Some(Hop(ConnectedDev(Addresses(log), dst).value, dst))
  {
    hide Addresses, Owns, ConnectedDev, Table, Rules, NoRouting;
    NoRoutingIsEmpty(log, LOCAL);
    NoRoutingIsEmpty(log, MAIN);
  }

  /** The router sends to host d of network i, on either side, through its interface there. */
  lemma RouterForwards(log: Log, la: nat, lb: nat, ra: nat, rb: nat, nc: nat, m: nat, i: nat, d: nat, src: Ip)
    requires NoRouting(log) && Addresses(log) == RouterHolds(la, lb, ra, rb, nc, m) && (la != ra || lb != rb) && d != 2
    ensures i < Min(nc, 256) ==> Lookup(log, src, Ip(la, lb, i, d)) == Some(Hop(IfName(End(RouterName(0), i)), Ip(la, lb, i, d)))
    ensures i < Min(m, 256) ==> Lookup(log, src, Ip(ra, rb, i, d)) == Some(Hop(IfName(End(RouterName(0), nc + i)), Ip(ra, rb, i, d)))
  {
    hide IfName, RouterName, Lookup, NoRouting, Addresses;
    var held := RouterHolds(la, lb, ra, rb, nc, m);
    if i < Min(nc, 256) {
      ConnectedAt(held, Ip(la, lb, i, d), i);
      ConnectedLookup(log, src, Ip(la, lb, i, d));
    }
    if i < Min(m, 256) {
      ConnectedAt(held, Ip(ra, rb, i, d), Min(nc, 256) + i);
      ConnectedLookup(log, src, Ip(ra, rb, i, d));
    }
  }

  // ------------------------------------------------------------ hops over the built network

  /** A host port has the address. */
  predicate HasAddress(w: World, e: End, x: Ip) {
    (IfName(e), x) in Addresses(LogAt(w, e.node))
  }

  /** A packet at the host of `out` leaves through it and arrives at `into`, which is on that LAN with the address of
      the next hop. */
  ghost predicate Crosses(n: Net, w: World, src: Ip, dst: Ip, out: End, into: End) {
    && out != into && SameLan(n, out, into)
    && match Lookup(LogAt(w, out.node), src, dst)
       case None => false
       case Some(hop) => hop.dev == IfName(out) && HasAddress(w, into, hop.next)
  }

  /** From client address c to server address s over c2r link i and r2s link j, and the reply back over both. */
  ghost predicate UsesLinks(n: Net, w: World, c: Ip, s: Ip, nc: nat, i: nat, j: nat) {
    && Crosses(n, w, c, s, End(ClientName(0), i), End(RouterName(0), i))
    && Crosses(n, w, c, s, End(RouterName(0), nc + j), End(ServerName(0), j))
    && Crosses(n, w, s, c, End(ServerName(0), j), End(RouterName(0), nc + j))
    && Crosses(n, w, s, c, End(RouterName(0), i), End(ClientName(0), i))
  }

  lemma AddressAt(w: World, e: End, x: Ip, q: nat)
    requires q < |Addresses(LogAt(w, e.node))| && Addresses(LogAt(w, e.node))[q] == (IfName(e), x)
    ensures HasAddress(w, e, x)
  {
  }

  lemma ClientHas(w: World, a: nat, b: nat, nc: nat, i: nat)
    requires EndHost(w.client, ClientName(0), a, b, nc, nc) && i < Min(nc, 256)
    ensures HasAddress(w, End(ClientName(0), i), Ip(a, b, i, 1))
  {
    hide IfName, Addresses, Table, Rules, RulesOf, TableOf, ClientName, RouterName, ServerName, HasAddress;
    LogsAt(w);
    AddressAt(w, End(ClientName(0), i), Ip(a, b, i, 1), i);
  }

  lemma ServerHas(w: World, a: nat, b: nat, m: nat, ns: nat, i: nat)
    requires EndHost(w.server, ServerName(0), a, b, m, ns) && i < Min(m, 256)
    ensures HasAddress(w, End(ServerName(0), i), Ip(a, b, i, 1))
  {
    hide IfName, Addresses, Table, Rules, RulesOf, TableOf, ClientName, RouterName, ServerName, HasAddress;
    LogsAt(w);
    AddressAt(w, End(ServerName(0), i), Ip(a, b, i, 1), i);
  }

  lemma RouterHas(w: World, la: nat, lb: nat, ra: nat, rb: nat, nc: nat, m: nat, i: nat)
    requires Addresses(w.router) == RouterHolds(la, lb, ra, rb, nc, m)
    ensures i < Min(nc, 256) ==> HasAddress(w, End(RouterName(0), i), Ip(la, lb, i, 2))
    ensures i < Min(m, 256) ==> HasAddress(w, End(RouterName(0), nc + i), Ip(ra, rb, i, 2))
  {
    hide IfName, Addresses, ClientName, RouterName, ServerName, HasAddress;
    LogsAt(w);
    if i < Min(nc, 256) {
      AddressAt(w, End(RouterName(0), i), Ip(la, lb, i, 2), i);
    }
    if i < Min(m, 256) {
      AddressAt(w, End(RouterName(0), nc + i), Ip(ra, rb, i, 2), Min(nc, 256) + i);
    }
  }

  lemma LogsAt(w: World)
    ensures LogAt(w, ClientName(0)) == w.client && LogAt(w, RouterName(0)) == w.router && LogAt(w, ServerName(0)) == w.server
  {
    hide ClientName, RouterName, ServerName;
    HostNamesDiffer(0, 0);
  }

  /** The host ports that share a LAN, link by link. */
  lemma LansOfLinks(links: seq<Link>, i: nat)
    requires Unique(links)
    ensures var n, nc := Network(links), |C2r(links)|;
            && (i < nc ==> SameLan(n, End(ClientName(0), i), End(RouterName(0), i))
                           && SameLan(n, End(RouterName(0), i), End(ClientName(0), i)))
            && (i < AtLeastOne(|R2s(links)|) ==> SameLan(n, End(RouterName(0), nc + i), End(ServerName(0), i))
                                                 && SameLan(n, End(ServerName(0), i), End(RouterName(0), nc + i)))
  {
    hide ClientName, RouterName, ServerName, C2r, R2s, Network, SameLan, Unique, OwnSome;
    var nc := |C2r(links)|;
    HostNamesDiffer(0, 0);
    HostsAreNotOwn(links, 0);
    if i < nc {
      var a, b := End(ClientName(0), i), End(RouterName(0), i);
      assert Sides(links, i, a, b) && Sides(links, i, b, a);
      LansArePairs(links, a, b);
      LansArePairs(links, b, a);
    }
    if i < AtLeastOne(|R2s(links)|) {
      var a, b := End(RouterName(0), nc + i), End(ServerName(0), i);
      if R2s(links) != [] {
        assert Sides(links, nc + i, a, b) && Sides(links, nc + i, b, a);
      }
      LansArePairs(links, a, b);
      LansArePairs(links, b, a);
    }
  }

  /** Up to 254 links on each side, pair (i, j) uses links i and j. */
  lemma PairUsesLinks(links: seq<Link>, left: string, right: string, la: nat, lb: nat, ra: nat, rb: nat, i: nat, j: nat)
    requires Unique(links) && IsPrefix(left, la, lb) && IsPrefix(right, ra, rb) && (la != ra || lb != rb)
    requires |C2r(links)| <= 254 && |R2s(links)| <= 254 && i < |C2r(links)| && j < AtLeastOne(|R2s(links)|)
    ensures UsesLinks(Network(links), Configured(left, right, |C2r(links)|, |R2s(links)|), Ip(la, lb, i, 1), Ip(ra, rb, j, 1),
                      |C2r(links)|, i, j)
  {
    hide IfName, ClientName, RouterName, ServerName, IsPrefix, Configured, HasAddress, EndHost, C2r, R2s, Network, SameLan,
         Unique, Lookup, LogAt, NoRouting, Addresses;
    var nc, ns := |C2r(links)|, |R2s(links)|;
    var m, w := AtLeastOne(ns), Configured(left, right, nc, ns);
    var c, s := Ip(la, lb, i, 1), Ip(ra, rb, j, 1);
    LogsAt(w);
    HostNamesDiffer(0, 0);
    LansOfLinks(links, i);
    LansOfLinks(links, j);
    ClientIsEndHost(left, right, la, lb, nc, ns);
    ClientHas(w, la, lb, nc, i);
    SourceChoosesInterface(w.client, ClientName(0), la, lb, nc, nc, i, s);
    ServerIsEndHost(left, right, ra, rb, nc, ns);
    ServerHas(w, ra, rb, m, ns, j);
    SourceChoosesInterface(w.server, ServerName(0), ra, rb, m, ns, j, c);
    RouterAddresses(left, right, la, lb, ra, rb, nc, ns);
    RouterHas(w, la, lb, ra, rb, nc, m, i);
    RouterHas(w, la, lb, ra, rb, nc, m, j);
    RouterForwards(w.router, la, lb, ra, rb, nc, m, i, 1, s);
    RouterForwards(w.router, la, lb, ra, rb, nc, m, j, 1, c);
  }

  lemma OtherPort(node: string)
    ensures IfName(End(node, 0)) != IfName(End(node, 254))
  {
    hide IfName;
    if IfName(End(node, 0)) == IfName(End(node, 254)) {
      IfNameInjective(End(node, 0), End(node, 254));
    }
  }

  /** With 255 links on a side, already the first pair does not use its links. */
  lemma FirstPairFails(links: seq<Link>, left: string, right: string, la: nat, lb: nat, ra: nat, rb: nat)
    requires Unique(links) && IsPrefix(left, la, lb) && IsPrefix(right, ra, rb) && (la != ra || lb != rb) && |C2r(links)| > 0
    requires |C2r(links)| > 254 || |R2s(links)| > 254
    ensures !UsesLinks(Network(links), Configured(left, right, |C2r(links)|, |R2s(links)|), Ip(la, lb, 0, 1), Ip(ra, rb, 0, 1),
                       |C2r(links)|, 0, 0)
  {
    hide IfName, ClientName, RouterName, ServerName, IsPrefix, Configured, HasAddress, EndHost, C2r, R2s, Network, SameLan,
         Unique, Lookup, LogAt, NoRouting, Addresses;
    var nc, ns := |C2r(links)|, |R2s(links)|;
    var w := Configured(left, right, nc, ns);
    var c, s := Ip(la, lb, 0, 1), Ip(ra, rb, 0, 1);
    LogsAt(w);
    OtherPort(ClientName(0));
    OtherPort(ServerName(0));
    if nc > 254 {
      ClientIsEndHost(left, right, la, lb, nc, ns);
      LocalTableCaptures(w.client, ClientName(0), la, lb, nc, nc, c, s);
    } else {
      ServerIsEndHost(left, right, ra, rb, nc, ns);
      LocalTableCaptures(w.server, ServerName(0), ra, rb, AtLeastOne(ns), ns, s, c);
    }
  }

  /** For every list of unique links with at least one to the client, and different prefixes: a packet from client
      address i to server address j crosses link i and link j, and its reply the same two backwards, for all i and j,
      exactly when there are at most 254 links on each side. */
  lemma PathsAreSeparate(links: seq<Link>, left: string, right: string, la: nat, lb: nat, ra: nat, rb: nat)
    requires Unique(links) && IsPrefix(left, la, lb) && IsPrefix(right, ra, rb) && (la != ra || lb != rb) && |C2r(links)| > 0
    ensures (forall i: nat, j: nat | i < |C2r(links)| && j < AtLeastOne(|R2s(links)|) ::
               UsesLinks(Network(links), Configured(left, right, |C2r(links)|, |R2s(links)|),
                         Ip(la, lb, i, 1), Ip(ra, rb, j, 1), |C2r(links)|, i, j))
            <==> |C2r(links)| <= 254 && |R2s(links)| <= 254
  {
    hide IsPrefix, Configured, C2r, R2s, Network, Unique, UsesLinks;
    if |C2r(links)| <= 254 && |R2s(links)| <= 254 {
      forall i: nat, j: nat | i < |C2r(links)| && j < AtLeastOne(|R2s(links)|)
        ensures UsesLinks(Network(links), Configured(left, right, |C2r(links)|, |R2s(links)|),
                          Ip(la, lb, i, 1), Ip(ra, rb, j, 1), |C2r(links)|, i, j)
      {
        PairUsesLinks(links, left, right, la, lb, ra, rb, i, j);
      }
    } else {
      FirstPairFails(links, left, right, la, lb, ra, rb);
    }
  }

  lemma AddressesOnHosts(w: World, e: End, x: Ip, links: seq<Link>)
    requires HasAddress(w, e, x)
    ensures HostEnd(links, e)
  {
    hide ClientName, RouterName, ServerName, IfName;
    HostsAreNotOwn(links, 0);
  }

  lemma AcrossOne(links: seq<Link>, a: End, b: End, c: End)
    requires Across(links, a, b) && Across(links, a, c)
    ensures b == c
  {
    hide ClientName, RouterName, ServerName, C2r, R2s;
    HostNamesDiffer(0, 0);
  }

  /** A packet takes one way out of a host and arrives at one port. */
  lemma OneWay(links: seq<Link>, w: World, src: Ip, dst: Ip, out: End, into: End, out2: End, into2: End)
    requires Unique(links) && HostEnd(links, out) && out.node == out2.node
    requires Crosses(Network(links), w, src, dst, out, into) && Crosses(Network(links), w, src, dst, out2, into2)
    ensures out == out2 && into == into2
  {
    hide IfName, Network, SameLan, Unique, Lookup, LogAt, HasAddress, HostEnd, Across;
    IfNameInjective(out, out2);
    var next := Lookup(LogAt(w, out.node), src, dst).value.next;
    AddressesOnHosts(w, into, next, links);
    AddressesOnHosts(w, into2, next, links);
    LansArePairs(links, out, into);
    LansArePairs(links, out, into2);
    AcrossOne(links, out, into, into2);
  }
}
