/** The static ARP entries of the multi-interface topology: each names the port at the other side of a link, and every
    port has one for the port opposite. */
module NeighbourEntries {
  import opened Text
  import opened Routing
  import opened TopoBuilder
  import opened MultiInterface
  import opened Wiring
  import opened InterfaceNaming
  import opened MultiInterfaceConfig
  import opened PathSeparation

  /** The two prefixes as text and as octets. */
  datatype Prefixes = Prefixes(left: string, right: string, la: nat, lb: nat, ra: nat, rb: nat) {
    ghost predicate Valid() {
      IsPrefix(left, la, lb) && IsPrefix(right, ra, rb)
    }
  }

  /** The hosts configured for the links. */
  function Hosts3(links: seq<Link>, q: Prefixes): World {
    Configured(q.left, q.right, |C2r(links)|, |R2s(links)|)
  }

  /** Two ports on different hosts, on one LAN, with addresses of one network. */
  ghost predicate Opposite(links: seq<Link>, w: World, a: End, x: Ip, b: End, y: Ip) {
    && a.node != b.node && SameLan(Network(links), a, b) && SameNet(x, y)
    && HasAddress(w, a, x) && HasAddress(w, b, y)
  }

  /** The entry on a host names a port opposite one of the host's own, and that port has the address. */
  ghost predicate NamesPeer(links: seq<Link>, w: World, node: string, ip: string, ifname: string) {
    exists a: End, x: Ip, b: End, y: Ip ::
      a.node == node && Opposite(links, w, a, x, b, y) && ParseIp(ip) == Some(y) && ifname == IfName(b)
  }

  ghost predicate EntriesNamePeers(links: seq<Link>, w: World, node: string, log: Log) {
    forall k :: 0 <= k < |log| && log[k].Arp? ==> NamesPeer(links, w, node, log[k].ip, log[k].ifname)
  }

  /** The log has an entry for the port under the address. */
  ghost predicate HasEntry(log: Log, b: End, y: Ip) {
    exists k :: 0 <= k < |log| && log[k].Arp? && ParseIp(log[k].ip) == Some(y) && log[k].ifname == IfName(b)
  }

  // ------------------------------------------------------------ the ports of one link

  lemma ClientSide(links: seq<Link>, q: Prefixes, i: nat)
    requires Unique(links) && q.Valid() && i < |C2r(links)| && i < 256
    ensures var w, c, r := Hosts3(links, q), End(ClientName(0), i), End(RouterName(0), i);
            && Opposite(links, w, c, Ip(q.la, q.lb, i, 1), r, Ip(q.la, q.lb, i, 2))
            && Opposite(links, w, r, Ip(q.la, q.lb, i, 2), c, Ip(q.la, q.lb, i, 1))
  {
    hide ClientName, RouterName, ServerName, IsPrefix, Configured, HasAddress, EndHost, C2r, R2s, Network, SameLan, Unique, Addresses,
         NoRouting;
    var nc, ns := |C2r(links)|, |R2s(links)|;
    var w := Hosts3(links, q);
    HostNamesDiffer(0, 0);
    LansOfLinks(links, i);
    ClientIsEndHost(q.left, q.right, q.la, q.lb, nc, ns);
    ClientHas(w, q.la, q.lb, nc, i);
    RouterAddresses(q.left, q.right, q.la, q.lb, q.ra, q.rb, nc, ns);
    RouterHas(w, q.la, q.lb, q.ra, q.rb, nc, AtLeastOne(ns), i);
  }

  lemma ServerSide(links: seq<Link>, q: Prefixes, j: nat)
    requires Unique(links) && q.Valid() && j < AtLeastOne(|R2s(links)|) && j < 256
    ensures var w, r, s := Hosts3(links, q), End(RouterName(0), |C2r(links)| + j), End(ServerName(0), j);
            && Opposite(links, w, r, Ip(q.ra, q.rb, j, 2), s, Ip(q.ra, q.rb, j, 1))
            && Opposite(links, w, s, Ip(q.ra, q.rb, j, 1), r, Ip(q.ra, q.rb, j, 2))
  {
    hide ClientName, RouterName, ServerName, IsPrefix, Configured, HasAddress, EndHost, C2r, R2s, Network, SameLan, Unique, Addresses,
         NoRouting;
    var nc, ns := |C2r(links)|, |R2s(links)|;
    var w := Hosts3(links, q);
    HostNamesDiffer(0, 0);
    LansOfLinks(links, j);
    ServerIsEndHost(q.left, q.right, q.ra, q.rb, nc, ns);
    ServerHas(w, q.ra, q.rb, AtLeastOne(ns), ns, j);
    RouterAddresses(q.left, q.right, q.la, q.lb, q.ra, q.rb, nc, ns);
    RouterHas(w, q.la, q.lb, q.ra, q.rb, nc, AtLeastOne(ns), j);
  }

  lemma PeerNamed(links: seq<Link>, w: World, a: End, x: Ip, b: End, y: Ip, ip: string)
    requires Opposite(links, w, a, x, b, y) && ParseIp(ip) == Some(y)
    ensures NamesPeer(links, w, a.node, ip, IfName(b))
  {
  }

  /** The entries for the two ports of link i to the client. */
  lemma ClientSideEntries(links: seq<Link>, q: Prefixes, i: nat)
    requires Unique(links) && q.Valid() && i < |C2r(links)| && i < 256
    ensures NamesPeer(links, Hosts3(links, q), ClientName(0), Address(q.left, i, "2"), IfName(End(RouterName(0), i)))
    ensures NamesPeer(links, Hosts3(links, q), RouterName(0), Address(q.left, i, "1"), IfName(End(ClientName(0), i)))
  {
    hide ClientName, RouterName, IsPrefix, Opposite, C2r, Unique, ParseIp, Address, Dec, NamesPeer, Hosts3, IfName;
    ZeroText();
    AddressParses(q.left, q.la, q.lb, i, 1);
    AddressParses(q.left, q.la, q.lb, i, 2);
    ClientSide(links, q, i);
    var w, c, r := Hosts3(links, q), End(ClientName(0), i), End(RouterName(0), i);
    PeerNamed(links, w, c, Ip(q.la, q.lb, i, 1), r, Ip(q.la, q.lb, i, 2), Address(q.left, i, "2"));
    PeerNamed(links, w, r, Ip(q.la, q.lb, i, 2), c, Ip(q.la, q.lb, i, 1), Address(q.left, i, "1"));
  }

  /** And for those of link j to the server. */
  lemma ServerSideEntries(links: seq<Link>, q: Prefixes, j: nat)
    requires Unique(links) && q.Valid() && j < AtLeastOne(|R2s(links)|) && j < 256
    ensures NamesPeer(links, Hosts3(links, q), RouterName(0), Address(q.right, j, "1"), IfName(End(ServerName(0), j)))
    ensures NamesPeer(links, Hosts3(links, q), ServerName(0), Address(q.right, j, "2"), IfName(End(RouterName(0), |C2r(links)| + j)))
  {
    hide ClientName, RouterName, ServerName, IsPrefix, Opposite, C2r, R2s, Unique, ParseIp, Address, Dec, NamesPeer, Hosts3, IfName;
    ZeroText();
    AddressParses(q.right, q.ra, q.rb, j, 1);
    AddressParses(q.right, q.ra, q.rb, j, 2);
    ServerSide(links, q, j);
    var w, r, s := Hosts3(links, q), End(RouterName(0), |C2r(links)| + j), End(ServerName(0), j);
    PeerNamed(links, w, r, Ip(q.ra, q.rb, j, 2), s, Ip(q.ra, q.rb, j, 1), Address(q.right, j, "1"));
    PeerNamed(links, w, s, Ip(q.ra, q.rb, j, 1), r, Ip(q.ra, q.rb, j, 2), Address(q.right, j, "2"));
  }

  // ------------------------------------------------------------ the parts of the logs

  lemma EntriesAppend(links: seq<Link>, w: World, node: string, a: Log, b: Log)
    requires EntriesNamePeers(links, w, node, a) && EntriesNamePeers(links, w, node, b)
    ensures EntriesNamePeers(links, w, node, a + b)
  {
    hide NamesPeer;
  }

  lemma {:induction false} NoEntries(links: seq<Link>, w: World, h: string, node: string, prefix: string, host: string, n: nat)
    ensures EntriesNamePeers(links, w, h, Ups(node, prefix, host, n)) && EntriesNamePeers(links, w, h, Tables(node, prefix, n))
    decreases n
  {
    hide NamesPeer, IfName, Address;
    if n > 0 {
      NoEntries(links, w, h, node, prefix, host, n - 1);
    }
  }

  lemma {:induction false} ArpEntries(links: seq<Link>, w: World, h: string, prefix: string, host: string, node: string, n: nat)
    requires forall i: nat :: i < n ==> NamesPeer(links, w, h, Address(prefix, i, host), IfName(End(node, i)))
    ensures EntriesNamePeers(links, w, h, Arps(prefix, host, node, n))
    decreases n
  {
    hide NamesPeer, IfName, Address;
    if n > 0 {
      ArpEntries(links, w, h, prefix, host, node, n - 1);
    }
  }

  lemma {:induction false} FarEntries(links: seq<Link>, w: World, right: string, nc: nat, n: nat)
    requires forall j: nat :: j < n ==> NamesPeer(links, w, RouterName(0), Address(right, j, "1"), IfName(End(ServerName(0), j)))
    ensures EntriesNamePeers(links, w, RouterName(0), RouterFar(right, nc, n))
    decreases n
  {
    hide NamesPeer, IfName, Address, RouterInterfaceToServer, RouterName, ServerName, ServerInterface;
    if n > 0 {
      FarEntries(links, w, right, nc, n - 1);
      NamesOfEnds(nc, n - 1);
    }
  }

  lemma {:induction false} NearEntries(links: seq<Link>, w: World, right: string, nc: nat, n: nat)
    requires forall j: nat :: j < n ==> NamesPeer(links, w, ServerName(0), Address(right, j, "2"), IfName(End(RouterName(0), nc + j)))
    ensures EntriesNamePeers(links, w, ServerName(0), ServerNear(right, nc, n))
    decreases n
  {
    hide NamesPeer, IfName, Address, RouterInterfaceToServer, RouterName, ServerName, ServerInterface;
    if n > 0 {
      NearEntries(links, w, right, nc, n - 1);
      NamesOfEnds(nc, n - 1);
    }
  }

  lemma OneQuiet(links: seq<Link>, w: World, node: string, c: Command)
    requires !c.Arp?
    ensures EntriesNamePeers(links, w, node, [c])
  {
  }

  // ------------------------------------------------------------ every entry names a peer

  lemma ClientEntries(links: seq<Link>, q: Prefixes)
    requires Unique(links) && q.Valid() && |C2r(links)| <= 256
    ensures EntriesNamePeers(links, Hosts3(links, q), ClientName(0), Hosts3(links, q).client)
  {
    hide NamesPeer, Address, C2r, R2s, Unique, IsPrefix, ClientName, RouterName, EntriesNamePeers, Tables, Ups, Arps, IfName;
    var w, h, nc := Hosts3(links, q), ClientName(0), |C2r(links)|;
    forall i: nat | i < nc
      ensures NamesPeer(links, w, h, Address(q.left, i, "2"), IfName(End(RouterName(0), i)))
    {
      ClientSideEntries(links, q, i);
    }
    ArpEntries(links, w, h, q.left, "2", RouterName(0), nc);
    NoEntries(links, w, h, h, q.left, "1", nc);
    var ups, arps, tables := Ups(h, q.left, "1", nc), Arps(q.left, "2", RouterName(0), nc), Tables(h, q.left, nc);
    var last := GlobalDefault(RouterIpToClientSwitch(q.left, 0), ClientInterface(0, 0));
    OneQuiet(links, w, h, last);
    EntriesAppend(links, w, h, ups, arps);
    EntriesAppend(links, w, h, tables, [last]);
    EntriesAppend(links, w, h, ups + arps, tables + [last]);
  }

  lemma RouterEntries(links: seq<Link>, q: Prefixes)
    requires Unique(links) && q.Valid() && |C2r(links)| <= 256 && AtLeastOne(|R2s(links)|) <= 256
    ensures EntriesNamePeers(links, Hosts3(links, q), RouterName(0), Hosts3(links, q).router)
  {
    hide NamesPeer, Address, C2r, R2s, Unique, IsPrefix, ClientName, RouterName, ServerName, EntriesNamePeers, RouterFar, Ups, Arps, IfName;
    var w, h, nc, m := Hosts3(links, q), RouterName(0), |C2r(links)|, AtLeastOne(|R2s(links)|);
    forall i: nat | i < nc
      ensures NamesPeer(links, w, h, Address(q.left, i, "1"), IfName(End(ClientName(0), i)))
    {
      ClientSideEntries(links, q, i);
    }
    forall j: nat | j < m
      ensures NamesPeer(links, w, h, Address(q.right, j, "1"), IfName(End(ServerName(0), j)))
    {
      ServerSideEntries(links, q, j);
    }
    ArpEntries(links, w, h, q.left, "1", ClientName(0), nc);
    NoEntries(links, w, h, h, q.left, "2", nc);
    FarEntries(links, w, q.right, nc, m);
    var arps, ups := Arps(q.left, "1", ClientName(0), nc), Ups(h, q.left, "2", nc);
    EntriesAppend(links, w, h, arps, ups);
    EntriesAppend(links, w, h, arps + ups, RouterFar(q.right, nc, m));
  }

  lemma ServerEntries(links: seq<Link>, q: Prefixes)
    requires Unique(links) && q.Valid() && AtLeastOne(|R2s(links)|) <= 256
    ensures EntriesNamePeers(links, Hosts3(links, q), ServerName(0), Hosts3(links, q).server)
  {
    hide NamesPeer, Address, C2r, R2s, Unique, IsPrefix, RouterName, ServerName, EntriesNamePeers, ServerNear, Tables, IfName;
    var w, h, nc, m := Hosts3(links, q), ServerName(0), |C2r(links)|, AtLeastOne(|R2s(links)|);
    forall j: nat | j < m
      ensures NamesPeer(links, w, h, Address(q.right, j, "2"), IfName(End(RouterName(0), nc + j)))
    {
      ServerSideEntries(links, q, j);
    }
    NearEntries(links, w, q.right, nc, m);
    NoEntries(links, w, h, h, q.right, "1", |R2s(links)|);
    var tables, last := Tables(h, q.right, |R2s(links)|), SimpleDefault(RouterIpToServerSwitch(q.right, 0));
    OneQuiet(links, w, h, last);
    EntriesAppend(links, w, h, tables, [last]);
    EntriesAppend(links, w, h, ServerNear(q.right, nc, m), tables + [last]);
  }

  // ------------------------------------------------------------ and every port opposite has one

  lemma {:induction false} ArpsHave(prefix: string, host: string, node: string, n: nat, i: nat) returns (k: nat)
    requires i < n
    ensures k < |Arps(prefix, host, node, n)| && Arps(prefix, host, node, n)[k] == Arp(Address(prefix, i, host), IfName(End(node, i)))
    decreases n
  {
    hide IfName, Address;
    if i < n - 1 {
      k := ArpsHave(prefix, host, node, n - 1, i);
    } else {
      k := |Arps(prefix, host, node, n)| - 1;
    }
  }

  lemma {:induction false} FarHas(right: string, nc: nat, n: nat, j: nat) returns (k: nat)
    requires j < n
    ensures k < |RouterFar(right, nc, n)| && RouterFar(right, nc, n)[k] == Arp(Address(right, j, "1"), IfName(End(ServerName(0), j)))
    decreases n
  {
    hide IfName, Address, RouterInterfaceToServer, ServerName, ServerInterface;
    NamesOfEnds(nc, n - 1);
    if j < n - 1 {
      k := FarHas(right, nc, n - 1, j);
    } else {
      k := |RouterFar(right, nc, n)| - 1;
    }
  }

  lemma {:induction false} NearHas(right: string, nc: nat, n: nat, j: nat) returns (k: nat)
    requires j < n
    ensures k < |ServerNear(right, nc, n)| && ServerNear(right, nc, n)[k] == Arp(Address(right, j, "2"), IfName(End(RouterName(0), nc + j)))
    decreases n
  {
    hide IfName, Address, RouterInterfaceToServer, RouterName, ServerInterface, ServerName;
    NamesOfEnds(nc, n - 1);
    if j < n - 1 {
      k := NearHas(right, nc, n - 1, j);
    } else {
      k := |ServerNear(right, nc, n)| - 2;
    }
  }

  lemma EntryAt(log: Log, k: nat, b: End, y: Ip)
    requires k < |log| && log[k].Arp? && ParseIp(log[k].ip) == Some(y) && log[k].ifname == IfName(b)
    ensures HasEntry(log, b, y)
  {
  }

  lemma ClientSideHas(links: seq<Link>, q: Prefixes, i: nat)
    requires q.Valid() && i < |C2r(links)| && i < 256
    ensures HasEntry(Hosts3(links, q).client, End(RouterName(0), i), Ip(q.la, q.lb, i, 2))
    ensures HasEntry(Hosts3(links, q).router, End(ClientName(0), i), Ip(q.la, q.lb, i, 1))
  {
    hide ClientName, RouterName, IsPrefix, C2r, R2s, ParseIp, Address, Dec, IfName, HasEntry, Ups, Arps, Tables, RouterFar;
    var w, nc := Hosts3(links, q), |C2r(links)|;
    ZeroText();
    AddressParses(q.left, q.la, q.lb, i, 1);
    AddressParses(q.left, q.la, q.lb, i, 2);
    var k := ArpsHave(q.left, "2", RouterName(0), nc, i);
    EntryAt(w.client, |Ups(ClientName(0), q.left, "1", nc)| + k, End(RouterName(0), i), Ip(q.la, q.lb, i, 2));
    k := ArpsHave(q.left, "1", ClientName(0), nc, i);
    EntryAt(w.router, k, End(ClientName(0), i), Ip(q.la, q.lb, i, 1));
  }

  lemma ServerSideHas(links: seq<Link>, q: Prefixes, j: nat)
    requires q.Valid() && j < AtLeastOne(|R2s(links)|) && j < 256
    ensures HasEntry(Hosts3(links, q).router, End(ServerName(0), j), Ip(q.ra, q.rb, j, 1))
    ensures HasEntry(Hosts3(links, q).server, End(RouterName(0), |C2r(links)| + j), Ip(q.ra, q.rb, j, 2))
  {
    hide ClientName, RouterName, ServerName, IsPrefix, C2r, R2s, ParseIp, Address, Dec, IfName, HasEntry, Ups, Arps, Tables, RouterFar,
         ServerNear;
    var w, nc, m := Hosts3(links, q), |C2r(links)|, AtLeastOne(|R2s(links)|);
    ZeroText();
    AddressParses(q.right, q.ra, q.rb, j, 1);
    AddressParses(q.right, q.ra, q.rb, j, 2);
    var before := |Arps(q.left, "1", ClientName(0), nc) + Ups(RouterName(0), q.left, "2", nc)|;
    var k := FarHas(q.right, nc, m, j);
    EntryAt(w.router, before + k, End(ServerName(0), j), Ip(q.ra, q.rb, j, 1));
    k := NearHas(q.right, nc, m, j);
    EntryAt(w.server, k, End(RouterName(0), nc + j), Ip(q.ra, q.rb, j, 2));
  }

  /** Every port on the LAN of a host's port is known to the host under that port's address. */
  ghost predicate KnowsOpposite(links: seq<Link>, w: World, a: End, b: End) {
    exists y: Ip :: HasAddress(w, b, y) && HasEntry(LogAt(w, a.node), b, y)
  }

  lemma SideKnows(links: seq<Link>, q: Prefixes, g: nat)
    requires Unique(links) && q.Valid() && |C2r(links)| <= 256 && AtLeastOne(|R2s(links)|) <= 256
    requires g < |C2r(links)| + AtLeastOne(|R2s(links)|)
    ensures KnowsOpposite(links, Hosts3(links, q), LeftEnd(links, g), RightEnd(links, g))
    ensures KnowsOpposite(links, Hosts3(links, q), RightEnd(links, g), LeftEnd(links, g))
  {
    hide ClientName, RouterName, ServerName, IsPrefix, C2r, R2s, HasEntry, HasAddress, LogAt, Unique, SameLan, Network, Hosts3;
    var w, nc := Hosts3(links, q), |C2r(links)|;
    LogsAt(w);
    if g < nc {
      ClientSide(links, q, g);
      ClientSideHas(links, q, g);
    } else {
      ServerSide(links, q, g - nc);
      ServerSideHas(links, q, g - nc);
    }
  }

  lemma AcrossIsSide(links: seq<Link>, a: End, b: End) returns (g: nat)
    requires Across(links, a, b)
    ensures g < |C2r(links)| + AtLeastOne(|R2s(links)|) && Sides(links, g, a, b)
  {
    hide ClientName, RouterName, ServerName, C2r, R2s;
    if Direct(links, a, b) {
      g := |C2r(links)|;
    } else {
      g :| g < |Built(links)| && Sides(links, g, a, b);
    }
  }

  /** Beyond 256 links on a side, an entry's address is none. */
  lemma LateEntryFails(links: seq<Link>, q: Prefixes)
    requires q.Valid() && (|C2r(links)| > 256 || AtLeastOne(|R2s(links)|) > 256)
    ensures var w := Hosts3(links, q);
            !(EntriesNamePeers(links, w, ClientName(0), w.client) && EntriesNamePeers(links, w, RouterName(0), w.router))
  {
    hide ClientName, RouterName, ServerName, IsPrefix, C2r, R2s, ParseIp, Address, Dec, IfName, Ups, Arps, Tables, RouterFar, Opposite;
    var w, nc, m := Hosts3(links, q), |C2r(links)|, AtLeastOne(|R2s(links)|);
    ZeroText();
    if nc > 256 {
      AddressParses(q.left, q.la, q.lb, 256, 2);
      var k := ArpsHave(q.left, "2", RouterName(0), nc, 256);
      var at := |Ups(ClientName(0), q.left, "1", nc)| + k;
      assert w.client[at] == Arp(Address(q.left, 256, "2"), IfName(End(RouterName(0), 256)));
      assert !NamesPeer(links, w, ClientName(0), w.client[at].ip, w.client[at].ifname);
    } else {
      AddressParses(q.right, q.ra, q.rb, 256, 1);
      var before := |Arps(q.left, "1", ClientName(0), nc) + Ups(RouterName(0), q.left, "2", nc)|;
      var k := FarHas(q.right, nc, m, 256);
      assert w.router[before + k] == Arp(Address(q.right, 256, "1"), IfName(End(ServerName(0), 256)));
      assert !NamesPeer(links, w, RouterName(0), w.router[before + k].ip, w.router[before + k].ifname);
    }
  }

  /** For every list of unique links: every static ARP entry on client, router and server names a port opposite one of
      the host's own, which has the entry's address in the same network, exactly when there are at most 256 links on
      each side; and then each host has such an entry for every port opposite its own. */
  lemma EveryEntryNamesItsPeer(links: seq<Link>, q: Prefixes)
    requires Unique(links) && q.Valid()
    ensures var w := Hosts3(links, q);
            (EntriesNamePeers(links, w, ClientName(0), w.client) && EntriesNamePeers(links, w, RouterName(0), w.router)
             && EntriesNamePeers(links, w, ServerName(0), w.server))
            <==> |C2r(links)| <= 256 && |R2s(links)| <= 256
    ensures |C2r(links)| <= 256 && |R2s(links)| <= 256 ==>
              forall a: End, b: End ::
                HostEnd(links, a) && HostEnd(links, b) && a != b && SameLan(Network(links), a, b) ==>
                  KnowsOpposite(links, Hosts3(links, q), a, b)
  {
    hide EntriesNamePeers, C2r, R2s, Unique, IsPrefix, Hosts3, KnowsOpposite, Network, SameLan, HostEnd, Across, LeftEnd, RightEnd,
         ClientName, RouterName, ServerName;
    if |C2r(links)| <= 256 && |R2s(links)| <= 256 {
      ClientEntries(links, q);
      RouterEntries(links, q);
      ServerEntries(links, q);
      forall a: End, b: End | HostEnd(links, a) && HostEnd(links, b) && a != b && SameLan(Network(links), a, b)
        ensures KnowsOpposite(links, Hosts3(links, q), a, b)
      {
        LansArePairs(links, a, b);
        var g := AcrossIsSide(links, a, b);
        SideKnows(links, q, g);
      }
    } else {
      LateEntryFails(links, q);
    }
  }
}
