/** The multi-client extension: a congestion client on the LAN of every link, and a further server for each. */
module MultiClientTopo {
  import opened TopoBuilder
  import opened MultiInterface
  import opened Wiring
  import opened InterfaceNaming

  /** A client on the left switch of link i, and a server still without cable. */
  function AddPair(n: Net, l: Link, i: nat): Net {
    WithLink(WithNode(WithNode(n, ClientName(i + 1), HOST_BASE), ServerName(i + 1), HOST_BASE), ClientName(i + 1), BsName(l, 0))
  }

  function AddPairs(n: Net, ls: seq<Link>): Net {
    if ls == [] then n else AddPair(AddPairs(n, ls[..|ls| - 1]), ls[|ls| - 1], |ls| - 1)
  }

  /** Servers 1 to k joined to the router. */
  function JoinServers(n: Net, k: nat): Net {
    if k == 0 then n else WithLink(JoinServers(n, k - 1), RouterName(0), ServerName(k))
  }

  function Extended(links: seq<Link>): Net {
    JoinServers(AddPairs(Network(links), C2r(links)), |C2r(links)|)
  }

  class MultiInterfaceMultiClientTopo {
    const base: MultiInterfaceTopo

    constructor (builder: Builder, links: seq<Link>)
      requires builder.View() == Bare
      modifies builder
      ensures fresh(base) && base.builder == builder && base.links == links
      ensures builder.View() == Extended(links)
      ensures |base.clients| == |C2r(links)| + 1 && |base.servers| == |C2r(links)| + 1
      ensures forall i :: 0 <= i < |base.clients| ==> base.clients[i] == ClientName(i) && base.servers[i] == ServerName(i)
    {
      var topo := new MultiInterfaceTopo(builder, links);
      base := topo;
      new;
      hide Network, C2r, ClientName, ServerName, RouterName, BsName, AddPairs, JoinServers;
      AddCongestionPairs();
      JoinFurtherServers();
    }

    /** For each client-router link, a client, a server, and the client's cable. */
    method AddCongestionPairs()
      requires base.clients == [ClientName(0)] && base.servers == [ServerName(0)]
      requires MultiInterfaceTopo.Holds(base.c2rLinks, C2r(base.links)) && base.builder.View() == Network(base.links)
      modifies base`clients, base`servers, base.builder
      ensures base.builder.View() == AddPairs(Network(base.links), C2r(base.links))
      ensures |base.clients| == |C2r(base.links)| + 1 && |base.servers| == |C2r(base.links)| + 1
      ensures forall i :: 0 <= i < |base.clients| ==> base.clients[i] == ClientName(i) && base.servers[i] == ServerName(i)
    {
      hide Network, C2r, ClientName, ServerName, RouterName, BsName, WithLink, WithNode;
      var ls := C2r(base.links);
      for i := 0 to |base.c2rLinks|
        invariant base.c2rLinks == old(base.c2rLinks)
        invariant base.builder.View() == AddPairs(Network(base.links), ls[..i])
        invariant |base.clients| == i + 1 && |base.servers| == i + 1
        invariant forall k :: 0 <= k <= i ==> base.clients[k] == ClientName(k) && base.servers[k] == ServerName(k)
      {
        assert ls[..i + 1][..i] == ls[..i];
        var client := base.AddClient();
        var server := base.AddServer();
        base.builder.AddLink(client, base.c2rLinks[i].bs0);
      }
      assert ls[..|ls|] == ls;
    }

    /** And the router's cable to every server but the first. */
    method JoinFurtherServers()
      requires base.routers == [RouterName(0)] && |base.servers| == |C2r(base.links)| + 1
      requires forall i :: 0 <= i < |base.servers| ==> base.servers[i] == ServerName(i)
      modifies base.builder
      ensures base.builder.View() == JoinServers(old(base.builder.View()), |C2r(base.links)|)
    {
      hide C2r, ServerName, RouterName, WithLink;
      for k := 1 to |base.servers|
        invariant base.builder.View() == JoinServers(old(base.builder.View()), k - 1)
      {
        base.builder.AddLink(base.routers[0], base.servers[k]);
      }
    }
  }

  // ------------------------------------------------------------ the further cables

  /** Congestion client i + 1 on the third port of the left switch of link i. */
  function Congestion(links: seq<Link>): (cables: seq<Cable>)
    ensures |cables| == |C2r(links)|
    ensures forall i: nat :: i < |cables| ==> cables[i] == Cable(End(ClientName(i + 1), 0), End(BsName(C2r(links)[i], 0), 3))
  {
    seq(|C2r(links)|, i requires 0 <= i < |C2r(links)| => Cable(End(ClientName(i + 1), 0), End(BsName(C2r(links)[i], 0), 3)))
  }

  /** Server k + 1 on the k-th router port after those of the base topology. */
  function Further(links: seq<Link>): (cables: seq<Cable>)
    ensures |cables| == |C2r(links)|
    ensures forall k: nat :: k < |cables| ==>
              cables[k] == Cable(End(RouterName(0), |C2r(links)| + Far(links) + k), End(ServerName(k + 1), 0))
  {
    seq(|C2r(links)|, k requires k >= 0 => Cable(End(RouterName(0), |C2r(links)| + Far(links) + k), End(ServerName(k + 1), 0)))
  }

  function Extra(links: seq<Link>): seq<Cable> {
    Congestion(links) + Further(links)
  }

  lemma HostAdds(n: Net, name: string, x: string)
    requires BaseAt(n, name) == HOST_BASE
    ensures NextPort(WithNode(n, name, HOST_BASE), x) == NextPort(n, x)
    ensures BaseAt(WithNode(n, name, HOST_BASE), x) == BaseAt(n, x)
    ensures WithNode(n, name, HOST_BASE).cables == n.cables
  {
  }

  lemma PairAdds(n: Net, l: Link, i: nat, x: string)
    requires BaseAt(n, ClientName(i + 1)) == HOST_BASE && BaseAt(n, ServerName(i + 1)) == HOST_BASE
    ensures NextPort(AddPair(n, l, i), x) == NextPort(n, x) + One(x == ClientName(i + 1)) + One(x == BsName(l, 0))
    ensures BaseAt(AddPair(n, l, i), x) == BaseAt(n, x)
    ensures AddPair(n, l, i).cables == n.cables
              + [Cable(End(ClientName(i + 1), NextPort(n, ClientName(i + 1))), End(BsName(l, 0), NextPort(n, BsName(l, 0))))]
  {
    hide BsName, ClientName, ServerName, WithNode, WithLink, NextPort, BaseAt;
    var c, s, b := ClientName(i + 1), ServerName(i + 1), BsName(l, 0);
    SwitchIsNoHost(l, 0, i + 1);
    var n1 := WithNode(n, c, HOST_BASE);
    HostAdds(n, c, s);
    HostAdds(n, c, x);
    HostAdds(n, c, c);
    HostAdds(n, c, b);
    HostAdds(n1, s, x);
    HostAdds(n1, s, c);
    HostAdds(n1, s, b);
    LinkAdds(WithNode(n1, s, HOST_BASE), c, b, x);
    LinkCable(WithNode(n1, s, HOST_BASE), c, b);
  }

  lemma NetworkAtHosts(links: seq<Link>, i: nat)
    requires Unique(links)
    ensures NextPort(Network(links), ClientName(i + 1)) == 0 && BaseAt(Network(links), ClientName(i + 1)) == HOST_BASE
    ensures NextPort(Network(links), ServerName(i + 1)) == 0 && BaseAt(Network(links), ServerName(i + 1)) == HOST_BASE
  {
    hide BsName, ClientName, ServerName, RouterName, Unique, Network, OwnSome, BaseAt;
    HostsAreNotOwn(links, i + 1);
    HostNamesDiffer(i + 1, 0);
    HostNamesDiffer(0, i + 1);
    NetworkAt(links, ClientName(i + 1));
    NetworkAt(links, ServerName(i + 1));
  }

  /** Not a node that the first m pairs plug a cable into. */
  ghost predicate Untouched(links: seq<Link>, m: nat, x: string)
    requires m <= |C2r(links)|
  {
    forall k: nat :: 1 <= k <= m ==> x != ClientName(k) && x != BsName(C2r(links)[k - 1], 0)
  }

  /** Hosts keep their kind; the router and clients still to come keep their ports. */
  lemma {:induction false} PairsAdd(links: seq<Link>, m: nat, x: string)
    requires Unique(links) && m <= |C2r(links)|
    ensures BaseAt(AddPairs(Network(links), C2r(links)[..m]), x) == BaseAt(Network(links), x)
    ensures Untouched(links, m, x) ==> NextPort(AddPairs(Network(links), C2r(links)[..m]), x) == NextPort(Network(links), x)
    decreases m
  {
    hide BsName, ClientName, ServerName, C2r, Unique, Network, NextPort, BaseAt, AddPair;
    var ls := C2r(links);
    if m > 0 {
      assert ls[..m][..m - 1] == ls[..m - 1];
      PairsAdd(links, m - 1, x);
      PairsAdd(links, m - 1, ClientName(m));
      PairsAdd(links, m - 1, ServerName(m));
      NetworkAtHosts(links, m - 1);
      PairAdds(AddPairs(Network(links), ls[..m - 1]), ls[m - 1], m - 1, x);
      assert Untouched(links, m, x) ==> x != ClientName(m) && Untouched(links, m - 1, x);
    } else {
      assert ls[..0] == [];
    }
  }

  lemma LeftSwitchesDiffer(links: seq<Link>, i: nat, j: nat)
    requires Unique(links) && i < j < |C2r(links)|
    ensures BsName(C2r(links)[i], 0) != BsName(C2r(links)[j], 0)
  {
    hide BsName, C2r;
    BuiltUnique(links);
    if BsName(C2r(links)[i], 0) == BsName(C2r(links)[j], 0) {
      BsNameInjective(C2r(links)[i], 0, C2r(links)[j], 0);
    }
  }

  lemma LeftSwitchPort(links: seq<Link>, i: nat)
    requires Unique(links) && i < |C2r(links)|
    ensures NextPort(Network(links), BsName(C2r(links)[i], 0)) == 3
  {
    hide BsName, ClientName, ServerName, RouterName, C2r, R2s, Unique, Network, NextPort, BaseAt, OwnSome;
    OwnOuter(links, i);
    assert Built(links)[i] == C2r(links)[i];
    NetworkAt(links, BsName(C2r(links)[i], 0));
  }

  lemma NextPairUntouched(links: seq<Link>, m: nat)
    requires Unique(links) && m < |C2r(links)|
    ensures Untouched(links, m, ClientName(m + 1)) && Untouched(links, m, BsName(C2r(links)[m], 0))
  {
    hide BsName, ClientName, C2r, Unique;
    forall k: nat | 1 <= k <= m
      ensures ClientName(m + 1) != ClientName(k) && ClientName(m + 1) != BsName(C2r(links)[k - 1], 0)
      ensures BsName(C2r(links)[m], 0) != ClientName(k) && BsName(C2r(links)[m], 0) != BsName(C2r(links)[k - 1], 0)
    {
      HostNamesDiffer(m + 1, k);
      SwitchIsNoHost(C2r(links)[k - 1], 0, m + 1);
      SwitchIsNoHost(C2r(links)[m], 0, k);
      LeftSwitchesDiffer(links, k - 1, m);
    }
  }

  lemma {:induction false} PairsCables(links: seq<Link>, m: nat)
    requires Unique(links) && m <= |C2r(links)|
    ensures AddPairs(Network(links), C2r(links)[..m]).cables == Cabling(links) + Congestion(links)[..m]
    decreases m
  {
    hide BsName, ClientName, ServerName, C2r, Unique, Network, NextPort, BaseAt, AddPair, Cabling, Untouched;
    var ls := C2r(links);
    if m == 0 {
      assert ls[..0] == [];
      NetworkCables(links);
      assert Cabling(links) + [] == Cabling(links);
    } else {
      assert ls[..m][..m - 1] == ls[..m - 1];
      PairsCables(links, m - 1);
      var before, c, b := AddPairs(Network(links), ls[..m - 1]), ClientName(m), BsName(ls[m - 1], 0);
      NextPairUntouched(links, m - 1);
      PairsAdd(links, m - 1, c);
      PairsAdd(links, m - 1, b);
      PairsAdd(links, m - 1, ServerName(m));
      NetworkAtHosts(links, m - 1);
      LeftSwitchPort(links, m - 1);
      PairAdds(before, ls[m - 1], m - 1, c);
      assert Congestion(links)[..m] == Congestion(links)[..m - 1] + [Cable(End(c, 0), End(b, 3))];
    }
  }

  /** Joining servers takes one router port each. */
  lemma {:induction false} JoinAdds(n: Net, k: nat, x: string)
    ensures BaseAt(JoinServers(n, k), x) == BaseAt(n, x)
    ensures x == RouterName(0) ==> NextPort(JoinServers(n, k), x) == NextPort(n, x) + k
    ensures (forall j: nat :: j <= k ==> x != ServerName(j)) && x != RouterName(0) ==> NextPort(JoinServers(n, k), x) == NextPort(n, x)
    decreases k
  {
    hide ServerName, RouterName, NextPort, BaseAt, WithLink;
    if k > 0 {
      JoinAdds(n, k - 1, x);
      LinkAdds(JoinServers(n, k - 1), RouterName(0), ServerName(k), x);
      HostNamesDiffer(k, 0);
    }
  }

  /** No server above the first has a cable yet. */
  ghost predicate Unjoined(n: Net) {
    forall k: nat :: k > 0 ==> NextPort(n, ServerName(k)) == 0
  }

  lemma UnjoinedAfter(n: Net, k: nat)
    requires Unjoined(n) && k > 0
    ensures NextPort(JoinServers(n, k - 1), ServerName(k)) == 0
  {
    hide ServerName, RouterName, BaseAt, JoinServers;
    forall j: nat | j <= k - 1
      ensures ServerName(k) != ServerName(j)
    {
      HostNamesDiffer(k, j);
    }
    HostNamesDiffer(k, 0);
    JoinAdds(n, k - 1, ServerName(k));
  }

  lemma {:induction false} JoinCables(links: seq<Link>, n: Net, k: nat)
    requires k <= |C2r(links)| && NextPort(n, RouterName(0)) == |C2r(links)| + Far(links) && Unjoined(n)
    ensures JoinServers(n, k).cables == n.cables + Further(links)[..k]
    decreases k
  {
    hide ServerName, RouterName, C2r, NextPort, BaseAt, WithLink, Far, Unjoined;
    if k > 0 {
      JoinCables(links, n, k - 1);
      HostNamesDiffer(k, 0);
      JoinAdds(n, k - 1, RouterName(0));
      UnjoinedAfter(n, k);
      LinkCable(JoinServers(n, k - 1), RouterName(0), ServerName(k));
      assert Further(links)[..k] ==
        Further(links)[..k - 1] + [Cable(End(RouterName(0), |C2r(links)| + Far(links) + (k - 1)), End(ServerName(k), 0))];
    } else {
      assert n.cables + [] == n.cables;
    }
  }

  lemma HostsUntouched(links: seq<Link>, k: nat)
    ensures Untouched(links, |C2r(links)|, RouterName(0)) && Untouched(links, |C2r(links)|, ServerName(k))
  {
    hide BsName, ClientName, ServerName, RouterName, C2r;
    forall j: nat | 1 <= j <= |C2r(links)|
      ensures RouterName(0) != ClientName(j) && RouterName(0) != BsName(C2r(links)[j - 1], 0)
      ensures ServerName(k) != ClientName(j) && ServerName(k) != BsName(C2r(links)[j - 1], 0)
    {
      HostNamesDiffer(j, 0);
      HostNamesDiffer(j, k);
      SwitchIsNoHost(C2r(links)[j - 1], 0, 0);
      SwitchIsNoHost(C2r(links)[j - 1], 0, k);
    }
  }

  lemma PairsUnjoined(links: seq<Link>)
    requires Unique(links)
    ensures Unjoined(AddPairs(Network(links), C2r(links)))
  {
    hide BsName, ClientName, ServerName, RouterName, C2r, Unique, Network, NextPort, BaseAt, AddPairs, Untouched;
    assert C2r(links)[..|C2r(links)|] == C2r(links);
    forall k: nat | k > 0
      ensures NextPort(AddPairs(Network(links), C2r(links)), ServerName(k)) == 0
    {
      HostsUntouched(links, k);
      PairsAdd(links, |C2r(links)|, ServerName(k));
      NetworkAtHosts(links, k - 1);
    }
  }

  lemma ExtendedCables(links: seq<Link>)
    requires Unique(links)
    ensures Extended(links).cables == Cabling(links) + Extra(links)
  {
    hide BsName, ClientName, ServerName, RouterName, C2r, R2s, Unique, Network, NextPort, BaseAt, AddPairs, JoinServers, Cabling,
         OwnSome, Far, Untouched, Unjoined;
    var nc := |C2r(links)|;
    assert C2r(links)[..nc] == C2r(links) && Congestion(links)[..nc] == Congestion(links) && Further(links)[..nc] == Further(links);
    PairsCables(links, nc);
    HostsUntouched(links, 0);
    PairsAdd(links, nc, RouterName(0));
    NetworkAt(links, RouterName(0));
    PairsUnjoined(links);
    JoinCables(links, AddPairs(Network(links), C2r(links)), nc);
  }

  /** The extended network is the base cabling and the further cables, each at a host. */
  lemma ExtendedIsWired(links: seq<Link>)
    requires Unique(links)
    ensures Wired(Extended(links), links, Extra(links))
  {
    hide BsName, ClientName, ServerName, RouterName, C2r, R2s, Unique, Network, NextPort, AddPairs, JoinServers, Cabling, OwnSome,
         Built;
    ExtendedCables(links);
    var n, nc := Extended(links), |C2r(links)|;
    assert C2r(links)[..nc] == C2r(links);
    forall x
      ensures IsSwitch(n, x) <==> OwnSome(Built(links), x)
    {
      NetworkAt(links, x);
      PairsAdd(links, nc, x);
      JoinAdds(AddPairs(Network(links), C2r(links)), nc, x);
    }
    forall i | 0 <= i < |Extra(links)|
      ensures !IsSwitch(n, Extra(links)[i].left.node) || !IsSwitch(n, Extra(links)[i].right.node)
    {
      if i < nc {
        assert Extra(links)[i] == Congestion(links)[i];
        HostsAreNotOwn(links, i + 1);
      } else {
        assert Extra(links)[i] == Further(links)[i - nc];
        HostsAreNotOwn(links, i - nc + 1);
      }
    }
  }

  // ------------------------------------------------------------ the LANs of the extended network

  /** The host ports at a link: its two ends and, between client and router, the congestion client. */
  predicate AtLink(links: seq<Link>, g: nat, e: End) {
    e == LeftEnd(links, g) || e == RightEnd(links, g) || (g < |C2r(links)| && e == End(ClientName(g + 1), 0))
  }

  /** A server above the first and its router port. */
  predicate Joined(links: seq<Link>, a: End, b: End) {
    exists k: nat :: 1 <= k <= |C2r(links)| && b == End(ServerName(k), 0)
                     && a == End(RouterName(0), |C2r(links)| + Far(links) + k - 1)
  }

  /** Congestion client i + 1 and the switch port it is cabled to. */
  predicate CongestionAt(links: seq<Link>, i: nat, e: End, y: End)
    requires i < |C2r(links)|
  {
    e == End(ClientName(i + 1), 0) && y == End(BsName(C2r(links)[i], 0), 3)
  }

  lemma ExtraSides(links: seq<Link>, e: End, y: End)
    requires Among(Extra(links), e, y)
    ensures Joined(links, e, y) || Joined(links, y, e)
            || exists i: nat :: i < |C2r(links)| && (CongestionAt(links, i, e, y) || CongestionAt(links, i, y, e))
  {
    hide BsName, ClientName, ServerName, RouterName, C2r, Far;
    var i :| 0 <= i < |Extra(links)| && (Extra(links)[i] == Cable(e, y) || Extra(links)[i] == Cable(y, e));
    var nc := |C2r(links)|;
    if i < nc {
      assert Extra(links)[i] == Congestion(links)[i];
      assert CongestionAt(links, i, e, y) || CongestionAt(links, i, y, e);
    } else {
      var k := i - nc + 1;
      assert Extra(links)[i] == Further(links)[k - 1];
      assert 1 <= k <= nc;
      assert Extra(links)[i] == Cable(End(RouterName(0), nc + Far(links) + (k - 1)), End(ServerName(k), 0));
    }
  }

  lemma OuterIsOwn(links: seq<Link>, i: nat)
    requires i < |C2r(links)|
    ensures i < |Built(links)| && Built(links)[i] == C2r(links)[i] && OwnSome(Built(links), BsName(C2r(links)[i], 0))
  {
    hide BsName, C2r, R2s, OwnSome;
    OwnOuter(links, i);
  }

  lemma HostCables(links: seq<Link>, e: End, y: End)
    requires Unique(links) && HostEnd(links, e) && Cabled(Extended(links), e, y)
    ensures Direct(links, e, y) || Joined(links, e, y) || Joined(links, y, e)
            || (exists g: nat :: g < |Built(links)| && EndOf(links, g, e, y))
            || exists i: nat :: i < |C2r(links)| && CongestionAt(links, i, e, y)
  {
    hide BsName, ClientName, ServerName, RouterName, C2r, R2s, OwnSome, Wired, Cabled, EndOf, Extended, Unique, Among, Joined,
         Direct, Built, Extra;
    ExtendedIsWired(links);
    HostSides(Extended(links), links, Extra(links), e, y);
    if Among(Extra(links), e, y) {
      ExtraSides(links, e, y);
      forall i: nat | i < |C2r(links)| && CongestionAt(links, i, y, e)
        ensures false
      {
        OuterIsOwn(links, i);
      }
    }
  }

  lemma HostHostCables(links: seq<Link>, e: End, y: End)
    requires Direct(links, e, y) || Joined(links, e, y) || Joined(links, y, e)
    ensures HostEnd(links, e) && HostEnd(links, y)
  {
    hide BsName, ClientName, ServerName, RouterName, C2r, R2s, OwnSome, Built, Far;
    HostsAreNotOwn(links, 0);
    forall k: nat
      ensures !OwnSome(Built(links), ServerName(k))
    {
      HostsAreNotOwn(links, k);
    }
  }

  /** A host port meets switches only as its link's end or as a congestion client. */
  lemma HostPlugs(links: seq<Link>, e: End, x: string) returns (g: nat)
    requires Unique(links) && HostEnd(links, e) && Plugged(Extended(links), e, x) && OwnSome(Built(links), x)
    ensures g < |Built(links)| && AtLink(links, g, e) && (x == BsName(Built(links)[g], 0) || x == BsName(Built(links)[g], 3))
  {
    hide BsName, ClientName, ServerName, RouterName, C2r, R2s, OwnSome, Cabled, LeftEnd, RightEnd, Extended, Unique, Joined, Direct,
         Built;
    var p: nat :| Cabled(Extended(links), e, End(x, p));
    HostCables(links, e, End(x, p));
    if Direct(links, e, End(x, p)) || Joined(links, e, End(x, p)) || Joined(links, End(x, p), e) {
      HostHostCables(links, e, End(x, p));
      assert false;
    } else if h: nat :| h < |Built(links)| && EndOf(links, h, e, End(x, p)) {
      g := h;
    } else {
      var i: nat :| i < |C2r(links)| && CongestionAt(links, i, e, End(x, p));
      OuterIsOwn(links, i);
      g := i;
    }
  }

  lemma ExtraCabled(links: seq<Link>, i: nat)
    requires Unique(links) && i < |C2r(links)|
    ensures Cabled(Extended(links), End(ClientName(i + 1), 0), End(BsName(C2r(links)[i], 0), 3))
    ensures Cabled(Extended(links), End(RouterName(0), |C2r(links)| + Far(links) + i), End(ServerName(i + 1), 0))
  {
    hide BsName, ClientName, ServerName, RouterName, C2r, Far, Extended, Cabling, Unique;
    ExtendedCables(links);
    var n, base := Extended(links), |Cabling(links)|;
    assert n.cables[base + i] == Congestion(links)[i];
    assert n.cables[base + |C2r(links)| + i] == Further(links)[i];
  }

  /** Attached to a link means being at it. */
  lemma AttachedAtLink(links: seq<Link>, g: nat, e: End)
    requires Unique(links) && HostEnd(links, e) && g < |Built(links)|
    ensures Attached(Extended(links), e, Built(links)[g]) <==> AtLink(links, g, e)
  {
    hide BsName, ClientName, ServerName, RouterName, C2r, R2s, OwnSome, Cabled, LeftEnd, RightEnd, Extended, Unique, HostEnd, Plugged,
         Wired, Built;
    var n, l := Extended(links), Built(links)[g];
    BuiltUnique(links);
    OwnOuter(links, g);
    forall h: nat, k: nat, j: nat | h < |Built(links)| && BsName(l, k) == BsName(Built(links)[h], j)
      ensures g == h
    {
      OwnerIs(links, g, h, k, j);
    }
    if Plugged(n, e, BsName(l, 0)) {
      var h := HostPlugs(links, e, BsName(l, 0));
    } else if Plugged(n, e, BsName(l, 3)) {
      var h := HostPlugs(links, e, BsName(l, 3));
    }
    if AtLink(links, g, e) {
      AtLinkIsPlugged(links, g, e);
    }
  }

  lemma AtLinkIsPlugged(links: seq<Link>, g: nat, e: End)
    requires Unique(links) && g < |Built(links)| && AtLink(links, g, e)
    ensures Attached(Extended(links), e, Built(links)[g])
  {
    hide BsName, ClientName, ServerName, RouterName, C2r, R2s, Cabled, LeftEnd, RightEnd, Extended, Unique, Wired, Built;
    var n, l := Extended(links), Built(links)[g];
    ExtendedIsWired(links);
    if e == LeftEnd(links, g) {
      SidesCabled(n, links, Extra(links), g, e, End(BsName(l, 0), 2));
    } else if e == RightEnd(links, g) {
      SidesCabled(n, links, Extra(links), g, e, End(BsName(l, 3), 2));
    } else {
      ExtraCabled(links, g);
      OuterIsOwn(links, g);
    }
  }

  lemma ExtendedOuterOnly(links: seq<Link>, e: End)
    requires Unique(links) && HostEnd(links, e)
    ensures OuterOnly(Extended(links), Built(links), e)
  {
    hide BsName, AtLink, Extended, Unique, HostEnd, Plugged, Built, OwnSome, Attached, Own;
    BuiltUnique(links);
    forall g, x | 0 <= g < |Built(links)| && Own(Built(links)[g], x) && Plugged(Extended(links), e, x)
      ensures Attached(Extended(links), e, Built(links)[g])
    {
      SomeOwn(Built(links), g, x);
      var h := HostPlugs(links, e, x);
      OuterOwn(Built(links)[h]);
      OwnersDiffer(Built(links)[g], Built(links)[h], x);
      SameOwner(Built(links), g, h);
      AttachedAtLink(links, g, e);
    }
  }

  lemma HostsCabledExtended(links: seq<Link>, a: End, b: End)
    requires Unique(links) && HostEnd(links, a) && HostEnd(links, b)
    ensures Cabled(Extended(links), a, b) <==> Direct(links, a, b) || Joined(links, a, b) || Joined(links, b, a)
  {
    hide BsName, ClientName, ServerName, RouterName, C2r, R2s, Wired, Extended, Unique, OwnSome, Built, Far, EndOf;
    ExtendedIsWired(links);
    if Cabled(Extended(links), a, b) {
      HostCables(links, a, b);
      forall g: nat | g < |Built(links)| && EndOf(links, g, a, b)
        ensures false
      {
        SwitchSide(links, g, a, b);
      }
      forall i: nat | i < |C2r(links)| && CongestionAt(links, i, a, b)
        ensures false
      {
        OuterIsOwn(links, i);
      }
    } else if Direct(links, a, b) {
      DirectCabled(Extended(links), links, Extra(links), a, b);
    } else {
      if k: nat :| 1 <= k <= |C2r(links)| && b == End(ServerName(k), 0) && a == End(RouterName(0), |C2r(links)| + Far(links) + k - 1) {
        ExtraCabled(links, k - 1);
      } else if k: nat :| 1 <= k <= |C2r(links)| && a == End(ServerName(k), 0) && b == End(RouterName(0), |C2r(links)| + Far(links) + k - 1) {
        ExtraCabled(links, k - 1);
      }
    }
  }

  /** Two host ports of the extended network share a LAN exactly when they are at one link or cabled directly. */
  lemma ExtendedLans(links: seq<Link>, a: End, b: End)
    requires Unique(links) && HostEnd(links, a) && HostEnd(links, b)
    ensures SameLan(Extended(links), a, b) <==>
            Direct(links, a, b) || Joined(links, a, b) || Joined(links, b, a)
            || exists g: nat :: g < |Built(links)| && AtLink(links, g, a) && AtLink(links, g, b)
  {
    hide BsName, ClientName, ServerName, RouterName, C2r, R2s, Wired, Extended, Unique, HostEnd, Built, AtLink, Joined, Direct,
         Bridging, SameLan, OuterOnly, Attached, Cabled;
    var n := Extended(links);
    ExtendedIsWired(links);
    WiredIsBridging(n, links, Extra(links));
    BuiltUnique(links);
    ExtendedOuterOnly(links, a);
    ExtendedOuterOnly(links, b);
    LanIff(n, Built(links), a, b);
    HostsCabledExtended(links, a, b);
    forall g: nat | g < |Built(links)|
      ensures Attached(n, a, Built(links)[g]) <==> AtLink(links, g, a)
      ensures Attached(n, b, Built(links)[g]) <==> AtLink(links, g, b)
    {
      AttachedAtLink(links, g, a);
      AttachedAtLink(links, g, b);
    }
  }
}
