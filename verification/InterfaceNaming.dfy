/** The wiring of the multi-interface network against the interface names the configuration uses. */
module InterfaceNaming {
  import opened Text
  import opened TopoBuilder
  import opened MultiInterface
  import opened Wiring
  import LinkOrder
  import Bottleneck

  /** The links in the order in which they are built. */
  function Built(links: seq<Link>): seq<Link> {
    C2r(links) + R2s(links)
  }

  function LeftEnd(links: seq<Link>, g: nat): End {
    if g < |C2r(links)| then End(ClientName(0), g) else End(RouterName(0), g)
  }

  function RightEnd(links: seq<Link>, g: nat): End {
    if g < |C2r(links)| then End(RouterName(0), g) else End(ServerName(0), g - |C2r(links)|)
  }

  // ------------------------------------------------------------ the links of one type

  lemma {:induction false} OfTypeFrom(links: seq<Link>, t: string, g: nat) returns (h: nat)
    requires g < |LinkOrder.OfType(links, t)|
    ensures h < |links| && links[h] == LinkOrder.OfType(links, t)[g] && links[h].linkType == t
    decreases |links|
  {
    var front := LinkOrder.OfType(links[..|links| - 1], t);
    if g < |front| {
      h := OfTypeFrom(links[..|links| - 1], t, g);
    } else {
      h := |links| - 1;
    }
  }

  lemma {:induction false} OfTypeUnique(links: seq<Link>, t: string)
    requires Unique(links)
    ensures Unique(LinkOrder.OfType(links, t))
    decreases |links|
  {
    if links != [] {
      var front, last := LinkOrder.OfType(links[..|links| - 1], t), links[|links| - 1];
      OfTypeUnique(links[..|links| - 1], t);
      forall g | 0 <= g < |front|
        ensures !(front[g].linkType == last.linkType && front[g].id == last.id)
      {
        var h := OfTypeFrom(links[..|links| - 1], t, g);
      }
    }
  }

  lemma BuiltUnique(links: seq<Link>)
    requires Unique(links)
    ensures Unique(C2r(links)) && Unique(R2s(links)) && Unique(Built(links))
  {
    hide LinkOrder.OfType;
    OfTypeUnique(links, "c2r");
    OfTypeUnique(links, "r2s");
    forall g, h | 0 <= g < |C2r(links)| && 0 <= h < |R2s(links)|
      ensures C2r(links)[g].linkType != R2s(links)[h].linkType
    {
      var a := OfTypeFrom(links, "c2r", g);
      var b := OfTypeFrom(links, "r2s", h);
    }
  }

  // ------------------------------------------------------------ the cables

  lemma HostsStart(x: string)
    ensures x in Hosts().next <==> x in {ClientName(0), RouterName(0), ServerName(0)}
    ensures NextPort(Hosts(), x) == 0 && BaseAt(Hosts(), x) == HOST_BASE && Hosts().cables == []
    ensures Hosts().base.Keys == Hosts().next.Keys
  {
  }

  lemma HostIsNotOwn(l: Link, x: string)
    requires Own(l, x)
    ensures forall i :: x != ClientName(i) && x != ServerName(i) && x != RouterName(i)
  {
    hide BsName, ClientName, ServerName, RouterName;
    forall i
      ensures x != ClientName(i) && x != ServerName(i) && x != RouterName(i)
    {
      SwitchIsNoHost(l, 0, i);
      SwitchIsNoHost(l, 1, i);
      SwitchIsNoHost(l, 2, i);
      SwitchIsNoHost(l, 3, i);
    }
  }

  lemma HostsFresh(ls: seq<Link>)
    ensures AllFresh(Hosts(), ls)
  {
    hide BsName, ClientName, ServerName, RouterName, Own, Fresh, Hosts;
    forall g | 0 <= g < |ls|
      ensures Fresh(Hosts(), ls[g])
    {
      forall x | Own(ls[g], x)
        ensures x !in Hosts().next
      {
        HostIsNotOwn(ls[g], x);
        HostsStart(x);
      }
      FreshFrom(Hosts(), ls[g]);
    }
  }

  /** The net when the links between client and router are in. */
  function Half(links: seq<Link>): Net {
    AddAll(Hosts(), ClientName(0), RouterName(0), C2r(links))
  }

  lemma HalfAt(links: seq<Link>, x: string)
    requires Unique(links)
    ensures x in Half(links).next <==> x in {ClientName(0), RouterName(0), ServerName(0)} || OwnSome(C2r(links), x)
    ensures BaseAt(Half(links), x) == if OwnSome(C2r(links), x) then SWITCH_BASE else HOST_BASE
    ensures x in {ClientName(0), RouterName(0)} ==> NextPort(Half(links), x) == |C2r(links)|
    ensures x == ServerName(0) ==> NextPort(Half(links), x) == 0
    ensures OwnSome(C2r(links), x) ==> NextPort(Half(links), x) == 3
  {
    hide BsName, ClientName, ServerName, RouterName, Own, Fresh, Hosts, LinkOrder.OfType, Unique, OwnSome, NextPort, BaseAt, AddAll;
    BuiltUnique(links);
    HostsFresh(C2r(links));
    HostsStart(x);
    HostsStart(ClientName(0));
    HostsStart(RouterName(0));
    HostNamesDiffer(0, 0);
    AllAdd(Hosts(), ClientName(0), RouterName(0), C2r(links), x);
    if x in Hosts().next {
      NotOwn(Hosts(), C2r(links), x);
    }
  }

  lemma OwnSomeAppend(a: seq<Link>, b: seq<Link>, x: string)
    ensures OwnSome(a + b, x) <==> OwnSome(a, x) || OwnSome(b, x)
  {
    hide Own;
    if g :| 0 <= g < |a| && Own(a[g], x) {
      assert (a + b)[g] == a[g];
    } else if g :| 0 <= g < |b| && Own(b[g], x) {
      assert (a + b)[|a| + g] == b[g];
    }
  }

  lemma OwnSide(links: seq<Link>, x: string)
    requires Unique(Built(links)) && OwnSome(R2s(links), x)
    ensures !OwnSome(C2r(links), x)
  {
    hide Own, LinkOrder.OfType;
    if OwnSome(C2r(links), x) {
      var g :| 0 <= g < |C2r(links)| && Own(C2r(links)[g], x);
      var h :| 0 <= h < |R2s(links)| && Own(R2s(links)[h], x);
      assert Built(links)[g] == C2r(links)[g] && Built(links)[|C2r(links)| + h] == R2s(links)[h];
      OwnersDiffer(C2r(links)[g], R2s(links)[h], x);
    }
  }

  lemma R2sFresh(links: seq<Link>)
    requires Unique(links)
    ensures AllFresh(Half(links), R2s(links))
  {
    hide BsName, ClientName, ServerName, RouterName, Own, Fresh, Half, LinkOrder.OfType, Unique, OwnSome;
    BuiltUnique(links);
    forall h | 0 <= h < |R2s(links)|
      ensures Fresh(Half(links), R2s(links)[h])
    {
      forall x | Own(R2s(links)[h], x)
        ensures x !in Half(links).next
      {
        assert OwnSome(R2s(links), x) by { SomeOwn(R2s(links), h, x); }
        OwnSide(links, x);
        HostIsNotOwn(R2s(links)[h], x);
        HalfAt(links, x);
      }
      FreshFrom(Half(links), R2s(links)[h]);
    }
  }

  lemma SomeOwn(links: seq<Link>, g: nat, x: string)
    requires g < |links| && Own(links[g], x)
    ensures OwnSome(links, x)
  {
  }

  /** Links between router and server, or the one direct cable. */
  function Far(links: seq<Link>): nat {
    if |R2s(links)| == 0 then 1 else |R2s(links)|
  }

  /** Nodes, their kinds and their numbers of ports in the whole network. */
  lemma NetworkAt(links: seq<Link>, x: string)
    requires Unique(links)
    ensures x in Network(links).next <==> x in {ClientName(0), RouterName(0), ServerName(0)} || OwnSome(Built(links), x)
    ensures BaseAt(Network(links), x) == if OwnSome(Built(links), x) then SWITCH_BASE else HOST_BASE
    ensures x == ClientName(0) ==> NextPort(Network(links), x) == |C2r(links)|
    ensures x == RouterName(0) ==> NextPort(Network(links), x) == |C2r(links)| + Far(links)
    ensures x == ServerName(0) ==> NextPort(Network(links), x) == Far(links)
    ensures OwnSome(Built(links), x) ==> NextPort(Network(links), x) == 3
  {
    hide BsName, ClientName, ServerName, RouterName, Own, Fresh, Hosts, C2r, R2s, Unique, OwnSome, NextPort, BaseAt, AddAll,
         Half, WithLink, AllFresh;
    BuiltUnique(links);
    HostNamesDiffer(0, 0);
    HalfAt(links, x);
    HalfAt(links, ServerName(0));
    HalfAt(links, RouterName(0));
    OwnSomeAppend(C2r(links), R2s(links), x);
    WholeIs(links);
    HostsAreNotC2r(links);
    if |R2s(links)| > 0 {
      R2sFresh(links);
      AllAdd(Half(links), RouterName(0), ServerName(0), R2s(links), x);
      if x in Half(links).next {
        NotOwn(Half(links), R2s(links), x);
      }
    } else {
      LinkAdds(Half(links), RouterName(0), ServerName(0), x);
      NoneOwn(x);
    }
  }

  lemma HostsAreNotC2r(links: seq<Link>)
    ensures !OwnSome(C2r(links), RouterName(0)) && !OwnSome(C2r(links), ServerName(0))
  {
    hide BsName, ClientName, ServerName, RouterName, LinkOrder.OfType;
    HostsFresh(C2r(links));
    HostsStart(RouterName(0));
    HostsStart(ServerName(0));
    NotOwn(Hosts(), C2r(links), RouterName(0));
    NotOwn(Hosts(), C2r(links), ServerName(0));
  }

  lemma WholeIs(links: seq<Link>)
    ensures Network(links) ==
            if |R2s(links)| > 0 then AddAll(Half(links), RouterName(0), ServerName(0), R2s(links))
            else WithLink(Half(links), RouterName(0), ServerName(0))
  {
    hide AddAll, C2r, R2s, Hosts, WithLink;
  }

  /** The cables of the network in the order in which they are laid. */
  function Cabling(links: seq<Link>): (cables: seq<Cable>)
    ensures |cables| == 5 * |Built(links)| + if R2s(links) == [] then 1 else 0
  {
    Blocks(C2r(links), ClientName(0), 0, RouterName(0), 0)
    + if R2s(links) == [] then [Cable(End(RouterName(0), |C2r(links)|), End(ServerName(0), 0))]
      else Blocks(R2s(links), RouterName(0), |C2r(links)|, ServerName(0), 0)
  }

  lemma NetworkCables(links: seq<Link>)
    requires Unique(links)
    ensures Network(links).cables == Cabling(links)
  {
    hide BsName, ClientName, ServerName, RouterName, Own, Fresh, Hosts, C2r, R2s, Unique, OwnSome, NextPort, BaseAt, AddAll,
         Half, WithLink, AllFresh, Blocks, Five;
    BuiltUnique(links);
    HostNamesDiffer(0, 0);
    HalfAt(links, ServerName(0));
    HalfAt(links, RouterName(0));
    WholeIs(links);
    HalfCables(links);
    if |R2s(links)| > 0 {
      R2sFresh(links);
      AllCables(Half(links), RouterName(0), ServerName(0), R2s(links));
    } else {
      LinkCable(Half(links), RouterName(0), ServerName(0));
    }
  }

  lemma HalfCables(links: seq<Link>)
    requires Unique(links)
    ensures Half(links).cables == Blocks(C2r(links), ClientName(0), 0, RouterName(0), 0)
  {
    hide BsName, ClientName, ServerName, RouterName, Own, Fresh, Hosts, LinkOrder.OfType, Unique, OwnSome, NextPort, BaseAt, AddAll, Blocks;
    BuiltUnique(links);
    HostsFresh(C2r(links));
    HostsStart(ClientName(0));
    HostsStart(RouterName(0));
    HostNamesDiffer(0, 0);
    AllCables(Hosts(), ClientName(0), RouterName(0), C2r(links));
  }

  /** Link g of the network joins its left and right end through its switches. */
  lemma CableAt(links: seq<Link>, g: nat, k: nat)
    requires g < |Built(links)| && k < 5
    ensures Cabling(links)[5 * g + k] == Five(Built(links)[g], LeftEnd(links, g), RightEnd(links, g))[k]
  {
    hide BsName, ClientName, ServerName, RouterName, C2r, R2s, Blocks, Five;
    var nc := |C2r(links)|;
    if g < nc {
      BlocksAt(C2r(links), ClientName(0), 0, RouterName(0), 0, g, k);
    } else {
      BlocksAt(R2s(links), RouterName(0), nc, ServerName(0), 0, g - nc, k);
      assert 5 * g + k == 5 * nc + (5 * (g - nc) + k);
    }
  }

  // ------------------------------------------------------------ what host ports face

  /** The net has the cabling of the links and possibly further cables, each with a host at one side. */
  ghost predicate Wired(n: Net, links: seq<Link>, extra: seq<Cable>) {
    && Unique(links) && n.cables == Cabling(links) + extra
    && (forall x :: IsSwitch(n, x) <==> OwnSome(Built(links), x))
    && forall i :: 0 <= i < |extra| ==> !IsSwitch(n, extra[i].left.node) || !IsSwitch(n, extra[i].right.node)
  }

  lemma NetworkIsWired(links: seq<Link>)
    requires Unique(links)
    ensures Wired(Network(links), links, [])
  {
    hide BsName, ClientName, ServerName, RouterName, Network, OwnSome, Cabling, Built, Unique;
    NetworkCables(links);
    forall x
      ensures IsSwitch(Network(links), x) <==> OwnSome(Built(links), x)
    {
      NetworkAt(links, x);
    }
  }

  /** End e is the left or right end of link g, and x the switch it is plugged into. */
  predicate PlugOf(links: seq<Link>, g: nat, e: End, x: string)
    requires g < |Built(links)|
  {
    (e == LeftEnd(links, g) && x == BsName(Built(links)[g], 0)) || (e == RightEnd(links, g) && x == BsName(Built(links)[g], 3))
  }

  predicate EndOf(links: seq<Link>, g: nat, e: End, y: End)
    requires g < |Built(links)|
  {
    PlugOf(links, g, e, y.node) && y.port == 2
  }

  predicate Direct(links: seq<Link>, e: End, y: End) {
    R2s(links) == []
    && ((e == End(RouterName(0), |C2r(links)|) && y == End(ServerName(0), 0))
        || (e == End(ServerName(0), 0) && y == End(RouterName(0), |C2r(links)|)))
  }

  lemma FiveSides(l: Link, from: End, to: End, k: nat, e: End, y: End)
    requires k < 5 && !Own(l, e.node)
    requires Five(l, from, to)[k] == Cable(e, y) || Five(l, from, to)[k] == Cable(y, e)
    ensures (e == from && y == End(BsName(l, 0), 2)) || (e == to && y == End(BsName(l, 3), 2))
  {
    hide BsName;
  }

  /** A cable at a host end belongs to that end's link, or is the direct one. */
  lemma CablingSides(links: seq<Link>, i: nat, e: End, y: End)
    requires i < |Cabling(links)| && !OwnSome(Built(links), e.node)
    requires Cabling(links)[i] == Cable(e, y) || Cabling(links)[i] == Cable(y, e)
    ensures Direct(links, e, y) || exists g :: 0 <= g < |Built(links)| && EndOf(links, g, e, y)
  {
    hide BsName, ClientName, ServerName, RouterName, C2r, R2s, Blocks, Five, OwnSome, EndOf, Own;
    if i < 5 * |Built(links)| {
      var g, k := i / 5, i % 5;
      CableAt(links, g, k);
      if Own(Built(links)[g], e.node) {
        SomeOwn(Built(links), g, e.node);
      }
      FiveSides(Built(links)[g], LeftEnd(links, g), RightEnd(links, g), k, e, y);
      assert EndOf(links, g, e, y) by { EndOfIs(links, g, e, y); }
    }
  }

  lemma EndOfIs(links: seq<Link>, g: nat, e: End, y: End)
    requires g < |Built(links)|
    requires (e == LeftEnd(links, g) && y == End(BsName(Built(links)[g], 0), 2))
             || (e == RightEnd(links, g) && y == End(BsName(Built(links)[g], 3), 2))
    ensures EndOf(links, g, e, y)
  {
  }

  lemma LinkCabled(n: Net, links: seq<Link>, extra: seq<Cable>, g: nat, k: nat)
    requires Wired(n, links, extra) && g < |Built(links)| && k < 5
    ensures var c := Five(Built(links)[g], LeftEnd(links, g), RightEnd(links, g))[k];
            Cabled(n, c.left, c.right)
  {
    hide BsName, ClientName, ServerName, RouterName, C2r, R2s, Blocks, Five, OwnSome, Unique, Cabling, Built, IsSwitch;
    CableAt(links, g, k);
    assert n.cables[5 * g + k] == Cabling(links)[5 * g + k];
  }

  lemma LinkIsChained(n: Net, links: seq<Link>, extra: seq<Cable>, g: nat)
    requires Wired(n, links, extra) && g < |Built(links)|
    ensures Chained(n, Built(links)[g])
  {
    hide BsName, ClientName, ServerName, RouterName, C2r, R2s, Wired, Cabled, LeftEnd, RightEnd, Built;
    var l := Built(links)[g];
    LinkCabled(n, links, extra, g, 0);
    LinkCabled(n, links, extra, g, 1);
    LinkCabled(n, links, extra, g, 2);
    assert Plugged(n, End(BsName(l, 0), 1), BsName(l, 1));
    assert Plugged(n, End(BsName(l, 1), 2), BsName(l, 2));
    assert Plugged(n, End(BsName(l, 2), 2), BsName(l, 3));
  }

  lemma HostsAreNotOwn(links: seq<Link>, i: nat)
    ensures !OwnSome(Built(links), ClientName(i)) && !OwnSome(Built(links), RouterName(i)) && !OwnSome(Built(links), ServerName(i))
  {
    hide BsName, ClientName, ServerName, RouterName, Built, Own;
    forall g | 0 <= g < |Built(links)|
      ensures !Own(Built(links)[g], ClientName(i)) && !Own(Built(links)[g], RouterName(i)) && !Own(Built(links)[g], ServerName(i))
    {
      forall x | Own(Built(links)[g], x)
        ensures x != ClientName(i) && x != RouterName(i) && x != ServerName(i)
      {
        HostIsNotOwn(Built(links)[g], x);
      }
    }
  }

  lemma CablingOneSide(n: Net, links: seq<Link>, extra: seq<Cable>, i: nat)
    requires Wired(n, links, extra) && i < |n.cables|
    ensures OneSide(n, Built(links), n.cables[i])
  {
    hide BsName, ClientName, ServerName, RouterName, C2r, R2s, Blocks, OwnSome, Unique, IsSwitch;
    HostsAreNotOwn(links, 0);
    if i < 5 * |Built(links)| {
      var g, k := i / 5, i % 5;
      CableAt(links, g, k);
      var c := n.cables[i];
      assert c == Five(Built(links)[g], LeftEnd(links, g), RightEnd(links, g))[k];
      if k < 3 {
        assert Own(Built(links)[g], c.left.node) && Own(Built(links)[g], c.right.node);
      }
    } else if i >= |Cabling(links)| {
      assert n.cables[i] == extra[i - |Cabling(links)|];
    }
  }

  lemma WiredIsBridging(n: Net, links: seq<Link>, extra: seq<Cable>)
    requires Wired(n, links, extra)
    ensures Bridging(n, Built(links))
  {
    hide Built, Cabling, OwnSome, IsSwitch, Chained, OneSide;
    forall i | 0 <= i < |n.cables|
      ensures OneSide(n, Built(links), n.cables[i])
    {
      CablingOneSide(n, links, extra, i);
    }
    forall g | 0 <= g < |Built(links)|
      ensures Chained(n, Built(links)[g])
    {
      LinkIsChained(n, links, extra, g);
    }
  }

  predicate Among(extra: seq<Cable>, e: End, y: End) {
    exists i :: 0 <= i < |extra| && (extra[i] == Cable(e, y) || extra[i] == Cable(y, e))
  }

  /** Whatever a host end is cabled to, it is by its link, by the direct cable, or by a further one. */
  lemma HostSides(n: Net, links: seq<Link>, extra: seq<Cable>, e: End, y: End)
    requires Wired(n, links, extra) && !OwnSome(Built(links), e.node) && Cabled(n, e, y)
    ensures Direct(links, e, y) || Among(extra, e, y) || exists g :: 0 <= g < |Built(links)| && EndOf(links, g, e, y)
  {
    hide BsName, ClientName, ServerName, RouterName, C2r, R2s, OwnSome, EndOf, Unique, IsSwitch, Cabling, Built, Direct;
    var i :| 0 <= i < |n.cables| && (n.cables[i] == Cable(e, y) || n.cables[i] == Cable(y, e));
    if i < |Cabling(links)| {
      CablingSides(links, i, e, y);
    } else {
      assert extra[i - |Cabling(links)|] == n.cables[i];
    }
  }

  lemma SidesCabled(n: Net, links: seq<Link>, extra: seq<Cable>, g: nat, e: End, y: End)
    requires Wired(n, links, extra) && g < |Built(links)| && EndOf(links, g, e, y)
    ensures Cabled(n, e, y)
  {
    hide BsName, ClientName, ServerName, RouterName, C2r, R2s, Wired, LeftEnd, RightEnd, Built;
    LinkCabled(n, links, extra, g, 3);
    LinkCabled(n, links, extra, g, 4);
  }

  lemma DirectCabled(n: Net, links: seq<Link>, extra: seq<Cable>, e: End, y: End)
    requires Wired(n, links, extra) && Direct(links, e, y)
    ensures Cabled(n, e, y)
  {
    hide BsName, ClientName, ServerName, RouterName, C2r, R2s, Blocks, OwnSome, Unique, IsSwitch;
    assert n.cables[|Cabling(links)| - 1] == Cabling(links)[|Cabling(links)| - 1];
  }

  lemma OwnerIs(links: seq<Link>, g: nat, h: nat, k: nat, j: nat)
    requires Unique(Built(links)) && g < |Built(links)| && h < |Built(links)|
    requires BsName(Built(links)[g], k) == BsName(Built(links)[h], j)
    ensures g == h && k == j
  {
    hide BsName, Built;
    BsNameInjective(Built(links)[g], k, Built(links)[h], j);
  }

  /** No further cable is at the end. */
  ghost predicate Apart(extra: seq<Cable>, e: End) {
    forall y: End :: !Among(extra, e, y)
  }

  ghost predicate HostEnd(links: seq<Link>, e: End) {
    !OwnSome(Built(links), e.node)
  }

  /** A host end meets switches only as the left or right end of a link. */
  lemma PluggedIff(n: Net, links: seq<Link>, extra: seq<Cable>, e: End, x: string)
    requires Wired(n, links, extra) && HostEnd(links, e) && Apart(extra, e) && OwnSome(Built(links), x)
    ensures Plugged(n, e, x) <==> exists g :: 0 <= g < |Built(links)| && PlugOf(links, g, e, x)
  {
    hide BsName, ClientName, ServerName, RouterName, C2r, R2s, OwnSome, Wired, Built, Cabled, LeftEnd, RightEnd, Among;
    if Plugged(n, e, x) {
      var p: nat :| Cabled(n, e, End(x, p));
      HostSides(n, links, extra, e, End(x, p));
      HostsAreNotOwn(links, 0);
    }
    if g :| 0 <= g < |Built(links)| && PlugOf(links, g, e, x) {
      SidesCabled(n, links, extra, g, e, End(x, 2));
    }
  }

  lemma AttachedIff(n: Net, links: seq<Link>, extra: seq<Cable>, e: End, g: nat)
    requires Wired(n, links, extra) && HostEnd(links, e) && Apart(extra, e) && g < |Built(links)|
    ensures Attached(n, e, Built(links)[g]) <==> e == LeftEnd(links, g) || e == RightEnd(links, g)
  {
    hide BsName, ClientName, ServerName, RouterName, C2r, R2s, OwnSome, Wired, Built, Plugged, LeftEnd, RightEnd, Apart, HostEnd, Unique;
    var l := Built(links)[g];
    assert Unique(Built(links)) by { WiredUnique(n, links, extra); }
    OwnOuter(links, g);
    PluggedIff(n, links, extra, e, BsName(l, 0));
    PluggedIff(n, links, extra, e, BsName(l, 3));
    forall h, k: nat, j: nat | 0 <= h < |Built(links)| && BsName(l, k) == BsName(Built(links)[h], j)
      ensures g == h && k == j
    {
      OwnerIs(links, g, h, k, j);
    }
    assert e == LeftEnd(links, g) ==> PlugOf(links, g, e, BsName(l, 0));
    assert e == RightEnd(links, g) ==> PlugOf(links, g, e, BsName(l, 3));
  }

  lemma WiredUnique(n: Net, links: seq<Link>, extra: seq<Cable>)
    requires Wired(n, links, extra)
    ensures Unique(Built(links))
  {
    BuiltUnique(links);
  }

  lemma OwnOuter(links: seq<Link>, g: nat)
    requires g < |Built(links)|
    ensures OwnSome(Built(links), BsName(Built(links)[g], 0)) && OwnSome(Built(links), BsName(Built(links)[g], 3))
  {
    hide BsName, Built;
    assert Own(Built(links)[g], BsName(Built(links)[g], 0)) && Own(Built(links)[g], BsName(Built(links)[g], 3));
  }

  lemma HostOuterOnly(n: Net, links: seq<Link>, extra: seq<Cable>, e: End)
    requires Wired(n, links, extra) && HostEnd(links, e) && Apart(extra, e)
    ensures OuterOnly(n, Built(links), e)
  {
    hide BsName, ClientName, ServerName, RouterName, C2r, R2s, Wired, Built, Plugged, LeftEnd, RightEnd, Apart, HostEnd, Unique, Own, OwnSome, Attached;
    WiredUnique(n, links, extra);
    forall g, x | 0 <= g < |Built(links)| && Own(Built(links)[g], x) && Plugged(n, e, x)
      ensures Attached(n, e, Built(links)[g])
    {
      SomeOwn(Built(links), g, x);
      PluggedIff(n, links, extra, e, x);
      var h :| 0 <= h < |Built(links)| && PlugOf(links, h, e, x);
      OuterOwn(Built(links)[h]);
      OwnersDiffer(Built(links)[g], Built(links)[h], x);
      SameOwner(Built(links), g, h);
      AttachedIff(n, links, extra, e, g);
    }
  }

  lemma OuterOwn(l: Link)
    ensures Own(l, BsName(l, 0)) && Own(l, BsName(l, 3))
  {
  }

  lemma SameOwner(links: seq<Link>, g: nat, h: nat)
    requires Unique(links) && g < |links| && h < |links|
    requires links[g].linkType == links[h].linkType && links[g].id == links[h].id
    ensures g == h
  {
  }

  // ------------------------------------------------------------ the network

  function ClientInterface(client: nat, i: nat): string {
    ClientName(client) + "-eth" + Dec(i)
  }

  function RouterInterfaceToClient(i: nat): string {
    RouterName(0) + "-eth" + Dec(i)
  }

  function RouterInterfaceToServer(nc: nat, j: nat): string {
    RouterInterfaceToClient(nc + j)
  }

  function ServerInterface(server: nat, j: nat): string {
    ServerName(server) + "-eth" + Dec(j)
  }

  /** The port with this name is plugged into the node, and into no other. */
  ghost predicate Faces(n: Net, ifname: string, node: string) {
    (exists e: End :: IfName(e) == ifname && Plugged(n, e, node))
    && forall e: End, x :: IfName(e) == ifname && Plugged(n, e, x) ==> x == node
  }

  lemma EndsDiffer(links: seq<Link>, g: nat, h: nat)
    ensures g != h ==> LeftEnd(links, g) != LeftEnd(links, h) && RightEnd(links, g) != RightEnd(links, h)
    ensures LeftEnd(links, g) != RightEnd(links, h)
  {
    hide ClientName, ServerName, RouterName, C2r;
    HostNamesDiffer(0, 0);
  }

  lemma LinkEndsAreHosts(links: seq<Link>, g: nat)
    ensures HostEnd(links, LeftEnd(links, g)) && HostEnd(links, RightEnd(links, g))
  {
    hide ClientName, ServerName, RouterName, C2r, Built, OwnSome;
    HostsAreNotOwn(links, 0);
  }

  lemma NothingApart(e: End)
    ensures Apart([], e)
  {
  }

  /** The two ends of a link face its outer switches and nothing else. */
  lemma EndFaces(links: seq<Link>, g: nat, e: End, x: string)
    requires Unique(links) && g < |Built(links)| && PlugOf(links, g, e, x)
    ensures Faces(Network(links), IfName(e), x)
  {
    hide BsName, ClientName, ServerName, RouterName, C2r, R2s, OwnSome, Wired, Cabled, LeftEnd, RightEnd, Built, Network,
         Apart, HostEnd, Unique, Among, IfName;
    var n := Network(links);
    NetworkIsWired(links);
    SidesCabled(n, links, [], g, e, End(x, 2));
    assert Plugged(n, e, x);
    LinkEndsAreHosts(links, g);
    forall d: End, y | IfName(d) == IfName(e) && Plugged(n, d, y)
      ensures y == x
    {
      IfNameInjective(d, e);
      var p: nat :| Cabled(n, e, End(y, p));
      assert !OwnSome(Built(links), e.node) by { HostEndIs(links, e); }
      HostSides(n, links, [], e, End(y, p));
      assert !Among([], e, End(y, p)) by { NothingAmong(e, End(y, p)); }
      EndIsNotDirect(links, g, e, x, End(y, p));
      var h :| 0 <= h < |Built(links)| && EndOf(links, h, e, End(y, p));
      EndsDiffer(links, g, h);
      EndsDiffer(links, h, g);
    }
  }

  lemma HostEndIs(links: seq<Link>, e: End)
    requires HostEnd(links, e)
    ensures !OwnSome(Built(links), e.node)
  {
  }

  lemma NothingAmong(e: End, y: End)
    ensures !Among([], e, y)
  {
  }

  lemma EndIsNotDirect(links: seq<Link>, g: nat, e: End, x: string, y: End)
    requires g < |Built(links)| && PlugOf(links, g, e, x)
    ensures !Direct(links, e, y)
  {
    hide BsName, ClientName, ServerName, RouterName, C2r, R2s;
    HostNamesDiffer(0, 0);
  }

  lemma DirectFaces(links: seq<Link>, e: End, y: End)
    requires Unique(links) && Direct(links, e, y)
    ensures Faces(Network(links), IfName(e), y.node)
  {
    hide BsName, ClientName, ServerName, RouterName, C2r, R2s, OwnSome, Wired, Cabled, LeftEnd, RightEnd, Built, Network,
         Unique, Among, IfName, PlugOf;
    var n := Network(links);
    NetworkIsWired(links);
    HostsAreNotOwn(links, 0);
    DirectCabled(n, links, [], e, y);
    assert Plugged(n, e, y.node);
    HostNamesDiffer(0, 0);
    forall d: End, z | IfName(d) == IfName(e) && Plugged(n, d, z)
      ensures z == y.node
    {
      IfNameInjective(d, e);
      var p: nat :| Cabled(n, e, End(z, p));
      HostSides(n, links, [], e, End(z, p));
      NothingAmong(e, End(z, p));
      forall h | 0 <= h < |Built(links)| && EndOf(links, h, e, End(z, p))
        ensures false
      {
        EndIsNotDirect(links, h, e, z, y);
      }
    }
  }

  lemma LinkNames(links: seq<Link>, g: nat)
    requires Unique(links) && g < |Built(links)|
    ensures Faces(Network(links), IfName(LeftEnd(links, g)), BsName(Built(links)[g], 0))
    ensures Faces(Network(links), IfName(RightEnd(links, g)), BsName(Built(links)[g], 3))
  {
    hide BsName, IfName, Network, Unique, Faces, LeftEnd, RightEnd, Built;
    EndFaces(links, g, LeftEnd(links, g), BsName(Built(links)[g], 0));
    EndFaces(links, g, RightEnd(links, g), BsName(Built(links)[g], 3));
  }

  /** For every list of links with unique type and id: the interface names that the configuration computes belong to
      the ports cabled to the link they are meant for. */
  lemma WiringMatchesNames(links: seq<Link>)
    requires Unique(links)
    ensures forall i: nat | i < |C2r(links)| ::
              Faces(Network(links), ClientInterface(0, i), BsName(C2r(links)[i], 0))
              && Faces(Network(links), RouterInterfaceToClient(i), BsName(C2r(links)[i], 3))
    ensures forall j: nat | j < |R2s(links)| ::
              Faces(Network(links), RouterInterfaceToServer(|C2r(links)|, j), BsName(R2s(links)[j], 0))
              && Faces(Network(links), ServerInterface(0, j), BsName(R2s(links)[j], 3))
    ensures |R2s(links)| == 0 ==>
              Faces(Network(links), RouterInterfaceToServer(|C2r(links)|, 0), ServerName(0))
              && Faces(Network(links), ServerInterface(0, 0), RouterName(0))
  {
    hide BsName, ClientName, ServerName, RouterName, C2r, R2s, Network, Unique, Faces;
    var nc := |C2r(links)|;
    forall i: nat | i < nc
      ensures Faces(Network(links), ClientInterface(0, i), BsName(C2r(links)[i], 0))
      ensures Faces(Network(links), RouterInterfaceToClient(i), BsName(C2r(links)[i], 3))
    {
      LinkNames(links, i);
    }
    forall j: nat | j < |R2s(links)|
      ensures Faces(Network(links), RouterInterfaceToServer(nc, j), BsName(R2s(links)[j], 0))
      ensures Faces(Network(links), ServerInterface(0, j), BsName(R2s(links)[j], 3))
    {
      LinkNames(links, nc + j);
    }
    if |R2s(links)| == 0 {
      DirectFaces(links, End(RouterName(0), nc), End(ServerName(0), 0));
      DirectFaces(links, End(ServerName(0), 0), End(RouterName(0), nc));
    }
  }

  /** The same with the names written out. */
  lemma WiringInFull(links: seq<Link>, i: nat)
    requires Unique(links)
    ensures i < |C2r(links)| ==>
              Faces(Network(links), "Client_0-eth" + Dec(i), "bs_c2r_" + Str(C2r(links)[i].id) + "_0")
              && Faces(Network(links), "Router_0-eth" + Dec(i), "bs_c2r_" + Str(C2r(links)[i].id) + "_3")
    ensures i < |R2s(links)| ==>
              Faces(Network(links), "Router_0-eth" + Dec(|C2r(links)| + i), "bs_r2s_" + Str(R2s(links)[i].id) + "_0")
              && Faces(Network(links), "Server_0-eth" + Dec(i), "bs_r2s_" + Str(R2s(links)[i].id) + "_3")
    ensures |R2s(links)| == 0 ==>
              Faces(Network(links), "Router_0-eth" + Dec(|C2r(links)|), "Server_0") && Faces(Network(links), "Server_0-eth0", "Router_0")
  {
    hide BsName, C2r, R2s, Network, Unique, Faces, ClientInterface, RouterInterfaceToClient, ServerInterface, Dec, Str;
    var nc := |C2r(links)|;
    WiringMatchesNames(links);
    TypesOfSides(links, i);
    InterfaceTexts(i);
    InterfaceTexts(nc + i);
    if i < nc {
      SwitchText(C2r(links)[i]);
    }
    if i < |R2s(links)| {
      SwitchText(R2s(links)[i]);
      assert RouterInterfaceToServer(nc, i) == "Router_0-eth" + Dec(nc + i);
    } else if |R2s(links)| == 0 {
      DirectInFull(links);
    }
  }

  lemma DirectInFull(links: seq<Link>)
    requires Unique(links) && |R2s(links)| == 0
    ensures Faces(Network(links), "Router_0-eth" + Dec(|C2r(links)|), "Server_0")
    ensures Faces(Network(links), "Server_0-eth0", "Router_0")
  {
    hide C2r, R2s, Network, Unique, Faces, ClientInterface, RouterInterfaceToClient, ServerInterface, ServerName, RouterName, Dec;
    WiringMatchesNames(links);
    InterfaceTexts(0);
    InterfaceTexts(|C2r(links)|);
    assert RouterInterfaceToServer(|C2r(links)|, 0) == "Router_0-eth" + Dec(|C2r(links)|);
  }

  lemma TypesOfSides(links: seq<Link>, g: nat)
    ensures g < |C2r(links)| ==> C2r(links)[g].linkType == "c2r"
    ensures g < |R2s(links)| ==> R2s(links)[g].linkType == "r2s"
  {
    if g < |C2r(links)| {
      var h := OfTypeFrom(links, "c2r", g);
    }
    if g < |R2s(links)| {
      var h := OfTypeFrom(links, "r2s", g);
    }
  }

  lemma SwitchText(l: Link)
    ensures BsName(l, 0) == "bs_" + l.linkType + "_" + Str(l.id) + "_0" && BsName(l, 3) == "bs_" + l.linkType + "_" + Str(l.id) + "_3"
    ensures l.linkType == "c2r" ==> BsName(l, 0) == "bs_c2r_" + Str(l.id) + "_0" && BsName(l, 3) == "bs_c2r_" + Str(l.id) + "_3"
    ensures l.linkType == "r2s" ==> BsName(l, 0) == "bs_r2s_" + Str(l.id) + "_0" && BsName(l, 3) == "bs_r2s_" + Str(l.id) + "_3"
  {
    assert DigitChar(0) == '0' && DigitChar(3) == '3';
    assert "bs_" + "c2r" + "_" == "bs_c2r_" && "bs_" + "r2s" + "_" == "bs_r2s_";
  }

  lemma InterfaceTexts(i: nat)
    ensures ClientInterface(0, i) == "Client_0-eth" + Dec(i) && RouterInterfaceToClient(i) == "Router_0-eth" + Dec(i)
    ensures ServerInterface(0, i) == "Server_0-eth" + Dec(i) && (i == 0 ==> "Server_0-eth" + Dec(i) == "Server_0-eth0")
    ensures ServerName(0) == "Server_0" && RouterName(0) == "Router_0"
  {
    assert DigitChar(0) == '0';
    assert Dec(0) == "0";
  }

  predicate Sides(links: seq<Link>, g: nat, a: End, b: End) {
    (a == LeftEnd(links, g) && b == RightEnd(links, g)) || (a == RightEnd(links, g) && b == LeftEnd(links, g))
  }

  /** The two host ports at the sides of one link, or of the direct cable. */
  ghost predicate Across(links: seq<Link>, a: End, b: End) {
    Direct(links, a, b) || exists g: nat :: g < |Built(links)| && Sides(links, g, a, b)
  }

  lemma AttachedPairs(n: Net, links: seq<Link>, a: End, b: End)
    requires Wired(n, links, []) && HostEnd(links, a) && HostEnd(links, b) && a != b
    ensures (exists g :: 0 <= g < |Built(links)| && Attached(n, a, Built(links)[g]) && Attached(n, b, Built(links)[g]))
            <==> exists g: nat :: g < |Built(links)| && Sides(links, g, a, b)
  {
    hide BsName, ClientName, ServerName, RouterName, C2r, R2s, OwnSome, Wired, Built, Plugged, LeftEnd, RightEnd, HostEnd, Unique,
         Apart, Attached;
    NothingApart(a);
    NothingApart(b);
    forall g: nat | g < |Built(links)|
      ensures Sides(links, g, a, b) <==> Attached(n, a, Built(links)[g]) && Attached(n, b, Built(links)[g])
    {
      AttachedIff(n, links, [], a, g);
      AttachedIff(n, links, [], b, g);
    }
  }

  lemma SwitchSide(links: seq<Link>, g: nat, e: End, y: End)
    requires g < |Built(links)| && EndOf(links, g, e, y)
    ensures OwnSome(Built(links), y.node)
  {
    hide BsName, Built, LeftEnd, RightEnd, OwnSome;
    OwnOuter(links, g);
  }

  lemma HostsCabled(links: seq<Link>, a: End, b: End)
    requires Unique(links) && HostEnd(links, a) && HostEnd(links, b)
    ensures Cabled(Network(links), a, b) <==> Direct(links, a, b)
  {
    hide BsName, ClientName, ServerName, RouterName, C2r, R2s, Wired, Cabled, Own, LeftEnd, RightEnd, Built, Network, Unique, Among;
    NetworkIsWired(links);
    if Cabled(Network(links), a, b) {
      HostSides(Network(links), links, [], a, b);
      NothingAmong(a, b);
      forall g | 0 <= g < |Built(links)| && EndOf(links, g, a, b)
        ensures false
      {
        SwitchSide(links, g, a, b);
      }
    }
    if Direct(links, a, b) {
      DirectCabled(Network(links), links, [], a, b);
    }
  }

  /** Through any number of switches, a host port reaches exactly the one at the other side of its link. */
  lemma LansArePairs(links: seq<Link>, a: End, b: End)
    requires Unique(links) && HostEnd(links, a) && HostEnd(links, b) && a != b
    ensures SameLan(Network(links), a, b) <==> Across(links, a, b)
  {
    hide BsName, Wired, Cabled, Attached, LeftEnd, RightEnd, Built, Network, Unique, Bridging, HostEnd, SameLan, Direct, Apart,
         OuterOnly, Sides;
    var n := Network(links);
    NetworkIsWired(links);
    WiredIsBridging(n, links, []);
    WiredUnique(n, links, []);
    NothingApart(a);
    NothingApart(b);
    HostOuterOnly(n, links, [], a);
    HostOuterOnly(n, links, [], b);
    LanIff(n, Built(links), a, b);
    HostsCabled(links, a, b);
    AttachedPairs(n, links, a, b);
  }

  /** Every port in use has exactly one cable, and every cable end is a port in use. */
  lemma NetworkIsValid(links: seq<Link>)
    ensures Valid(Network(links))
  {
    hide BsName, ClientName, ServerName, RouterName, C2r, R2s, Valid, AddAll;
    BareIsValid();
    AddNodeValid(Bare, ClientName(0), HOST_BASE);
    var n1 := WithNode(Bare, ClientName(0), HOST_BASE);
    AddNodeValid(n1, ServerName(0), HOST_BASE);
    AddNodeValid(WithNode(n1, ServerName(0), HOST_BASE), RouterName(0), HOST_BASE);
    AllValid(Hosts(), ClientName(0), RouterName(0), C2r(links));
    KeepsNode(Hosts(), ClientName(0), RouterName(0), C2r(links), ServerName(0));
    if |R2s(links)| > 0 {
      AllValid(Half(links), RouterName(0), ServerName(0), R2s(links));
    } else {
      AddLinkValid(Half(links), RouterName(0), ServerName(0));
    }
  }

  lemma {:induction false} KeepsNode(n: Net, from: string, to: string, links: seq<Link>, x: string)
    requires x in n.next
    ensures x in AddAll(n, from, to, links).next
    decreases |links|
  {
    hide BsName;
    if links != [] {
      KeepsNode(n, from, to, links[..|links| - 1], x);
    }
  }

  // ------------------------------------------------------------ the interfaces of the inner switches

  /** `get_interface_names`, the loopback left out. */
  function InterfaceNames(n: Net, node: string): seq<string>
    requires BaseAt(n, node) <= NextPort(n, node)
  {
    seq(NextPort(n, node) - BaseAt(n, node), k requires k >= 0 => IfName(End(node, BaseAt(n, node) + k)))
  }

  /** The first interface of an inner switch is towards the left of the link and the last towards its right, so the
      configuration gives each direction of each link one netem and one tbf. */
  lemma EveryLinkIsPlaced(links: seq<Link>, g: nat, r: Bottleneck.Roots, l: Bottleneck.Link)
    requires Unique(links) && g < |Built(links)|
    ensures var n, b := Network(links), Built(links)[g];
            var bs1, bs2 := BsName(b, 1), BsName(b, 2);
            && BaseAt(n, bs1) == 1 && NextPort(n, bs1) == 3 && BaseAt(n, bs2) == 1 && NextPort(n, bs2) == 3
            && Cabled(n, End(BsName(b, 0), 1), End(bs1, 1)) && Cabled(n, End(bs1, 2), End(bs2, 1)) && Cabled(n, End(bs2, 2), End(BsName(b, 3), 1))
            && var names1, names2 := InterfaceNames(n, bs1), InterfaceNames(n, bs2);
            && names1 == [IfName(End(bs1, 1)), IfName(End(bs1, 2))] && names2 == [IfName(End(bs2, 1)), IfName(End(bs2, 2))]
            && Bottleneck.BothWays(Bottleneck.ExecAll(r, Bottleneck.Configuration(l, names1, names2)), names1, names2)
  {
    hide BsName, Built, Network, Unique, IfName, OwnSome, Bottleneck.ExecAll, Bottleneck.Configuration, Bottleneck.OneEach;
    var n, b := Network(links), Built(links)[g];
    InnerOwn(links, g);
    NetworkAt(links, BsName(b, 1));
    NetworkAt(links, BsName(b, 2));
    NetworkIsWired(links);
    LinkCabled(n, links, [], g, 0);
    LinkCabled(n, links, [], g, 1);
    LinkCabled(n, links, [], g, 2);
    var names1, names2 := InterfaceNames(n, BsName(b, 1)), InterfaceNames(n, BsName(b, 2));
    PortsDiffer(BsName(b, 1));
    PortsDiffer(BsName(b, 2));
    Bottleneck.PlacedBothWays(r, l, names1, names2);
  }

  lemma PortsDiffer(node: string)
    ensures IfName(End(node, 1)) != IfName(End(node, 2))
  {
    if IfName(End(node, 1)) == IfName(End(node, 2)) {
      IfNameInjective(End(node, 1), End(node, 2));
    }
  }

  lemma InnerOwn(links: seq<Link>, g: nat)
    requires g < |Built(links)|
    ensures OwnSome(Built(links), BsName(Built(links)[g], 1)) && OwnSome(Built(links), BsName(Built(links)[g], 2))
  {
    hide BsName, Built;
    assert Own(Built(links)[g], BsName(Built(links)[g], 1)) && Own(Built(links)[g], BsName(Built(links)[g], 2));
  }
}
