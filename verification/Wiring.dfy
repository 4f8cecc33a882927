/** The cables of the multi-interface topology: what each interface name faces, and which ports share a LAN. */
module Wiring {
  import opened TopoBuilder
  import opened MultiInterface

  // ------------------------------------------------------------ one link

  predicate Fresh(n: Net, l: Link) {
    BsName(l, 0) !in n.next && BsName(l, 1) !in n.next && BsName(l, 2) !in n.next && BsName(l, 3) !in n.next
  }

  /** A switch of the link. */
  predicate Own(l: Link, x: string) {
    x == BsName(l, 0) || x == BsName(l, 1) || x == BsName(l, 2) || x == BsName(l, 3)
  }

  function BaseAt(n: Net, x: string): nat {
    if x in n.base then n.base[x] else HOST_BASE
  }

  lemma SwitchNamesDiffer(l: Link)
    ensures BsName(l, 0) != BsName(l, 1) && BsName(l, 0) != BsName(l, 2) && BsName(l, 0) != BsName(l, 3)
    ensures BsName(l, 1) != BsName(l, 2) && BsName(l, 1) != BsName(l, 3) && BsName(l, 2) != BsName(l, 3)
  {
    hide BsName;
    forall j: nat, k: nat | BsName(l, j) == BsName(l, k)
      ensures j == k
    {
      BsNameInjective(l, j, l, k);
    }
  }

  function One(b: bool): nat {
    if b then 1 else 0
  }

  /** What a link adds, seen from any node. */
  lemma LinkAdds(n: Net, a: string, b: string, x: string)
    ensures BaseAt(WithLink(n, a, b), x) == BaseAt(n, x)
    ensures NextPort(WithLink(n, a, b), x) == NextPort(n, x) + One(x == a) + One(x == b)
    ensures x in WithLink(n, a, b).next <==> x in n.next || x == a || x == b
  {
  }

  lemma LinkCable(n: Net, a: string, b: string)
    requires a != b
    ensures WithLink(n, a, b).cables == n.cables + [Cable(End(a, NextPort(n, a)), End(b, NextPort(n, b)))]
  {
  }

  /** The four switches without cables. */
  function FourSwitches(n: Net, l: Link): Net {
    WithNode(WithNode(WithNode(WithNode(n, BsName(l, 0), SWITCH_BASE), BsName(l, 1), SWITCH_BASE),
                      BsName(l, 2), SWITCH_BASE), BsName(l, 3), SWITCH_BASE)
  }

  lemma SwitchesAdd(n: Net, l: Link, x: string)
    requires Fresh(n, l)
    ensures var m := FourSwitches(n, l);
            && m.cables == n.cables
            && (x in m.next <==> x in n.next || Own(l, x))
            && NextPort(m, x) == (if Own(l, x) then 1 else NextPort(n, x))
            && BaseAt(m, x) == (if Own(l, x) then SWITCH_BASE else BaseAt(n, x))
  {
    hide BsName;
    SwitchNamesDiffer(l);
  }

  lemma InnerAdds(n: Net, l: Link, x: string)
    requires Fresh(n, l)
    ensures var m := Inner(n, l);
            && (x in m.next <==> x in n.next || Own(l, x))
            && NextPort(m, x) == (if x == BsName(l, 0) || x == BsName(l, 3) then 2 else if Own(l, x) then 3 else NextPort(n, x))
            && BaseAt(m, x) == (if Own(l, x) then SWITCH_BASE else BaseAt(n, x))
  {
    hide BsName, WithNode, WithLink, NextPort, BaseAt;
    SwitchesAdd(n, l, x);
    SwitchNamesDiffer(l);
    var b0, b1, b2, b3 := BsName(l, 0), BsName(l, 1), BsName(l, 2), BsName(l, 3);
    var n3 := FourSwitches(n, l);
    var m0 := WithLink(n3, b0, b1);
    var m1 := WithLink(m0, b1, b2);
    LinkAdds(n3, b0, b1, x);
    LinkAdds(m0, b1, b2, x);
    LinkAdds(m1, b2, b3, x);
  }

  lemma InnerCables(n: Net, l: Link)
    requires Fresh(n, l)
    ensures Inner(n, l).cables == n.cables + Five(l, End("", 0), End("", 0))[..3]
  {
    hide BsName, WithNode, WithLink, NextPort, BaseAt;
    SwitchNamesDiffer(l);
    var b0, b1, b2, b3 := BsName(l, 0), BsName(l, 1), BsName(l, 2), BsName(l, 3);
    var n3 := FourSwitches(n, l);
    SwitchesAdd(n, l, b0);
    SwitchesAdd(n, l, b1);
    SwitchesAdd(n, l, b2);
    SwitchesAdd(n, l, b3);
    var m0 := WithLink(n3, b0, b1);
    var m1 := WithLink(m0, b1, b2);
    LinkCable(n3, b0, b1);
    LinkAdds(n3, b0, b1, b1);
    LinkAdds(n3, b0, b1, b2);
    LinkAdds(n3, b0, b1, b3);
    LinkCable(m0, b1, b2);
    LinkAdds(m0, b1, b2, b2);
    LinkAdds(m0, b1, b2, b3);
    LinkCable(m1, b2, b3);
  }

  /** A bottleneck link takes the next port of each end. */
  lemma BottleneckCables(n: Net, from: string, to: string, l: Link)
    requires from in n.next && to in n.next && from != to && Fresh(n, l)
    ensures AddBottleneck(n, from, to, l).cables == n.cables + Five(l, End(from, NextPort(n, from)), End(to, NextPort(n, to)))
  {
    hide BsName, Inner, WithLink, NextPort, BaseAt;
    InnerCables(n, l);
    InnerAdds(n, l, from);
    InnerAdds(n, l, to);
    InnerAdds(n, l, BsName(l, 0));
    InnerAdds(n, l, BsName(l, 3));
    SwitchNamesDiffer(l);
    var m0 := Inner(n, l);
    LinkCable(m0, from, BsName(l, 0));
    LinkAdds(m0, from, BsName(l, 0), BsName(l, 3));
    LinkAdds(m0, from, BsName(l, 0), to);
    LinkCable(WithLink(m0, from, BsName(l, 0)), BsName(l, 3), to);
  }

  /** It adds the four switches, two ports each, and one port to each end. */
  lemma BottleneckAdds(n: Net, from: string, to: string, l: Link, x: string)
    requires from in n.next && to in n.next && Fresh(n, l)
    ensures var m := AddBottleneck(n, from, to, l);
            && (x in m.next <==> x in n.next || Own(l, x))
            && NextPort(m, x) == (if Own(l, x) then 3 else NextPort(n, x) + One(x == from) + One(x == to))
            && BaseAt(m, x) == (if Own(l, x) then SWITCH_BASE else BaseAt(n, x))
  {
    hide BsName, Inner, WithLink, NextPort, BaseAt;
    InnerAdds(n, l, x);
    SwitchNamesDiffer(l);
    var m0 := Inner(n, l);
    LinkAdds(m0, from, BsName(l, 0), x);
    LinkAdds(WithLink(m0, from, BsName(l, 0)), BsName(l, 3), to, x);
  }

  // ------------------------------------------------------------ all links between two nodes

  /** No two links have the same type and id. */
  ghost predicate Unique(links: seq<Link>) {
    forall g, h :: 0 <= g < h < |links| ==> !(links[g].linkType == links[h].linkType && links[g].id == links[h].id)
  }

  ghost predicate AllFresh(n: Net, links: seq<Link>) {
    forall g :: 0 <= g < |links| ==> Fresh(n, links[g])
  }

  ghost predicate OwnSome(links: seq<Link>, x: string) {
    exists g :: 0 <= g < |links| && Own(links[g], x)
  }

  lemma OwnersDiffer(l: Link, m: Link, x: string)
    requires Own(l, x) && Own(m, x)
    ensures l.linkType == m.linkType && l.id == m.id
  {
    hide BsName;
    forall j: nat, k: nat | BsName(l, j) == BsName(m, k)
      ensures l.linkType == m.linkType && l.id == m.id
    {
      BsNameInjective(l, j, m, k);
    }
  }

  lemma FreshIsNotOwn(n: Net, l: Link, x: string)
    requires Fresh(n, l) && Own(l, x)
    ensures x !in n.next
  {
  }

  lemma FreshFrom(n: Net, l: Link)
    requires forall x :: Own(l, x) ==> x !in n.next
    ensures Fresh(n, l)
  {
    assert Own(l, BsName(l, 0)) && Own(l, BsName(l, 1)) && Own(l, BsName(l, 2)) && Own(l, BsName(l, 3));
  }

  lemma OwnSomeLast(links: seq<Link>, x: string)
    requires links != []
    ensures OwnSome(links, x) <==> OwnSome(links[..|links| - 1], x) || Own(links[|links| - 1], x)
  {
    hide Own;
    if OwnSome(links, x) {
      var g :| 0 <= g < |links| && Own(links[g], x);
      assert g < |links| - 1 ==> links[..|links| - 1][g] == links[g];
    }
    if OwnSome(links[..|links| - 1], x) {
      var g :| 0 <= g < |links| - 1 && Own(links[..|links| - 1][g], x);
      assert Own(links[g], x);
    }
  }

  /** What the links add, seen from any node x. */
  lemma {:induction false} AllAdd(n: Net, from: string, to: string, links: seq<Link>, x: string)
    requires from in n.next && to in n.next && from != to && AllFresh(n, links) && Unique(links)
    ensures var m := AddAll(n, from, to, links);
            && (x in m.next <==> x in n.next || OwnSome(links, x))
            && NextPort(m, x) == (if OwnSome(links, x) then 3
                                  else NextPort(n, x) + if x == from || x == to then |links| else 0)
            && BaseAt(m, x) == (if OwnSome(links, x) then SWITCH_BASE else BaseAt(n, x))
    decreases |links|, 1
  {
    hide BsName, AddBottleneck, NextPort, BaseAt, Own, Fresh, OwnSome;
    if links != [] {
      var front, l := links[..|links| - 1], links[|links| - 1];
      AllAdd(n, from, to, front, x);
      AllAdd(n, from, to, front, from);
      AllAdd(n, from, to, front, to);
      LastIsFresh(n, from, to, links);
      OwnSomeLast(links, x);
      OwnOnce(n, links, x, from, to);
      BottleneckAdds(AddAll(n, from, to, front), from, to, l, x);
    } else {
      NoneOwn(x);
    }
  }

  lemma NoneOwn(x: string)
    ensures !OwnSome([], x)
  {
  }

  lemma OwnOnce(n: Net, links: seq<Link>, x: string, from: string, to: string)
    requires AllFresh(n, links) && Unique(links) && links != [] && from in n.next && to in n.next
    ensures Own(links[|links| - 1], x) ==> !OwnSome(links[..|links| - 1], x)
    ensures OwnSome(links, x) ==> x !in n.next && x != from && x != to
  {
    hide Own, Fresh;
    if OwnSome(links, x) {
      var g :| 0 <= g < |links| && Own(links[g], x);
      FreshIsNotOwn(n, links[g], x);
    }
    if Own(links[|links| - 1], x) && OwnSome(links[..|links| - 1], x) {
      var g :| 0 <= g < |links| - 1 && Own(links[..|links| - 1][g], x);
      OwnersDiffer(links[g], links[|links| - 1], x);
    }
  }

  /** Unique links do not meet switches of earlier ones. */
  lemma {:induction false} LastIsFresh(n: Net, from: string, to: string, links: seq<Link>)
    requires from in n.next && to in n.next && from != to && AllFresh(n, links) && Unique(links) && links != []
    ensures Fresh(AddAll(n, from, to, links[..|links| - 1]), links[|links| - 1])
    decreases |links|, 0
  {
    hide BsName, AddAll, NextPort, BaseAt, Own, Fresh, OwnSome;
    var front, l := links[..|links| - 1], links[|links| - 1];
    forall x | Own(l, x)
      ensures x !in AddAll(n, from, to, front).next
    {
      OwnSomeLast(links, x);
      OwnOnce(n, links, x, from, to);
      AllAdd(n, from, to, front, x);
    }
    FreshFrom(AddAll(n, from, to, front), l);
  }

  /** Link g takes the g-th further port of each of the two nodes. */
  lemma {:induction false} AllCables(n: Net, from: string, to: string, links: seq<Link>)
    requires from in n.next && to in n.next && from != to && AllFresh(n, links) && Unique(links)
    ensures AddAll(n, from, to, links).cables == n.cables + Blocks(links, from, NextPort(n, from), to, NextPort(n, to))
    decreases |links|
  {
    hide BsName, AddBottleneck, NextPort, BaseAt, Own, Fresh, OwnSome, Five;
    if links != [] {
      var front, l := links[..|links| - 1], links[|links| - 1];
      var m := AddAll(n, from, to, front);
      AllCables(n, from, to, front);
      AllAdd(n, from, to, front, from);
      AllAdd(n, from, to, front, to);
      NotOwn(n, front, from);
      NotOwn(n, front, to);
      LastIsFresh(n, from, to, links);
      BottleneckCables(m, from, to, l);
    }
  }

  lemma NotOwn(n: Net, links: seq<Link>, x: string)
    requires AllFresh(n, links) && x in n.next
    ensures !OwnSome(links, x)
  {
    hide Own, Fresh;
    if OwnSome(links, x) {
      var g :| 0 <= g < |links| && Own(links[g], x);
      FreshIsNotOwn(n, links[g], x);
    }
  }

  lemma BottleneckValid(n: Net, from: string, to: string, l: Link)
    requires Valid(n) && from in n.next && to in n.next
    ensures var m := AddBottleneck(n, from, to, l); Valid(m) && from in m.next && to in m.next
  {
    hide BsName, Valid;
    var b0, b1, b2, b3 := BsName(l, 0), BsName(l, 1), BsName(l, 2), BsName(l, 3);
    AddNodeValid(n, b0, SWITCH_BASE);
    var n0 := WithNode(n, b0, SWITCH_BASE);
    AddNodeValid(n0, b1, SWITCH_BASE);
    var n1 := WithNode(n0, b1, SWITCH_BASE);
    AddNodeValid(n1, b2, SWITCH_BASE);
    var n2 := WithNode(n1, b2, SWITCH_BASE);
    AddNodeValid(n2, b3, SWITCH_BASE);
    var n3 := WithNode(n2, b3, SWITCH_BASE);
    AddLinkValid(n3, b0, b1);
    AddLinkValid(WithLink(n3, b0, b1), b1, b2);
    AddLinkValid(WithLink(WithLink(n3, b0, b1), b1, b2), b2, b3);
    AddLinkValid(Inner(n, l), from, b0);
    AddLinkValid(WithLink(Inner(n, l), from, b0), b3, to);
  }

  lemma {:induction false} AllValid(n: Net, from: string, to: string, links: seq<Link>)
    requires Valid(n) && from in n.next && to in n.next
    ensures var m := AddAll(n, from, to, links); Valid(m) && from in m.next && to in m.next
    decreases |links|
  {
    hide BsName, Valid, AddBottleneck;
    if links != [] {
      AllValid(n, from, to, links[..|links| - 1]);
      BottleneckValid(AddAll(n, from, to, links[..|links| - 1]), from, to, links[|links| - 1]);
    }
  }

  // ------------------------------------------------------------ LANs of bottleneck links

  /** A host port is plugged into an outer switch of the link. */
  ghost predicate Attached(n: Net, e: End, l: Link) {
    Plugged(n, e, BsName(l, 0)) || Plugged(n, e, BsName(l, 3))
  }

  /** Every cable has a host at one side or joins switches of one link, and the switches are those of the links. */
  ghost predicate Bridging(n: Net, links: seq<Link>) {
    && (forall x :: IsSwitch(n, x) <==> OwnSome(links, x))
    && (forall i :: 0 <= i < |n.cables| ==> OneSide(n, links, n.cables[i]))
    && forall g :: 0 <= g < |links| ==> Chained(n, links[g])
  }

  ghost predicate OneSide(n: Net, links: seq<Link>, c: Cable) {
    !IsSwitch(n, c.left.node) || !IsSwitch(n, c.right.node)
    || exists g :: 0 <= g < |links| && Own(links[g], c.left.node) && Own(links[g], c.right.node)
  }

  ghost predicate Chained(n: Net, l: Link) {
    Linked(n, BsName(l, 0), BsName(l, 1)) && Linked(n, BsName(l, 1), BsName(l, 2)) && Linked(n, BsName(l, 2), BsName(l, 3))
  }

  /** The number of the link a switch belongs to. */
  ghost function GroupOf(links: seq<Link>, x: string): (g: nat)
    ensures OwnSome(links, x) ==> g < |links| && Own(links[g], x)
  {
    if OwnSome(links, x) then
      var g :| 0 <= g < |links| && Own(links[g], x); g
    else |links|
  }

  lemma GroupIs(links: seq<Link>, x: string, g: nat)
    requires Unique(links) && g < |links| && Own(links[g], x)
    ensures GroupOf(links, x) == g
  {
    hide Own;
    assert OwnSome(links, x);
    var h := GroupOf(links, x);
    OwnersDiffer(links[g], links[h], x);
  }

  lemma LinksAreGroups(n: Net, links: seq<Link>)
    requires Bridging(n, links) && Unique(links)
    ensures Grouped(n, x => GroupOf(links, x))
  {
    hide Own, Unique, OwnSome, Chained, IsSwitch;
    forall i | 0 <= i < |n.cables| && IsSwitch(n, n.cables[i].left.node) && IsSwitch(n, n.cables[i].right.node)
      ensures GroupOf(links, n.cables[i].left.node) == GroupOf(links, n.cables[i].right.node)
    {
      assert OneSide(n, links, n.cables[i]);
      var c := n.cables[i];
      var g :| 0 <= g < |links| && Own(links[g], c.left.node) && Own(links[g], c.right.node);
      GroupIs(links, c.left.node, g);
      GroupIs(links, c.right.node, g);
    }
  }

  lemma LinkedBothWays(n: Net, a: string, b: string)
    requires Linked(n, a, b)
    ensures Linked(n, b, a)
  {
    var p: nat :| Plugged(n, End(a, p), b);
    var q: nat :| Cabled(n, End(a, p), End(b, q));
    assert Cabled(n, End(b, q), End(a, p));
    assert Plugged(n, End(b, q), a);
  }

  lemma OwnSwitches(n: Net, links: seq<Link>, g: nat)
    requires Bridging(n, links) && g < |links|
    ensures IsSwitch(n, BsName(links[g], 0)) && IsSwitch(n, BsName(links[g], 1))
    ensures IsSwitch(n, BsName(links[g], 2)) && IsSwitch(n, BsName(links[g], 3))
  {
    hide BsName, IsSwitch, Chained, OneSide;
    var l := links[g];
    assert Own(l, BsName(l, 0)) && Own(l, BsName(l, 1)) && Own(l, BsName(l, 2)) && Own(l, BsName(l, 3));
  }

  /** Two ports at outer switches of one link share a LAN. */
  lemma AttachedShareLan(n: Net, links: seq<Link>, g: nat, a: End, b: End)
    requires Bridging(n, links) && g < |links| && Attached(n, a, links[g]) && Attached(n, b, links[g])
    ensures SameLan(n, a, b)
  {
    hide BsName, Plugged, Linked, IsSwitch, Bridging;
    OwnSwitches(n, links, g);
    var l := links[g];
    assert Chained(n, l) by { ChainedAt(n, links, g); }
    LinkedBothWays(n, BsName(l, 0), BsName(l, 1));
    LinkedBothWays(n, BsName(l, 1), BsName(l, 2));
    LinkedBothWays(n, BsName(l, 2), BsName(l, 3));
    var b0, b1, b2, b3 := BsName(l, 0), BsName(l, 1), BsName(l, 2), BsName(l, 3);
    var path :=
      if Plugged(n, a, b0) then if Plugged(n, b, b0) then [b0] else [b0, b1, b2, b3]
      else if Plugged(n, b, b3) then [b3] else [b3, b2, b1, b0];
    assert Bridged(n, a, b, path);
  }

  lemma ChainedAt(n: Net, links: seq<Link>, g: nat)
    requires Bridging(n, links) && g < |links|
    ensures Chained(n, links[g])
  {
  }

  /** The only way a host port reaches a link's switches is at the outer two. */
  ghost predicate OuterOnly(n: Net, links: seq<Link>, e: End) {
    forall g, x :: 0 <= g < |links| && Own(links[g], x) && Plugged(n, e, x) ==> Attached(n, e, links[g])
  }

  /** Two host ports share a LAN exactly when they are cabled together or attached to the same link. */
  lemma LanIff(n: Net, links: seq<Link>, a: End, b: End)
    requires Bridging(n, links) && Unique(links) && OuterOnly(n, links, a) && OuterOnly(n, links, b)
    ensures SameLan(n, a, b) <==>
            Cabled(n, a, b) || exists g :: 0 <= g < |links| && Attached(n, a, links[g]) && Attached(n, b, links[g])
  {
    hide BsName, Plugged, Linked, IsSwitch, Own, Attached, Unique, Chained, OneSide, Cabled;
    if SameLan(n, a, b) && !Cabled(n, a, b) {
      hide SameLan;
      LinksAreGroups(n, links);
      LanStaysInGroup(n, x => GroupOf(links, x), a, b);
      var s, t :| Plugged(n, a, s) && Plugged(n, b, t) && IsSwitch(n, s) && IsSwitch(n, t)
                  && GroupOf(links, s) == GroupOf(links, t);
      var g := GroupOf(links, s);
      assert Own(links[g], s) && Own(links[g], t);
    }
    if Cabled(n, a, b) {
      assert Bridged(n, a, b, []);
    } else if g :| 0 <= g < |links| && Attached(n, a, links[g]) && Attached(n, b, links[g]) {
      AttachedShareLan(n, links, g, a, b);
    }
  }
}
