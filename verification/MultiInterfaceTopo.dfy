/** Construction of the multi-interface topology: which port of which node each cable takes. */
module MultiInterface {
  import opened Text
  import opened TopoBuilder
  import TP = TopoParameters
  import LinkOrder

  type Link = TP.LinkCharacteristics

  // ------------------------------------------------------------ names

  function Str(i: int): string {
    if i < 0 then "-" + Dec(-i) else Dec(i)
  }

  function BsName(l: Link, k: nat): string {
    "bs_" + l.linkType + "_" + Str(l.id) + "_" + Dec(k)
  }

  function ClientName(i: nat): string {
    "Client_" + Dec(i)
  }

  function ServerName(i: nat): string {
    "Server_" + Dec(i)
  }

  function RouterName(i: nat): string {
    "Router_" + Dec(i)
  }

  function Stem(l: Link): string {
    "bs_" + l.linkType + "_" + if l.id < 0 then "-" else ""
  }

  lemma BsNameForm(l: Link, k: nat)
    ensures BsName(l, k) == (Stem(l) + Dec(if l.id < 0 then -l.id else l.id) + "_") + Dec(k)
  {
  }

  lemma StemInjective(l: Link, m: Link)
    requires Stem(l) == Stem(m)
    ensures l.linkType == m.linkType && (l.id < 0 <==> m.id < 0)
  {
    var u, v := Stem(l), Stem(m);
    assert u[|u| - 1] == if l.id < 0 then '-' else '_';
    assert v[|v| - 1] == if m.id < 0 then '-' else '_';
    assert l.linkType == u[3..|u| - if l.id < 0 then 2 else 1];
    assert m.linkType == v[3..|v| - if m.id < 0 then 2 else 1];
  }

  /** A switch name tells type, id and position, whatever characters the type has. */
  lemma BsNameInjective(l: Link, k: nat, m: Link, j: nat)
    requires BsName(l, k) == BsName(m, j)
    ensures l.linkType == m.linkType && l.id == m.id && k == j
  {
    var a, b := if l.id < 0 then -l.id else l.id, if m.id < 0 then -m.id else m.id;
    BsNameForm(l, k);
    BsNameForm(m, j);
    hide BsName, Stem, Dec;
    DigitTail(Stem(l) + Dec(a) + "_", Dec(k), Stem(m) + Dec(b) + "_", Dec(j));
    DecInjective(k, j);
    var s, t := Stem(l) + Dec(a), Stem(m) + Dec(b);
    assert s == (s + "_")[..|s|] && t == (t + "_")[..|t|];
    StemEnds(l);
    StemEnds(m);
    DigitTail(Stem(l), Dec(a), Stem(m), Dec(b));
    DecInjective(a, b);
    StemInjective(l, m);
  }

  lemma StemEnds(l: Link)
    ensures Stem(l) != "" && !IsDigit(Stem(l)[|Stem(l)| - 1])
  {
  }

  lemma HostNamesDiffer(i: nat, j: nat)
    ensures ClientName(i) != ServerName(j) && ClientName(i) != RouterName(j) && ServerName(i) != RouterName(j)
    ensures i != j ==> ClientName(i) != ClientName(j) && ServerName(i) != ServerName(j)
  {
    assert ClientName(i)[0] == 'C' && ServerName(i)[0] == 'S' && RouterName(j)[0] == 'R' && ServerName(j)[0] == 'S';
    if ClientName(i) == ClientName(j) || ServerName(i) == ServerName(j) {
      assert ClientName(i)[7..] == Dec(i) && ServerName(i)[7..] == Dec(i);
      assert ClientName(j)[7..] == Dec(j) && ServerName(j)[7..] == Dec(j);
      DecInjective(i, j);
    }
  }

  lemma SwitchIsNoHost(l: Link, k: nat, i: nat)
    ensures BsName(l, k) != ClientName(i) && BsName(l, k) != ServerName(i) && BsName(l, k) != RouterName(i)
  {
    assert BsName(l, k)[0] == 'b' && ClientName(i)[0] == 'C' && ServerName(i)[0] == 'S' && RouterName(i)[0] == 'R';
  }

  // ------------------------------------------------------------ bottleneck links

  /** The four switches of a bottleneck link and the cables between them. */
  function Inner(n: Net, l: Link): Net {
    var n0 := WithNode(n, BsName(l, 0), SWITCH_BASE);
    var n1 := WithNode(n0, BsName(l, 1), SWITCH_BASE);
    var n2 := WithNode(n1, BsName(l, 2), SWITCH_BASE);
    var n3 := WithNode(n2, BsName(l, 3), SWITCH_BASE);
    var m0 := WithLink(n3, BsName(l, 0), BsName(l, 1));
    var m1 := WithLink(m0, BsName(l, 1), BsName(l, 2));
    WithLink(m1, BsName(l, 2), BsName(l, 3))
  }

  function AddBottleneck(n: Net, from: string, to: string, l: Link): Net {
    WithLink(WithLink(Inner(n, l), from, BsName(l, 0)), BsName(l, 3), to)
  }

  class BottleneckLink {
    const link: Link
    const bs0: string
    const bs1: string
    const bs2: string
    const bs3: string

    constructor (builder: Builder, link: Link)
      modifies builder
      ensures this.link == link && bs0 == BsName(link, 0) && bs3 == BsName(link, 3)
      ensures builder.View() == Inner(old(builder.View()), link)
    {
      hide BsName, WithNode, WithLink;
      var s0 := builder.AddSwitch(BsName(link, 0));
      var s1 := builder.AddSwitch(BsName(link, 1));
      var s2 := builder.AddSwitch(BsName(link, 2));
      var s3 := builder.AddSwitch(BsName(link, 3));
      builder.AddLink(s0, s1);
      builder.AddLink(s1, s2);
      builder.AddLink(s2, s3);
      this.link := link;
      bs0, bs1, bs2, bs3 := s0, s1, s2, s3;
    }
  }

  /** One bottleneck link after another between the same two nodes. */
  function AddAll(n: Net, from: string, to: string, links: seq<Link>): Net {
    if links == [] then n
    else AddBottleneck(AddAll(n, from, to, links[..|links| - 1]), from, to, links[|links| - 1])
  }

  function C2r(links: seq<Link>): seq<Link> {
    LinkOrder.OfType(links, "c2r")
  }

  function R2s(links: seq<Link>): seq<Link> {
    LinkOrder.OfType(links, "r2s")
  }

  /** Client, server and router without links. */
  function Hosts(): Net {
    WithNode(WithNode(WithNode(Bare, ClientName(0), HOST_BASE), ServerName(0), HOST_BASE), RouterName(0), HOST_BASE)
  }

  /** The network of the topology; without a link of type r2s, router and server are joined directly. */
  function Network(links: seq<Link>): Net {
    WithLinks(Hosts(), ClientName(0), RouterName(0), ServerName(0), links)
  }

  function WithLinks(n: Net, client: string, router: string, server: string, links: seq<Link>): Net {
    var m := AddAll(n, client, router, C2r(links));
    if |R2s(links)| > 0 then AddAll(m, router, server, R2s(links)) else WithLink(m, router, server)
  }

  class MultiInterfaceTopo {
    const builder: Builder
    const links: seq<Link>
    var clients: seq<string>
    var servers: seq<string>
    var routers: seq<string>
    var bottleneckLinks: seq<BottleneckLink>
    var c2rLinks: seq<BottleneckLink>
    var r2sLinks: seq<BottleneckLink>

    static ghost predicate Holds(bs: seq<BottleneckLink>, ls: seq<Link>) {
      |bs| == |ls| && forall i :: 0 <= i < |bs| ==>
        bs[i].link == ls[i] && bs[i].bs0 == BsName(ls[i], 0) && bs[i].bs3 == BsName(ls[i], 3)
    }

    constructor (builder: Builder, links: seq<Link>)
      requires builder.View() == Bare
      modifies builder
      ensures this.builder == builder && this.links == links
      ensures builder.View() == Network(links)
      ensures clients == [ClientName(0)] && servers == [ServerName(0)] && routers == [RouterName(0)]
      ensures Holds(c2rLinks, C2r(links)) && Holds(r2sLinks, R2s(links)) && bottleneckLinks == c2rLinks + r2sLinks
    {
      this.builder, this.links := builder, links;
      clients, servers, routers, bottleneckLinks, c2rLinks, r2sLinks := [], [], [], [], [], [];
      new;
      hide BsName, AddBottleneck, AddAll, LinkOrder.OfType, WithNode, WithLink, ClientName, ServerName, RouterName, Holds;
      var client := AddClient();
      var server := AddServer();
      var router := AddRouter();
      AddLinks(client, router, server);
    }

    method AddLinks(client: string, router: string, server: string)
      requires c2rLinks == [] && r2sLinks == [] && bottleneckLinks == []
      modifies this`c2rLinks, this`r2sLinks, this`bottleneckLinks, builder
      ensures Holds(c2rLinks, C2r(links)) && Holds(r2sLinks, R2s(links)) && bottleneckLinks == c2rLinks + r2sLinks
      ensures builder.View() == WithLinks(old(builder.View()), client, router, server, links)
    {
      hide BsName, AddAll, C2r, R2s, WithLink;
      c2rLinks := AddEach(client, router, C2r(links));
      if |R2s(links)| > 0 {
        r2sLinks := AddEach(router, server, R2s(links));
      } else {
        builder.AddLink(router, server);
      }
    }

    method AddClient() returns (client: string)
      modifies this`clients, builder
      ensures client == ClientName(|old(clients)|) && clients == old(clients) + [client]
      ensures builder.View() == WithNode(old(builder.View()), client, HOST_BASE)
    {
      client := builder.AddHost(ClientName(|clients|));
      clients := clients + [client];
    }

    method AddServer() returns (server: string)
      modifies this`servers, builder
      ensures server == ServerName(|old(servers)|) && servers == old(servers) + [server]
      ensures builder.View() == WithNode(old(builder.View()), server, HOST_BASE)
    {
      server := builder.AddHost(ServerName(|servers|));
      servers := servers + [server];
    }

    method AddRouter() returns (router: string)
      modifies this`routers, builder
      ensures router == RouterName(|old(routers)|) && routers == old(routers) + [router]
      ensures builder.View() == WithNode(old(builder.View()), router, HOST_BASE)
    {
      router := builder.AddHost(RouterName(|routers|));
      routers := routers + [router];
    }

    method AddBottleneckLink(from: string, to: string, link: Link) returns (bl: BottleneckLink)
      modifies this`bottleneckLinks, builder
      ensures bl.link == link && bl.bs0 == BsName(link, 0) && bl.bs3 == BsName(link, 3)
      ensures bottleneckLinks == old(bottleneckLinks) + [bl]
      ensures builder.View() == AddBottleneck(old(builder.View()), from, to, link)
    {
      hide BsName, Inner, WithLink;
      bl := new BottleneckLink(builder, link);
      bottleneckLinks := bottleneckLinks + [bl];
      builder.AddLink(from, bl.bs0);
      builder.AddLink(bl.bs3, to);
    }

    /** The loops of the constructor over the links of one type. */
    method AddEach(from: string, to: string, ls: seq<Link>) returns (added: seq<BottleneckLink>)
      modifies this`bottleneckLinks, builder
      ensures Holds(added, ls) && bottleneckLinks == old(bottleneckLinks) + added
      ensures builder.View() == AddAll(old(builder.View()), from, to, ls)
    {
      hide BsName, AddBottleneck;
      added := [];
      for i := 0 to |ls|
        invariant Holds(added, ls[..i]) && bottleneckLinks == old(bottleneckLinks) + added
        invariant builder.View() == AddAll(old(builder.View()), from, to, ls[..i])
      {
        assert ls[..i + 1][..i] == ls[..i];
        var bl := AddBottleneckLink(from, to, ls[i]);
        added := added + [bl];
      }
      assert ls[..|ls|] == ls;
    }
  }

  // ------------------------------------------------------------ the cables in closed form

  /** The cables of one link between a port of its left node and one of its right node. */
  function Five(l: Link, from: End, to: End): seq<Cable> {
    [Cable(End(BsName(l, 0), 1), End(BsName(l, 1), 1)), Cable(End(BsName(l, 1), 2), End(BsName(l, 2), 1)),
     Cable(End(BsName(l, 2), 2), End(BsName(l, 3), 1)), Cable(from, End(BsName(l, 0), 2)), Cable(End(BsName(l, 3), 2), to)]
  }

  /** The cables of links between two nodes, link g at ports p + g and q + g. */
  function Blocks(links: seq<Link>, from: string, p: nat, to: string, q: nat): (cables: seq<Cable>)
    ensures |cables| == 5 * |links|
  {
    if links == [] then []
    else
      var g := |links| - 1;
      Blocks(links[..g], from, p, to, q) + Five(links[g], End(from, p + g), End(to, q + g))
  }

  lemma {:induction false} BlocksAt(links: seq<Link>, from: string, p: nat, to: string, q: nat, g: nat, k: nat)
    requires g < |links| && k < 5
    ensures Blocks(links, from, p, to, q)[5 * g + k] == Five(links[g], End(from, p + g), End(to, q + g))[k]
  {
    hide Five;
    if g < |links| - 1 {
      BlocksAt(links[..|links| - 1], from, p, to, q, g, k);
    }
  }
}
