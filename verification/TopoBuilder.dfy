/** The network builder's contract: nodes, ports in order of linking, and the LANs that switches make. */
module TopoBuilder {
  import opened Text

  datatype End = End(node: string, port: nat)

  datatype Cable = Cable(left: End, right: End)

  /** For each node its first port and its next free port; and the cables in the order they were laid. */
  datatype Net = Net(base: map<string, nat>, next: map<string, nat>, cables: seq<Cable>)

  const Bare: Net := Net(map[], map[], [])

  const HOST_BASE: nat := 0
  const SWITCH_BASE: nat := 1

  /** The name of the interface at a port. */
  function IfName(e: End): string {
    e.node + "-eth" + Dec(e.port)
  }

  function WithNode(n: Net, name: string, base: nat): Net {
    if name in n.next then n else Net(n.base[name := base], n.next[name := base], n.cables)
  }

  function NextPort(n: Net, name: string): nat {
    if name in n.next then n.next[name] else HOST_BASE
  }

  function TakePort(n: Net, name: string): Net {
    n.(next := n.next[name := NextPort(n, name) + 1])
  }

  /** A link takes the next port of its first node, then that of its second. */
  function WithLink(n: Net, a: string, b: string): Net {
    var m := TakePort(n, a);
    TakePort(m, b).(cables := n.cables + [Cable(End(a, NextPort(n, a)), End(b, NextPort(m, b)))])
  }

  /** The ports a link takes, also when it joins a node to itself; no other node's ports change. */
  lemma LinkTakes(n: Net, a: string, b: string, x: string)
    ensures var m := WithLink(n, a, b);
            && m.cables == n.cables + [Cable(End(a, NextPort(n, a)), End(b, if a == b then NextPort(n, a) + 1 else NextPort(n, b)))]
            && NextPort(m, x) == NextPort(n, x) + (if x == a then 1 else 0) + if x == b then 1 else 0
  {
  }

  class Builder {
    var base: map<string, nat>
    var next: map<string, nat>
    var cables: seq<Cable>

    ghost function View(): Net
      reads this
    {
      Net(base, next, cables)
    }

    constructor ()
      ensures View() == Bare
    {
      base, next, cables := map[], map[], [];
    }

    method AddHost(name: string) returns (node: string)
      modifies this
      ensures node == name && View() == WithNode(old(View()), name, HOST_BASE)
    {
      AddFresh(name, HOST_BASE);
      node := name;
    }

    method AddSwitch(name: string) returns (node: string)
      modifies this
      ensures node == name && View() == WithNode(old(View()), name, SWITCH_BASE)
    {
      AddFresh(name, SWITCH_BASE);
      node := name;
    }

    method AddFresh(name: string, first: nat)
      modifies this
      ensures View() == WithNode(old(View()), name, first)
    {
      if name !in next {
        base, next := base[name := first], next[name := first];
      }
    }

    method AddLink(a: string, b: string)
      modifies this
      ensures View() == WithLink(old(View()), a, b)
    {
      var p := if a in next then next[a] else HOST_BASE;
      next := next[a := p + 1];
      var q := if b in next then next[b] else HOST_BASE;
      next := next[b := q + 1];
      cables := cables + [Cable(End(a, p), End(b, q))];
    }
  }

  // ------------------------------------------------------------ every run of the builder

  datatype Op = NewHost(name: string) | NewSwitch(name: string) | NewLink(a: string, b: string)

  predicate Known(n: Net, op: Op) {
    op.NewLink? ==> op.a in n.next && op.b in n.next
  }

  function Do(n: Net, op: Op): Net {
    match op
    case NewHost(name) => WithNode(n, name, HOST_BASE)
    case NewSwitch(name) => WithNode(n, name, SWITCH_BASE)
    case NewLink(a, b) => WithLink(n, a, b)
  }

  /** What a run of builder calls makes, when links join known nodes. */
  function Run(ops: seq<Op>): Option<Net> {
    if ops == [] then Some(Bare)
    else
      match Run(ops[..|ops| - 1])
      case None => None
      case Some(n) => if Known(n, ops[|ops| - 1]) then Some(Do(n, ops[|ops| - 1])) else None
  }

  function Ends(cables: seq<Cable>): (ends: seq<End>)
    ensures |ends| == 2 * |cables|
    ensures forall i :: 0 <= i < |cables| ==> ends[2 * i] == cables[i].left && ends[2 * i + 1] == cables[i].right
  {
    if cables == [] then []
    else Ends(cables[..|cables| - 1]) + [cables[|cables| - 1].left, cables[|cables| - 1].right]
  }

  predicate InUse(n: Net, e: End) {
    e.node in n.base && e.node in n.next && n.base[e.node] <= e.port < n.next[e.node]
  }

  ghost predicate Ordered(n: Net) {
    n.base.Keys == n.next.Keys && forall node :: node in n.next ==> n.base[node] <= n.next[node]
  }

  predicate AllDistinct(ends: seq<End>) {
    forall i, j :: 0 <= i < j < |ends| ==> ends[i] != ends[j]
  }

  ghost predicate ExactlyInUse(n: Net, ends: seq<End>) {
    forall e: End :: e in ends <==> InUse(n, e)
  }

  /** The ports in use are exactly the consecutive ones from the node's first, and each has one cable. */
  ghost predicate Valid(n: Net) {
    Ordered(n) && AllDistinct(Ends(n.cables)) && ExactlyInUse(n, Ends(n.cables))
  }

  lemma EndsAppend(cables: seq<Cable>, c: Cable)
    ensures Ends(cables + [c]) == Ends(cables) + [c.left, c.right]
  {
    assert (cables + [c])[..|cables|] == cables;
  }

  lemma InUseAfterLink(n: Net, a: string, b: string, e: End)
    requires n.base.Keys == n.next.Keys && a in n.next && b in n.next
    requires n.base[a] <= n.next[a] && n.base[b] <= n.next[b]
    ensures var m := WithLink(n, a, b);
            var last := m.cables[|n.cables|];
            && !InUse(n, last.left) && !InUse(n, last.right) && last.left != last.right
            && (InUse(m, e) <==> InUse(n, e) || e == last.left || e == last.right)
  {
  }

  lemma DistinctAppend(ends: seq<End>, a: End, b: End)
    requires AllDistinct(ends) && a !in ends && b !in ends && a != b
    ensures AllDistinct(ends + [a, b])
  {
    assert forall i :: 0 <= i < |ends| ==> ends[i] in ends;
  }

  lemma InUseAppend(n: Net, m: Net, ends: seq<End>, a: End, b: End)
    requires ExactlyInUse(n, ends)
    requires forall e: End :: InUse(m, e) <==> InUse(n, e) || e == a || e == b
    ensures ExactlyInUse(m, ends + [a, b])
  {
    hide InUse;
  }

  lemma AddLinkValid(n: Net, a: string, b: string)
    requires Valid(n) && a in n.next && b in n.next
    ensures Valid(WithLink(n, a, b))
  {
    hide InUse, Ends, AllDistinct;
    var m := WithLink(n, a, b);
    var ends, last := Ends(n.cables), m.cables[|n.cables|];
    EndsAppend(n.cables, last);
    forall e: End
      ensures InUse(m, e) <==> InUse(n, e) || e == last.left || e == last.right
    {
      InUseAfterLink(n, a, b, e);
    }
    InUseAfterLink(n, a, b, last.left);
    DistinctAppend(ends, last.left, last.right);
    InUseAppend(n, m, ends, last.left, last.right);
  }

  lemma BareIsValid()
    ensures Valid(Bare)
  {
  }

  lemma AddNodeValid(n: Net, name: string, base: nat)
    requires Valid(n)
    ensures Valid(WithNode(n, name, base)) && name in WithNode(n, name, base).next
  {
    hide Ends;
    assert forall e: End :: InUse(WithNode(n, name, base), e) <==> InUse(n, e);
  }

  /** For every run of the builder. */
  lemma {:induction false} RunIsValid(ops: seq<Op>)
    requires Run(ops).Some?
    ensures Valid(Run(ops).value)
  {
    if ops == [] {
      BareIsValid();
    } else {
      hide Valid, WithNode, WithLink;
      RunIsValid(ops[..|ops| - 1]);
      var n, op := Run(ops[..|ops| - 1]).value, ops[|ops| - 1];
      match op
      case NewHost(name) => AddNodeValid(n, name, HOST_BASE);
      case NewSwitch(name) => AddNodeValid(n, name, SWITCH_BASE);
      case NewLink(a, b) => AddLinkValid(n, a, b);
    }
  }

  lemma IfNameInjective(a: End, b: End)
    requires IfName(a) == IfName(b)
    ensures a == b
  {
    DigitTail(a.node + "-eth", Dec(a.port), b.node + "-eth", Dec(b.port));
    assert (a.node + "-eth")[..|a.node|] == (b.node + "-eth")[..|b.node|];
    DecInjective(a.port, b.port);
  }

  lemma NotShorter(a: string, s: string, b: string, t: string)
    requires a + s == b + t && AllDigits(s)
    requires b != "" && !IsDigit(b[|b| - 1])
    ensures |a| >= |b|
  {
    assert (a + s)[|b| - 1] == b[|b| - 1];
  }

  /** Where a text not ending in a digit is followed by digits can be seen from the whole. */
  lemma DigitTail(a: string, s: string, b: string, t: string)
    requires a + s == b + t && AllDigits(s) && AllDigits(t)
    requires a != "" && b != "" && !IsDigit(a[|a| - 1]) && !IsDigit(b[|b| - 1])
    ensures a == b && s == t
  {
    NotShorter(a, s, b, t);
    NotShorter(b, t, a, s);
    assert (a + s)[..|a|] == a && (b + t)[..|b|] == b && (a + s)[|a|..] == s && (b + t)[|b|..] == t;
  }

  // ------------------------------------------------------------ LANs

  predicate Cabled(n: Net, a: End, b: End) {
    exists i :: 0 <= i < |n.cables| && (n.cables[i] == Cable(a, b) || n.cables[i] == Cable(b, a))
  }

  predicate IsSwitch(n: Net, node: string) {
    node in n.base && n.base[node] == SWITCH_BASE
  }

  ghost predicate Plugged(n: Net, e: End, node: string) {
    exists port: nat :: Cabled(n, e, End(node, port))
  }

  ghost predicate Linked(n: Net, a: string, b: string) {
    exists port: nat :: Plugged(n, End(a, port), b)
  }

  /** Frames from one host port reach the other through the given switches. */
  ghost predicate Bridged(n: Net, a: End, b: End, path: seq<string>) {
    if path == [] then Cabled(n, a, b)
    else
      && Plugged(n, a, path[0]) && Plugged(n, b, path[|path| - 1])
      && (forall k :: 0 <= k < |path| ==> IsSwitch(n, path[k]))
      && forall k :: 0 < k < |path| ==> Linked(n, path[k - 1], path[k])
  }

  /** Two host ports are on one LAN. */
  ghost predicate SameLan(n: Net, a: End, b: End) {
    exists path: seq<string> :: Bridged(n, a, b, path)
  }

  /** A grouping that no cable between switches leaves. */
  ghost predicate Grouped(n: Net, group: string -> nat) {
    forall i :: 0 <= i < |n.cables| && IsSwitch(n, n.cables[i].left.node) && IsSwitch(n, n.cables[i].right.node) ==>
      group(n.cables[i].left.node) == group(n.cables[i].right.node)
  }

  lemma LinkedStaysInGroup(n: Net, group: string -> nat, a: string, b: string)
    requires Grouped(n, group) && Linked(n, a, b) && IsSwitch(n, a) && IsSwitch(n, b)
    ensures group(a) == group(b)
  {
  }

  lemma {:induction false} PathStaysInGroup(n: Net, group: string -> nat, path: seq<string>, k: nat)
    requires Grouped(n, group) && k < |path|
    requires forall k :: 0 <= k < |path| ==> IsSwitch(n, path[k])
    requires forall k :: 0 < k < |path| ==> Linked(n, path[k - 1], path[k])
    ensures group(path[k]) == group(path[0])
  {
    hide Grouped, Linked, IsSwitch;
    if k > 0 {
      PathStaysInGroup(n, group, path, k - 1);
      LinkedStaysInGroup(n, group, path[k - 1], path[k]);
    }
  }

  /** Two host ports on one LAN are cabled together or plugged into switches of one group. */
  lemma LanStaysInGroup(n: Net, group: string -> nat, a: End, b: End)
    requires SameLan(n, a, b) && Grouped(n, group)
    ensures Cabled(n, a, b) || exists s, t ::
              Plugged(n, a, s) && Plugged(n, b, t) && IsSwitch(n, s) && IsSwitch(n, t) && group(s) == group(t)
  {
    hide Grouped, Linked, IsSwitch, Plugged, Cabled;
    var path :| Bridged(n, a, b, path);
    if path != [] {
      PathStaysInGroup(n, group, path, |path| - 1);
    }
  }
}
