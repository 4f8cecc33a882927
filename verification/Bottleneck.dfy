/** The queueing disciplines of one bottleneck link: their first placement and their timed replacement. */
module Bottleneck {
  import opened Text
  import Schedule
  import TP = TopoParameters

  /** A queueing discipline: the two this code installs at the root, and the one for arriving packets. */
  datatype Qdisc = Netem(args: string) | Tbf(rate: string, limit: string) | Policing

  /** Where a discipline hangs on an interface of the inner switches bs1 and bs2: at its root, or at its ingress. */
  datatype Hook = Port(switch: nat, ifname: string) | Ingress(switch: nat, ifname: string)

  type Roots = map<Hook, Qdisc>

  /** `tc qdisc del` of root and ingress, and `add` and `replace` of a root discipline. Adding where one is present is
      refused. */
  datatype Tc = Delete(switch: nat, ifname: string) | Add(port: Hook, q: Qdisc) | Replace(port: Hook, q: Qdisc)

  function Exec(r: Roots, c: Tc): Roots {
    match c
    case Delete(switch, ifname) => r - {Port(switch, ifname)} - {Ingress(switch, ifname)}
    case Add(port, q) => if port in r then r else r[port := q]
    case Replace(port, q) => r[port := q]
  }

  function ExecAll(r: Roots, cs: seq<Tc>): Roots {
    if cs == [] then r else Exec(ExecAll(r, cs[..|cs| - 1]), cs[|cs| - 1])
  }

  /** The numbers of a link as its commands print them. */
  datatype Link = Link(delay: string, loss: string, bandwidth: string, bufferSize: string)

  predicate Lossy(l: Link) {
    match TP.PyFloat(l.loss) case None => false case Some(x) => x > 0.0
  }

  function NetemOf(l: Link): Qdisc {
    Netem((if Lossy(l) then "loss " + l.loss else "") + " delay " + l.delay + "ms limit 50000")
  }

  function TbfOf(l: Link): Qdisc {
    Tbf(l.bandwidth, l.bufferSize)
  }

  function Last(names: seq<string>): string
    requires names != []
  {
    names[|names| - 1]
  }

  function Deletes(switch: nat, names: seq<string>): (cs: seq<Tc>)
    ensures |cs| == |names| && forall i :: 0 <= i < |names| ==> cs[i] == Delete(switch, names[i])
  {
    seq(|names|, i requires 0 <= i < |names| => Delete(switch, names[i]))
  }

  /** Delay on the way out of the first inner switch of a direction, rate on the way out of the second. */
  function Placements(l: Link, names1: seq<string>, names2: seq<string>): seq<Tc>
    requires names1 != [] && names2 != []
  {
    [Add(Port(1, Last(names1)), NetemOf(l)), Add(Port(2, Last(names2)), TbfOf(l)),
     Add(Port(2, names2[0]), NetemOf(l)), Add(Port(1, names1[0]), TbfOf(l))]
  }

  function Configuration(l: Link, names1: seq<string>, names2: seq<string>): seq<Tc>
    requires names1 != [] && names2 != []
  {
    Deletes(1, names1) + Deletes(2, names2) + Placements(l, names1, names2)
  }

  class BottleneckLink {
    const link: Link
    var roots: Roots

    constructor (link: Link, roots: Roots)
      ensures this.link == link && this.roots == roots
    {
      this.link, this.roots := link, roots;
    }

    method CommandTo(c: Tc)
      modifies this
      ensures roots == Exec(old(roots), c)
    {
      roots := Exec(roots, c);
    }

    /** The cleanup loop of one inner switch. */
    method CleanUp(switch: nat, names: seq<string>)
      modifies this
      ensures roots == ExecAll(old(roots), Deletes(switch, names))
    {
      ghost var cs := Deletes(switch, names);
      for i := 0 to |names|
        invariant roots == ExecAll(old(roots), cs[..i])
      {
        ExecOneMore(old(roots), cs[..i], cs[i]);
        assert cs[..i + 1] == cs[..i] + [cs[i]];
        CommandTo(Delete(switch, names[i]));
      }
      assert cs[..|names|] == cs;
    }

    method ConfigureBottleneck(names1: seq<string>, names2: seq<string>)
      requires names1 != [] && names2 != []
      modifies this
      ensures roots == ExecAll(old(roots), Configuration(link, names1, names2))
    {
      hide Exec, ExecAll, Last, NetemOf, TbfOf;
      CleanUp(1, names1);
      CleanUp(2, names2);
      ExecAppend(old(roots), Deletes(1, names1), Deletes(2, names2));
      ExecFourMore(old(roots), Deletes(1, names1) + Deletes(2, names2), Placements(link, names1, names2));
      // Flow bs0 -> bs3
      CommandTo(Add(Port(1, Last(names1)), NetemOf(link)));
      CommandTo(Add(Port(2, Last(names2)), TbfOf(link)));
      // Flow bs3 -> bs0
      CommandTo(Add(Port(2, names2[0]), NetemOf(link)));
      CommandTo(Add(Port(1, names1[0]), TbfOf(link)));
    }
  }

  lemma ExecOneMore(r: Roots, cs: seq<Tc>, c: Tc)
    ensures ExecAll(r, cs + [c]) == Exec(ExecAll(r, cs), c)
  {
    assert (cs + [c])[..|cs|] == cs;
  }

  lemma ExecFourMore(r: Roots, cs: seq<Tc>, more: seq<Tc>)
    requires |more| == 4
    ensures ExecAll(r, cs + more) == Exec(Exec(Exec(Exec(ExecAll(r, cs), more[0]), more[1]), more[2]), more[3])
  {
    hide Exec;
    ExecOneMore(r, cs, more[0]);
    ExecOneMore(r, cs + [more[0]], more[1]);
    ExecOneMore(r, cs + [more[0]] + [more[1]], more[2]);
    ExecOneMore(r, cs + [more[0]] + [more[1]] + [more[2]], more[3]);
    assert cs + more == cs + [more[0]] + [more[1]] + [more[2]] + [more[3]];
  }

  // ------------------------------------------------------------ the words of the commands

  /** In a command line the second word follows the first. */
  predicate Followed(words: seq<string>, first: string, second: string) {
    exists i :: 0 <= i < |words| - 1 && words[i] == first && words[i + 1] == second
  }

  lemma FollowedAt(words: seq<string>, i: nat)
    requires i + 1 < |words|
    ensures Followed(words, words[i], words[i + 1])
  {
  }

  /** A netem discipline whose words ask for the link's delay, for 50000 packets, and for its loss rate exactly when
      that is positive. */
  ghost predicate NetemOfLink(q: Qdisc, l: Link) {
    && q.Netem?
    && var words := Split(q.args, ' ');
       && Followed(words, "delay", l.delay + "ms") && Followed(words, "limit", "50000")
       && var rate := TP.PyFloat(l.loss);
       && (if rate.Some? && rate.value > 0.0 then Followed(words, "loss", l.loss) else "loss" !in words)
  }

  predicate PlainNumbers(l: Link) {
    Free(l.delay, ' ') && Free(l.loss, ' ')
  }

  lemma FreeWords(l: Link)
    requires PlainNumbers(l)
    ensures Free("delay", ' ') && Free("limit", ' ') && Free("50000", ' ') && Free("loss", ' ') && Free(l.delay + "ms", ' ')
  {
  }

  lemma DelayIsNotLoss(l: Link)
    ensures l.delay + "ms" != "loss" && "delay" != "loss" && "limit" != "loss" && "50000" != "loss"
  {
    assert (l.delay + "ms")[|l.delay|] == 'm';
    assert "delay"[0] == 'd' && "limit"[1] == 'i' && "50000"[0] == '5';
    assert |l.delay| == 2 ==> "loss"[2] == 's';
  }

  /** The words behind an optional loss rate. */
  lemma DelayWords(l: Link)
    requires PlainNumbers(l)
    ensures Split("delay " + l.delay + "ms limit 50000", ' ') == ["delay", l.delay + "ms", "limit", "50000"]
  {
    hide Split, Free;
    FreeWords(l);
    assert "delay " + l.delay + "ms limit 50000" == "delay" + " " + ((l.delay + "ms") + " " + ("limit" + " " + "50000"));
    SplitFirst("delay", (l.delay + "ms") + " " + ("limit" + " " + "50000"), ' ');
    SplitFirst(l.delay + "ms", "limit" + " " + "50000", ' ');
    SplitFirst("limit", "50000", ' ');
    SplitWhole("50000", ' ');
  }

  lemma NetemSays(l: Link)
    requires PlainNumbers(l)
    ensures NetemOf(l).Netem? && NetemOfLink(NetemOf(l), l)
  {
    hide Split, TP.PyFloat, Followed;
    FreeWords(l);
    DelayWords(l);
    DelayIsNotLoss(l);
    var tail := "delay " + l.delay + "ms limit 50000";
    var words := Split(NetemOf(l).args, ' ');
    if Lossy(l) {
      assert NetemOf(l).args == "loss" + " " + (l.loss + " " + tail);
      SplitFirst("loss", l.loss + " " + tail, ' ');
      SplitFirst(l.loss, tail, ' ');
      assert words == ["loss", l.loss, "delay", l.delay + "ms", "limit", "50000"];
      FollowedAt(words, 0);
      FollowedAt(words, 2);
      FollowedAt(words, 4);
    } else {
      assert NetemOf(l).args == "" + " " + tail;
      SplitFirst("", tail, ' ');
      assert words == ["", "delay", l.delay + "ms", "limit", "50000"];
      FollowedAt(words, 1);
      FollowedAt(words, 3);
      NoLoss(words, l);
    }
  }

  lemma NoLoss(words: seq<string>, l: Link)
    requires words == ["", "delay", l.delay + "ms", "limit", "50000"]
    ensures "loss" !in words
  {
    DelayIsNotLoss(l);
    assert |""| != |"loss"|;
  }

  // ------------------------------------------------------------ the placement

  /** Of the two disciplines a direction passes, exactly one delays and exactly one shapes. */
  predicate OneEach(r: Roots, a: Hook, b: Hook) {
    a in r && b in r && ((r[a].Netem? && r[b].Tbf?) || (r[a].Tbf? && r[b].Netem?))
  }

  /** Both directions of the link, each crossing bs1 and bs2 once. */
  predicate BothWays(r: Roots, names1: seq<string>, names2: seq<string>)
    requires names1 != [] && names2 != []
  {
    OneEach(r, Port(1, Last(names1)), Port(2, Last(names2))) && OneEach(r, Port(2, names2[0]), Port(1, names1[0]))
  }

  /** Nothing is left at root or ingress of the interfaces, and the rest is untouched. */
  ghost predicate ClearOf(r: Roots, t: Roots, switch: nat, names: seq<string>) {
    forall h: Hook :: (h in t <==> h in r && !(h.switch == switch && h.ifname in names)) && (h in t ==> t[h] == r[h])
  }

  lemma {:induction false} DeletesClear(r: Roots, switch: nat, names: seq<string>, n: nat)
    requires n <= |names|
    ensures ClearOf(r, ExecAll(r, Deletes(switch, names)[..n]), switch, names[..n])
  {
    if n > 0 {
      DeletesClear(r, switch, names, n - 1);
      assert Deletes(switch, names)[..n][..n - 1] == Deletes(switch, names)[..n - 1];
      assert names[..n] == names[..n - 1] + [names[n - 1]];
    }
  }

  lemma {:induction false} ExecAppend(r: Roots, a: seq<Tc>, b: seq<Tc>)
    ensures ExecAll(r, a + b) == ExecAll(ExecAll(r, a), b)
  {
    if b == [] {
      assert a + b == a;
    } else {
      hide Exec;
      ExecAppend(r, a, b[..|b| - 1]);
      assert (a + b)[..|a + b| - 1] == a + b[..|b| - 1];
    }
  }

  lemma DeletesOf(r: Roots, switch: nat, names: seq<string>)
    ensures ClearOf(r, ExecAll(r, Deletes(switch, names)), switch, names)
  {
    DeletesClear(r, switch, names, |names|);
    assert Deletes(switch, names)[..|names|] == Deletes(switch, names) && names[..|names|] == names;
  }

  /** The deletions leave nothing on any interface of the two switches. */
  lemma Cleared(r: Roots, names1: seq<string>, names2: seq<string>)
    ensures var t := ExecAll(r, Deletes(1, names1) + Deletes(2, names2));
            forall h: Hook :: h in t <==> h in r && !(h.switch == 1 && h.ifname in names1) && !(h.switch == 2 && h.ifname in names2)
  {
    hide ExecAll;
    var r1 := ExecAll(r, Deletes(1, names1));
    DeletesOf(r, 1, names1);
    DeletesOf(r1, 2, names2);
    ExecAppend(r, Deletes(1, names1), Deletes(2, names2));
  }

  lemma LastIsMember(names: seq<string>)
    requires names != []
    ensures Last(names) in names
  {
  }

  /** Whatever was installed before, after the configuration each interface used carries what was put there first, and
      no discipline is left from earlier: every other root and every ingress of the two switches is bare. */
  lemma ConfigurationResult(r: Roots, l: Link, names1: seq<string>, names2: seq<string>)
    requires names1 != [] && names2 != []
    ensures var t := ExecAll(r, Configuration(l, names1, names2));
            && Port(1, Last(names1)) in t && t[Port(1, Last(names1))] == NetemOf(l)
            && Port(2, Last(names2)) in t && t[Port(2, Last(names2))] == TbfOf(l)
            && Port(2, names2[0]) in t && t[Port(2, names2[0])] == (if names2[0] == Last(names2) then TbfOf(l) else NetemOf(l))
            && Port(1, names1[0]) in t && t[Port(1, names1[0])] == (if names1[0] == Last(names1) then NetemOf(l) else TbfOf(l))
            && (forall name :: name in names1 ==>
                  Ingress(1, name) !in t && (name != names1[0] && name != Last(names1) ==> Port(1, name) !in t))
            && (forall name :: name in names2 ==>
                  Ingress(2, name) !in t && (name != names2[0] && name != Last(names2) ==> Port(2, name) !in t))
  {
    hide ExecAll, Last, NetemOf, TbfOf;
    LastIsMember(names1);
    LastIsMember(names2);
    Cleared(r, names1, names2);
    ExecFourMore(r, Deletes(1, names1) + Deletes(2, names2), Placements(l, names1, names2));
  }

  /** On inner switches with two interfaces or more, the configuration leaves on each direction the link's own delay and
      loss, and on each its own rate and buffer. */
  lemma ConfigurationSays(r: Roots, l: Link, names1: seq<string>, names2: seq<string>)
    requires names1 != [] && names2 != [] && names1[0] != Last(names1) && names2[0] != Last(names2) && PlainNumbers(l)
    ensures var t := ExecAll(r, Configuration(l, names1, names2));
            var out1, out2, back2, back1 := Port(1, Last(names1)), Port(2, Last(names2)), Port(2, names2[0]), Port(1, names1[0]);
            && out1 in t && out2 in t && back2 in t && back1 in t
            && NetemOfLink(t[out1], l) && t[out2] == Tbf(l.bandwidth, l.bufferSize)
            && NetemOfLink(t[back2], l) && t[back1] == Tbf(l.bandwidth, l.bufferSize)
  {
    hide ExecAll, Configuration, Last, NetemOf, NetemOfLink;
    ConfigurationResult(r, l, names1, names2);
    NetemSays(l);
  }

  /** Each direction delays once and shapes once exactly when both inner switches, or neither of them, have their
      first interface last. */
  lemma PlacedBothWays(r: Roots, l: Link, names1: seq<string>, names2: seq<string>)
    requires names1 != [] && names2 != []
    ensures BothWays(ExecAll(r, Configuration(l, names1, names2)), names1, names2)
            <==> (names1[0] == Last(names1) <==> names2[0] == Last(names2))
  {
    ConfigurationResult(r, l, names1, names2);
  }

  // ------------------------------------------------------------ timed replacement

  /** The four background chains of `configure_changing_bottleneck`, in the order they are started. */
  datatype Track = ForwardShaping | ForwardNetem | BackwardShaping | BackwardNetem

  function PortOf(c: Track, names1: seq<string>, names2: seq<string>): Hook
    requires names1 != [] && names2 != []
  {
    match c
    case ForwardShaping => Port(1, Last(names1))
    case ForwardNetem => Port(2, Last(names2))
    case BackwardShaping => Port(2, names2[0])
    case BackwardNetem => Port(1, names1[0])
  }

  /** What a chain installs at event k: the unchanged rate, or the event's own netem words. */
  function Installed(c: Track, l: Link, plan: seq<Schedule.Planned>, k: nat): Qdisc
    requires k < |plan|
  {
    if c.ForwardShaping? || c.BackwardShaping? then TbfOf(l) else Netem(plan[k].cmd + " ")
  }

  /** How far a chain has come in an interleaving of the four. */
  function Progress(order: seq<Track>, c: Track, n: nat): nat {
    if order == [] then 0
    else
      var before := Progress(order[..|order| - 1], c, n);
      if order[|order| - 1] == c && before < n then before + 1 else before
  }

  /** The state after the chains have taken their turns in the given order. */
  function Changed(r: Roots, l: Link, plan: seq<Schedule.Planned>, names1: seq<string>, names2: seq<string>,
                   order: seq<Track>): Roots
    requires names1 != [] && names2 != []
  {
    if order == [] then r
    else
      var before := Changed(r, l, plan, names1, names2, order[..|order| - 1]);
      var c := order[|order| - 1];
      var k := Progress(order[..|order| - 1], c, |plan|);
      if k < |plan| then Exec(before, Replace(PortOf(c, names1, names2), Installed(c, l, plan, k))) else before
  }

  /** In every interleaving each interface carries what its own chain installed last, or still the first placement. */
  lemma {:induction false} EachChainOwnsItsInterface(r: Roots, l: Link, plan: seq<Schedule.Planned>,
                                                     names1: seq<string>, names2: seq<string>, order: seq<Track>, c: Track)
    requires names1 != [] && names2 != [] && names1[0] != Last(names1) && names2[0] != Last(names2)
    requires PortOf(c, names1, names2) in r
    ensures var t := Changed(r, l, plan, names1, names2, order);
            var k := Progress(order, c, |plan|);
            && k <= |plan| && PortOf(c, names1, names2) in t
            && t[PortOf(c, names1, names2)] == if k == 0 then r[PortOf(c, names1, names2)] else Installed(c, l, plan, k - 1)
  {
    if order != [] {
      EachChainOwnsItsInterface(r, l, plan, names1, names2, order[..|order| - 1], c);
    }
  }

  /** The exact condition during the changes: a direction delays once and shapes once exactly when its two chains
      have both started or both not started. */
  lemma DirectionsDuringChanges(r: Roots, l: Link, plan: seq<Schedule.Planned>,
                                names1: seq<string>, names2: seq<string>, order: seq<Track>)
    requires names1 != [] && names2 != [] && names1[0] != Last(names1) && names2[0] != Last(names2)
    ensures var t := Changed(ExecAll(r, Configuration(l, names1, names2)), l, plan, names1, names2, order);
            && (OneEach(t, Port(1, Last(names1)), Port(2, Last(names2)))
                <==> (Progress(order, ForwardShaping, |plan|) == 0 <==> Progress(order, ForwardNetem, |plan|) == 0))
            && (OneEach(t, Port(2, names2[0]), Port(1, names1[0]))
                <==> (Progress(order, BackwardShaping, |plan|) == 0 <==> Progress(order, BackwardNetem, |plan|) == 0))
  {
    hide Changed, Progress, ExecAll, Configuration, Last;
    ConfigurationResult(r, l, names1, names2);
    var placed := ExecAll(r, Configuration(l, names1, names2));
    EachChainOwnsItsInterface(placed, l, plan, names1, names2, order, ForwardShaping);
    EachChainOwnsItsInterface(placed, l, plan, names1, names2, order, ForwardNetem);
    EachChainOwnsItsInterface(placed, l, plan, names1, names2, order, BackwardShaping);
    EachChainOwnsItsInterface(placed, l, plan, names1, names2, order, BackwardNetem);
  }

  /** Once all four chains have applied the same k >= 1 events, delay and rate have changed places in both
      directions and the delay is that of event k. */
  lemma SwappedAfterChange(r: Roots, l: Link, plan: seq<Schedule.Planned>,
                           names1: seq<string>, names2: seq<string>, order: seq<Track>, k: nat)
    requires names1 != [] && names2 != [] && names1[0] != Last(names1) && names2[0] != Last(names2)
    requires 0 < k <= |plan| && forall c: Track :: Progress(order, c, |plan|) == k
    ensures var t := Changed(ExecAll(r, Configuration(l, names1, names2)), l, plan, names1, names2, order);
            && BothWays(t, names1, names2)
            && t[Port(1, Last(names1))] == TbfOf(l) && t[Port(2, Last(names2))] == Netem(plan[k - 1].cmd + " ")
            && t[Port(2, names2[0])] == TbfOf(l) && t[Port(1, names1[0])] == Netem(plan[k - 1].cmd + " ")
  {
    hide Changed, Progress, ExecAll, Configuration, Last;
    ConfigurationResult(r, l, names1, names2);
    var placed := ExecAll(r, Configuration(l, names1, names2));
    EachChainOwnsItsInterface(placed, l, plan, names1, names2, order, ForwardShaping);
    EachChainOwnsItsInterface(placed, l, plan, names1, names2, order, ForwardNetem);
    EachChainOwnsItsInterface(placed, l, plan, names1, names2, order, BackwardShaping);
    EachChainOwnsItsInterface(placed, l, plan, names1, names2, order, BackwardNetem);
  }

  // ------------------------------------------------------------ the changes on the clock

  /** A chain launches its next command at a clock time. */
  datatype Turn = Turn(at: real, track: Track)

  function Tracks(turns: seq<Turn>): (order: seq<Track>)
    ensures |order| == |turns|
  {
    if turns == [] then [] else Tracks(turns[..|turns| - 1]) + [turns[|turns| - 1].track]
  }

  /** The times at which one chain has its turns. */
  function TimesOf(turns: seq<Turn>, c: Track): seq<real> {
    if turns == [] then []
    else
      var last := turns[|turns| - 1];
      TimesOf(turns[..|turns| - 1], c) + if last.track == c then [last.at] else []
  }

  /** The turns up to a clock time. */
  function Until(turns: seq<Turn>, t: real): seq<Turn> {
    if turns == [] then []
    else
      var last := turns[|turns| - 1];
      Until(turns[..|turns| - 1], t) + if last.at <= t then [last] else []
  }

  function Before(times: seq<real>, t: real): seq<real> {
    if times == [] then []
    else
      var last := times[|times| - 1];
      Before(times[..|times| - 1], t) + if last <= t then [last] else []
  }

  /** All four chains run from the same start, with simultaneous turns in any order. */
  ghost predicate RunOfChains(turns: seq<Turn>, plan: seq<Schedule.Planned>, build: Track -> string -> string, start: real) {
    forall c: Track ::
      var fired := Schedule.Firings(Schedule.Chain(plan, build(c)), start);
      |TimesOf(turns, c)| == |fired| && forall i :: 0 <= i < |fired| ==> TimesOf(turns, c)[i] == fired[i].at
  }

  /** The number of planned events due by a time after the start. */
  function Due(plan: seq<Schedule.Planned>, since: real): (k: nat)
    ensures k <= |plan|
  {
    if plan == [] then 0
    else if plan[|plan| - 1].at <= since then |plan|
    else Due(plan[..|plan| - 1], since)
  }

  lemma {:induction false} DueMeans(plan: seq<Schedule.Planned>, since: real)
    requires Increasing(plan)
    ensures forall i :: 0 <= i < |plan| ==> (plan[i].at <= since <==> i < Due(plan, since))
  {
    if plan != [] {
      var n := |plan| - 1;
      if plan[n].at > since {
        DueMeans(plan[..n], since);
        assert forall i :: 0 <= i < n ==> plan[..n][i] == plan[i];
      }
    }
  }

  predicate Increasing(plan: seq<Schedule.Planned>) {
    forall i, j :: 0 <= i < j < |plan| ==> plan[i].at < plan[j].at
  }

  lemma {:induction false} PlansIncrease(plan: seq<Schedule.Planned>)
    requires Schedule.DeltaEncoded(plan)
    ensures Increasing(plan)
  {
    forall i, j | 0 <= i < j < |plan|
      ensures plan[i].at < plan[j].at
    {
      LaterIsGreater(plan, i, j);
    }
  }

  lemma {:induction false} LaterIsGreater(plan: seq<Schedule.Planned>, i: nat, j: nat)
    requires Schedule.DeltaEncoded(plan) && i < j < |plan|
    ensures plan[i].at < plan[j].at
    decreases j
  {
    assert plan[j - 1].at < plan[j].at;
    if i < j - 1 {
      LaterIsGreater(plan, i, j - 1);
    }
  }

  lemma {:induction false} TimesUntil(turns: seq<Turn>, c: Track, t: real)
    ensures TimesOf(Until(turns, t), c) == Before(TimesOf(turns, c), t)
  {
    if turns != [] {
      var before, last := turns[..|turns| - 1], turns[|turns| - 1];
      TimesUntil(before, c, t);
      if last.at <= t {
        assert (Until(before, t) + [last])[..|Until(before, t)|] == Until(before, t);
      } else {
        assert Until(before, t) + [] == Until(before, t);
      }
      if last.track == c {
        assert (TimesOf(before, c) + [last.at])[..|TimesOf(before, c)|] == TimesOf(before, c);
      } else {
        assert TimesOf(before, c) + [] == TimesOf(before, c);
      }
    }
  }

  lemma {:induction false} ProgressCounts(turns: seq<Turn>, c: Track, n: nat)
    ensures Progress(Tracks(turns), c, n) == if |TimesOf(turns, c)| < n then |TimesOf(turns, c)| else n
  {
    if turns != [] {
      ProgressCounts(turns[..|turns| - 1], c, n);
      assert Tracks(turns)[..|turns| - 1] == Tracks(turns[..|turns| - 1]);
    }
  }

  lemma {:induction false} DueCounts(plan: seq<Schedule.Planned>, times: seq<real>, start: real, t: real)
    requires Increasing(plan) && |times| == |plan| && forall i :: 0 <= i < |plan| ==> times[i] == start + plan[i].at
    ensures |Before(times, t)| == Due(plan, t - start)
  {
    if plan != [] {
      var n := |plan| - 1;
      DueCounts(plan[..n], times[..n], start, t);
      if n > 0 && plan[n].at <= t - start {
        assert plan[n - 1].at < plan[n].at;
        assert plan[..n][n - 1] == plan[n - 1];
      }
    }
  }

  /** At any clock time every chain has applied exactly the accepted events that are due. */
  lemma ProgressAtTime(events: seq<Schedule.Event>, build: Track -> string -> string, start: real,
                       turns: seq<Turn>, t: real, c: Track)
    requires events == [] || events[0].at >= 0.0
    requires RunOfChains(turns, Schedule.OfferAll(events), build, start)
    ensures var plan := Schedule.OfferAll(events);
            Progress(Tracks(Until(turns, t)), c, |plan|) == Due(plan, t - start)
  {
    hide Progress, Until, Tracks, TimesOf, Due;
    var plan := Schedule.OfferAll(events);
    Schedule.OfferAllIsDeltaEncoded(events);
    PlansIncrease(plan);
    Schedule.ChainKeepsTheTimetable(events, build(c), start);
    DueCounts(plan, TimesOf(turns, c), start, t);
    TimesUntil(turns, c, t);
    ProgressCounts(Until(turns, t), c, |plan|);
  }

  /** At every clock time, whatever the order of simultaneous commands, each direction delays once and shapes once: as
      first placed until the first accepted event is due, and from then on with delay and rate exchanged and the delay
      of the latest accepted event due. */
  lemma PlacementAtTime(r: Roots, l: Link, events: seq<Schedule.Event>, names1: seq<string>, names2: seq<string>,
                        build: Track -> string -> string, start: real, turns: seq<Turn>, t: real)
    requires names1 != [] && names2 != [] && names1[0] != Last(names1) && names2[0] != Last(names2)
    requires events == [] || events[0].at >= 0.0
    requires RunOfChains(turns, Schedule.OfferAll(events), build, start) && PlainNumbers(l)
    ensures var plan := Schedule.OfferAll(events);
            var placed := ExecAll(r, Configuration(l, names1, names2));
            var s := Changed(placed, l, plan, names1, names2, Tracks(Until(turns, t)));
            var k := Due(plan, t - start);
            && BothWays(s, names1, names2)
            && (forall i :: 0 <= i < |plan| ==> (start + plan[i].at <= t <==> i < k))
            && var out1, out2, back2, back1 := Port(1, Last(names1)), Port(2, Last(names2)), Port(2, names2[0]), Port(1, names1[0]);
               var rate := Tbf(l.bandwidth, l.bufferSize);
               if k == 0 then
                 NetemOfLink(s[out1], l) && s[out2] == rate && NetemOfLink(s[back2], l) && s[back1] == rate
               else
                 var changed := Netem(plan[k - 1].cmd + " ");
                 s[out1] == rate && s[out2] == changed && s[back2] == rate && s[back1] == changed
  {
    hide Changed, Progress, ExecAll, Configuration, Last, Until, Tracks, TimesOf, Due, RunOfChains, NetemOf, NetemOfLink;
    NetemSays(l);
    var plan := Schedule.OfferAll(events);
    var order := Tracks(Until(turns, t));
    var k := Due(plan, t - start);
    Schedule.OfferAllIsDeltaEncoded(events);
    PlansIncrease(plan);
    DueMeans(plan, t - start);
    forall c: Track
      ensures Progress(order, c, |plan|) == k
    {
      ProgressAtTime(events, build, start, turns, t, c);
    }
    if k > 0 {
      SwappedAfterChange(r, l, plan, names1, names2, order, k);
    } else {
      ConfigurationResult(r, l, names1, names2);
      var placed := ExecAll(r, Configuration(l, names1, names2));
      EachChainOwnsItsInterface(placed, l, plan, names1, names2, order, ForwardShaping);
      EachChainOwnsItsInterface(placed, l, plan, names1, names2, order, ForwardNetem);
      EachChainOwnsItsInterface(placed, l, plan, names1, names2, order, BackwardShaping);
      EachChainOwnsItsInterface(placed, l, plan, names1, names2, order, BackwardNetem);
    }
  }
}
