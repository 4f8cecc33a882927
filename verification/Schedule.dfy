/** Timed changes: the schedules of link characteristics and of the pipe-viewer experiment, and their shell chains. */
module Schedule {

  datatype Event = Event(at: real, cmd: string)

  /** An accepted event with the time to sleep after its predecessor. */
  datatype Planned = Planned(at: real, delta: real, cmd: string)

  function Offer(plan: seq<Planned>, e: Event): seq<Planned> {
    if plan == [] then [Planned(e.at, e.at, e.cmd)]
    else
      var last := plan[|plan| - 1];
      if e.at > last.at then plan + [Planned(e.at, e.at - last.at, e.cmd)] else plan
  }

  function OfferAll(events: seq<Event>): seq<Planned> {
    if events == [] then [] else Offer(OfferAll(events[..|events| - 1]), events[|events| - 1])
  }

  /** The schedule of a link. */
  class LinkSchedule {
    var netemAt: seq<Planned>

    constructor ()
      ensures netemAt == []
    {
      netemAt := [];
    }

    method AddNetemAt(n: Event)
      modifies this
      ensures netemAt == Offer(old(netemAt), n)
    {
      if |netemAt| == 0 {
        netemAt := netemAt + [Planned(n.at, n.at, n.cmd)];
      } else {
        var last := netemAt[|netemAt| - 1];
        if n.at > last.at {
          netemAt := netemAt + [Planned(n.at, n.at - last.at, n.cmd)];
        }
      }
    }

    method AddAll(events: seq<Event>)
      requires netemAt == []
      modifies this
      ensures netemAt == OfferAll(events)
    {
      for i := 0 to |events|
        invariant netemAt == OfferAll(events[..i])
      {
        assert events[..i + 1][..i] == events[..i];
        AddNetemAt(events[i]);
      }
      assert events[..|events|] == events;
    }

    /** The chain of the link's commands, one `sleep` and one command an event, closed by `true`. */
    method BuildChangingCmd(build: string -> string) returns (chain: seq<Word>)
      ensures chain == Chain(netemAt, build)
      ensures |chain| == 2 * |netemAt| + 1 && chain[2 * |netemAt|] == Succeed
      ensures forall i :: 0 <= i < |netemAt| ==>
                chain[2 * i] == Sleep(netemAt[i].delta) && chain[2 * i + 1] == Launch(build(netemAt[i].cmd))
    {
      chain := [];
      for i := 0 to |netemAt|
        invariant chain == Links(netemAt[..i], build)
      {
        assert netemAt[..i + 1] == netemAt[..i] + [netemAt[i]];
        LinksLast(netemAt[..i], netemAt[i], build);
        chain := chain + [Sleep(netemAt[i].delta), Launch(build(netemAt[i].cmd))];
      }
      assert netemAt[..|netemAt|] == netemAt;
      chain := chain + [Succeed];
      ChainWords(netemAt, build);
    }
  }

  /** The second implementation, of the pipe-viewer experiment. */
  class PvSchedule {
    var changePvAt: seq<Planned>

    constructor ()
      ensures changePvAt == []
    {
      changePvAt := [];
    }

    method AddPvAt(p: Event)
      modifies this
      ensures changePvAt == Offer(old(changePvAt), p)
    {
      var delta := p.at;
      if |changePvAt| != 0 {
        if p.at > changePvAt[|changePvAt| - 1].at {
          delta := p.at - changePvAt[|changePvAt| - 1].at;
        } else {
          return;
        }
      }
      changePvAt := changePvAt + [Planned(p.at, delta, p.cmd)];
    }

    method GetPvChangeCmd(pv: string, pid: string) returns (chain: seq<Word>)
      ensures |chain| == 2 * |changePvAt| + 1 && chain[2 * |changePvAt|] == Succeed
      ensures forall i :: 0 <= i < |changePvAt| ==>
                && chain[2 * i] == Sleep(changePvAt[i].delta)
                && chain[2 * i + 1] == Launch(pv + " -R " + pid + " " + changePvAt[i].cmd)
      ensures exists build: string -> string ::
                (forall cmd :: build(cmd) == pv + " -R " + pid + " " + cmd) && chain == Chain(changePvAt, build)
    {
      ghost var build := (cmd: string) => pv + " -R " + pid + " " + cmd;
      chain := [];
      var i := 0;
      while i < |changePvAt|
        invariant i <= |changePvAt| && chain == Links(changePvAt[..i], build)
      {
        var p := changePvAt[i];
        assert changePvAt[..i + 1] == changePvAt[..i] + [p];
        LinksLast(changePvAt[..i], p, build);
        chain := chain + [Sleep(p.delta), Launch(pv + " -R " + pid + " " + p.cmd)];
        i := i + 1;
      }
      assert changePvAt[..|changePvAt|] == changePvAt;
      chain := chain + [Succeed];
      ChainWords(changePvAt, build);
      assert chain == Chain(changePvAt, build) && forall cmd :: build(cmd) == pv + " -R " + pid + " " + cmd;
    }
  }

  // ------------------------------------------------------------ which events are accepted

  /** An event later than every event offered before it. */
  predicate IsRecord(events: seq<Event>, k: nat)
    requires k < |events|
  {
    forall j :: 0 <= j < k ==> events[j].at < events[k].at
  }

  /** The strict left-to-right maxima, in the order offered. */
  function Records(events: seq<Event>): seq<Event> {
    if events == [] then []
    else
      var n := |events| - 1;
      Records(events[..n]) + if IsRecord(events, n) then [events[n]] else []
  }

  function Accepted(plan: seq<Planned>): (es: seq<Event>)
    ensures |es| == |plan| && forall i :: 0 <= i < |plan| ==> es[i] == Event(plan[i].at, plan[i].cmd)
  {
    seq(|plan|, i requires 0 <= i < |plan| => Event(plan[i].at, plan[i].cmd))
  }

  /** The last accepted time is the greatest offered one. */
  lemma {:induction false} LastIsGreatest(events: seq<Event>)
    requires events != []
    ensures var plan := OfferAll(events);
            && plan != []
            && (forall j :: 0 <= j < |events| ==> events[j].at <= plan[|plan| - 1].at)
            && (exists j :: 0 <= j < |events| && events[j].at == plan[|plan| - 1].at)
  {
    var n := |events| - 1;
    var before := events[..n];
    if n == 0 {
      assert events[0].at == OfferAll(events)[0].at;
    } else {
      LastIsGreatest(before);
      var j :| 0 <= j < |before| && before[j].at == OfferAll(before)[|OfferAll(before)| - 1].at;
      var plan := OfferAll(events);
      if events[n].at > before[j].at {
        assert events[n].at == plan[|plan| - 1].at;
      } else {
        assert events[j].at == plan[|plan| - 1].at;
      }
    }
  }

  lemma LaterIsRecord(events: seq<Event>)
    requires |events| > 1
    ensures var n := |events| - 1;
            var plan := OfferAll(events[..n]);
            plan != [] && (IsRecord(events, n) <==> events[n].at > plan[|plan| - 1].at)
  {
    var n := |events| - 1;
    var before := events[..n];
    LastIsGreatest(before);
    var last := OfferAll(before)[|OfferAll(before)| - 1].at;
    var j :| 0 <= j < n && before[j].at == last;
    assert events[j] == before[j];
    forall i | 0 <= i < n
      ensures events[i].at <= last
    {
      assert events[i] == before[i];
    }
  }

  /** For every sequence of offered events, exactly the strict left-to-right maxima are accepted. */
  lemma {:induction false} AcceptsExactlyTheRecords(events: seq<Event>)
    ensures Accepted(OfferAll(events)) == Records(events)
  {
    if events != [] {
      var n := |events| - 1;
      AcceptsExactlyTheRecords(events[..n]);
      if n == 0 {
        assert events[..n] == [];
      } else {
        LaterIsRecord(events);
        hide IsRecord;
        var plan := OfferAll(events[..n]);
        assert Accepted(OfferAll(events)) == Accepted(plan) + if IsRecord(events, n) then [events[n]] else [];
      }
    }
  }

  // ------------------------------------------------------------ delta encoding

  function SumDeltas(plan: seq<Planned>): real {
    if plan == [] then 0.0 else SumDeltas(plan[..|plan| - 1]) + plan[|plan| - 1].delta
  }

  /** Times strictly increase, and the deltas up to each event add up to its time. */
  ghost predicate DeltaEncoded(plan: seq<Planned>) {
    && (forall i :: 0 < i < |plan| ==> plan[i - 1].at < plan[i].at)
    && (forall i :: 0 <= i < |plan| ==> SumDeltas(plan[..i + 1]) == plan[i].at)
  }

  lemma {:induction false} OfferAllIsDeltaEncoded(events: seq<Event>)
    ensures DeltaEncoded(OfferAll(events))
  {
    if events != [] {
      var before := OfferAll(events[..|events| - 1]);
      OfferAllIsDeltaEncoded(events[..|events| - 1]);
      var plan := OfferAll(events);
      forall i | 0 <= i < |plan|
        ensures SumDeltas(plan[..i + 1]) == plan[i].at
      {
        if i < |before| {
          assert plan[..i + 1] == before[..i + 1];
        } else {
          assert plan[..i + 1][..i] == before;
          if before != [] {
            assert before[..|before| - 1 + 1] == before;
          }
        }
      }
    }
  }

  // ------------------------------------------------------------ the generated shell chain

  /** The words of `sleep d && command && ... && true`. */
  datatype Word = Sleep(seconds: real) | Launch(command: string) | Succeed

  function Links(plan: seq<Planned>, build: string -> string): seq<Word> {
    if plan == [] then []
    else [Sleep(plan[0].delta), Launch(build(plan[0].cmd))] + Links(plan[1..], build)
  }

  function Chain(plan: seq<Planned>, build: string -> string): seq<Word> {
    Links(plan, build) + [Succeed]
  }

  lemma {:induction false} LinkWords(plan: seq<Planned>, build: string -> string, i: nat)
    requires i < |plan|
    ensures |Links(plan, build)| == 2 * |plan|
    ensures Links(plan, build)[2 * i] == Sleep(plan[i].delta) && Links(plan, build)[2 * i + 1] == Launch(build(plan[i].cmd))
  {
    if |plan| == 1 {
      assert Links(plan[1..], build) == [];
    } else {
      LinkWords(plan[1..], build, if i == 0 then 0 else i - 1);
    }
  }

  /** The words of a chain, two to an event, closed by `true`. */
  lemma ChainWords(plan: seq<Planned>, build: string -> string)
    ensures var chain := Chain(plan, build);
            && |chain| == 2 * |plan| + 1 && chain[2 * |plan|] == Succeed
            && forall i :: 0 <= i < |plan| ==> chain[2 * i] == Sleep(plan[i].delta) && chain[2 * i + 1] == Launch(build(plan[i].cmd))
  {
    hide Links;
    if plan == [] {
      NoLinks(build);
    } else {
      LinkWords(plan, build, 0);
    }
    forall i | 0 <= i < |plan|
      ensures Chain(plan, build)[2 * i] == Sleep(plan[i].delta) && Chain(plan, build)[2 * i + 1] == Launch(build(plan[i].cmd))
    {
      LinkWords(plan, build, i);
    }
  }

  lemma NoLinks(build: string -> string)
    ensures Links([], build) == []
  {
  }

  lemma {:induction false} LinksLast(plan: seq<Planned>, p: Planned, build: string -> string)
    ensures Links(plan + [p], build) == Links(plan, build) + [Sleep(p.delta), Launch(build(p.cmd))]
  {
    if plan == [] {
      assert plan + [p] == [p] && [p][1..] == [];
    } else {
      LinksLast(plan[1..], p, build);
      assert (plan + [p])[1..] == plan[1..] + [p];
    }
  }

  /** What a chain launches and when, on a clock on which commands take no time and succeed. `sleep` refuses a
      negative time, and a failed word ends the chain. */
  function Firings(chain: seq<Word>, clock: real): seq<Event> {
    if chain == [] then []
    else match chain[0]
      case Sleep(d) => if d < 0.0 then [] else Firings(chain[1..], clock + d)
      case Launch(command) => [Event(clock, command)] + Firings(chain[1..], clock)
      case Succeed => Firings(chain[1..], clock)
  }

  /** The planned commands at their absolute times after the start. */
  function Timetable(plan: seq<Planned>, build: string -> string, start: real): seq<Event> {
    seq(|plan|, i requires 0 <= i < |plan| => Event(start + plan[i].at, build(plan[i].cmd)))
  }

  lemma FiringsOfLink(d: real, command: string, rest: seq<Word>, clock: real)
    requires d >= 0.0
    ensures Firings([Sleep(d), Launch(command)] + rest, clock) == [Event(clock + d, command)] + Firings(rest, clock + d)
  {
    var chain := [Sleep(d), Launch(command)] + rest;
    assert chain[1..] == [Launch(command)] + rest;
    assert chain[1..][1..] == rest;
  }

  /** Sleeping on from the moment of event i - 1. */
  lemma {:induction false} ChainFiresFrom(plan: seq<Planned>, i: nat, build: string -> string, start: real)
    requires DeltaEncoded(plan) && i <= |plan| && (i == 0 && plan != [] ==> plan[0].at >= 0.0)
    ensures Firings(Chain(plan[i..], build), start + if i == 0 then 0.0 else plan[i - 1].at) == Timetable(plan, build, start)[i..]
    decreases |plan| - i
  {
    var clock := start + if i == 0 then 0.0 else plan[i - 1].at;
    if i == |plan| {
      assert Chain(plan[i..], build) == [Succeed];
      assert Firings([Succeed][1..], clock) == [];
    } else {
      hide DeltaEncoded;
      var p := plan[i];
      DeltaOf(plan, i);
      ChainFiresFrom(plan, i + 1, build, start);
      assert plan[i..][1..] == plan[i + 1..];
      assert Chain(plan[i..], build) == [Sleep(p.delta), Launch(build(p.cmd))] + Chain(plan[i + 1..], build);
      FiringsOfLink(p.delta, build(p.cmd), Chain(plan[i + 1..], build), clock);
      hide Firings, Chain;
      assert clock + p.delta == start + p.at;
      assert Timetable(plan, build, start)[i..] == [Event(start + p.at, build(p.cmd))] + Timetable(plan, build, start)[i + 1..];
    }
  }

  /** Each delta is the distance from the event before, and positive from the second event on. */
  lemma DeltaOf(plan: seq<Planned>, i: nat)
    requires DeltaEncoded(plan) && i < |plan|
    ensures plan[i].delta == plan[i].at - if i == 0 then 0.0 else plan[i - 1].at
    ensures i > 0 ==> plan[i].delta > 0.0
  {
    assert SumDeltas(plan[..i + 1]) == plan[i].at;
    assert plan[..i + 1][..i] == plan[..i];
    if i > 0 {
      assert SumDeltas(plan[..i - 1 + 1]) == plan[i - 1].at;
    }
  }

  /** The exact condition: the chain of a schedule launches every accepted command at its absolute time exactly
      when the first accepted time is not negative. */
  lemma ChainKeepsTheTimetable(events: seq<Event>, build: string -> string, start: real)
    ensures var plan := OfferAll(events);
            Firings(Chain(plan, build), start) == Timetable(plan, build, start) <==> (events == [] || events[0].at >= 0.0)
  {
    var plan := OfferAll(events);
    OfferAllIsDeltaEncoded(events);
    assert plan[0..] == plan && Timetable(plan, build, start)[0..] == Timetable(plan, build, start);
    if events != [] {
      FirstIsAccepted(events);
    }
    if plan == [] || plan[0].at >= 0.0 {
      ChainFiresFrom(plan, 0, build, start);
      assert start + 0.0 == start;
    } else {
      DeltaOf(plan, 0);
      assert Chain(plan, build)[0] == Sleep(plan[0].delta);
      assert Firings(Chain(plan, build), start) == [];
    }
  }

  lemma {:induction false} FirstIsAccepted(events: seq<Event>)
    requires events != []
    ensures OfferAll(events) != [] && OfferAll(events)[0].at == events[0].at
  {
    if |events| > 1 {
      FirstIsAccepted(events[..|events| - 1]);
    }
  }
}
