/** The window, the ring of sent times, and the delays the Siri client reports. */
module SiriDelays {
  import opened Text
  import opened SiriProtocol
  import opened SiriServer
  import opened SiriServing
  import opened SiriSystem
  import opened SiriWindow
  import C = SiriClient

  // ------------------------------------------------------------ the window

  /** The counter's law and no failed thread: the counter is the bytes of the queries outstanding, less what is not
      written or not counted, in 32-bit arithmetic. */
  ghost predicate WindowHolds(p: C.Params, s: State) {
    && s.vars.counter == C.JavaInt(p.querySize * Outstanding(s) - Left(p, s.sender) - Uncounted(s.sender))
    && 0 <= Outstanding(s) <= |s.issued|
    && !s.sender.Broken? && !s.reader.Failed? && s.server.status.Running?
  }

  /** Every reachable state is within the window: no query is started beyond the first number of queries the window
      check refuses. */
  lemma WindowLaw(p: C.Params, s: State)
    requires Good(p) && Reachable(p, s)
    ensures WindowHolds(p, s)
    ensures forall n: nat | StopsAt(p, n) :: Outstanding(s) <= n
  {
    hide Pending, Run, AtLoopHead, C.JavaInt;
    ReachableInv(p, s);
    SentAtHead(s.server, s.issued, Sent(s), p.mac);
  }

  /** In every reachable state the replies are, in order, those to ids 0, 1, … modulo 100, padded to the response size
      asked for, each sent after the waiting time asked for. */
  lemma RepliesInOrder(p: C.Params, s: State)
    requires Good(p) && Reachable(p, s)
    ensures |s.server.sent| <= |s.issued| && |s.server.slept| == |s.server.sent|
    ensures forall k: nat | k < |s.server.sent| ::
              var id := Dec(k % 100);
              && s.server.sent[k] == id + "&" + Repeat('0', p.responseSize - |id| - 2) + "\n"
              && |s.server.sent[k]| == (if p.responseSize >= |id| + 2 then p.responseSize else |id| + 2)
              && s.server.slept[k] == p.delayQueryResponse
  {
    hide Run, AtLoopHead, Dec, Repeat, CountInv, SenderInv, ReaderInv;
    ReachableInv(p, s);
    SentAtHead(s.server, s.issued, Sent(s), p.mac);
    forall k: nat | k < |s.server.sent|
      ensures s.server.sent[k] == Reply(s.issued[k]) && s.issued[k] == C.QueryOf(p, k % C.MAX_ID, s.issued[k].time)
    {
    }
  }

  /** When both channels are drained and neither thread is in the middle of anything, every query has been
      answered and its delay recorded, and the counter is back to zero. */
  lemma QuietMeansSettled(p: C.Params, s: State)
    requires Good(p) && Reachable(p, s)
    requires s.sender.Idle? && s.reader.Waiting? && s.toServer == "" && '\n' !in s.toClient
    ensures |s.vars.delayTime| == |s.issued| && s.server.sent == Replies(s.issued)
    ensures s.vars.counter == 0 && s.toClient == "" && s.server.bufferData == ""
  {
    hide Run, AtLoopHead, Message, WellFormed;
    ReachableInv(p, s);
    var k, n := Sent(s), |s.arrivedAt|;
    SentAtHead(s.server, s.issued, k, p.mac);
    HeadFacts(s.server, s.issued, k, p.mac);
    assert s.server.bufferData + "" + "" == s.server.bufferData;
    if k < |s.issued| {
      PendingUnfold(s.issued, k);
      MessageShape(s.issued[k]);
    } else {
      assert s.issued[..k] == s.issued;
      UnreadReplyHasNewline(s.issued, n, k);
      ReplyBytesEmpty(s.issued, n);
      assert p.querySize * 0 == 0;
    }
  }

  lemma UnreadReplyHasNewline(rs: seq<Request>, i: nat, j: nat)
    requires i <= j <= |rs|
    ensures i < j ==> '\n' in ReplyBytes(rs, i, j)
  {
    if i < j {
      ReplyBytesFirst(rs, i, j);
      ReplyShape(rs[i]);
      FirstLine(Reply(rs[i]), ReplyBytes(rs, i + 1, j));
    }
  }

  // ------------------------------------------------------------ the ring of sent times

  /** Every recorded delay is the time between the start of its query and the arrival of its reply. */
  ghost predicate TrueDelays(s: State) {
    |s.vars.delayTime| <= |s.arrivedAt| && |s.vars.delayTime| <= |s.issued|
    && forall k :: 0 <= k < |s.vars.delayTime| ==> s.vars.delayTime[k] == s.arrivedAt[k] - s.issued[k].time
  }

  /** The slot of every query without a recorded delay still holds that query's time. */
  ghost predicate SlotsIntact(s: State) {
    |s.vars.sentTime| == C.MAX_ID
    && forall k :: |s.vars.delayTime| <= k < |s.issued| ==> s.vars.sentTime[k % C.MAX_ID] == s.issued[k].time
  }

  lemma DistinctSlots(i: nat, j: nat)
    requires i < j < i + C.MAX_ID
    ensures i % C.MAX_ID != j % C.MAX_ID
  {
  }

  /** The window check refuses before, or at the latest when, 100 queries are outstanding. */
  ghost predicate RingHolds(p: C.Params) {
    exists n: nat :: n <= C.MAX_ID && StopsAt(p, n)
  }

  lemma IssueKeepsSlots(p: C.Params, s: State)
    requires Inv(p, s) && SlotsIntact(s) && RingHolds(p) && Enabled(s, Issue)
    ensures SlotsIntact(DoIssue(p, s))
  {
    hide WireInv, Header, C.JavaInt;
    var t := DoIssue(p, s);
    var n: nat :| n <= C.MAX_ID && StopsAt(p, n);
    assert Outstanding(s) < n;
    forall k | |t.vars.delayTime| <= k < |t.issued|
      ensures t.vars.sentTime[k % C.MAX_ID] == t.issued[k].time
    {
      if k < |s.issued| {
        DistinctSlots(k, |s.issued|);
      }
    }
  }

  lemma StepKeepsDelays(p: C.Params, s: State, a: Action)
    requires Good(p) && Inv(p, s) && SlotsIntact(s) && TrueDelays(s) && RingHolds(p) && Enabled(s, a)
    ensures SlotsIntact(Do(p, s, a)) && TrueDelays(Do(p, s, a))
  {
    hide AtLoopHead, Pending, ReplyBytes, Header, Unsent, Step, C.FillingPacket, C.ReplyId, C.SizeOfNextPacket, Repeat, WellFormed;
    if a.Issue? {
      IssueKeepsSlots(p, s);
    } else if a.Record? {
      SentAtHead(s.server, s.issued, Sent(s), p.mac);
    }
  }

  lemma {:induction false} RunKeepsDelays(p: C.Params, s: State, actions: seq<Action>)
    requires Good(p) && Inv(p, s) && SlotsIntact(s) && TrueDelays(s) && RingHolds(p)
    ensures var r := Run(p, s, actions); r.Some? ==> TrueDelays(r.value)
    decreases |actions|
  {
    if actions != [] && Enabled(s, actions[0]) {
      hide Inv, Do, Enabled, TrueDelays, SlotsIntact;
      StepKeeps(p, s, actions[0]);
      StepKeepsDelays(p, s, actions[0]);
      RunKeepsDelays(p, Do(p, s, actions[0]), actions[1..]);
    }
  }

  // ------------------------------------------------------------ an overlong window

  lemma {:induction false} RunAppend(p: C.Params, s: State, actions: seq<Action>, a: Action)
    requires p.minPayload >= 1
    requires Run(p, s, actions).Some? && Enabled(Run(p, s, actions).value, a)
    ensures Run(p, s, actions + [a]) == Some(Do(p, Run(p, s, actions).value, a))
    decreases |actions|
  {
    hide Do, Enabled;
    if actions == [] {
      assert actions + [a] == [a];
      assert [a][1..] == [];
    } else {
      assert (actions + [a])[1..] == actions[1..] + [a];
      RunAppend(p, Do(p, s, actions[0]), actions[1..], a);
    }
  }

  lemma ReachNext(p: C.Params, s: State, a: Action)
    requires p.minPayload >= 1 && Reachable(p, s) && Enabled(s, a)
    ensures Reachable(p, Do(p, s, a))
  {
    hide Do, Enabled;
    var actions: seq<Action> :| Run(p, Start(), actions) == Some(s);
    RunAppend(p, Start(), actions, a);
  }

  lemma StartReachable(p: C.Params)
    requires p.minPayload >= 1
    ensures Reachable(p, Start())
  {
    assert Run(p, Start(), []) == Some(Start());
  }

  /** Everything but the sender's own progress is the same. */
  ghost predicate OnlySent(s: State, t: State) {
    && t.vars == s.vars.(counter := t.vars.counter)
    && t == s.(vars := t.vars, sender := t.sender, toServer := t.toServer)
  }

  /** The sender can finish the query it is writing while nothing else moves. */
  lemma {:induction false} FinishQuery(p: C.Params, s: State) returns (t: State)
    requires Good(p) && Reachable(p, s) && (s.sender.First? || s.sender.Rest? || s.sender.Counting?)
    ensures Reachable(p, t) && t.sender.Idle? && OnlySent(s, t)
    decreases Left(p, s.sender), if s.sender.Counting? then 1 else 0
  {
    hide Reachable, WireInv, CountInv, HistoryInv, C.FillingPacket, Repeat, C.DrawBound;
    ReachableInv(p, s);
    if s.sender.Counting? {
      t := DoCount(s);
      ReachNext(p, s, Count);
    } else {
      PacketIsStartOfUnsent(p, s, 0);
      t := DoWrite(p, s, 0);
      ReachNext(p, s, Write(0));
      assert t.sender.bytes > 0;
    }
    if !t.sender.Idle? {
      t := FinishQuery(p, t);
    }
  }

  /** Queries can be sent, before anything else happens, up to the first number that the check refuses. */
  lemma {:induction false} SendMany(p: C.Params, n: nat) returns (s: State)
    requires Good(p) && forall m: nat | StopsAt(p, m) :: n <= m
    ensures Reachable(p, s) && s.sender.Idle? && s.reader.Waiting? && |s.issued| == n && s.clock == 0
    ensures s.vars.delayTime == [] && s.arrivedAt == [] && s.server == Fresh
    ensures forall k :: 0 <= k < n ==> s.issued[k].time == 0
    decreases n
  {
    hide Reachable, WireInv, Header, StopsAt;
    if n == 0 {
      s := Start();
      StartReachable(p);
    } else {
      var r := SendMany(p, n - 1);
      var u := ReadyToIssue(p, r);
      var v := DoIssue(p, u);
      ReachableInv(p, u);
      ReachNext(p, u, Issue);
      s := FinishQuery(p, v);
    }
  }

  lemma ReadyToIssue(p: C.Params, s: State) returns (t: State)
    requires Good(p) && Reachable(p, s) && s.sender.Idle? && Outstanding(s) >= 0 && !StopsAt(p, Outstanding(s))
    ensures Reachable(p, t) && t == s.(sender := Ready) && Enabled(t, Issue)
  {
    hide Reachable, WireInv, C.JavaInt;
    ReachableInv(p, s);
    assert p.querySize * Outstanding(s) - 0 - 0 == p.querySize * Outstanding(s);
    t := DoCheck(p, s);
    ReachNext(p, s, Check);
  }

  /** The exact window: n is never exceeded exactly when the check refuses at n queries or at fewer. */
  lemma WindowIsExact(p: C.Params, n: nat)
    requires Good(p)
    ensures (forall s: State | Reachable(p, s) :: Outstanding(s) <= n) <==> exists m: nat :: m <= n && StopsAt(p, m)
  {
    hide Reachable, StopsAt;
    if m: nat :| m <= n && StopsAt(p, m) {
      forall s: State | Reachable(p, s)
        ensures Outstanding(s) <= n
      {
        WindowLaw(p, s);
      }
    } else {
      var s := SendMany(p, n + 1);
      assert Outstanding(s) == n + 1;
    }
  }

  /** As long as bytes are on their way, the server can take them until it has answered a first query. */
  lemma {:induction false} DeliverUntilReply(p: C.Params, s: State) returns (t: State)
    requires Good(p) && Reachable(p, s) && Sent(s) == 0
    ensures Reachable(p, t) && t == s.(server := t.server, toServer := t.toServer, toClient := t.toClient)
    ensures Sent(t) > 0 || t.toServer == ""
    decreases |s.toServer|
  {
    if s.toServer == "" {
      t := s;
    } else {
      hide Reachable, Step, HistoryInv, CountInv, Unsent, SenderInv, AtLoopHead, Pending;
      ReachableInv(p, s);
      SentAtHead(s.server, s.issued, 0, p.mac);
      t := DoRecv(s, 1);
      ReachNext(p, s, Recv(1));
      if Sent(t) == 0 {
        t := DeliverUntilReply(p, t);
      }
    }
  }

  /** If at least two queries were issued and the last is still unwritten, draining the channel yields a reply. */
  lemma DrainedHasReplied(p: C.Params, s: State)
    requires Good(p) && Inv(p, s) && s.sender.First? && |s.issued| >= 2 && s.toServer == ""
    ensures Sent(s) > 0
  {
    hide Message, WellFormed, AtLoopHead;
    IssuedAreWellFormed(p, s);
    if Sent(s) == 0 {
      HeadFacts(s.server, s.issued, 0, p.mac);
      PendingUnfold(s.issued, 0);
      PendingUnfold(s.issued, 1);
      MessageShape(s.issued[0]);
      MessageShape(s.issued[1]);
    }
  }

  /** If the check lets a 101st query pass, some interleaving reports a wrong delay. */
  lemma WrongDelay(p: C.Params) returns (s: State)
    requires Good(p) && !RingHolds(p)
    ensures Reachable(p, s) && !TrueDelays(s)
  {
    var u := OverwrittenSlot(p);
    hide Reachable, Inv, Step, Do, Run;
    var v := DeliverUntilReply(p, u);
    ReachableInv(p, v);
    s := TakeFirstReply(p, v);
  }

  /** 100 queries at time 0, the 101st at time 1: its time now stands in the slot of the first. */
  lemma OverwrittenSlot(p: C.Params) returns (u: State)
    requires Good(p) && !RingHolds(p)
    ensures Reachable(p, u) && u.sender.First? && u.reader.Waiting? && |u.issued| == C.MAX_ID + 1 && u.clock == 1
    ensures u.arrivedAt == [] && u.server == Fresh && u.issued[0].time == 0
    ensures |u.vars.sentTime| == C.MAX_ID && u.vars.sentTime[0] == 1
  {
    hide Reachable, WireInv, Header, StopsAt, CountInv;
    var r := SendMany(p, C.MAX_ID);
    ReachableInv(p, r);
    var t := ReadyToIssue(p, r);
    ReachNext(p, t, Tick(1));
    var w := t.(clock := 1);
    ReachableInv(p, w);
    u := DoIssue(p, w);
    ReachNext(p, w, Issue);
  }

  lemma TakeFirstReply(p: C.Params, v: State) returns (s: State)
    requires Good(p) && Reachable(p, v) && Inv(p, v)
    requires v.sender.First? && v.reader.Waiting? && |v.issued| >= 2 && (Sent(v) > 0 || v.toServer == "")
    requires v.arrivedAt == [] && v.clock == 1 && v.issued[0].time == 0 && v.vars.sentTime[0] == 1
    ensures Reachable(p, s) && !TrueDelays(s)
  {
    hide Reachable, Unsent, Pending, AtLoopHead, WellFormed, Message, ReplyBytes, DoReadLine, CountInv;
    if Sent(v) == 0 {
      DrainedHasReplied(p, v);
    }
    UnreadReplyHasNewline(v.issued, 0, SentBound(p, v));
    FirstReplyIsRead(p, v);
    ReachNext(p, v, ReadLine);
    var g := DoReadLine(v);
    ReachNext(p, g, Record);
    s := DoRecord(g);
    assert s.vars.delayTime[0] == 0 && s.arrivedAt[0] == 1;
  }

  /** The number of replies sent, which never exceeds the number of queries. */
  ghost function SentBound(p: C.Params, s: State): (n: nat)
    requires WireInv(p, s)
    ensures n == Sent(s) && n <= |s.issued|
  {
    SentAtHead(s.server, s.issued, Sent(s), p.mac);
    Sent(s)
  }

  /** The exact condition: the n-th reported delay is the true delay of the n-th query in every interleaving exactly
      when the window check refuses at some number of outstanding queries up to the 100 slots of the ring. */
  lemma DelaysAreTrue(p: C.Params)
    requires Good(p)
    ensures (forall s: State | Reachable(p, s) :: TrueDelays(s)) <==> exists n: nat :: n <= 100 && StopsAt(p, n)
  {
    hide Reachable, TrueDelays, Run;
    if RingHolds(p) {
      forall s: State | Reachable(p, s)
        ensures TrueDelays(s)
      {
        ReachableDelays(p, s);
      }
    } else {
      var s := WrongDelay(p);
    }
  }

  lemma ReachableDelays(p: C.Params, s: State)
    requires Good(p) && Reachable(p, s) && RingHolds(p)
    ensures TrueDelays(s)
  {
    hide Inv, Run;
    var actions: seq<Action> :| Run(p, Start(), actions) == Some(s);
    StartInv(p);
    RunKeepsDelays(p, Start(), actions);
  }

  // ------------------------------------------------------------ what a run's own steps say

  /** The time that passes in a run. */
  function Elapsed(actions: seq<Action>): nat {
    if actions == [] then 0
    else
      var last := actions[|actions| - 1];
      Elapsed(actions[..|actions| - 1]) + if last.Tick? then last.ms else 0
  }

  /** The times of the steps that start a query. */
  function Starts(actions: seq<Action>): seq<int> {
    if actions == [] then []
    else
      var front := actions[..|actions| - 1];
      Starts(front) + if actions[|actions| - 1].Issue? then [Elapsed(front)] else []
  }

  /** The times of the steps that read a reply. */
  function Reads(actions: seq<Action>): seq<int> {
    if actions == [] then []
    else
      var front := actions[..|actions| - 1];
      Reads(front) + if actions[|actions| - 1].ReadLine? then [Elapsed(front)] else []
  }

  /** The number of window checks. */
  function Checks(actions: seq<Action>): nat {
    if actions == [] then 0
    else Checks(actions[..|actions| - 1]) + if actions[|actions| - 1].Check? then 1 else 0
  }

  /** The clock, the recorded times and the number of missed turns are those of the run's steps: every check either
      starts a query or is counted as missed. */
  ghost predicate RecordsRun(s: State, actions: seq<Action>) {
    && s.clock == Elapsed(actions)
    && |s.issued| == |Starts(actions)| && (forall k :: 0 <= k < |s.issued| ==> s.issued[k].time == Starts(actions)[k])
    && s.arrivedAt == Reads(actions)
    && Checks(actions) == |s.issued| + s.vars.missed + if s.sender.Ready? then 1 else 0
  }

  lemma {:induction false} RunFront(p: C.Params, s: State, actions: seq<Action>)
    requires p.minPayload >= 1 && actions != [] && Run(p, s, actions).Some?
    ensures var front, last := actions[..|actions| - 1], actions[|actions| - 1];
            && Run(p, s, front).Some? && Enabled(Run(p, s, front).value, last)
            && Run(p, s, actions).value == Do(p, Run(p, s, front).value, last)
    decreases |actions|
  {
    hide Do, Enabled;
    var front := actions[..|actions| - 1];
    if |actions| == 1 {
      assert front == [] && actions[1..] == [];
    } else {
      RunFront(p, Do(p, s, actions[0]), actions[1..]);
      assert actions[1..][..|actions| - 2] == front[1..];
    }
  }

  lemma StepRecords(p: C.Params, s: State, front: seq<Action>, a: Action)
    requires Good(p) && Inv(p, s) && Enabled(s, a) && RecordsRun(s, front)
    ensures RecordsRun(Do(p, s, a), front + [a])
  {
    hide AtLoopHead, Pending, ReplyBytes, Header, Unsent, Step, C.FillingPacket, C.ReplyId, C.SizeOfNextPacket, Repeat, WellFormed,
         C.JavaInt, DoReadLine;
    assert (front + [a])[..|front|] == front;
    if a.ReadLine? {
      hide CountInv;
      FirstReplyIsRead(p, s);
      SameSender(s);
    }
  }

  lemma SameSender(s: State)
    requires Enabled(s, ReadLine)
    ensures DoReadLine(s).sender == s.sender && DoReadLine(s).clock == s.clock
  {
    hide C.ReplyId;
  }

  lemma StartRecords(p: C.Params)
    requires p.minPayload >= 1
    ensures Run(p, Start(), []) == Some(Start()) && RecordsRun(Start(), [])
  {
  }

  lemma {:induction false} RunRecords(p: C.Params, actions: seq<Action>)
    requires Good(p) && Run(p, Start(), actions).Some?
    ensures RecordsRun(Run(p, Start(), actions).value, actions)
    decreases |actions|
  {
    hide RecordsRun, Run, Do, Enabled, Inv, Start;
    if actions == [] {
      StartRecords(p);
    } else {
      var front, last := actions[..|actions| - 1], actions[|actions| - 1];
      RunFront(p, Start(), actions);
      RunRecords(p, front);
      StartInv(p);
      RunKeeps(p, Start(), front);
      StepRecords(p, Run(p, Start(), front).value, front, last);
      assert front + [last] == actions;
    }
  }

  /** The n-th delay reported is the time that passed between the n-th start of a query and the n-th reply read. */
  ghost predicate Measured(s: State, actions: seq<Action>) {
    && |s.vars.delayTime| <= |Starts(actions)| && |s.vars.delayTime| <= |Reads(actions)|
    && forall k :: 0 <= k < |s.vars.delayTime| ==> s.vars.delayTime[k] == Reads(actions)[k] - Starts(actions)[k]
  }

  lemma RunOf(p: C.Params, s: State) returns (actions: seq<Action>)
    requires p.minPayload >= 1 && Reachable(p, s)
    ensures Run(p, Start(), actions) == Some(s)
  {
    actions :| Run(p, Start(), actions) == Some(s);
  }

  lemma MeasuredIsTrue(p: C.Params, s: State, actions: seq<Action>)
    requires Good(p) && Run(p, Start(), actions) == Some(s)
    ensures Reachable(p, s) && (Measured(s, actions) <==> TrueDelays(s))
  {
    hide Run, Starts, Reads, Checks, Elapsed;
    RunRecords(p, actions);
  }

  /** The exact condition in terms of the runs alone. */
  lemma DelaysAreMeasured(p: C.Params)
    requires Good(p)
    ensures (forall actions: seq<Action> | Run(p, Start(), actions).Some? :: Measured(Run(p, Start(), actions).value, actions))
            <==> exists n: nat :: n <= 100 && StopsAt(p, n)
  {
    hide Run, StopsAt, Measured, TrueDelays, Reachable;
    DelaysAreTrue(p);
    forall actions: seq<Action> | Run(p, Start(), actions).Some?
      ensures Measured(Run(p, Start(), actions).value, actions) <==> TrueDelays(Run(p, Start(), actions).value)
      ensures Reachable(p, Run(p, Start(), actions).value)
    {
      MeasuredIsTrue(p, Run(p, Start(), actions).value, actions);
    }
    if s: State :| Reachable(p, s) && !TrueDelays(s) {
      var actions := RunOf(p, s);
      MeasuredIsTrue(p, s, actions);
      assert !Measured(Run(p, Start(), actions).value, actions);
      assert !(exists n: nat :: n <= C.MAX_ID && StopsAt(p, n));
    } else {
      assert forall s: State | Reachable(p, s) :: TrueDelays(s);
      assert exists n: nat :: n <= C.MAX_ID && StopsAt(p, n);
    }
  }

  // ------------------------------------------------------------ sizes that do not wrap, and sizes that do

  /** One query more than the window fits a Java int. */
  predicate NoWrap(p: C.Params) {
    0 <= p.bufferSize && p.querySize * (p.bufferSize + 1) < JAVA_INT_LIMIT
  }

  lemma ProductBounds(q: nat, a: int, b: int)
    requires a < b
    ensures q * b >= q * a + q
  {
    assert q * b == q * a + q * (b - a);
    assert q * (b - a) == q + q * (b - a - 1);
    NonNegative(q, b - a - 1);
  }

  lemma NonNegative(a: int, b: int)
    requires a >= 0 && b >= 0
    ensures a * b >= 0
  {
  }

  /** Without wrapping the check first refuses at BUFFER_SIZE + 1 queries. */
  lemma FirstStop(p: C.Params, n: nat)
    requires NoWrap(p) && p.querySize > 0 && n <= p.bufferSize + 1
    ensures StopsAt(p, n) <==> n == p.bufferSize + 1
  {
    var q, b := p.querySize, p.bufferSize;
    NonNegative(q, b);
    NonNegative(q, n);
    assert q * (b + 1) == q * b + q;
    if n < b {
      ProductBounds(q, n, b);
    }
  }

  /** Without wrapping at most BUFFER_SIZE + 1 queries are outstanding, which is reached, and the delays are true
      exactly when BUFFER_SIZE is below 100. */
  lemma WithoutWrapping(p: C.Params, n: nat)
    requires Good(p) && NoWrap(p)
    ensures (forall s: State | Reachable(p, s) :: Outstanding(s) <= n) <==> p.bufferSize + 1 <= n
    ensures (forall s: State | Reachable(p, s) :: TrueDelays(s)) <==> p.bufferSize < 100
  {
    hide Reachable, TrueDelays, StopsAt, NoWrap;
    StopsBy(p, n);
    WindowIsExact(p, n);
    StopsBy(p, C.MAX_ID);
    DelaysAreTrue(p);
  }

  lemma StopsBy(p: C.Params, n: nat)
    requires Good(p) && NoWrap(p)
    ensures (exists m: nat :: m <= n && StopsAt(p, m)) <==> p.bufferSize + 1 <= n
  {
    hide StopsAt;
    if m: nat :| m <= n && StopsAt(p, m) {
      if m <= p.bufferSize {
        FirstStop(p, m);
      }
    } else {
      FirstStop(p, p.bufferSize + 1);
    }
  }

  /** Without wrapping the counter's law is exact, and the counter stays within the window of zero. */
  lemma CounterWithoutWrapping(p: C.Params, s: State)
    requires Good(p) && NoWrap(p) && Reachable(p, s)
    ensures s.vars.counter + Uncounted(s.sender) == p.querySize * Outstanding(s) - Left(p, s.sender)
    ensures 0 - p.querySize <= s.vars.counter <= p.querySize * (p.bufferSize + 1)
    ensures Outstanding(s) <= p.bufferSize + 1
  {
    hide Run, WireInv, HistoryInv, C.JavaInt, StopsAt;
    ReachableInv(p, s);
    WindowLaw(p, s);
    FirstStop(p, p.bufferSize + 1);
    NonNegative(p.querySize, Outstanding(s));
    if Outstanding(s) <= p.bufferSize {
      ProductBounds(p.querySize, Outstanding(s), p.bufferSize + 1);
    }
    assert C.IsJavaInt(p.querySize * Outstanding(s) - Left(p, s.sender) - Uncounted(s.sender));
  }

  /** A window below 100 whose counter wraps: the 100th query drives the counter below zero, every later check passes,
      and some delay is wrong. */
  lemma SmallWindowCanFail(p: C.Params)
    requires Good(p) && p.querySize == 21_600_000 && p.bufferSize == 99
    ensures !(forall s: State | Reachable(p, s) :: TrueDelays(s))
  {
    hide Reachable, TrueDelays;
    forall n: nat | n <= C.MAX_ID
      ensures !StopsAt(p, n)
    {
    }
    DelaysAreTrue(p);
  }

  lemma StepSendsNothing(p: C.Params, s: State, a: Action)
    requires Good(p) && Inv(p, s) && StopsAt(p, 0) && s.issued == [] && Enabled(s, a)
    ensures Do(p, s, a).issued == []
  {
    hide StopsAt, C.JavaInt, AtLoopHead, Pending, ReplyBytes, Unsent, Step, C.SizeOfNextPacket, C.FillingPacket, C.ReplyId;
    SentAtHead(s.server, s.issued, Sent(s), p.mac);
    assert Outstanding(s) == 0;
  }

  lemma {:induction false} RunSendsNothing(p: C.Params, s: State, actions: seq<Action>)
    requires Good(p) && Inv(p, s) && StopsAt(p, 0) && s.issued == []
    ensures var r := Run(p, s, actions); r.Some? ==> r.value.issued == []
    decreases |actions|
  {
    if actions != [] && Enabled(s, actions[0]) {
      hide Inv, StopsAt, Do, Enabled;
      StepKeeps(p, s, actions[0]);
      StepSendsNothing(p, s, actions[0]);
      RunSendsNothing(p, Do(p, s, actions[0]), actions[1..]);
    }
  }

  /** A window whose product wraps below zero: no query is ever started. */
  lemma WrappedWindowSendsNothing(p: C.Params, s: State)
    requires Good(p) && p.querySize == 21_500_000 && p.bufferSize == 100 && Reachable(p, s)
    ensures s.issued == [] && TrueDelays(s)
  {
    hide Run;
    assert StopsAt(p, 0);
    var actions: seq<Action> :| Run(p, Start(), actions) == Some(s);
    StartInv(p);
    RunSendsNothing(p, Start(), actions);
    DelaysAreTrue(p);
  }
}
