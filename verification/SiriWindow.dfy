/** What every interleaving of the Siri client and server keeps. */
module SiriWindow {
  import opened Text
  import opened SiriProtocol
  import opened SiriServer
  import opened SiriServing
  import opened SiriSystem
  import SiriFraming
  import C = SiriClient

  // ------------------------------------------------------------ measures of a state

  /** Bytes of the current query not yet written. */
  function Left(p: C.Params, sender: Sender): nat {
    match sender
    case First(_) => p.querySize
    case Rest(remain) => remain
    case Counting(remain, _) => remain
    case _ => 0
  }

  function Unsent(p: C.Params, sender: Sender): string {
    match sender
    case First(h) => h + C.Filling(p.querySize - |h|)
    case Rest(remain) => C.Filling(remain)
    case Counting(remain, _) => C.Filling(remain)
    case _ => ""
  }

  /** Bytes written but not yet added to the counter. */
  function Uncounted(sender: Sender): nat {
    if sender.Counting? then sender.bytes else 0
  }

  /** Queries whose reply has been processed to the end. */
  function Settled(s: State): int {
    |s.vars.delayTime| - if s.reader.Recorded? then 1 else 0
  }

  /** Replies the server has sent. */
  function Sent(s: State): nat {
    |s.server.sent|
  }

  function ReplyBytes(rs: seq<Request>, i: nat, j: nat): string
    requires i <= j <= |rs|
  {
    Concat(Replies(rs[i..j]))
  }

  // ------------------------------------------------------------ the invariant

  ghost predicate HistoryInv(p: C.Params, s: State) {
    && s.clock < JAVA_LONG_LIMIT
    && |s.vars.sentTime| == C.MAX_ID && s.vars.messageId == |s.issued| % C.MAX_ID
    && forall k :: 0 <= k < |s.issued| ==>
         s.issued[k].time < JAVA_LONG_LIMIT && s.issued[k] == C.QueryOf(p, k % C.MAX_ID, s.issued[k].time)
  }

  ghost predicate SenderInv(p: C.Params, s: State) {
    match s.sender
    case First(h) => |h| + p.minPayload <= p.querySize
    case Rest(remain) => 0 < remain <= p.querySize && C.Splittable(p, remain)
    case Counting(remain, bytes) => remain + bytes <= p.querySize && C.Splittable(p, remain)
    case Broken => false
    case _ => true
  }

  /** Queries started whose reply has not been processed to the end. */
  function Outstanding(s: State): int {
    |s.issued| - Settled(s)
  }

  /** The counter's law: counted plus uncounted bytes are those of the queries in flight, as far as written, in 32-bit
      arithmetic; and no more queries are in flight than the window check lets pass. */
  ghost predicate CountInv(p: C.Params, s: State) {
    && s.vars.counter == C.JavaInt(p.querySize * Outstanding(s) - Left(p, s.sender) - Uncounted(s.sender))
    && forall n: nat | StopsAt(p, n) :: Outstanding(s) <= n && (s.sender.Ready? ==> Outstanding(s) < n)
  }

  /** No byte is lost: buffer, channel and the unwritten rest are the queries not yet answered. */
  ghost predicate WireInv(p: C.Params, s: State) {
    && AtLoopHead(s.server, s.issued, Sent(s), p.mac)
    && s.server.bufferData + s.toServer + Unsent(p, s.sender) == Pending(s.issued, Sent(s))
    && |s.arrivedAt| <= Sent(s)
    && s.toClient == ReplyBytes(s.issued, |s.arrivedAt|, Sent(s))
  }

  /** Replies arrive in the order of the queries. */
  ghost predicate ReaderInv(s: State) {
    match s.reader
    case Waiting => |s.vars.delayTime| == |s.arrivedAt|
    case Got(id, t) =>
      && |s.vars.delayTime| + 1 == |s.arrivedAt|
      && id == |s.vars.delayTime| % C.MAX_ID && t == s.arrivedAt[|s.vars.delayTime|]
    case Recorded => |s.vars.delayTime| == |s.arrivedAt| && |s.arrivedAt| > 0
    case Failed => false
  }

  ghost predicate Inv(p: C.Params, s: State) {
    HistoryInv(p, s) && SenderInv(p, s) && CountInv(p, s) && WireInv(p, s) && ReaderInv(s)
  }

  // ------------------------------------------------------------ helpers

  lemma Distribute(q: nat, a: int)
    ensures q * (a + 1) == q * a + q
  {
  }

  lemma IssuedAreWellFormed(p: C.Params, s: State)
    requires Good(p) && HistoryInv(p, s)
    ensures FromOneClient(s.issued, p.mac)
  {
    forall k | 0 <= k < |s.issued|
      ensures WellFormed(s.issued[k])
    {
      QueriesAreWellFormed(p, k % C.MAX_ID, s.issued[k].time);
    }
  }

  lemma ReplyBytesEmpty(rs: seq<Request>, i: nat)
    requires i <= |rs|
    ensures ReplyBytes(rs, i, i) == ""
  {
    assert rs[i..i] == [];
  }

  lemma ReplyBytesFirst(rs: seq<Request>, i: nat, j: nat)
    requires i < j <= |rs|
    ensures ReplyBytes(rs, i, j) == Reply(rs[i]) + ReplyBytes(rs, i + 1, j)
  {
    assert rs[i..j][1..] == rs[i + 1..j];
    assert Replies(rs[i..j])[1..] == Replies(rs[i + 1..j]);
  }

  lemma ReplyBytesLast(rs: seq<Request>, i: nat, j: nat)
    requires i <= j < |rs|
    ensures ReplyBytes(rs, i, j + 1) == ReplyBytes(rs, i, j) + Reply(rs[j])
  {
    assert Replies(rs[i..j + 1]) == Replies(rs[i..j]) + [Reply(rs[j])];
    ConcatAppend(Replies(rs[i..j]), [Reply(rs[j])]);
  }

  lemma ReplyBytesExtend(rs: seq<Request>, more: seq<Request>, i: nat, j: nat)
    requires i <= j <= |rs|
    ensures ReplyBytes(rs + more, i, j) == ReplyBytes(rs, i, j)
  {
    assert (rs + more)[i..j] == rs[i..j];
  }

  lemma PendingExtend(rs: seq<Request>, r: Request, k: nat)
    requires k <= |rs| && AllWellFormed(rs) && WellFormed(r)
    ensures AllWellFormed(rs + [r])
    ensures Pending(rs + [r], k) == Pending(rs, k) + Message(r)
  {
    hide WellFormed, Message;
    assert (rs + [r])[k..] == rs[k..] + [r];
    StreamAppend(rs[k..], [r]);
    assert Stream([r]) == Message(r) by {
      assert [r][1..] == [];
      assert Message(r) + "" == Message(r);
    }
  }

  // ------------------------------------------------------------ one step at a time

  lemma StartInv(p: C.Params)
    requires Good(p)
    ensures Inv(p, Start())
  {
    SiriFraming.FreshAtLoopHead([], p.mac);
    ReplyBytesEmpty([], 0);
    assert Pending([], 0) == "";
    assert p.querySize * 0 == 0;
  }

  /** An idle sender's counter is that of whole queries, so a check passed is one that does not stop here. */
  lemma CheckKeeps(p: C.Params, s: State)
    requires Good(p) && Inv(p, s) && s.sender.Idle?
    ensures Inv(p, DoCheck(p, s))
  {
    hide AtLoopHead, Pending, ReplyBytes, C.JavaInt;
    SentAtHead(s.server, s.issued, Sent(s), p.mac);
    assert p.querySize * Outstanding(s) - 0 - 0 == p.querySize * Outstanding(s);
    if s.vars.counter <= Window(p) {
      assert !StopsAt(p, Outstanding(s));
    }
  }

  lemma IssueKeeps(p: C.Params, s: State)
    requires Good(p) && Inv(p, s) && s.sender.Ready?
    ensures Enabled(s, Issue) && Inv(p, DoIssue(p, s))
  {
    hide WireInv, HistoryInv;
    IssueKeepsHistory(p, s);
    IssueKeepsWire(p, s);
    Distribute(p.querySize, Outstanding(s));
    QueriesAreWellFormed(p, s.vars.messageId, s.clock);
  }

  lemma IssueKeepsHistory(p: C.Params, s: State)
    requires Good(p) && HistoryInv(p, s) && s.sender.Ready?
    ensures Enabled(s, Issue) && HistoryInv(p, DoIssue(p, s))
    ensures s.clock < JAVA_LONG_LIMIT && s.vars.messageId < C.MAX_ID
  {
    hide Header;
  }

  lemma IssueKeepsWire(p: C.Params, s: State)
    requires Good(p) && HistoryInv(p, s) && WireInv(p, s) && s.sender.Ready?
    ensures Enabled(s, Issue) && WireInv(p, DoIssue(p, s))
  {
    hide AtLoopHead, Pending, ReplyBytes, WellFormed, Header, C.Filling, Message;
    var r := C.QueryOf(p, s.vars.messageId, s.clock);
    QueriesAreWellFormed(p, s.vars.messageId, s.clock);
    IssuedAreWellFormed(p, s);
    OneFromOneClient(r);
    SiriFraming.LoopHeadExtends(s.server, s.issued, Sent(s), p.mac, [r]);
    SentAtHead(s.server, s.issued, Sent(s), p.mac);
    PendingExtend(s.issued, r, Sent(s));
    ReplyBytesExtend(s.issued, [r], |s.arrivedAt|, Sent(s));
    assert s.server.bufferData + s.toServer + "" == s.server.bufferData + s.toServer;
  }

  lemma OneFromOneClient(r: Request)
    requires WellFormed(r)
    ensures FromOneClient([r], r.mac)
  {
  }

  /** The packet about to be written is the start of what is still unsent. */
  lemma PacketIsStartOfUnsent(p: C.Params, s: State, draw: nat)
    requires Good(p) && SenderInv(p, s) && Enabled(s, Write(draw))
    ensures var t := DoWrite(p, s, draw);
            && t.sender.Counting? && C.Splittable(p, t.sender.remain)
            && t.sender.remain + t.sender.bytes == Left(p, s.sender)
            && t == s.(toServer := t.toServer, sender := t.sender)
            && t.toServer + Unsent(p, t.sender) == s.toServer + Unsent(p, s.sender)
  {
    hide C.DrawBound, Repeat, C.FillingPacket, C.Filling;
    var t := DoWrite(p, s, draw);
    var remain := if s.sender.First? then p.querySize else s.sender.remain;
    C.NextRemainder(p, remain, draw);
    if s.sender.First? {
      var h := s.sender.header;
      var size := t.sender.bytes;
      C.FirstPacketFills(h, size, p.querySize);
      var packet := h + Repeat('0', size - |h|);
      assert s.toServer + packet + C.Filling(p.querySize - size) == s.toServer + (packet + C.Filling(p.querySize - size));
    } else {
      var size := t.sender.bytes;
      C.FillingSplit(remain, size);
      var packet := C.FillingPacket(size, remain);
      assert s.toServer + packet + C.Filling(remain - size) == s.toServer + (packet + C.Filling(remain - size));
    }
  }

  lemma WriteKeeps(p: C.Params, s: State, draw: nat)
    requires Good(p) && Inv(p, s) && Enabled(s, Write(draw))
    ensures Inv(p, DoWrite(p, s, draw))
  {
    hide AtLoopHead, Pending, ReplyBytes, Unsent, DoWrite, WellFormed;
    PacketIsStartOfUnsent(p, s, draw);
    var t := DoWrite(p, s, draw);
    assert s.server.bufferData + s.toServer + Unsent(p, s.sender) == s.server.bufferData + (s.toServer + Unsent(p, s.sender));
    assert s.server.bufferData + t.toServer + Unsent(p, t.sender) == s.server.bufferData + (t.toServer + Unsent(p, t.sender));
  }

  lemma CountKeeps(p: C.Params, s: State)
    requires Good(p) && Inv(p, s) && s.sender.Counting?
    ensures Inv(p, DoCount(s))
  {
    hide AtLoopHead, Pending, ReplyBytes, WellFormed, HistoryInv, CountInv, C.Filling;
    CountKeepsCounter(p, s);
    assert HistoryInv(p, DoCount(s)) by {
      SameHistory(p, s, DoCount(s));
    }
    assert Unsent(p, DoCount(s).sender) == Unsent(p, s.sender) by {
      C.NothingToFill();
    }
  }

  lemma CountKeepsCounter(p: C.Params, s: State)
    requires CountInv(p, s) && s.sender.Counting?
    ensures CountInv(p, DoCount(s))
  {
    hide C.JavaInt, StopsAt;
    C.WrapOnce(p.querySize * Outstanding(s) - Left(p, s.sender) - s.sender.bytes, s.sender.bytes);
  }

  lemma SameHistory(p: C.Params, s: State, t: State)
    requires HistoryInv(p, s) && t.clock == s.clock && t.issued == s.issued
    requires t.vars.sentTime == s.vars.sentTime && t.vars.messageId == s.vars.messageId
    ensures HistoryInv(p, t)
  {
    hide Header;
  }

  lemma RecvKeeps(p: C.Params, s: State, size: nat)
    requires Good(p) && Inv(p, s) && Enabled(s, Recv(size))
    ensures Inv(p, DoRecv(s, size))
    ensures var t := DoRecv(s, size); Sent(t) == Sent(s) || Sent(t) == Sent(s) + 1
  {
    hide AtLoopHead, Pending, WellFormed, ReplyBytes, Unsent, Step, Message;
    IssuedAreWellFormed(p, s);
    RecvKeepsBytes(p, s, size);
    var t := DoRecv(s, size);
    var k, k' := Sent(s), Sent(t);
    if k' == k {
      assert t.server.sent[k..] == [];
      assert s.toClient + Concat([]) == s.toClient;
    } else {
      assert t.server.sent[k..] == [Reply(s.issued[k])];
      ReplyBytesLast(s.issued, |s.arrivedAt|, k);
    }
  }

  lemma RecvKeepsBytes(p: C.Params, s: State, size: nat)
    requires Good(p) && FromOneClient(s.issued, p.mac) && HistoryInv(p, s) && WireInv(p, s) && Enabled(s, Recv(size))
    ensures var t := DoRecv(s, size);
            && (Sent(t) == Sent(s) || Sent(t) == Sent(s) + 1)
            && Sent(t) <= |s.issued| && t.server.sent == Replies(s.issued[..Sent(t)])
            && AtLoopHead(t.server, s.issued, Sent(t), p.mac)
            && t.server.bufferData + t.toServer + Unsent(p, s.sender) == Pending(s.issued, Sent(t))
  {
    hide AtLoopHead, Pending, WellFormed, ReplyBytes, Unsent, Step, Message;
    var t := DoRecv(s, size);
    var k := Sent(s);
    var data, rest, unsent := s.toServer[..size], s.toServer[size..], Unsent(p, s.sender);
    assert s.toServer == data + rest;
    HeadFacts(s.server, s.issued, k, p.mac);
    PrefixOfPending(s.server.bufferData, data, rest, unsent, s.toServer, Pending(s.issued, k));
    var k' := StepKeepsLoopHead(s.server, s.issued, k, p.mac, data);
    SentAtHead(s.server, s.issued, k, p.mac);
    SentAtHead(t.server, s.issued, k', p.mac);
    var gone := if k' == k then "" else Message(s.issued[k]);
    Regroup(s.server.bufferData, data, rest, gone, t.server.bufferData, unsent);
    if k' > k {
      PendingUnfold(s.issued, k);
      SameRest(gone, t.server.bufferData + rest + unsent, Pending(s.issued, k'));
    } else {
      assert "" + (t.server.bufferData + rest + unsent) == t.server.bufferData + rest + unsent;
    }
  }

  lemma SameRest(a: string, b: string, c: string)
    requires a + b == a + c
    ensures b == c
  {
    assert b == (a + b)[|a|..];
    assert c == (a + c)[|a|..];
  }

  lemma SentAtHead(s: Session, rs: seq<Request>, k: nat, mac: string)
    requires AtLoopHead(s, rs, k, mac)
    ensures k <= |rs| && s.sent == Replies(rs[..k]) && s.slept == Waits(rs[..k]) && s.status.Running?
  {
  }

  lemma PrefixOfPending(b: string, data: string, rest: string, unsent: string, channel: string, pending: string)
    requires channel == data + rest && b + channel + unsent == pending
    ensures b + data <= pending
  {
    assert b + channel + unsent == (b + data) + (rest + unsent);
  }

  lemma Regroup(b: string, data: string, rest: string, gone: string, b1: string, unsent: string)
    requires b + data == gone + b1
    ensures b + (data + rest) + unsent == gone + (b1 + rest + unsent)
  {
    assert b + (data + rest) + unsent == (b + data) + (rest + unsent);
  }

  lemma ReadLineKeeps(p: C.Params, s: State)
    requires Good(p) && Inv(p, s) && Enabled(s, ReadLine)
    ensures Inv(p, DoReadLine(s))
  {
    hide AtLoopHead, Pending, WellFormed, Unsent, C.ReplyId, ReplyBytes, Message;
    FirstReplyIsRead(p, s);
  }

  lemma UnreadReply(p: C.Params, s: State)
    requires WireInv(p, s) && '\n' in s.toClient
    ensures var n := |s.arrivedAt|;
            n < Sent(s) <= |s.issued| && s.toClient == Reply(s.issued[n]) + ReplyBytes(s.issued, n + 1, Sent(s))
  {
    hide AtLoopHead, Pending, Unsent, ReplyBytes, Reply;
    var n := |s.arrivedAt|;
    SentAtHead(s.server, s.issued, Sent(s), p.mac);
    ReplyBytesEmpty(s.issued, n);
    assert n < Sent(s);
    ReplyBytesFirst(s.issued, n, Sent(s));
  }

  /** What `readLine` finds is the reply to the first query whose reply was not read yet. */
  lemma FirstReplyIsRead(p: C.Params, s: State)
    requires Good(p) && HistoryInv(p, s) && WireInv(p, s) && Enabled(s, ReadLine)
    ensures var n := |s.arrivedAt|;
            var t := DoReadLine(s);
            && n < Sent(s) <= |s.issued| && t.vars == s.vars && t.issued == s.issued
            && t.reader == Got(n % C.MAX_ID, s.clock) && t.arrivedAt == s.arrivedAt + [s.clock]
            && t.toClient == ReplyBytes(s.issued, n + 1, Sent(s))
  {
    hide WireInv, C.ReplyId, Reply, IndexOf, ReplyBytes, Header;
    var n := |s.arrivedAt|;
    UnreadReply(p, s);
    var r := s.issued[n];
    ReplyShape(r);
    FirstLine(Reply(r), ReplyBytes(s.issued, n + 1, Sent(s)));
    C.ReplyRoundTrip(r);
  }

  lemma FirstLine(line: string, rest: string)
    requires line != "" && forall i :: 0 <= i < |line| ==> (line[i] == '\n' <==> i == |line| - 1)
    ensures '\n' in line + rest && IndexOf(line + rest, '\n') == |line| - 1
    ensures (line + rest)[..|line| - 1] == line[..|line| - 1] && (line + rest)[|line|..] == rest
  {
    assert (line + rest)[|line| - 1] == '\n';
  }

  lemma RecordKeeps(p: C.Params, s: State)
    requires Good(p) && Inv(p, s) && s.reader.Got?
    ensures Inv(p, DoRecord(s))
  {
    hide AtLoopHead, Pending, WellFormed, ReplyBytes, Unsent;
  }

  lemma SettleKeeps(p: C.Params, s: State)
    requires Good(p) && Inv(p, s) && s.reader.Recorded?
    ensures Inv(p, DoSettle(p, s))
  {
    hide AtLoopHead, Pending, WellFormed, ReplyBytes, Unsent;
    hide C.JavaInt;
    Distribute(p.querySize, Outstanding(s) - 1);
    C.WrapOnce(p.querySize * Outstanding(s) - Left(p, s.sender) - Uncounted(s.sender), 0 - p.querySize);
  }

  /** Every step of every thread keeps the invariant. */
  lemma StepKeeps(p: C.Params, s: State, a: Action)
    requires Good(p) && Inv(p, s) && Enabled(s, a)
    ensures Inv(p, Do(p, s, a))
  {
    hide Inv, DoCheck, DoIssue, DoWrite, DoCount, DoRecv, DoReadLine, DoRecord, DoSettle;
    match a
    case Tick(ms) => TickKeeps(p, s, ms);
    case Check => CheckKeeps(p, s);
    case Issue => IssueKeeps(p, s);
    case Write(draw) => WriteKeeps(p, s, draw);
    case Count => CountKeeps(p, s);
    case Recv(size) => RecvKeeps(p, s, size);
    case ReadLine => ReadLineKeeps(p, s);
    case Record => RecordKeeps(p, s);
    case Settle => SettleKeeps(p, s);
  }

  lemma TickKeeps(p: C.Params, s: State, ms: nat)
    requires Good(p) && Inv(p, s) && Enabled(s, Tick(ms))
    ensures Inv(p, Do(p, s, Tick(ms)))
  {
    hide AtLoopHead, Pending, WellFormed, ReplyBytes, Unsent;
  }

  lemma {:induction false} RunKeeps(p: C.Params, s: State, actions: seq<Action>)
    requires Good(p) && Inv(p, s)
    ensures var r := Run(p, s, actions); r.Some? ==> Inv(p, r.value)
    decreases |actions|
  {
    if actions != [] && Enabled(s, actions[0]) {
      hide Inv, Do, Enabled;
      StepKeeps(p, s, actions[0]);
      RunKeeps(p, Do(p, s, actions[0]), actions[1..]);
    }
  }

  lemma ReachableInv(p: C.Params, s: State)
    requires Good(p) && Reachable(p, s)
    ensures Inv(p, s)
  {
    hide Inv, Run;
    var actions: seq<Action> :| Run(p, Start(), actions) == Some(s);
    StartInv(p);
    RunKeeps(p, Start(), actions);
  }
}
