/** The client's sender thread, its reader thread and the server, interleaved over two byte channels. */
module SiriSystem {
  import opened Text
  import opened SiriProtocol
  import opened SiriServer
  import opened SiriServing
  import SiriFraming
  import C = SiriClient

  const JAVA_LONG_LIMIT: nat := 0x8000_0000_0000_0000

  /** Where the sender thread stands. `First` holds the header of the query being started, `Rest` the number of
      bytes still to write, `Counting` the packet that is written but not yet added to the counter. */
  datatype Sender = Idle | Ready | First(header: string) | Rest(remain: nat) | Counting(remain: nat, bytes: nat) | Broken

  /** Where the reader thread stands: after reading a line, and after recording its delay. */
  datatype Reader = Waiting | Got(id: int, receivedTime: int) | Recorded | Failed

  /** The fields of the client both threads share. */
  datatype Vars = Vars(counter: int, messageId: nat, sentTime: seq<int>, delayTime: seq<int>, missed: nat)

  /** `issued` and `arrivedAt` record, in order, the queries started and the times at which replies were read. */
  datatype State = State(clock: nat, vars: Vars, sender: Sender, reader: Reader,
                         toServer: string, server: Session, toClient: string,
                         issued: seq<Request>, arrivedAt: seq<int>)

  function Start(): State {
    State(0, Vars(0, 0, seq(C.MAX_ID, _ => 0), [], 0), Idle, Waiting, "", Fresh, "", [], [])
  }

  // ------------------------------------------------------------ the atomic steps

  datatype Action = Tick(ms: nat) | Check | Issue | Write(draw: nat) | Count | Recv(size: nat) | ReadLine | Record | Settle

  predicate Enabled(s: State, a: Action) {
    match a
    case Tick(ms) => s.clock + ms < JAVA_LONG_LIMIT
    case Check => s.sender.Idle?
    case Issue => s.sender.Ready? && s.vars.messageId < |s.vars.sentTime|
    case Write(_) => s.sender.First? || (s.sender.Rest? && s.sender.remain > 0)
    case Count => s.sender.Counting?
    case Recv(size) => 0 < size <= RECV_SIZE && size <= |s.toServer| && s.server.status.Running?
    case ReadLine => s.reader.Waiting? && '\n' in s.toClient
    case Record => s.reader.Got?
    case Settle => s.reader.Recorded?
  }

  /** The product QUERY_SIZE * BUFFER_SIZE as Java computes it. */
  function Window(p: C.Params): int {
    C.JavaInt(p.querySize * p.bufferSize)
  }

  /** With n whole queries counted and none settled the window check refuses. */
  predicate StopsAt(p: C.Params, n: nat) {
    C.JavaInt(p.querySize * n) > Window(p)
  }

  /** The window check at the head of the sender's loop. */
  function DoCheck(p: C.Params, s: State): State {
    if s.vars.counter <= Window(p) then s.(sender := Ready)
    else s.(vars := s.vars.(missed := s.vars.missed + 1))
  }

  /** Start a query: stamp its slot, build its header, move on to the next id. */
  function DoIssue(p: C.Params, s: State): State
    requires Enabled(s, Issue)
  {
    var r := C.QueryOf(p, s.vars.messageId, s.clock);
    var vars := s.vars.(sentTime := s.vars.sentTime[s.vars.messageId := s.clock],
                        messageId := (s.vars.messageId + 1) % C.MAX_ID);
    s.(vars := vars, sender := First(Header(r)), issued := s.issued + [r])
  }

  /** Choose the size of the next packet and write it. */
  function DoWrite(p: C.Params, s: State, draw: nat): State
    requires Enabled(s, Write(draw)) && p.minPayload >= 1
  {
    if s.sender.First? then
      var h := s.sender.header;
      match C.SizeOfNextPacket(p, p.querySize, draw)
      case Err(_) => s.(sender := Broken)
      case Ok(drawn) =>
        var size := C.Max(|h|, drawn);
        s.(toServer := s.toServer + (h + Repeat('0', size - |h|)),
           sender := Counting(if p.querySize > size then p.querySize - size else 0, size))
    else
      var remain := s.sender.remain;
      match C.SizeOfNextPacket(p, remain, draw)
      case Err(_) => s.(sender := Broken)
      case Ok(size) =>
        s.(toServer := s.toServer + C.FillingPacket(size, remain),
           sender := Counting(if remain > size then remain - size else 0, size))
  }

  function DoCount(s: State): State
    requires Enabled(s, Count)
  {
    s.(vars := s.vars.(counter := C.JavaInt(s.vars.counter + s.sender.bytes)),
       sender := if s.sender.remain > 0 then Rest(s.sender.remain) else Idle)
  }

  /** One turn of the server's receive loop on a chunk of any size up to its `recv` size. */
  function DoRecv(s: State, size: nat): State
    requires Enabled(s, Recv(size))
  {
    var t := Step(s.server, s.toServer[..size]);
    var replies := if |t.sent| >= |s.server.sent| then t.sent[|s.server.sent|..] else [];
    s.(server := t, toServer := s.toServer[size..], toClient := s.toClient + Concat(replies))
  }

  /** `readLine`, the time stamp behind it, and the parsing of the id. */
  function DoReadLine(s: State): State
    requires Enabled(s, ReadLine)
  {
    var i := IndexOf(s.toClient, '\n');
    var id := C.ReplyId(s.toClient[..i]);
    var t := s.(toClient := s.toClient[i + 1..]);
    if id.None? then t.(reader := Failed) else t.(reader := Got(id.value, s.clock), arrivedAt := s.arrivedAt + [s.clock])
  }

  function DoRecord(s: State): State
    requires Enabled(s, Record)
  {
    var id := s.reader.id;
    if 0 <= id < |s.vars.sentTime| then
      s.(vars := s.vars.(delayTime := s.vars.delayTime + [s.reader.receivedTime - s.vars.sentTime[id]]), reader := Recorded)
    else s.(reader := Failed)
  }

  function DoSettle(p: C.Params, s: State): State {
    s.(vars := s.vars.(counter := C.JavaInt(s.vars.counter - p.querySize)), reader := Waiting)
  }

  function Do(p: C.Params, s: State, a: Action): State
    requires Enabled(s, a) && p.minPayload >= 1
  {
    match a
    case Tick(ms) => s.(clock := s.clock + ms)
    case Check => DoCheck(p, s)
    case Issue => DoIssue(p, s)
    case Write(draw) => DoWrite(p, s, draw)
    case Count => DoCount(s)
    case Recv(size) => DoRecv(s, size)
    case ReadLine => DoReadLine(s)
    case Record => DoRecord(s)
    case Settle => DoSettle(p, s)
  }

  /** The state after a whole interleaving, if every step of it is enabled in turn. */
  function Run(p: C.Params, s: State, actions: seq<Action>): Option<State>
    requires p.minPayload >= 1
    decreases |actions|
  {
    if actions == [] then Some(s)
    else if !Enabled(s, actions[0]) then None
    else Run(p, Do(p, s, actions[0]), actions[1..])
  }

  ghost predicate Reachable(p: C.Params, s: State)
    requires p.minPayload >= 1
  {
    exists actions: seq<Action> :: Run(p, Start(), actions) == Some(s)
  }

  // ------------------------------------------------------------ parameters

  /** Java ints, a MAC address, sound packet sizes, and a query at least as long as the server's `recv` size. */
  predicate Good(p: C.Params) {
    && p.querySize < JAVA_INT_LIMIT && p.responseSize < JAVA_INT_LIMIT && p.delayQueryResponse < JAVA_INT_LIMIT
    && Free(p.mac, '&') && Free(p.mac, '\n') && |p.mac| <= 17
    && C.Sound(p) && p.maxPayload < p.querySize && RECV_SIZE <= p.querySize
  }

  lemma TerminatedLength(fields: seq<string>)
    ensures |fields| == 3 ==> |Terminated(fields)| == |fields[0]| + |fields[1]| + |fields[2]| + 3
  {
    if |fields| == 3 {
      assert |Terminated(fields[1..])| == |fields[1]| + 1 + |Terminated(fields[1..][1..])|;
      assert fields[1..][1..] == [fields[2]];
      assert Terminated([fields[2]]) == fields[2] + "&" + "";
    }
  }

  /** Every header the client builds is at most 84 bytes long, so its query is well-formed and can be split. */
  lemma QueriesAreWellFormed(p: C.Params, id: nat, now: nat)
    requires Good(p) && id < C.MAX_ID && now < JAVA_LONG_LIMIT
    ensures var r := C.QueryOf(p, id, now);
            WellFormed(r) && |Header(r)| + p.minPayload <= p.querySize
            && Message(r) == Header(r) + C.Filling(p.querySize - |Header(r)|)
  {
    var r := C.QueryOf(p, id, now);
    LeadingFieldsAreShort(r);
    TerminatedSplitAt(Fields(r), 4);
    assert Fields(r)[4..] == [Dec(0), Dec(now), p.mac];
    TerminatedLength(Fields(r)[4..]);
    assert Pow10(19) == 10_000_000_000_000_000_000 by {
      assert Pow10(5) == 100_000;
      assert Pow10(10) == 100_000 * Pow10(5);
      assert Pow10(15) == 100_000 * Pow10(10);
      assert Pow10(19) == 10_000 * Pow10(15);
    }
    DecLength(now, 19);
    assert |Dec(0)| == 1;
    assert |Header(r)| <= 84;
  }

  /** What a query is to the server: for any draws, the bytes sent are read as the client's own parameters, and any
      chunking of them is answered by the id and zeros up to the response size, after the waiting time asked for. */
  lemma ServerReadsQuery(p: C.Params, id: nat, now: nat, rnd: nat -> nat)
    requires Good(p) && id < C.MAX_ID && now < JAVA_LONG_LIMIT
    ensures var start := Dec(id) + "&" + Dec(p.querySize) + "&" + Dec(p.responseSize) + "&" + Dec(p.delayQueryResponse)
                         + "&" + Dec(0) + "&" + Dec(now) + "&" + p.mac + "&";
            var packets := C.Packets(p, start, rnd);
            && packets.Ok? && |Concat(packets.value)| == p.querySize
            && ReadFields(Split(Concat(packets.value), '&'))
               == Whole(Query(id, p.querySize, p.responseSize, p.delayQueryResponse), now, p.mac, [])
            && forall chunks: seq<string> | SiriFraming.Chunking(chunks, Concat(packets.value), RECV_SIZE) ::
                 var f := Serve(Fresh, chunks);
                 && f.status.Running? && f.bufferData == "" && f.nextBufferData == ""
                 && f.sent == [Dec(id) + "&" + Repeat('0', p.responseSize - |Dec(id)| - 2) + "\n"]
                 && f.slept == [p.delayQueryResponse] && f.logs == Logs(Some(p.mac), [], [now])
  {
    hide Dec, Header, WellFormed, ReadFields, C.Packets, Concat, Split, Serve, Message, SiriFraming.Chunking, Good, Fields;
    var r := C.QueryOf(p, id, now);
    C.HeaderText(p, id, now);
    PacketsAreMessage(p, id, now, rnd);
    ReadsMessage(r);
    assert DecAll([]) == [];
    OneQueryServed(p, r);
  }

  lemma PacketsAreMessage(p: C.Params, id: nat, now: nat, rnd: nat -> nat)
    requires Good(p) && id < C.MAX_ID && now < JAVA_LONG_LIMIT
    ensures var r := C.QueryOf(p, id, now);
            var packets := C.Packets(p, Header(r), rnd);
            WellFormed(r) && packets.Ok? && Concat(packets.value) == Message(r) && |Message(r)| == p.querySize
  {
    hide Header, WellFormed, C.Packets, Concat, C.Filling, Message;
    var r := C.QueryOf(p, id, now);
    QueriesAreWellFormed(p, id, now);
    C.PacketsSpellQuery(p, Header(r), rnd);
    MessageShape(r);
  }

  lemma ReadsMessage(r: Request)
    requires WellFormed(r)
    ensures ReadFields(Split(Message(r), '&')) == Whole(Query(r.id, r.size, r.responseSize, r.wait), r.time, r.mac, DecAll(r.delays))
  {
    hide Header, WellFormed, Message, ReadFields, Split, Fields;
    MessageShape(r);
    SplitMessagePrefix(r, Message(r));
    ReadWholeHeader(r, Message(r)[|Header(r)|..]);
  }

  lemma OneQueryServed(p: C.Params, r: Request)
    requires WellFormed(r) && r.delays == []
    ensures forall chunks: seq<string> | SiriFraming.Chunking(chunks, Message(r), RECV_SIZE) ::
              var f := Serve(Fresh, chunks);
              && f.status.Running? && f.bufferData == "" && f.nextBufferData == ""
              && f.sent == [Dec(r.id) + "&" + Repeat('0', r.responseSize - |Dec(r.id)| - 2) + "\n"]
              && f.slept == [r.wait] && f.logs == Logs(Some(r.mac), [], [r.time])
  {
    hide Dec, Header, WellFormed, Concat, Serve, Message;
    assert [r][1..] == [] && Stream([]) == "" && Message(r) + "" == Message(r);
    assert [r][..0] == [] && Times([]) == [] && Delays([]) == [];
    forall chunks: seq<string> | SiriFraming.Chunking(chunks, Message(r), RECV_SIZE)
      ensures SiriFraming.ServedInFull(Serve(Fresh, chunks), [r])
    {
      SiriFraming.ServedWhenLong([r], r.mac, chunks);
    }
  }
}
