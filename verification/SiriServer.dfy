/** One connection of the Siri server: rebuilding queries from whatever `recv` returns. */
module SiriServer {
  import opened Text
  import opened SiriProtocol

  const RECV_SIZE: nat := 512
  const MAX_SECURITY_HEADER_SIZE: nat := 128
  const MIN_FIELDS_NB: nat := 8

  /** Why the receive loop ended, if it did. `Crashed` stands for an uncaught ValueError or IndexError. */
  datatype Status = Running | RemoteClosed | MacChanged | Oversized | Crashed

  /** What the header of the current query said. */
  datatype Query = Query(messageId: int, expectedReqSize: int, resSize: int, waitingTime: int)

  /** The entries of the global dictionaries under this connection's id. */
  datatype Logs = Logs(mac: Option<string>, delayResults: seq<int>, timeSent: seq<int>)

  /** The variables of one handler, the replies it has sent, and how long it slept before each. */
  datatype Session = Session(firstData: bool, query: Query, bufferData: string, nextBufferData: string,
                             logs: Logs, sent: seq<string>, slept: seq<int>, status: Status)

  const Fresh: Session := Session(true, Query(0, 0, 0, 0), "", "", Logs(None, [], []), [], [], Running)

  // ------------------------------------------------------------ specification

  function IndexOf(s: string, c: char): (i: nat)
    requires c in s
    ensures i < |s| && s[i] == c && forall j :: 0 <= j < i ==> s[j] != c
  {
    if s[0] == c then 0 else 1 + IndexOf(s[1..], c)
  }

  /** A chunk with a newline that is not its last byte is cut behind its first newline. */
  function Cut(data: string): (parts: (string, string))
    requires data != ""
    ensures parts.0 + parts.1 == data
  {
    if data[|data| - 1] != '\n' && '\n' in data then
      var c := IndexOf(data, '\n');
      (data[..c + 1], data[c + 1..])
    else (data, "")
  }

  function IntField(fields: seq<string>, i: nat): Option<int> {
    if i < |fields| then PyInt(fields[i]) else None
  }

  function IntFields(fields: seq<string>): (ns: Option<seq<int>>)
    ensures ns.Some? ==> |ns.value| == |fields|
  {
    if fields == [] then Some([])
    else
      var first := PyInt(fields[0]);
      var rest := IntFields(fields[1..]);
      if first.None? || rest.None? then None else Some([first.value] + rest.value)
  }

  lemma {:induction false} IntFieldsSucceeds(fields: seq<string>, ns: seq<int>)
    requires |ns| == |fields| && forall j :: 0 <= j < |fields| ==> PyInt(fields[j]) == Some(ns[j])
    ensures IntFields(fields) == Some(ns)
  {
    hide PyInt;
    if fields != [] {
      IntFieldsSucceeds(fields[1..], ns[1..]);
      assert [ns[0]] + ns[1..] == ns;
    }
  }

  lemma {:induction false} IntFieldsFails(fields: seq<string>, i: nat)
    requires i < |fields| && PyInt(fields[i]).None?
    ensures IntFields(fields).None?
  {
    hide PyInt;
    if i > 0 {
      IntFieldsFails(fields[1..], i - 1);
    }
  }

  /** What the header fields amount to: unusable, not all there yet, or a whole header. */
  datatype Reading = Unreadable | Unfinished | Whole(query: Query, time: int, mac: string, delayFields: seq<string>)

  function ReadQuery(fields: seq<string>): Option<Query> {
    var id, size, response, wait := IntField(fields, 0), IntField(fields, 1), IntField(fields, 2), IntField(fields, 3);
    if id.None? || size.None? || response.None? || wait.None? then None
    else Some(Query(id.value, size.value, response.value, wait.value))
  }

  /** The fields after the MAC address, up to the filling behind the last separator. */
  function DelayFields(fields: seq<string>): seq<string> {
    if |fields| < MIN_FIELDS_NB then [] else fields[7..|fields| - 1]
  }

  function ReadFields(fields: seq<string>): Reading {
    var n := IntField(fields, 4);
    if n.None? then Unreadable
    else if |fields| - MIN_FIELDS_NB != n.value then Unfinished
    else
      var query := ReadQuery(fields);
      var time := IntField(fields, 5);
      if query.None? || time.None? || |fields| <= 6 then Unreadable
      else Whole(query.value, time.value, fields[6], DelayFields(fields))
  }

  /** What the header branch does to the session once enough bytes are there. */
  function ParseHeader(s: Session): Session {
    TakeHeader(s, ReadFields(Split(s.bufferData, '&')))
  }

  function TakeHeader(s: Session, reading: Reading): Session {
    match reading
    case Unreadable => s.(status := Crashed)
    case Unfinished => s
    case Whole(query, time, mac, delayFields) => TakeQuery(s, query, time, mac, IntFields(delayFields))
  }

  /** A changed MAC address ends the loop before the delays are read. */
  function TakeQuery(s: Session, query: Query, time: int, mac: string, delays: Option<seq<int>>): Session {
    var sent := s.logs.timeSent + [time];
    if s.logs.mac.Some? && s.logs.mac.value != mac then
      s.(query := query, logs := s.logs.(timeSent := sent), status := MacChanged)
    else if delays.None? then s.(status := Crashed)
    else s.(query := query, logs := Logs(Some(mac), s.logs.delayResults + delays.value, sent), firstData := false)
  }

  /** Reply when the query is complete, give up when it is too long, otherwise wait. */
  function Answer(s: Session): Session {
    if |s.bufferData| == s.query.expectedReqSize then
      if s.query.waitingTime < 0 then s.(status := Crashed)
      else
        Session(true, s.query, s.nextBufferData, "", s.logs,
                s.sent + [ReplyText(s.query.messageId, s.query.resSize)], s.slept + [s.query.waitingTime], s.status)
    else if |s.bufferData| > s.query.expectedReqSize then s.(status := Oversized)
    else s
  }

  function Digest(s: Session): Session {
    if !s.firstData then Answer(s)
    else if |s.bufferData| <= MAX_SECURITY_HEADER_SIZE && |Split(s.bufferData, '&')| < MIN_FIELDS_NB then s
    else
      var parsed := ParseHeader(s);
      if parsed.status.Running? && !parsed.firstData then Answer(parsed) else parsed
  }

  function Step(s: Session, data: string): Session {
    if data == "" then s.(status := RemoteClosed)
    else
      var (used, spill) := Cut(data);
      Digest(s.(bufferData := s.bufferData + used, nextBufferData := s.nextBufferData + spill))
  }

  /** The receive loop over the results of successive `recv` calls. */
  function Serve(s: Session, arrivals: seq<string>): Session
    decreases |arrivals|
  {
    if arrivals == [] || !s.status.Running? then s else Serve(Step(s, arrivals[0]), arrivals[1..])
  }

  // ------------------------------------------------------------ the handler

  class ClientConnection {
    var firstData: bool
    var messageId: int
    var expectedReqSize: int
    var resSize: int
    var waitingTime: int
    var bufferData: string
    var nextBufferData: string
    var mac: Option<string>
    var delayResults: seq<int>
    var timeSent: seq<int>
    var sent: seq<string>
    var slept: seq<int>
    var status: Status

    ghost function View(): Session
      reads this
    {
      Session(firstData, Query(messageId, expectedReqSize, resSize, waitingTime), bufferData, nextBufferData,
              Logs(mac, delayResults, timeSent), sent, slept, status)
    }

    constructor ()
      ensures View() == Fresh
    {
      firstData, messageId, expectedReqSize, resSize, waitingTime := true, 0, 0, 0, 0;
      bufferData, nextBufferData := "", "";
      mac, delayResults, timeSent, sent, slept, status := None, [], [], [], [], Running;
    }

    method ReadDelays(fields: seq<string>) returns (delays: Option<seq<int>>)
      ensures delays == IntFields(fields)
    {
      hide PyInt;
      var ns: seq<int> := [];
      var i := 0;
      while i < |fields|
        invariant i <= |fields| && |ns| == i
        invariant forall j :: 0 <= j < i ==> PyInt(fields[j]) == Some(ns[j])
      {
        var d := PyInt(fields[i]);
        if d.None? {
          IntFieldsFails(fields, i);
          return None;
        }
        ns := ns + [d.value];
        i := i + 1;
      }
      IntFieldsSucceeds(fields, ns);
      return Some(ns);
    }

    method SetQuery(query: Query)
      modifies this`messageId, this`expectedReqSize, this`resSize, this`waitingTime
      ensures Query(messageId, expectedReqSize, resSize, waitingTime) == query
    {
      messageId, expectedReqSize := query.messageId, query.expectedReqSize;
      resSize, waitingTime := query.resSize, query.waitingTime;
    }

    method TakeFields(query: Query, time: int, newMac: string, delays: Option<seq<int>>)
      modifies this
      ensures View() == TakeQuery(old(View()), query, time, newMac, delays)
    {
      if mac.Some? && mac.value != newMac {
        SetQuery(query);
        timeSent, status := timeSent + [time], MacChanged;
      } else if delays.None? {
        status := Crashed;
      } else {
        SetQuery(query);
        timeSent, mac, delayResults, firstData := timeSent + [time], Some(newMac), delayResults + delays.value, false;
      }
    }

    method ReadHeader(reading: Reading)
      modifies this
      ensures View() == TakeHeader(old(View()), reading)
    {
      hide TakeQuery, IntFields;
      match reading
      case Unreadable =>
        status := Crashed;
      case Unfinished =>
      case Whole(query, time, newMac, delayFields) =>
        var delays := ReadDelays(delayFields);
        TakeFields(query, time, newMac, delays);
    }

    method Conclude()
      modifies this
      ensures View() == Answer(old(View()))
    {
      if |bufferData| == expectedReqSize {
        if waitingTime < 0 {
          status := Crashed;
          return;
        }
        slept := slept + [waitingTime];
        sent := sent + [ReplyText(messageId, resSize)];
        firstData := true;
        bufferData := nextBufferData;
        nextBufferData := "";
      } else if |bufferData| > expectedReqSize {
        status := Oversized;
      }
    }

    method Receive(data: string)
      modifies this
      ensures View() == Step(old(View()), data)
    {
      if data == "" {
        status := RemoteClosed;
        return;
      }
      if data[|data| - 1] != '\n' && '\n' in data {
        var c := IndexOf(data, '\n');
        bufferData := bufferData + data[..c + 1];
        nextBufferData := nextBufferData + data[c + 1..];
      } else {
        bufferData := bufferData + data;
        assert nextBufferData + "" == nextBufferData;
      }
      if firstData && |bufferData| <= MAX_SECURITY_HEADER_SIZE && |Split(bufferData, '&')| < MIN_FIELDS_NB {
        return;
      }
      if firstData {
        ReadHeader(ReadFields(Split(bufferData, '&')));
        if !status.Running? || firstData {
          return;
        }
      }
      Conclude();
    }

    method Run(arrivals: seq<string>)
      modifies this
      ensures View() == Serve(old(View()), arrivals)
    {
      var i := 0;
      while i < |arrivals| && status.Running?
        invariant i <= |arrivals|
        invariant Serve(View(), arrivals[i..]) == Serve(old(View()), arrivals)
      {
        assert arrivals[i..][1..] == arrivals[i + 1..];
        Receive(arrivals[i]);
        i := i + 1;
      }
    }
  }
}
