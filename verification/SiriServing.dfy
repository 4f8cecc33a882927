/** What the Siri server does with any chunking of any list of queries. */
module SiriServing {
  import opened Text
  import opened SiriProtocol
  import opened SiriServer

  /** Well-formed queries of one client, which always reports the same MAC address. */
  ghost predicate FromOneClient(rs: seq<Request>, mac: string) {
    AllWellFormed(rs) && forall i :: 0 <= i < |rs| ==> rs[i].mac == mac
  }

  function Times(rs: seq<Request>): seq<int> {
    if rs == [] then [] else Times(rs[..|rs| - 1]) + [rs[|rs| - 1].time]
  }

  function Waits(rs: seq<Request>): (waits: seq<int>)
    ensures |waits| == |rs| && forall i :: 0 <= i < |rs| ==> waits[i] == rs[i].wait
  {
    seq(|rs|, i requires 0 <= i < |rs| => rs[i].wait)
  }

  function Delays(rs: seq<Request>): seq<int> {
    if rs == [] then [] else Delays(rs[..|rs| - 1]) + rs[|rs| - 1].delays
  }

  /** The log entries after reading the headers of exactly the queries `rs`. */
  function LogsAfter(rs: seq<Request>): Logs {
    Logs(if rs == [] then None else Some(rs[0].mac), Delays(rs), Times(rs))
  }

  lemma {:induction false} TimesLength(rs: seq<Request>)
    ensures |Times(rs)| == |rs|
  {
    if rs != [] {
      TimesLength(rs[..|rs| - 1]);
    }
  }

  /** The logs hold the sent time of every query in order, each query's delays behind those of the ones before it, and the
      MAC address of the first. */
  lemma {:induction false} LogsInFull(rs: seq<Request>, i: nat)
    requires i < |rs|
    ensures var logs := LogsAfter(rs);
            && logs.mac == Some(rs[0].mac) && |logs.timeSent| == |rs| && logs.timeSent[i] == rs[i].time
            && LogsAfter(rs[..i + 1]).delayResults == LogsAfter(rs[..i]).delayResults + rs[i].delays
            && LogsAfter(rs[..i]).delayResults <= logs.delayResults && LogsAfter([]).delayResults == []
    decreases |rs|
  {
    var n := |rs| - 1;
    assert rs[..i + 1][..i] == rs[..i];
    if i < n {
      LogsInFull(rs[..n], i);
      assert rs[..n][..i] == rs[..i] && rs[..n][..i + 1] == rs[..i + 1];
    } else {
      assert rs[..i + 1] == rs;
      TimesLength(rs[..n]);
    }
  }

  function QueryOf(r: Request): Query {
    Query(r.id, r.size, r.responseSize, r.wait)
  }

  /** The first k queries are answered, and the header flag says whether the header of the next one is read. */
  ghost predicate Answered(s: Session, rs: seq<Request>, k: nat, mac: string) {
    && FromOneClient(rs, mac) && k <= |rs|
    && s.status.Running?
    && s.sent == Replies(rs[..k]) && s.slept == Waits(rs[..k])
    && (s.firstData ==> s.logs == LogsAfter(rs[..k]))
    && (!s.firstData ==>
          k < |rs| && |s.bufferData| >= |Header(rs[k])| && s.query == QueryOf(rs[k]) && s.logs == LogsAfter(rs[..k + 1]))
  }

  /** At a loop head the buffer moreover holds a proper start of the next query, and nothing is set aside. */
  ghost predicate AtLoopHead(s: Session, rs: seq<Request>, k: nat, mac: string) {
    && Answered(s, rs, k, mac)
    && s.nextBufferData == ""
    && (if k == |rs| then s.bufferData == "" else s.bufferData < Message(rs[k]))
  }

  // ------------------------------------------------------------ header reading

  lemma IntFieldDec(fields: seq<string>, i: nat, n: nat)
    requires i < |fields| && fields[i] == Dec(n)
    ensures IntField(fields, i) == Some(n)
  {
    PyIntDec(n);
  }

  lemma ReadWholeHeader(r: Request, tail: string)
    requires WellFormed(r)
    ensures ReadFields(Fields(r) + [tail]) == Whole(QueryOf(r), r.time, r.mac, DecAll(r.delays))
  {
    hide PyInt;
    var fields := Fields(r) + [tail];
    IntFieldDec(fields, 0, r.id);
    IntFieldDec(fields, 1, r.size);
    IntFieldDec(fields, 2, r.responseSize);
    IntFieldDec(fields, 3, r.wait);
    IntFieldDec(fields, 4, |r.delays|);
    IntFieldDec(fields, 5, r.time);
    assert DelayFields(fields) == DecAll(r.delays);
  }

  lemma IntFieldsOfDelays(ns: seq<nat>)
    ensures IntFields(DecAll(ns)) == Some(ns)
  {
    hide PyInt;
    forall j | 0 <= j < |ns|
      ensures PyInt(DecAll(ns)[j]) == Some(ns[j])
    {
      PyIntDec(ns[j]);
    }
    IntFieldsSucceeds(DecAll(ns), ns);
  }

  /** A header that is not complete is recognised as such, once the leading fields are there. */
  lemma ReadPartialHeader(r: Request, p: string)
    requires WellFormed(r) && p < Header(r)
    requires |p| > MAX_SECURITY_HEADER_SIZE || |Split(p, '&')| >= MIN_FIELDS_NB
    ensures ReadFields(Split(p, '&')).Unfinished?
  {
    hide PyInt;
    FieldsFree(r, '&');
    var fields := Fields(r);
    var j, q := SplitPartial(fields, p);
    LeadingFieldsAreShort(r);
    var parts := Split(p, '&');
    if j <= 4 {
      TerminatedSplitAt(fields[..4], j);
      assert fields[..4][..j] == fields[..j];
      assert j == 4 && q != "";
      assert parts[4] == q && AllDigits(q);
      PyIntDigits(q);
      assert |parts| - MIN_FIELDS_NB < 0;
    } else {
      assert parts[4] == Dec(|r.delays|);
      IntFieldDec(parts, 4, |r.delays|);
      assert |parts| == j + 1 < 8 + |r.delays|;
    }
  }

  // ------------------------------------------------------------ every outcome of the header branch

  /** A turn that starts with a header, once the buffer holds the chunk, with every condition and effect written out: the
      header is waited for, crashes the handler, breaks off on a changed MAC address, or is taken; and a taken query is
      answered, found too long, or waited for. */
  lemma HeaderTurn(s: Session)
    requires s.firstData
    ensures var f := Split(s.bufferData, '&');
            var t := Digest(s);
            if |s.bufferData| <= 128 && |f| < 8 then t == s
            else if |f| < 5 || PyInt(f[4]).None? then t == s.(status := Crashed)
            else if |f| - 8 != PyInt(f[4]).value then t == s
            else if |f| < 7 || PyInt(f[0]).None? || PyInt(f[1]).None? || PyInt(f[2]).None? || PyInt(f[3]).None? || PyInt(f[5]).None? then
              t == s.(status := Crashed)
            else
              var id, size, response, wait := PyInt(f[0]).value, PyInt(f[1]).value, PyInt(f[2]).value, PyInt(f[3]).value;
              var times := s.logs.timeSent + [PyInt(f[5]).value];
              if s.logs.mac.Some? && s.logs.mac.value != f[6] then
                t.status.MacChanged? && t.logs == s.logs.(timeSent := times) && t.sent == s.sent && t.slept == s.slept
              else if exists i :: 7 <= i < |f| - 1 && PyInt(f[i]).None? then
                t.status.Crashed? && t.sent == s.sent && t.slept == s.slept
              else
                && t.logs.mac == Some(f[6]) && t.logs.timeSent == times
                && |t.logs.delayResults| == |s.logs.delayResults| + (if |f| > 8 then |f| - 8 else 0)
                && s.logs.delayResults <= t.logs.delayResults
                && (forall i :: 7 <= i < |f| - 1 ==> PyInt(f[i]) == Some(t.logs.delayResults[|s.logs.delayResults| + i - 7]))
                && Concluded(s, t, id, size, response, wait)
  {
    hide PyInt, Split, Answer, ParseHeader, Concluded;
    var parsed := ParseHeader(s);
    HeaderRead(s);
    if !parsed.firstData {
      AnswerConcludes(parsed);
      SameBuffers(s, parsed);
    }
  }

  lemma SameBuffers(s: Session, u: Session)
    requires u.status == s.status && u.bufferData == s.bufferData && u.nextBufferData == s.nextBufferData
    requires u.sent == s.sent && u.slept == s.slept
    ensures forall t: Session, id, size, response, wait :: Concluded(u, t, id, size, response, wait) <==> Concluded(s, t, id, size, response, wait)
  {
  }

  /** The same for what reading the header does before the size test. */
  lemma HeaderRead(s: Session)
    requires s.firstData
    ensures var f := Split(s.bufferData, '&');
            var t := ParseHeader(s);
            if |f| < 5 || PyInt(f[4]).None? then t == s.(status := Crashed)
            else if |f| - 8 != PyInt(f[4]).value then t == s
            else if |f| < 7 || PyInt(f[0]).None? || PyInt(f[1]).None? || PyInt(f[2]).None? || PyInt(f[3]).None? || PyInt(f[5]).None? then
              t == s.(status := Crashed)
            else
              var query := Query(PyInt(f[0]).value, PyInt(f[1]).value, PyInt(f[2]).value, PyInt(f[3]).value);
              var times := s.logs.timeSent + [PyInt(f[5]).value];
              if s.logs.mac.Some? && s.logs.mac.value != f[6] then
                t == s.(query := query, logs := s.logs.(timeSent := times), status := MacChanged)
              else if exists i :: 7 <= i < |f| - 1 && PyInt(f[i]).None? then t == s.(status := Crashed)
              else
                && t == s.(firstData := false, query := query, logs := t.logs)
                && t.logs.mac == Some(f[6]) && t.logs.timeSent == times
                && |t.logs.delayResults| == |s.logs.delayResults| + (if |f| > 8 then |f| - 8 else 0)
                && s.logs.delayResults <= t.logs.delayResults
                && (forall i :: 7 <= i < |f| - 1 ==> PyInt(f[i]) == Some(t.logs.delayResults[|s.logs.delayResults| + i - 7]))
  {
    hide PyInt, Split, IntFields;
    var f := Split(s.bufferData, '&');
    if ReadFields(f).Whole? {
      DelaysRead(DelayFields(f));
      assert forall i :: 7 <= i < |f| - 1 ==> f[i] == DelayFields(f)[i - 7];
      if IntFields(DelayFields(f)).None? {
        var j :| 0 <= j < |DelayFields(f)| && PyInt(DelayFields(f)[j]).None?;
        assert PyInt(f[j + 7]).None?;
      } else {
        assert forall i :: 7 <= i < |f| - 1 ==> PyInt(f[i]) == Some(IntFields(DelayFields(f)).value[i - 7]);
      }
    }
  }

  lemma AnswerConcludes(u: Session)
    requires !u.firstData
    ensures var q := u.query;
            Concluded(u, if u.status.Running? then Answer(u) else u, q.messageId, q.expectedReqSize, q.resSize, q.waitingTime)
    ensures Answer(u).logs == u.logs
  {
    hide Dec;
  }

  /** What the size test makes of a query whose header is read. */
  ghost predicate Concluded(s: Session, t: Session, id: int, size: int, response: int, wait: int) {
    if s.status.Running? && |s.bufferData| == size then
      if wait < 0 then t.status.Crashed? && t.sent == s.sent && t.slept == s.slept
      else
        var name := if id >= 0 then Dec(id) else "-" + Dec(-id);
        && t.status.Running? && t.firstData && t.bufferData == s.nextBufferData && t.nextBufferData == ""
        && t.sent == s.sent + [name + "&" + Repeat('0', response - |name| - 2) + "\n"] && t.slept == s.slept + [wait]
    else
      && t.sent == s.sent && t.slept == s.slept && !t.firstData
      && t.bufferData == s.bufferData && t.nextBufferData == s.nextBufferData && t.query == Query(id, size, response, wait)
      && t.status == if s.status.Running? && |s.bufferData| > size then Oversized else s.status
  }

  /** Either every field is read, or one is no number. */
  lemma {:induction false} DelaysRead(fields: seq<string>)
    ensures var ns := IntFields(fields);
            if ns.None? then exists i :: 0 <= i < |fields| && PyInt(fields[i]).None?
            else forall i :: 0 <= i < |fields| ==> PyInt(fields[i]) == Some(ns.value[i])
  {
    hide PyInt;
    if fields != [] {
      DelaysRead(fields[1..]);
      if IntFields(fields).None? && PyInt(fields[0]).Some? {
        var i :| 0 <= i < |fields[1..]| && PyInt(fields[1..][i]).None?;
        assert PyInt(fields[i + 1]).None?;
      }
    }
  }

  // ------------------------------------------------------------ one chunk

  lemma LogsGrow(rs: seq<Request>, k: nat, mac: string)
    requires FromOneClient(rs, mac) && k < |rs|
    ensures LogsAfter(rs[..k + 1]) ==
            Logs(Some(mac), LogsAfter(rs[..k]).delayResults + rs[k].delays, LogsAfter(rs[..k]).timeSent + [rs[k].time])
    ensures LogsAfter(rs[..k]).mac.Some? ==> LogsAfter(rs[..k]).mac.value == mac
  {
    assert rs[..k + 1][..k] == rs[..k];
    assert rs[..k + 1][0] == rs[0];
  }

  /** Once the buffer reaches past the header, the digest reads it and goes on to the size check. */
  lemma DigestHeader(s: Session, rs: seq<Request>, k: nat, mac: string)
    requires Answered(s, rs, k, mac) && k < |rs|
    requires |Header(rs[k])| <= |s.bufferData| && s.bufferData <= Message(rs[k])
    ensures Digest(s) == Answer(s.(firstData := false, query := QueryOf(rs[k]), logs := LogsAfter(rs[..k + 1])))
  {
    var r := rs[k];
    if s.firstData {
      SplitMessagePrefix(r, s.bufferData);
      ReadWholeHeader(r, s.bufferData[|Header(r)|..]);
      IntFieldsOfDelays(r.delays);
      LogsGrow(rs, k, mac);
      assert s.logs.mac.Some? ==> s.logs.mac.value == r.mac;
      hide ReadFields, IntFields;
      assert ParseHeader(s) == s.(firstData := false, query := QueryOf(r), logs := LogsAfter(rs[..k + 1]));
    }
  }

  /** While the query is incomplete the digest keeps its bytes and reads the header as soon as it is there. */
  lemma DigestPartial(s: Session, rs: seq<Request>, k: nat, mac: string)
    requires Answered(s, rs, k, mac) && s.nextBufferData == "" && k < |rs| && s.bufferData < Message(rs[k])
    ensures AtLoopHead(Digest(s), rs, k, mac)
    ensures Digest(s).bufferData == s.bufferData
    ensures |s.bufferData| >= |Header(rs[k])| ==> !Digest(s).firstData
  {
    hide PyInt, LogsAfter;
    var r := rs[k];
    MessageShape(r);
    if |s.bufferData| >= |Header(r)| {
      DigestHeader(s, rs, k, mac);
    } else if |s.bufferData| > MAX_SECURITY_HEADER_SIZE || |Split(s.bufferData, '&')| >= MIN_FIELDS_NB {
      assert s.bufferData < Header(r) by {
        assert s.bufferData == Message(r)[..|s.bufferData|];
      }
      ReadPartialHeader(r, s.bufferData);
    }
  }

  /** A complete query is answered, and what was set aside becomes the buffer. */
  lemma DigestComplete(s: Session, rs: seq<Request>, k: nat, mac: string)
    requires Answered(s, rs, k, mac) && k < |rs| && s.bufferData == Message(rs[k])
    ensures Answered(Digest(s), rs, k + 1, mac)
    ensures Digest(s).firstData && Digest(s).bufferData == s.nextBufferData && Digest(s).nextBufferData == ""
  {
    hide Digest, Message, Header, LogsAfter, WellFormed, ReplyText;
    MessageShape(rs[k]);
    DigestHeader(s, rs, k, mac);
    OneMoreReply(rs, k);
  }

  lemma OneMoreReply(rs: seq<Request>, k: nat)
    requires k < |rs|
    ensures Replies(rs[..k + 1]) == Replies(rs[..k]) + [Reply(rs[k])]
    ensures Waits(rs[..k + 1]) == Waits(rs[..k]) + [rs[k].wait]
  {
    hide ReplyText;
  }

  /** The bytes of the queries from the k-th on. */
  function Pending(rs: seq<Request>, k: nat): string
    requires k <= |rs| && AllWellFormed(rs)
  {
    Stream(rs[k..])
  }

  lemma PendingUnfold(rs: seq<Request>, k: nat)
    requires k < |rs| && AllWellFormed(rs)
    ensures Pending(rs, k) == Message(rs[k]) + Pending(rs, k + 1)
  {
    assert rs[k..][1..] == rs[k + 1..];
  }

  lemma PrefixWithin(b: string, data: string, m: string, rest: string)
    requires b + data <= m + rest && |b| + |data| <= |m|
    ensures b + data <= m
    ensures forall i :: 0 <= i < |data| ==> data[i] == m[|b| + i]
  {
    var all := b + data;
    assert forall i :: 0 <= i < |all| ==> all[i] == (m + rest)[i] == m[i];
    assert forall i :: 0 <= i < |data| ==> data[i] == all[|b| + i];
  }

  lemma PrefixBeyond(b: string, data: string, m: string, rest: string)
    requires b + data <= m + rest && |b| < |m| < |b| + |data|
    ensures b + data[..|m| - |b|] == m
    ensures data[|m| - |b|..] <= rest
    ensures forall i :: 0 <= i < |m| - |b| ==> data[i] == m[|b| + i]
  {
    var all := b + data;
    var c := |m| - |b|;
    assert all[..|m|] == (m + rest)[..|m|] == m;
    assert all[..|m|] == b + data[..c];
    assert all[|m|..] == data[c..];
    assert (m + rest)[|m|..|all|] == rest[..|all| - |m|];
    forall i | 0 <= i < c ensures data[i] == m[|b| + i] {
      assert data[i] == all[|b| + i];
    }
  }

  lemma CutBehindFirst(data: string, c: nat)
    requires 0 < c < |data| && data[c - 1] == '\n' && data[|data| - 1] != '\n'
    requires forall i :: 0 <= i < c - 1 ==> data[i] != '\n'
    ensures Cut(data) == (data[..c], data[c..])
  {
    assert data[c - 1] in data;
  }

  /** A chunk that runs past the end of the current query but not to the end of the next one. */
  lemma SpillIsStartOfNext(b: string, rs: seq<Request>, k: nat, data: string)
    requires AllWellFormed(rs)
    requires k < |rs| && |b| < rs[k].size < |b| + |data| && b + data <= Pending(rs, k)
    requires k + 1 < |rs| ==> |b| + |data| < rs[k].size + rs[k + 1].size
    ensures k + 1 < |rs|
    ensures var c := rs[k].size - |b|;
            Cut(data) == (data[..c], data[c..]) && b + data[..c] == Message(rs[k]) && data[c..] < Message(rs[k + 1])
  {
    hide Message, Stream, WellFormed, Pending, Cut;
    PendingUnfold(rs, k);
    MessageShape(rs[k]);
    var c := rs[k].size - |b|;
    PrefixBeyond(b, data, Message(rs[k]), Pending(rs, k + 1));
    var spill := data[c..];
    NextQueryExists(rs, k, spill);
    PendingUnfold(rs, k + 1);
    MessageShape(rs[k + 1]);
    PrefixWithin("", spill, Message(rs[k + 1]), Pending(rs, k + 2));
    assert "" + spill == spill;
    assert data[|data| - 1] == spill[|spill| - 1] == Message(rs[k + 1])[|spill| - 1];
    CutBehindFirst(data, c);
  }

  lemma NextQueryExists(rs: seq<Request>, k: nat, spill: string)
    requires AllWellFormed(rs)
    requires k < |rs| && spill != "" && spill <= Pending(rs, k + 1)
    ensures k + 1 < |rs|
  {
  }

  /** One more chunk that completes at most one query: the invariant is kept and no byte is lost. */
  lemma StepKeepsLoopHead(s: Session, rs: seq<Request>, k: nat, mac: string, data: string) returns (k': nat)
    requires AtLoopHead(s, rs, k, mac) && data != "" && s.bufferData + data <= Pending(rs, k)
    requires k + 1 < |rs| ==> |s.bufferData| + |data| < rs[k].size + rs[k + 1].size
    ensures k < |rs| && k' == if |s.bufferData| + |data| >= rs[k].size then k + 1 else k
    ensures AtLoopHead(Step(s, data), rs, k', mac)
    ensures s.bufferData + data == (if k' == k then "" else Message(rs[k])) + Step(s, data).bufferData
    ensures k' == k && |s.bufferData| + |data| >= |Header(rs[k])| ==> !Step(s, data).firstData
  {
    hide AtLoopHead, Digest, Step, Message, WellFormed, Pending;
    HeadFacts(s, rs, k, mac);
    assert k < |rs|;
    if |s.bufferData| + |data| <= rs[k].size {
      StepWithin(s, rs, k, mac, data);
      k' := if |s.bufferData| + |data| == rs[k].size then k + 1 else k;
    } else {
      StepBeyond(s, rs, k, mac, data);
      k' := k + 1;
    }
  }

  lemma StepWithin(s: Session, rs: seq<Request>, k: nat, mac: string, data: string)
    requires AtLoopHead(s, rs, k, mac) && data != "" && s.bufferData + data <= Pending(rs, k)
    requires k < |rs| && |s.bufferData| + |data| <= rs[k].size
    ensures var t := Step(s, data);
            if |s.bufferData| + |data| == rs[k].size
            then AtLoopHead(t, rs, k + 1, mac) && s.bufferData + data == Message(rs[k]) && t.bufferData == ""
            else AtLoopHead(t, rs, k, mac) && t.bufferData == s.bufferData + data
                 && (|t.bufferData| >= |Header(rs[k])| ==> !t.firstData)
  {
    hide Digest, Cut, Message, WellFormed, Pending, LogsAfter;
    HeadFacts(s, rs, k, mac);
    PendingUnfold(rs, k);
    MessageShape(rs[k]);
    var m := Message(rs[k]);
    var size := |s.bufferData| + |data|;
    PrefixWithin(s.bufferData, data, m, Pending(rs, k + 1));
    NoCut(data, size == |m|);
    var t := s.(bufferData := s.bufferData + data);
    StepIsDigest(s, data, data, "");
    BufferGrows(s, rs, k, mac, t);
    if size < |m| {
      DigestPartial(t, rs, k, mac);
    } else {
      DigestComplete(t, rs, k, mac);
      EmptyBufferAtHead(Digest(t), rs, k + 1, mac);
    }
  }

  lemma EmptyBufferAtHead(s: Session, rs: seq<Request>, k: nat, mac: string)
    requires Answered(s, rs, k, mac) && s.bufferData == "" && s.nextBufferData == "" && s.firstData
    ensures AtLoopHead(s, rs, k, mac)
  {
    if k < |rs| {
      MessageShape(rs[k]);
    }
  }

  lemma StepBeyond(s: Session, rs: seq<Request>, k: nat, mac: string, data: string)
    requires AtLoopHead(s, rs, k, mac) && s.bufferData + data <= Pending(rs, k)
    requires k < |rs| && |s.bufferData| + |data| > rs[k].size
    requires k + 1 < |rs| ==> |s.bufferData| + |data| < rs[k].size + rs[k + 1].size
    ensures AtLoopHead(Step(s, data), rs, k + 1, mac)
    ensures s.bufferData + data == Message(rs[k]) + Step(s, data).bufferData
  {
    hide Digest, Cut, Message, WellFormed, Pending, LogsAfter;
    HeadFacts(s, rs, k, mac);
    MessageShape(rs[k]);
    SpillIsStartOfNext(s.bufferData, rs, k, data);
    var c := rs[k].size - |s.bufferData|;
    var t := s.(bufferData := Message(rs[k]), nextBufferData := data[c..]);
    StepIsDigest(s, data, data[..c], data[c..]);
    BufferGrows(s, rs, k, mac, t);
    DigestComplete(t, rs, k, mac);
    assert s.bufferData + data == s.bufferData + data[..c] + data[c..];
  }

  lemma HeadFacts(s: Session, rs: seq<Request>, k: nat, mac: string)
    requires AtLoopHead(s, rs, k, mac)
    ensures FromOneClient(rs, mac) && s.nextBufferData == "" && k <= |rs|
    ensures k < |rs| ==> |s.bufferData| < rs[k].size
    ensures k == |rs| ==> s.bufferData == "" && Pending(rs, k) == ""
  {
    if k < |rs| {
      MessageShape(rs[k]);
    }
  }

  lemma StepIsDigest(s: Session, data: string, used: string, spill: string)
    requires data != "" && Cut(data) == (used, spill) && s.nextBufferData == ""
    ensures Step(s, data) == Digest(s.(bufferData := s.bufferData + used, nextBufferData := spill))
  {
    hide Digest, Cut;
    assert s.nextBufferData + spill == spill;
  }

  /** Bytes arriving behind the buffer leave the answered queries and the header flag alone. */
  lemma BufferGrows(s: Session, rs: seq<Request>, k: nat, mac: string, t: Session)
    requires Answered(s, rs, k, mac) && |s.bufferData| <= |t.bufferData|
    requires t == s.(bufferData := t.bufferData, nextBufferData := t.nextBufferData)
    ensures Answered(t, rs, k, mac)
  {
  }

  lemma NoCut(data: string, closed: bool)
    requires data != "" && forall i :: 0 <= i < |data| ==> (data[i] == '\n' <==> closed && i == |data| - 1)
    ensures Cut(data) == (data, "")
  {
  }
}
