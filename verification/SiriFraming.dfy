/** The framing guarantee of the Siri server over whole connections. */
module SiriFraming {
  import opened Text
  import opened SiriProtocol
  import opened SiriServer
  import opened SiriServing

  /** `chunks` is what successive `recv` calls may return for `text`. */
  ghost predicate Chunking(chunks: seq<string>, text: string, limit: nat) {
    Concat(chunks) == text && forall i :: 0 <= i < |chunks| ==> 0 < |chunks[i]| <= limit
  }

  /** Every query was answered in order, each after its own waiting time, and the handler is back in its initial mode. */
  ghost predicate ServedInFull(f: Session, rs: seq<Request>) {
    && f.status.Running? && f.sent == Replies(rs) && f.slept == Waits(rs) && f.logs == LogsAfter(rs)
    && f.firstData && f.bufferData == "" && f.nextBufferData == ""
  }

  /** No chunk is empty or longer than a query behind the k-th. */
  ghost predicate ChunksFit(chunks: seq<string>, rs: seq<Request>, k: nat) {
    forall c :: 0 <= c < |chunks| ==> chunks[c] != "" && forall i :: k < i < |rs| ==> |chunks[c]| <= rs[i].size
  }

  /** The bytes of the queries from the i-th up to the k-th. */
  function Range(rs: seq<Request>, i: nat, k: nat): string
    requires i <= k <= |rs| && AllWellFormed(rs)
  {
    Stream(rs[i..k])
  }

  lemma PendingFrom(rs: seq<Request>, k: nat, k': nat)
    requires k <= k' <= |rs| && AllWellFormed(rs)
    ensures Pending(rs, k) == Range(rs, k, k') + Pending(rs, k')
  {
    hide WellFormed, Message, Stream;
    assert rs[k..] == rs[k..k'] + rs[k'..];
    StreamAppend(rs[k..k'], rs[k'..]);
  }

  lemma PendingAll(rs: seq<Request>)
    requires AllWellFormed(rs)
    ensures Pending(rs, 0) == Stream(rs)
  {
    assert rs[0..] == rs;
  }

  lemma RangeNone(rs: seq<Request>, k: nat)
    requires k <= |rs| && AllWellFormed(rs)
    ensures Range(rs, k, k) == ""
  {
    assert rs[k..k] == [];
  }

  lemma RangeOne(rs: seq<Request>, k: nat)
    requires k < |rs| && AllWellFormed(rs)
    ensures Range(rs, k, k + 1) == Message(rs[k])
  {
    hide WellFormed, Message;
    assert rs[k..k + 1] == [rs[k]];
    assert Stream([rs[k]][1..]) == "";
    assert Message(rs[k]) + "" == Message(rs[k]);
  }

  lemma RangeSplit(rs: seq<Request>, i: nat, j: nat, k: nat)
    requires i <= j <= k <= |rs| && AllWellFormed(rs)
    ensures Range(rs, i, k) == Range(rs, i, j) + Range(rs, j, k)
  {
    hide WellFormed, Message, Stream;
    assert rs[i..k] == rs[i..j] + rs[j..k];
    StreamAppend(rs[i..j], rs[j..k]);
  }

  /** One chunk of a longer arrival, with the bytes still to come accounted for. */
  lemma AfterChunk(s: Session, rs: seq<Request>, k: nat, mac: string, c: string, rest: string) returns (k1: nat)
    requires AtLoopHead(s, rs, k, mac) && c != "" && s.bufferData + (c + rest) <= Pending(rs, k)
    requires forall i :: k < i < |rs| ==> |c| <= rs[i].size
    ensures k <= k1 <= |rs| && AtLoopHead(Step(s, c), rs, k1, mac)
    ensures Step(s, c).bufferData + rest <= Pending(rs, k1)
    ensures s.bufferData + (c + rest) == Range(rs, k, k1) + (Step(s, c).bufferData + rest)
  {
    hide Step, Message, AtLoopHead, Pending, Range, WellFormed;
    HeadFacts(s, rs, k, mac);
    var b := s.bufferData;
    StartOf(b, c, rest, Pending(rs, k));
    k1 := StepKeepsLoopHead(s, rs, k, mac, c);
    var b1 := Step(s, c).bufferData;
    PendingFrom(rs, k, k1);
    RangeNone(rs, k);
    RangeOne(rs, k);
    Regroup(b, c, rest, Range(rs, k, k1), b1);
    DropCommon(Range(rs, k, k1), b1 + rest, Pending(rs, k1));
  }

  lemma StartOf(b: string, c: string, rest: string, all: string)
    requires b + (c + rest) <= all
    ensures b + c <= all
  {
    assert b + c == (b + (c + rest))[..|b| + |c|];
  }

  lemma Regroup(b: string, c: string, rest: string, gone: string, b1: string)
    requires b + c == gone + b1
    ensures b + (c + rest) == gone + (b1 + rest)
  {
    assert b + (c + rest) == (b + c) + rest;
  }

  /** Safety over every run: whatever part of the stream has arrived, the server has answered the queries it
      completes, in order, and holds exactly the bytes behind them. */
  lemma {:induction false} ServeKeepsLoopHead(s: Session, rs: seq<Request>, k: nat, mac: string, chunks: seq<string>)
    returns (k': nat)
    requires AtLoopHead(s, rs, k, mac) && s.bufferData + Concat(chunks) <= Pending(rs, k)
    requires ChunksFit(chunks, rs, k)
    ensures k <= k' <= |rs| && AtLoopHead(Serve(s, chunks), rs, k', mac)
    ensures s.bufferData + Concat(chunks) == Range(rs, k, k') + Serve(s, chunks).bufferData
    decreases |chunks|
  {
    hide Step, Message, AtLoopHead, Pending, Range, WellFormed;
    HeadFacts(s, rs, k, mac);
    if chunks == [] {
      k' := k;
      RangeNone(rs, k);
    } else {
      RunningAtHead(s, rs, k, mac);
      var rest := Concat(chunks[1..]);
      var k1 := AfterChunk(s, rs, k, mac, chunks[0], rest);
      var t := Step(s, chunks[0]);
      k' := ServeKeepsLoopHead(t, rs, k1, mac, chunks[1..]);
      RangeSplit(rs, k, k1, k');
    }
  }

  lemma RunningAtHead(s: Session, rs: seq<Request>, k: nat, mac: string)
    requires AtLoopHead(s, rs, k, mac)
    ensures s.status.Running?
  {
  }

  lemma DropCommon(a: string, b: string, c: string)
    requires a + b <= a + c
    ensures b <= c
  {
    assert b == (a + b)[|a|..];
    assert c == (a + c)[|a|..];
    assert forall i :: 0 <= i < |b| ==> b[i] == (a + b)[|a| + i] == (a + c)[|a| + i] == c[i];
  }

  /** When the whole stream has arrived, every query is answered. */
  lemma ServeWholeStream(s: Session, rs: seq<Request>, k: nat, mac: string, chunks: seq<string>)
    requires AtLoopHead(s, rs, k, mac) && s.bufferData + Concat(chunks) == Pending(rs, k)
    requires ChunksFit(chunks, rs, k)
    ensures AtLoopHead(Serve(s, chunks), rs, |rs|, mac)
  {
    var k' := ServeKeepsLoopHead(s, rs, k, mac, chunks);
    var f := Serve(s, chunks);
    HeadFacts(f, rs, k', mac);
    PendingFrom(rs, k, k');
    assert |f.bufferData| == |Pending(rs, k')|;
    if k' < |rs| {
      PendingUnfold(rs, k');
    }
  }

  lemma FreshAtLoopHead(rs: seq<Request>, mac: string)
    requires FromOneClient(rs, mac)
    ensures AtLoopHead(Fresh, rs, 0, mac)
  {
    if rs != [] {
      MessageShape(rs[0]);
    }
  }

  /** More queries being sent later does not disturb the invariant. */
  lemma LoopHeadExtends(s: Session, rs: seq<Request>, k: nat, mac: string, more: seq<Request>)
    requires AtLoopHead(s, rs, k, mac) && FromOneClient(more, mac)
    ensures AtLoopHead(s, rs + more, k, mac)
  {
    assert (rs + more)[..k] == rs[..k];
    if k < |rs| {
      assert (rs + more)[..k + 1] == rs[..k + 1];
    } else if more != [] {
      MessageShape(more[0]);
    }
  }

  // ------------------------------------------------------------ byte by byte

  function Bytes(s: string): (chunks: seq<string>)
    ensures |chunks| == |s| && forall i :: 0 <= i < |s| ==> chunks[i] == [s[i]]
  {
    seq(|s|, i requires 0 <= i < |s| => [s[i]])
  }

  lemma {:induction false} ConcatBytes(s: string)
    ensures Concat(Bytes(s)) == s
  {
    if s != "" {
      ConcatBytes(s[1..]);
      assert Bytes(s)[1..] == Bytes(s[1..]);
    }
  }

  lemma {:induction false} ServeAppend(s: Session, a: seq<string>, b: seq<string>)
    ensures Serve(s, a + b) == Serve(Serve(s, a), b)
    decreases |a|
  {
    if a == [] {
      assert a + b == b;
    } else if s.status.Running? {
      hide Step;
      assert (a + b)[1..] == a[1..] + b;
      ServeAppend(Step(s, a[0]), a[1..], b);
    } else {
      assert Serve(s, a) == s;
    }
  }

  /** Byte-wise delivery of a part of one query. */
  lemma DeliverPart(s: Session, rs: seq<Request>, k: nat, mac: string, a: string)
    requires AtLoopHead(s, rs, k, mac) && k < |rs| && s.bufferData == "" && a < Message(rs[k])
    ensures AtLoopHead(Serve(s, Bytes(a)), rs, k, mac) && Serve(s, Bytes(a)).bufferData == a
  {
    hide Message, Step, AtLoopHead;
    HeadFacts(s, rs, k, mac);
    PendingUnfold(rs, k);
    ConcatBytes(a);
    assert "" + a == a;
    forall i | 0 <= i < |rs|
      ensures rs[i].size >= 1
    {
      MessageShape(rs[i]);
    }
    var k' := ServeKeepsLoopHead(s, rs, k, mac, Bytes(a));
    assert k' == k && rs[k..k] == [];
    assert "" + Serve(s, Bytes(a)).bufferData == Serve(s, Bytes(a)).bufferData;
  }

  /** Byte-wise delivery of all of a query but its newline leaves the handler waiting with the header read. */
  lemma OneByteShort(s: Session, rs: seq<Request>, k: nat, mac: string)
    requires AtLoopHead(s, rs, k, mac) && k < |rs| && s.bufferData == ""
    ensures var start := Message(rs[k])[..rs[k].size - 1];
            var f := Serve(s, Bytes(start));
            AtLoopHead(f, rs, k, mac) && f.bufferData == start && !f.firstData
  {
    hide Message, Step, AtLoopHead, Pending, WellFormed, Bytes, Serve;
    HeadFacts(s, rs, k, mac);
    MessageShape(rs[k]);
    HeaderNotEmpty(rs[k]);
    var m := Message(rs[k]);
    var size := rs[k].size;
    var a, start, last := m[..size - 2], m[..size - 1], [m[size - 2]];
    assert start == a + last;
    DeliverPart(s, rs, k, mac, a);
    DeliverPart(s, rs, k, mac, start);
    BytesOfTwo(a, m[size - 2]);
    ServeAppend(s, Bytes(a), [last]);
    var f := Serve(s, Bytes(a));
    ServeOne(f, rs, k, mac, last);
    PendingUnfold(rs, k);
    assert a + last <= Pending(rs, k);
    var k' := StepKeepsLoopHead(f, rs, k, mac, last);
  }

  lemma HeaderNotEmpty(r: Request)
    ensures Header(r) != ""
  {
  }

  lemma BytesOfTwo(a: string, c: char)
    ensures Bytes(a + [c]) == Bytes(a) + [[c]]
  {
  }

  lemma ServeOne(s: Session, rs: seq<Request>, k: nat, mac: string, c: string)
    requires AtLoopHead(s, rs, k, mac)
    ensures Serve(s, [c]) == Step(s, c)
  {
    hide Step;
    assert [c][1..] == [];
  }

  /** The newline of one query glued to the whole of the next one closes the connection. */
  lemma GluedQueryIsRefused(s: Session, rs: seq<Request>, k: nat, mac: string)
    requires AtLoopHead(s, rs, k, mac) && k + 1 < |rs|
    requires !s.firstData && s.bufferData == Message(rs[k])[..rs[k].size - 1]
    ensures Step(s, "\n" + Message(rs[k + 1])).status.Oversized?
  {
    MessageShape(rs[k]);
    MessageShape(rs[k + 1]);
    var data := "\n" + Message(rs[k + 1]);
    assert data[|data| - 1] == '\n';
    assert Cut(data) == (data, "");
  }

  /** Byte by byte up to the newline of query i - 1, then that newline with the whole of query i. */
  function BreakingChunks(rs: seq<Request>, i: nat): seq<string>
    requires 1 <= i < |rs| && AllWellFormed(rs)
  {
    Bytes(Stream(rs[..i - 1])) + Bytes(Message(rs[i - 1])[..|Message(rs[i - 1])| - 1])
    + ["\n" + Message(rs[i])] + Bytes(Pending(rs, i + 1))
  }

  lemma ConcatFour(a: seq<string>, b: seq<string>, c: string, d: seq<string>)
    ensures Concat(a + b + [c] + d) == Concat(a) + (Concat(b) + (c + Concat(d)))
  {
    ConcatAppend(a + b + [c], d);
    ConcatAppend(a + b, [c]);
    ConcatAppend(a, b);
  }

  lemma ConcatByteParts(before: string, start: string, glued: string, after: string)
    ensures Concat(Bytes(before) + Bytes(start) + [glued] + Bytes(after)) == before + (start + (glued + after))
  {
    hide Concat, Bytes;
    ConcatBytes(before);
    ConcatBytes(start);
    ConcatBytes(after);
    ConcatFour(Bytes(before), Bytes(start), glued, Bytes(after));
  }

  lemma StreamAround(rs: seq<Request>, i: nat)
    requires 1 <= i < |rs| && AllWellFormed(rs)
    ensures Stream(rs) == Stream(rs[..i - 1]) + (Message(rs[i - 1]) + (Message(rs[i]) + Pending(rs, i + 1)))
  {
    hide WellFormed, Message, Stream, Pending;
    PendingAll(rs);
    PendingFrom(rs, 0, i - 1);
    assert rs[0..i - 1] == rs[..i - 1];
    PendingUnfold(rs, i - 1);
    PendingUnfold(rs, i);
  }

  lemma MoveLastByte(m: string, start: string, n: string, after: string)
    requires m == start + "\n"
    ensures start + (("\n" + n) + after) == m + (n + after)
  {
  }

  lemma BreakingChunksAreTheStream(rs: seq<Request>, i: nat)
    requires 1 <= i < |rs| && AllWellFormed(rs)
    ensures Concat(BreakingChunks(rs, i)) == Stream(rs)
  {
    hide WellFormed, Message, Stream, Pending, Concat, Bytes;
    MessageShape(rs[i - 1]);
    var m, n := Message(rs[i - 1]), Message(rs[i]);
    var start, after := m[..|m| - 1], Pending(rs, i + 1);
    ConcatByteParts(Stream(rs[..i - 1]), start, "\n" + n, after);
    StreamAround(rs, i);
    MoveLastByte(m, start, n, after);
  }

  lemma BreakingChunksBreak(rs: seq<Request>, mac: string, i: nat)
    requires FromOneClient(rs, mac) && 1 <= i < |rs|
    ensures Serve(Fresh, BreakingChunks(rs, i)).status.Oversized?
  {
    hide Step, Message, AtLoopHead, Stream, Pending, Bytes;
    MessageShape(rs[i - 1]);
    var m := Message(rs[i - 1]);
    var a, b, glued := Bytes(Stream(rs[..i - 1])), Bytes(m[..|m| - 1]), "\n" + Message(rs[i]);
    var d := Bytes(Pending(rs, i + 1));
    ServeBefore(rs, mac, i - 1);
    var s1 := Serve(Fresh, a);
    OneByteShort(s1, rs, i - 1, mac);
    var s2 := Serve(s1, b);
    ServeOne(s2, rs, i - 1, mac, glued);
    GluedQueryIsRefused(s2, rs, i - 1, mac);
    ServeFour(Fresh, a, b, [glued], d);
    assert Serve(Step(s2, glued), d) == Step(s2, glued);
  }

  lemma ServeFour(s: Session, a: seq<string>, b: seq<string>, c: seq<string>, d: seq<string>)
    ensures Serve(s, a + b + c + d) == Serve(Serve(Serve(Serve(s, a), b), c), d)
  {
    hide Serve;
    ServeAppend(s, a + b + c, d);
    ServeAppend(s, a + b, c);
    ServeAppend(s, a, b);
  }

  /** Byte-wise delivery of the first k queries. */
  lemma ServeBefore(rs: seq<Request>, mac: string, k: nat)
    requires FromOneClient(rs, mac) && k < |rs|
    ensures var f := Serve(Fresh, Bytes(Stream(rs[..k])));
            AtLoopHead(f, rs, k, mac) && f.bufferData == ""
  {
    hide Step, Message, Stream, WellFormed, Serve;
    var before := rs[..k];
    PendingAll(before);
    ConcatBytes(Stream(before));
    assert "" + Stream(before) == Stream(before);
    FreshAtLoopHead(before, mac);
    forall i | 0 <= i < |before|
      ensures before[i].size >= 1
    {
      MessageShape(before[i]);
    }
    ServeWholeStream(Fresh, before, 0, mac, Bytes(Stream(before)));
    LoopHeadExtends(Serve(Fresh, Bytes(Stream(before))), before, k, mac, rs[k..]);
    assert before + rs[k..] == rs;
  }

  lemma BreakingChunksFit(rs: seq<Request>, i: nat)
    requires 1 <= i < |rs| && AllWellFormed(rs) && rs[i].size < RECV_SIZE
    ensures forall j :: 0 <= j < |BreakingChunks(rs, i)| ==> 0 < |BreakingChunks(rs, i)[j]| <= RECV_SIZE
  {
    hide Message, Stream, Pending;
    MessageShape(rs[i]);
  }

  /** With long enough queries, any chunking of the stream is served in full. */
  lemma ServedWhenLong(rs: seq<Request>, mac: string, chunks: seq<string>)
    requires FromOneClient(rs, mac) && Chunking(chunks, Stream(rs), RECV_SIZE)
    requires forall i :: 1 <= i < |rs| ==> rs[i].size >= RECV_SIZE
    ensures ServedInFull(Serve(Fresh, chunks), rs)
  {
    hide Message, Step;
    FreshAtLoopHead(rs, mac);
    assert "" + Concat(chunks) == Concat(chunks);
    assert rs[0..] == rs && rs[..|rs|] == rs;
    ServeWholeStream(Fresh, rs, 0, mac, chunks);
  }

  /** The exact condition: a client's queries are all answered under every chunking up to the `recv` size
      exactly when every query but the first is at least that long. */
  lemma ServedUnderEveryChunking(rs: seq<Request>, mac: string)
    requires FromOneClient(rs, mac)
    ensures (forall chunks: seq<string> | Chunking(chunks, Stream(rs), 512) :: ServedInFull(Serve(Fresh, chunks), rs))
            <==> (forall i :: 1 <= i < |rs| ==> rs[i].size >= 512)
  {
    hide Serve, Stream, Concat, Message, BreakingChunks;
    if forall i :: 1 <= i < |rs| ==> rs[i].size >= RECV_SIZE {
      forall chunks: seq<string> | Chunking(chunks, Stream(rs), RECV_SIZE)
        ensures ServedInFull(Serve(Fresh, chunks), rs)
      {
        ServedWhenLong(rs, mac, chunks);
      }
    } else {
      var i :| 1 <= i < |rs| && rs[i].size < RECV_SIZE;
      var chunks := BreakingChunks(rs, i);
      BreakingChunksAreTheStream(rs, i);
      BreakingChunksBreak(rs, mac, i);
      BreakingChunksFit(rs, i);
      assert Chunking(chunks, Stream(rs), RECV_SIZE);
      assert !ServedInFull(Serve(Fresh, chunks), rs);
    }
  }
}
