/** The bytes of one Siri query and of its reply. */
module SiriProtocol {
  import opened Text

  const JAVA_INT_LIMIT: nat := 0x8000_0000

  /** What one call of the client's `sendMessage` puts into its header. */
  datatype Request = Request(id: nat, size: nat, responseSize: nat, wait: nat,
                             time: nat, mac: string, delays: seq<nat>)

  function DecAll(ns: seq<nat>): (parts: seq<string>)
    ensures |parts| == |ns|
    ensures forall i :: 0 <= i < |ns| ==> parts[i] == Dec(ns[i])
  {
    seq(|ns|, i requires 0 <= i < |ns| => Dec(ns[i]))
  }

  function Fields(r: Request): (fields: seq<string>)
    ensures |fields| == 7 + |r.delays|
  {
    [Dec(r.id), Dec(r.size), Dec(r.responseSize), Dec(r.wait), Dec(|r.delays|), Dec(r.time), r.mac] + DecAll(r.delays)
  }

  /** Every field followed by a separator. */
  function Terminated(fields: seq<string>): string {
    if fields == [] then "" else fields[0] + "&" + Terminated(fields[1..])
  }

  function Header(r: Request): string {
    Terminated(Fields(r))
  }

  predicate SmallNumbers(r: Request) {
    r.id < JAVA_INT_LIMIT && r.size < JAVA_INT_LIMIT && r.responseSize < JAVA_INT_LIMIT && r.wait < JAVA_INT_LIMIT
  }

  /** The sizes are Java ints, and the header leaves room for the final newline. */
  predicate WellFormed(r: Request) {
    && SmallNumbers(r)
    && Free(r.mac, '&') && Free(r.mac, '\n')
    && |Header(r)| < r.size
  }

  predicate AllWellFormed(rs: seq<Request>) {
    forall i :: 0 <= i < |rs| ==> WellFormed(rs[i])
  }

  /** The query: header, filling, newline. */
  function Message(r: Request): string
    requires WellFormed(r)
  {
    Header(r) + Repeat('0', r.size - |Header(r)| - 1) + "\n"
  }

  function Stream(rs: seq<Request>): string
    requires AllWellFormed(rs)
  {
    if rs == [] then "" else Message(rs[0]) + Stream(rs[1..])
  }

  /** The reply to message `id`: at least `responseSize` bytes, closed by a newline. */
  function ReplyText(id: int, responseSize: int): string {
    var name := if id >= 0 then Dec(id) else "-" + Dec(-id);
    name + "&" + Repeat('0', responseSize - |name| - 2) + "\n"
  }

  function Reply(r: Request): string {
    ReplyText(r.id, r.responseSize)
  }

  function Replies(rs: seq<Request>): (replies: seq<string>)
    ensures |replies| == |rs|
    ensures forall i :: 0 <= i < |rs| ==> replies[i] == Reply(rs[i])
  {
    seq(|rs|, i requires 0 <= i < |rs| => Reply(rs[i]))
  }

  // ------------------------------------------------------------ header shape

  lemma FieldsFree(r: Request, c: char)
    requires WellFormed(r) && (c == '&' || c == '\n')
    ensures forall i :: 0 <= i < |Fields(r)| ==> Free(Fields(r)[i], c)
  {
  }

  lemma {:induction false} TerminatedFree(fields: seq<string>, c: char)
    requires c != '&' && forall i :: 0 <= i < |fields| ==> Free(fields[i], c)
    ensures Free(Terminated(fields), c)
  {
    if fields != [] {
      TerminatedFree(fields[1..], c);
    }
  }

  lemma {:induction false} TerminatedSplitAt(fields: seq<string>, j: nat)
    requires j <= |fields|
    ensures Terminated(fields) == Terminated(fields[..j]) + Terminated(fields[j..])
  {
    if j > 0 {
      TerminatedSplitAt(fields[1..], j - 1);
      assert fields[..j][1..] == fields[1..][..j - 1];
      assert fields[1..][j - 1..] == fields[j..];
    } else {
      assert fields[0..] == fields;
    }
  }

  /** A complete header, whatever follows it, splits into its fields and the rest. */
  lemma {:induction false} SplitTerminated(fields: seq<string>, tail: string)
    requires forall i :: 0 <= i < |fields| ==> Free(fields[i], '&')
    ensures Split(Terminated(fields) + tail, '&') == fields + Split(tail, '&')
  {
    if fields == [] {
      assert Terminated(fields) + tail == tail;
    } else {
      SplitTerminated(fields[1..], tail);
      SplitFirst(fields[0], Terminated(fields[1..]) + tail, '&');
      assert Terminated(fields) + tail == fields[0] + "&" + (Terminated(fields[1..]) + tail);
    }
  }

  /** A proper prefix of the header splits into whole fields and the start of the next one. */
  lemma {:induction false} SplitPartial(fields: seq<string>, p: string) returns (j: nat, q: string)
    requires forall i :: 0 <= i < |fields| ==> Free(fields[i], '&')
    requires p < Terminated(fields)
    ensures j < |fields| && q <= fields[j]
    ensures Split(p, '&') == fields[..j] + [q]
    ensures |p| == |Terminated(fields[..j])| + |q|
  {
    var f := fields[0];
    if |p| <= |f| {
      j, q := 0, p;
      assert p == Terminated(fields)[..|p|] == f[..|p|];
      SplitWhole(p, '&');
    } else {
      var rest := p[|f| + 1..];
      assert p == f + "&" + rest by {
        assert p == Terminated(fields)[..|p|];
        assert (f + "&") == Terminated(fields)[..|f| + 1];
      }
      assert rest < Terminated(fields[1..]) by {
        assert Terminated(fields)[|f| + 1..] == Terminated(fields[1..]);
      }
      var i;
      i, q := SplitPartial(fields[1..], rest);
      j := i + 1;
      SplitFirst(f, rest, '&');
      assert fields[..j] == [f] + fields[1..][..i];
      assert fields[..j][1..] == fields[1..][..i];
    }
  }

  /** The four fields in front of the delay count, with separators, stay within 44 bytes. */
  lemma LeadingFieldsAreShort(r: Request)
    requires SmallNumbers(r)
    ensures |Terminated(Fields(r)[..4])| <= 44
  {
    assert Pow10(10) == 10_000_000_000 by {
      assert Pow10(5) == 100_000;
      assert Pow10(10) == 100_000 * Pow10(5);
    }
    DecLength(r.id, 10);
    DecLength(r.size, 10);
    DecLength(r.responseSize, 10);
    DecLength(r.wait, 10);
    var f := Fields(r)[..4];
    assert |Terminated(f)| == |f[0]| + 1 + |Terminated(f[1..])|;
    assert f[1..] == [Dec(r.size), Dec(r.responseSize), Dec(r.wait)];
    assert f[1..][1..] == [Dec(r.responseSize), Dec(r.wait)];
    assert f[1..][1..][1..] == [Dec(r.wait)];
    assert |Terminated([Dec(r.wait)])| == |Dec(r.wait)| + 1;
  }

  // ----------------------------------------------------------- message shape

  /** A query is exactly `size` bytes long and its only newline is its last byte. */
  lemma MessageShape(r: Request)
    requires WellFormed(r)
    ensures |Message(r)| == r.size && |Header(r)| < r.size
    ensures Header(r) <= Message(r)
    ensures forall i :: 0 <= i < r.size ==> (Message(r)[i] == '\n' <==> i == r.size - 1)
  {
    FieldsFree(r, '\n');
    TerminatedFree(Fields(r), '\n');
  }

  lemma LongerPrefix(h: string, p: string, m: string)
    requires h <= m && p <= m && |h| <= |p|
    ensures p == h + p[|h|..]
  {
  }

  /** Behind its header a query has no separator. */
  lemma FillingFree(r: Request, p: string)
    requires WellFormed(r) && p <= Message(r) && |Header(r)| <= |p|
    ensures Free(p[|Header(r)|..], '&')
  {
    var h := |Header(r)|;
    forall i | 0 <= i < |p| - h
      ensures p[h..][i] != '&'
    {
      assert p[h..][i] == Message(r)[h + i];
      assert Message(r)[h..] == Repeat('0', r.size - h - 1) + "\n";
      assert Message(r)[h..][i] == Message(r)[h + i];
    }
  }

  /** Every piece of a query that reaches past the header splits into the fields plus one part. */
  lemma SplitMessagePrefix(r: Request, p: string)
    requires WellFormed(r) && p <= Message(r) && |Header(r)| <= |p|
    ensures Split(p, '&') == Fields(r) + [p[|Header(r)|..]]
  {
    LongerPrefix(Header(r), p, Message(r));
    FillingFree(r, p);
    FieldsFree(r, '&');
    SplitTerminated(Fields(r), p[|Header(r)|..]);
    SplitWhole(p[|Header(r)|..], '&');
  }

  lemma {:induction false} StreamAppend(a: seq<Request>, b: seq<Request>)
    requires AllWellFormed(a + b)
    ensures AllWellFormed(a) && AllWellFormed(b)
    ensures Stream(a + b) == Stream(a) + Stream(b)
  {
    hide WellFormed, Message;
    assert forall i :: 0 <= i < |a| ==> a[i] == (a + b)[i];
    assert forall i :: 0 <= i < |b| ==> b[i] == (a + b)[|a| + i];
    if a == [] {
      assert a + b == b;
    } else {
      assert (a + b)[1..] == a[1..] + b;
      StreamAppend(a[1..], b);
    }
  }

  /** A reply is `responseSize` bytes long, or two more than the id's digits if that is more. */
  lemma ReplyShape(r: Request)
    ensures |Reply(r)| == if r.responseSize >= |Dec(r.id)| + 2 then r.responseSize else |Dec(r.id)| + 2
    ensures forall i :: 0 <= i < |Reply(r)| ==> (Reply(r)[i] == '\n' <==> i == |Reply(r)| - 1)
  {
  }
}
