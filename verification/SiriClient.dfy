/** The Siri client's packetiser and its two message handlers, run one at a time. */
module SiriClient {
  import opened Text
  import opened SiriProtocol

  const MAX_ID: nat := 100

  /** The command-line parameters the protocol depends on. */
  datatype Params = Params(querySize: nat, responseSize: nat, delayQueryResponse: nat,
                           minPayload: nat, maxPayload: nat, bufferSize: int, mac: string)

  /** Java's 32-bit addition and multiplication keep the low 32 bits of the exact result. */
  function JavaInt(x: int): (r: int)
    ensures -2_147_483_648 <= r <= 2_147_483_647 && (r - x) % 4_294_967_296 == 0
    ensures IsJavaInt(r) && (IsJavaInt(x) ==> r == x)
  {
    (x + JAVA_INT_LIMIT) % (2 * JAVA_INT_LIMIT) - JAVA_INT_LIMIT
  }

  predicate IsJavaInt(x: int) {
    -(JAVA_INT_LIMIT as int) <= x < JAVA_INT_LIMIT
  }

  lemma WrapOnce(x: int, y: int)
    ensures JavaInt(JavaInt(x) + y) == JavaInt(x + y)
  {
  }

  /** The exceptions of `sizeOfNextPacket`: its own assertion, and `nextInt` of a bound that is not positive. */
  datatype Failure = AssertionFailed | BadBound
  datatype Result<+T> = Ok(value: T) | Err(failure: Failure)

  // ------------------------------------------------------------ packet sizes

  function DrawBound(p: Params, remain: int): int {
    if remain - p.maxPayload < p.minPayload then p.maxPayload - 2 * p.minPayload + 1
    else p.maxPayload - p.minPayload + 1
  }

  /** `draw` is the raw random number; `nextInt(bound)` is any value below the bound. */
  function SizeOfNextPacket(p: Params, remain: int, draw: nat): (r: Result<nat>)
    ensures r.Ok? ==> p.minPayload <= r.value
  {
    if remain < p.minPayload then Err(AssertionFailed)
    else if remain <= p.maxPayload then Ok(remain)
    else if DrawBound(p, remain) <= 0 then Err(BadBound)
    else Ok(p.minPayload + draw % DrawBound(p, remain))
  }

  /** Filling bytes, the last of them a newline when the query ends here. */
  function FillingPacket(size: nat, remain: int): (bytes: string)
    requires size > 0
    ensures |bytes| == size
  {
    if remain == size then Repeat('0', size - 1) + "\n" else Repeat('0', size)
  }

  function Prepend(packet: string, rest: Result<seq<string>>): Result<seq<string>> {
    match rest case Ok(packets) => Ok([packet] + packets) case Err(e) => Err(e)
  }

  /** The packets of the `while (remainToBeSent > 0)` loop, taking draws from the i-th on. */
  function FillingPackets(p: Params, remain: int, rnd: nat -> nat, i: nat): Result<seq<string>>
    requires p.minPayload >= 1
    decreases if remain > 0 then remain else 0
  {
    if remain <= 0 then Ok([])
    else match SizeOfNextPacket(p, remain, rnd(i))
      case Err(e) => Err(e)
      case Ok(size) => Prepend(FillingPacket(size, remain), FillingPackets(p, remain - size, rnd, i + 1))
  }

  function Max(a: nat, b: nat): nat {
    if a >= b then a else b
  }

  /** All packets of one query with the given header. */
  function Packets(p: Params, header: string, rnd: nat -> nat): Result<seq<string>>
    requires p.minPayload >= 1
  {
    match SizeOfNextPacket(p, p.querySize, rnd(0))
    case Err(e) => Err(e)
    case Ok(drawn) =>
      var size := Max(|header|, drawn);
      Prepend(header + Repeat('0', size - |header|), FillingPackets(p, p.querySize - size, rnd, 1))
  }

  // --------------------------------------------------- what the packets amount to

  /** A sound parameter set: the doubled minimum leaves room for the second case of the size choice. */
  predicate Sound(p: Params) {
    1 <= p.minPayload && 2 * p.minPayload <= p.maxPayload
  }

  /** No remainder is left over that the assertion would refuse. */
  predicate Splittable(p: Params, remain: int) {
    remain == 0 || remain >= p.minPayload
  }

  lemma NextRemainder(p: Params, remain: int, draw: nat)
    requires Sound(p) && remain >= p.minPayload
    ensures var r := SizeOfNextPacket(p, remain, draw);
            r.Ok? && p.minPayload <= r.value <= p.maxPayload && Splittable(p, remain - r.value)
  {
  }

  /** The loop never fails, and its packets lie within the bounds. */
  lemma {:induction false} FillingPacketsFit(p: Params, remain: int, rnd: nat -> nat, i: nat)
    requires Sound(p) && Splittable(p, remain)
    ensures var r := FillingPackets(p, remain, rnd, i);
            r.Ok? && forall j :: 0 <= j < |r.value| ==> p.minPayload <= |r.value[j]| <= p.maxPayload
    decreases remain
  {
    if remain > 0 {
      hide Repeat, DrawBound, FillingPacket;
      NextRemainder(p, remain, rnd(i));
      var size := SizeOfNextPacket(p, remain, rnd(i)).value;
      FillingPacketsFit(p, remain - size, rnd, i + 1);
      assert FillingPackets(p, remain, rnd, i).value
             == [FillingPacket(size, remain)] + FillingPackets(p, remain - size, rnd, i + 1).value;
    }
  }

  /** Every turn of the loop sends at least the minimum, so it ends within remain / minPayload turns. */
  lemma {:induction false} FillingPacketsEnd(p: Params, remain: int, rnd: nat -> nat, i: nat)
    requires Sound(p) && Splittable(p, remain)
    ensures var r := FillingPackets(p, remain, rnd, i); r.Ok? ==> |r.value| * p.minPayload <= remain
    decreases remain
  {
    if remain > 0 {
      hide Repeat, DrawBound;
      NextRemainder(p, remain, rnd(i));
      var size := SizeOfNextPacket(p, remain, rnd(i)).value;
      FillingPacketsEnd(p, remain - size, rnd, i + 1);
      var rest := FillingPackets(p, remain - size, rnd, i + 1);
      if rest.Ok? {
        OneMore(|rest.value|, p.minPayload);
      }
    }
  }

  lemma OneMore(n: nat, k: nat)
    ensures (n + 1) * k == n * k + k
  {
  }

  /** No packet is longer than what remains. */
  lemma NextFits(p: Params, remain: int, draw: nat)
    ensures var r := SizeOfNextPacket(p, remain, draw); r.Ok? ==> r.value <= remain
  {
  }

  /** Whenever the loop does not fail it spells the filling and the closing newline. */
  lemma {:induction false} FillingPacketsSpell(p: Params, remain: int, rnd: nat -> nat, i: nat)
    requires p.minPayload >= 1 && remain >= 0
    ensures var r := FillingPackets(p, remain, rnd, i);
            r.Ok? ==> Concat(r.value) == Filling(remain)
    decreases remain
  {
    if remain > 0 {
      hide DrawBound, Filling, FillingPacket;
      var next := SizeOfNextPacket(p, remain, rnd(i));
      if next.Ok? {
        NextFits(p, remain, rnd(i));
        FillingPacketsSpell(p, remain - next.value, rnd, i + 1);
        FillingSplit(remain, next.value);
      }
    } else {
      assert Filling(0) == "";
    }
  }

  /** What is left of a query behind its header. */
  function Filling(remain: int): string {
    if remain <= 0 then "" else Repeat('0', remain - 1) + "\n"
  }

  lemma NothingToFill()
    ensures Filling(0) == ""
  {
  }

  lemma FillingSplit(remain: int, size: nat)
    requires 0 < size <= remain
    ensures Filling(remain) == FillingPacket(size, remain) + Filling(remain - size)
  {
  }

  /** Header, filling and one newline, `size` bytes in all. */
  predicate IsQuery(bytes: string, header: string, size: nat) {
    |header| < size && bytes == header + Filling(size - |header|)
  }

  /** For any draws the packets spell exactly the query, within the promised sizes and number of packets. */
  lemma PacketsSpellQuery(p: Params, header: string, rnd: nat -> nat)
    requires Sound(p) && p.querySize > p.maxPayload
    requires |header| <= p.minPayload || |header| + p.minPayload <= p.querySize
    ensures var r := Packets(p, header, rnd);
            && r.Ok? && IsQuery(Concat(r.value), header, p.querySize)
            && (forall j :: 1 <= j < |r.value| ==> p.minPayload <= |r.value[j]| <= p.maxPayload)
            && |r.value| * p.minPayload <= p.querySize
  {
    hide DrawBound, Filling, FillingPackets, Concat;
    NextRemainder(p, p.querySize, rnd(0));
    var drawn := SizeOfNextPacket(p, p.querySize, rnd(0)).value;
    var size := Max(|header|, drawn);
    var remain := p.querySize - size;
    FillingPacketsFit(p, remain, rnd, 1);
    FillingPacketsEnd(p, remain, rnd, 1);
    FillingPacketsSpell(p, remain, rnd, 1);
    var rest := FillingPackets(p, remain, rnd, 1).value;
    var first := header + Repeat('0', size - |header|);
    assert Packets(p, header, rnd).value == [first] + rest;
    OneMore(|rest|, p.minPayload);
    ConcatFirst(first, rest);
    FirstPacketFills(header, size, p.querySize);
  }

  lemma ConcatNone()
    ensures Concat([]) == ""
  {
  }

  lemma ConcatFirst(first: string, rest: seq<string>)
    ensures Concat([first] + rest) == first + Concat(rest)
  {
    assert ([first] + rest)[1..] == rest;
  }

  lemma FirstPacketFills(header: string, size: nat, querySize: nat)
    requires |header| <= size < querySize
    ensures header + Repeat('0', size - |header|) + Filling(querySize - size) == header + Filling(querySize - |header|)
  {
  }

  /** The sizes that can be drawn are all those between the bounds, or up to MAX - MIN when more would leave less than
      MIN; a remainder up to MAX is taken whole. */
  lemma EverySizeIsDrawn(p: Params, remain: int, size: nat)
    requires Sound(p) && remain >= p.minPayload
    ensures (exists draw: nat :: SizeOfNextPacket(p, remain, draw) == Ok(size)) <==>
            if remain <= p.maxPayload then size == remain
            else if remain < p.maxPayload + p.minPayload then p.minPayload <= size <= p.maxPayload - p.minPayload
            else p.minPayload <= size <= p.maxPayload
  {
    if remain <= p.maxPayload {
      assert SizeOfNextPacket(p, remain, 0) == Ok(remain);
    } else if p.minPayload <= size < p.minPayload + DrawBound(p, remain) {
      SmallMod(size - p.minPayload, DrawBound(p, remain));
      assert SizeOfNextPacket(p, remain, size - p.minPayload) == Ok(size);
    }
  }

  // --------------------------------------------------- which parameters make every draw work

  /** The draws spell the query: no exception, and the newline is there. */
  predicate Spelled(p: Params, header: string, rnd: nat -> nat)
    requires p.minPayload >= 1
  {
    var r := Packets(p, header, rnd);
    r.Ok? && IsQuery(Concat(r.value), header, p.querySize)
  }

  /** They do exactly when the first size is drawn, leaves something, and the loop does not fail on it. */
  lemma SpelledWhen(p: Params, header: string, rnd: nat -> nat)
    requires p.minPayload >= 1 && Free(header, '\n')
    ensures var first := SizeOfNextPacket(p, p.querySize, rnd(0));
            Spelled(p, header, rnd) <==>
            first.Ok? && Max(|header|, first.value) < p.querySize
            && FillingPackets(p, p.querySize - Max(|header|, first.value), rnd, 1).Ok?
  {
    hide FillingPackets, Concat, DrawBound;
    var first := SizeOfNextPacket(p, p.querySize, rnd(0));
    if first.Ok? {
      var size := Max(|header|, first.value);
      var packet := header + Repeat('0', size - |header|);
      var rest := FillingPackets(p, p.querySize - size, rnd, 1);
      if size < p.querySize {
        FillingPacketsSpell(p, p.querySize - size, rnd, 1);
        if rest.Ok? {
          ConcatFirst(packet, rest.value);
          FirstPacketFills(header, size, p.querySize);
        }
      } else {
        FillingPacketsNone(p, p.querySize - size, rnd, 1);
        assert [packet] + [] == [packet];
        assert packet != "" ==> packet[|packet| - 1] != '\n';
      }
    }
  }

  lemma FillingPacketsNone(p: Params, remain: int, rnd: nat -> nat, i: nat)
    requires p.minPayload >= 1 && remain <= 0
    ensures FillingPackets(p, remain, rnd, i) == Ok([])
  {
  }

  /** The smallest and the greatest size the first packet can get. */
  function Least(p: Params, header: string): nat {
    Max(|header|, p.minPayload)
  }

  function Greatest(p: Params, header: string): nat {
    Max(|header|, p.maxPayload)
  }

  /** The condition on the parameters. With room for two minima in MAX, only the first packet can go wrong. With equal
      bounds every packet but a longer header has that one size, which must divide what the header leaves. In between,
      only remainders that one packet takes, and the one remainder MAX + MIN, cannot go wrong. */
  predicate EveryDrawFits(p: Params, header: string)
    requires p.minPayload >= 1
  {
    var m, q := p.minPayload, p.querySize;
    var least, greatest := Least(p, header), Greatest(p, header);
    if 2 * m <= p.maxPayload then q > p.maxPayload && (|header| <= m || |header| + m <= q)
    else if m == p.maxPayload then q > least && (q - least) % m == 0
    else if m < p.maxPayload then
      q - greatest >= m && (q - least <= p.maxPayload || (least == greatest && q - least == p.maxPayload + m))
    else false
  }

  lemma DrawsFitWithRoom(p: Params, header: string)
    requires Sound(p) && Free(header, '\n')
    ensures (forall rnd: nat -> nat :: Spelled(p, header, rnd)) <==> EveryDrawFits(p, header)
  {
    if EveryDrawFits(p, header) {
      forall rnd: nat -> nat
        ensures Spelled(p, header, rnd)
      {
        PacketsSpellQuery(p, header, rnd);
      }
    } else {
      var rnd := (_: nat) => 0;
      SpelledWhen(p, header, rnd);
      assert !Spelled(p, header, rnd);
    }
  }

  /** With one size only, the loop succeeds exactly on its multiples. */
  lemma {:induction false} OneSizeOnly(p: Params, remain: nat, rnd: nat -> nat, i: nat)
    requires 1 <= p.minPayload == p.maxPayload
    ensures FillingPackets(p, remain, rnd, i).Ok? <==> remain % p.minPayload == 0
    decreases remain
  {
    var m := p.minPayload;
    if remain >= 2 * m {
      assert rnd(i) % 1 == 0;
      OneSizeOnly(p, remain - m, rnd, i + 1);
      LessOne(remain, m);
    } else if remain >= m {
      LessOne(remain, m);
      FillingPacketsNone(p, 0, rnd, i + 1);
      SmallMod(remain - m, m);
    } else {
      SmallMod(remain, m);
    }
  }

  lemma LessOne(a: nat, m: nat)
    requires 0 < m <= a
    ensures (a - m) % m == a % m
  {
    var k, r := a / m, a % m;
    assert a == m * k + r;
    assert a - m == m * (k - 1) + r;
    UniqueMod(a - m, m, k - 1, r);
  }

  lemma UniqueMod(a: int, m: nat, k: int, r: nat)
    requires r < m && a == m * k + r
    ensures a % m == r
  {
    var d := a / m - k;
    assert m * d == r - a % m;
    AtLeastOnce(m, d);
    AtLeastOnce(m, -d);
  }

  lemma AtLeastOnce(m: nat, d: int)
    ensures d >= 1 ==> m * d >= m
    ensures m * -d == -(m * d)
  {
  }

  lemma SmallMod(a: nat, m: nat)
    requires a < m
    ensures a % m == a
  {
  }

  lemma DrawsFitOneSize(p: Params, header: string)
    requires 1 <= p.minPayload == p.maxPayload && Free(header, '\n')
    ensures (forall rnd: nat -> nat :: Spelled(p, header, rnd)) <==> EveryDrawFits(p, header)
  {
    forall rnd: nat -> nat
      ensures Spelled(p, header, rnd) <==> EveryDrawFits(p, header)
    {
      OneSizeFirst(p, header, rnd);
    }
    var rnd := (_: nat) => 0;
    assert Spelled(p, header, rnd) <==> EveryDrawFits(p, header);
  }

  lemma OneSizeFirst(p: Params, header: string, rnd: nat -> nat)
    requires 1 <= p.minPayload == p.maxPayload && Free(header, '\n')
    ensures Spelled(p, header, rnd) <==> EveryDrawFits(p, header)
  {
    hide Spelled, FillingPackets;
    SpelledWhen(p, header, rnd);
    var m, q, least := p.minPayload, p.querySize, Least(p, header);
    if q > least {
      OneSizeOnly(p, q - least, rnd, 1);
      if m < q < 2 * m {
        SmallMod(q - m, m);
      }
    }
    assert rnd(0) % 1 == 0;
  }

  /** A remainder no draw can spoil, when MAX has room for one minimum but not for two. */
  predicate SafeRemainder(p: Params, remain: int) {
    p.minPayload <= remain <= p.maxPayload || remain == p.maxPayload + p.minPayload
  }

  lemma SafeRemainderFits(p: Params, remain: int, rnd: nat -> nat, i: nat)
    requires 1 <= p.minPayload < p.maxPayload && SafeRemainder(p, remain)
    ensures FillingPackets(p, remain, rnd, i).Ok?
  {
    var next := SizeOfNextPacket(p, remain, rnd(i)).value;
    FillingPacketsNone(p, 0, rnd, i + 1);
    FillingPacketsNone(p, 0, rnd, i + 2);
    if remain > p.maxPayload {
      assert p.minPayload <= remain - next <= p.maxPayload;
    }
  }

  function With(rnd: nat -> nat, i: nat, draw: nat): nat -> nat {
    (j: nat) => if j == i then draw else rnd(j)
  }

  lemma {:induction false} SameDraws(p: Params, remain: int, rnd: nat -> nat, other: nat -> nat, i: nat)
    requires p.minPayload >= 1 && forall j: nat | j >= i :: rnd(j) == other(j)
    ensures FillingPackets(p, remain, rnd, i) == FillingPackets(p, remain, other, i)
    decreases if remain > 0 then remain else 0
  {
    if remain > 0 {
      var next := SizeOfNextPacket(p, remain, rnd(i));
      if next.Ok? {
        SameDraws(p, remain - next.value, rnd, other, i + 1);
      }
    }
  }

  /** Every other remainder is spoiled by some draws. */
  lemma {:induction false} SpoilRemainder(p: Params, remain: nat, i: nat) returns (rnd: nat -> nat)
    requires 1 <= p.minPayload < p.maxPayload < 2 * p.minPayload && remain > 0 && !SafeRemainder(p, remain)
    ensures FillingPackets(p, remain, rnd, i).Err?
    decreases remain
  {
    var m := p.minPayload;
    if remain < p.maxPayload + m {
      rnd := (_: nat) => 0;
    } else {
      var draw := if remain == p.maxPayload + 2 * m then 1 else 0;
      var bound := DrawBound(p, remain);
      SmallMod(draw, bound);
      var later := SpoilRemainder(p, remain - m - draw, i + 1);
      rnd := With(later, i, draw);
      SameDraws(p, remain - m - draw, rnd, later, i + 1);
    }
  }

  /** A first draw of the wanted size, followed by draws that spoil what it leaves. */
  lemma SpoilAfter(p: Params, header: string, drawn: nat) returns (rnd: nat -> nat)
    requires 1 <= p.minPayload < p.maxPayload < 2 * p.minPayload && Free(header, '\n')
    requires p.querySize >= p.maxPayload + p.minPayload && p.minPayload <= drawn <= p.maxPayload
    requires !SafeRemainder(p, p.querySize - Max(|header|, drawn))
    ensures !Spelled(p, header, rnd)
  {
    hide FillingPackets, Spelled;
    var remain := p.querySize - Max(|header|, drawn);
    var later := (_: nat) => 0;
    if remain > 0 {
      later := SpoilRemainder(p, remain, 1);
    }
    rnd := With(later, 0, drawn - p.minPayload);
    SmallMod(drawn - p.minPayload, DrawBound(p, p.querySize));
    SameDraws(p, remain, rnd, later, 1);
    SpelledWhen(p, header, rnd);
  }

  lemma DrawsFitTight(p: Params, header: string)
    requires 1 <= p.minPayload < p.maxPayload < 2 * p.minPayload && Free(header, '\n')
    ensures (forall rnd: nat -> nat :: Spelled(p, header, rnd)) <==> EveryDrawFits(p, header)
  {
    hide FillingPackets, Spelled;
    var m, q := p.minPayload, p.querySize;
    var least, greatest := Least(p, header), Greatest(p, header);
    if EveryDrawFits(p, header) {
      forall rnd: nat -> nat
        ensures Spelled(p, header, rnd)
      {
        SpelledWhen(p, header, rnd);
        var size := Max(|header|, SizeOfNextPacket(p, q, rnd(0)).value);
        SafeRemainderFits(p, q - size, rnd, 1);
      }
    } else if q < p.maxPayload + m {
      var rnd := (_: nat) => 0;
      SpelledWhen(p, header, rnd);
      assert !Spelled(p, header, rnd);
    } else if !SafeRemainder(p, q - greatest) {
      var rnd := SpoilAfter(p, header, p.maxPayload);
    } else {
      var rnd := SpoilAfter(p, header, m);
    }
  }

  lemma NoDrawFits(p: Params, header: string)
    requires p.maxPayload < p.minPayload && Free(header, '\n')
    ensures !(forall rnd: nat -> nat :: Spelled(p, header, rnd))
  {
    var rnd := (_: nat) => 0;
    SpelledWhen(p, header, rnd);
    assert !Spelled(p, header, rnd);
  }

  /** The exact condition under which every draw gives a well-formed query, for all sizes. */
  lemma EveryDrawIsSound(p: Params, header: string)
    requires p.minPayload >= 1 && Free(header, '\n')
    ensures (forall rnd: nat -> nat :: Spelled(p, header, rnd)) <==> EveryDrawFits(p, header)
  {
    if 2 * p.minPayload <= p.maxPayload {
      DrawsFitWithRoom(p, header);
    } else if p.minPayload == p.maxPayload {
      DrawsFitOneSize(p, header);
    } else if p.minPayload < p.maxPayload {
      DrawsFitTight(p, header);
    } else {
      NoDrawFits(p, header);
    }
  }

  // ------------------------------------------------------------ replies

  /** Java's `Integer.parseInt`; `None` stands for NumberFormatException. */
  function ParseInt(s: string): Option<int> {
    var signed := s != "" && (s[0] == '-' || s[0] == '+');
    var body := if signed then s[1..] else s;
    if body == "" || !AllDigits(body) then None
    else
      var n: int := FromDigits(body);
      var v := if signed && s[0] == '-' then -n else n;
      if -(JAVA_INT_LIMIT as int) <= v < JAVA_INT_LIMIT then Some(v) else None
  }

  /** Decimals with an optional sign are read within the range of Java's int, and nothing else is. */
  lemma ParseIntReads(n: nat)
    ensures ParseInt(Dec(n)) == ParseInt("+" + Dec(n)) == if n <= 2_147_483_647 then Some(n) else None
    ensures ParseInt("-" + Dec(n)) == if n <= 2_147_483_648 then Some(0 - n) else None
  {
    FromDec(n);
    var s := Dec(n);
    assert ("+" + s)[1..] == s && ("-" + s)[1..] == s;
  }

  lemma ParseIntRefuses(s: string)
    ensures ParseInt(s).Some? ==>
              && s != "" && (forall i :: 0 < i < |s| ==> IsDigit(s[i]))
              && (IsDigit(s[0]) || (|s| > 1 && (s[0] == '-' || s[0] == '+')))
  {
    if s != "" && (s[0] == '-' || s[0] == '+') {
      assert forall i :: 0 < i < |s| ==> s[i] == s[1..][i - 1];
    }
  }

  function ReplyId(line: string): Option<int> {
    ParseInt(Split(line, '&')[0])
  }

  /** The reader recovers the id of the query a reply answers. */
  lemma ReplyRoundTrip(r: Request)
    requires r.id < JAVA_INT_LIMIT
    ensures ReplyId(Reply(r)[..|Reply(r)| - 1]) == Some(r.id)
  {
    var name := Dec(r.id);
    var filling := Repeat('0', r.responseSize - |name| - 2);
    assert Reply(r)[..|Reply(r)| - 1] == name + "&" + filling;
    SplitFirst(name, filling, '&');
    FromDec(r.id);
  }

  // ------------------------------------------------------------ the client object

  function QueryOf(p: Params, id: nat, now: nat): Request {
    Request(id, p.querySize, p.responseSize, p.delayQueryResponse, now, p.mac, [])
  }

  /** The start of a query as its bytes, seven fields of which the fifth announces no delays. */
  lemma HeaderText(p: Params, id: nat, now: nat)
    ensures Header(QueryOf(p, id, now))
            == Dec(id) + "&" + Dec(p.querySize) + "&" + Dec(p.responseSize) + "&" + Dec(p.delayQueryResponse) + "&" + Dec(0)
               + "&" + Dec(now) + "&" + p.mac + "&"
  {
    hide Dec;
    var fs := Fields(QueryOf(p, id, now));
    assert fs == [Dec(id), Dec(p.querySize), Dec(p.responseSize), Dec(p.delayQueryResponse), Dec(0), Dec(now), p.mac];
    SevenFields(fs);
  }

  lemma SevenFields(fs: seq<string>)
    requires |fs| == 7
    ensures Terminated(fs) == fs[0] + "&" + fs[1] + "&" + fs[2] + "&" + fs[3] + "&" + fs[4] + "&" + fs[5] + "&" + fs[6] + "&"
  {
    hide Terminated;
    NoFields(fs);
    OneFieldMore(fs, 0);
    OneFieldMore(fs, 1);
    OneFieldMore(fs, 2);
    OneFieldMore(fs, 3);
    OneFieldMore(fs, 4);
    OneFieldMore(fs, 5);
    OneFieldMore(fs, 6);
    assert "" + fs[0] == fs[0];
  }

  lemma NoFields(fs: seq<string>)
    requires |fs| == 7
    ensures Terminated(fs[..0]) == "" && fs[..7] == fs
  {
  }

  lemma OneFieldMore(fs: seq<string>, i: nat)
    requires i < |fs|
    ensures Terminated(fs[..i + 1]) == Terminated(fs[..i]) + fs[i] + "&"
  {
    TerminatedSplitAt(fs[..i + 1], i);
    assert fs[..i + 1][..i] == fs[..i] && fs[..i + 1][i..] == [fs[i]];
    assert [fs[i]][1..] == [] && Terminated([fs[i]]) == fs[i] + "&" + "";
  }

  ghost function Joined(sent: seq<string>, rest: Result<seq<string>>): Result<seq<string>> {
    match rest case Ok(packets) => Ok(sent + packets) case Err(e) => Err(e)
  }

  lemma JoinedMore(sent: seq<string>, packet: string, rest: Result<seq<string>>)
    ensures Joined(sent, Prepend(packet, rest)) == Joined(sent + [packet], rest)
  {
    if rest.Ok? {
      assert sent + ([packet] + rest.value) == sent + [packet] + rest.value;
    }
  }

  lemma JoinedNone(rest: Result<seq<string>>)
    ensures Joined([], rest) == rest
  {
    if rest.Ok? {
      assert [] + rest.value == rest.value;
    }
  }

  /** One turn of the loop, seen from the whole. */
  lemma NextPacket(p: Params, sent: seq<string>, remain: int, rnd: nat -> nat, i: nat)
    requires p.minPayload >= 1 && remain > 0
    ensures var drawn, all := SizeOfNextPacket(p, remain, rnd(i)), Joined(sent, FillingPackets(p, remain, rnd, i));
            if drawn.Err? then all.Err?
            else
              var packet := FillingPacket(drawn.value, remain);
              && all == Joined(sent + [packet], FillingPackets(p, remain - drawn.value, rnd, i + 1))
              && |Concat(sent + [packet])| == |Concat(sent)| + drawn.value
  {
    hide DrawBound, FillingPacket, Joined;
    var drawn := SizeOfNextPacket(p, remain, rnd(i));
    if drawn.Ok? {
      var packet := FillingPacket(drawn.value, remain);
      ConcatAppend(sent, [packet]);
      JoinedMore(sent, packet, FillingPackets(p, remain - drawn.value, rnd, i + 1));
    } else {
      JoinedErr(sent, FillingPackets(p, remain, rnd, i));
    }
  }

  lemma JoinedErr(sent: seq<string>, rest: Result<seq<string>>)
    ensures Joined(sent, rest).Err? <==> rest.Err?
  {
  }

  lemma NoPacket(p: Params, sent: seq<string>, remain: int, rnd: nat -> nat, i: nat)
    requires p.minPayload >= 1 && remain <= 0
    ensures Joined(sent, FillingPackets(p, remain, rnd, i)) == Ok(sent)
  {
    assert sent + [] == sent;
  }

  class Client {
    const p: Params
    var messageId: nat
    var sentTime: array<int>
    var delayTime: seq<int>
    var counter: int
    var written: seq<string>

    ghost predicate Valid()
      reads this
    {
      p.minPayload >= 1 && sentTime.Length == MAX_ID && messageId < MAX_ID && IsJavaInt(counter)
    }

    constructor (p: Params)
      requires p.minPayload >= 1
      ensures Valid() && this.p == p && fresh(sentTime)
      ensures messageId == 0 && delayTime == [] && counter == 0 && written == []
      ensures sentTime.Length == 100 && forall i :: 0 <= i < 100 ==> sentTime[i] == 0
    {
      this.p := p;
      messageId, delayTime, counter, written := 0, [], 0, [];
      sentTime := new int[MAX_ID](_ => 0);
    }

    /** `sendMessage` on an open socket at time `now`; false when the size choice throws. */
    method SendMessage(now: nat, rnd: nat -> nat) returns (ok: bool)
      requires Valid()
      modifies this, sentTime
      ensures Valid() && sentTime == old(sentTime) && delayTime == old(delayTime)
      ensures messageId == (old(messageId) + 1) % 100
      ensures sentTime[..] == old(sentTime[..])[old(messageId) := now]
      ensures var start := Dec(old(messageId)) + "&" + Dec(p.querySize) + "&" + Dec(p.responseSize) + "&"
                           + Dec(p.delayQueryResponse) + "&" + Dec(0) + "&" + Dec(now) + "&" + p.mac + "&";
              var packets := Packets(p, start, rnd);
              && ok == packets.Ok?
              && IsJavaInt(counter)
              && (ok ==> written == old(written) + packets.value && counter == JavaInt(old(counter) + |Concat(packets.value)|))
    {
      hide FillingPackets, SizeOfNextPacket, Concat, Repeat, Dec;
      sentTime[messageId] := now;
      var delaysToSend := 0;
      var start := Dec(messageId) + "&" + Dec(p.querySize) + "&" + Dec(p.responseSize) + "&"
                   + Dec(p.delayQueryResponse) + "&" + Dec(delaysToSend) + "&" + Dec(now) + "&" + p.mac + "&";
      messageId := (messageId + 1) % MAX_ID;
      var drawn := SizeOfNextPacket(p, p.querySize, rnd(0));
      if drawn.Err? {
        return false;
      }
      var bytesToSend := Max(|start|, drawn.value);
      var toSend := start + Repeat('0', bytesToSend - |start|);
      written := written + [toSend];
      counter := JavaInt(counter + bytesToSend);
      ghost var rest := FillingPackets(p, p.querySize - bytesToSend, rnd, 1);
      ok := SendFilling(p.querySize - bytesToSend, rnd);
      if ok {
        ConcatFirst(toSend, rest.value);
        WrapOnce(old(counter) + bytesToSend, |Concat(rest.value)|);
        assert old(written) + [toSend] + rest.value == old(written) + ([toSend] + rest.value);
      }
    }

    /** The loop over what remains to be sent behind the first packet. */
    method SendFilling(remainToBeSent: int, rnd: nat -> nat) returns (ok: bool)
      requires Valid()
      modifies this`written, this`counter
      ensures var packets := FillingPackets(p, remainToBeSent, rnd, 1);
              && ok == packets.Ok?
              && IsJavaInt(counter)
              && (ok ==> written == old(written) + packets.value && counter == JavaInt(old(counter) + |Concat(packets.value)|))
    {
      hide JavaInt, FillingPacket, Concat, SizeOfNextPacket, FillingPackets, Joined;
      var remain := remainToBeSent;
      var i := 1;
      ghost var sent := [];
      ConcatNone();
      JoinedNone(FillingPackets(p, remain, rnd, i));
      while remain > 0
        invariant written == old(written) + sent && counter == JavaInt(old(counter) + |Concat(sent)|)
        invariant FillingPackets(p, remainToBeSent, rnd, 1) == Joined(sent, FillingPackets(p, remain, rnd, i))
      {
        var drawn := SizeOfNextPacket(p, remain, rnd(i));
        NextPacket(p, sent, remain, rnd, i);
        if drawn.Err? {
          return false;
        }
        var toSend := FillingPacket(drawn.value, remain);
        written := written + [toSend];
        counter := JavaInt(counter + drawn.value);
        WrapOnce(old(counter) + |Concat(sent)|, drawn.value);
        remain := remain - drawn.value;
        i := i + 1;
        sent := sent + [toSend];
      }
      NoPacket(p, sent, remain, rnd, i);
      ok := true;
    }

    /** One round of the reader; false when the line has no usable id. */
    method TakeReply(line: string, receivedTime: int) returns (ok: bool)
      requires Valid()
      modifies this
      ensures Valid() && sentTime == old(sentTime) && messageId == old(messageId) && written == old(written)
      ensures ok == (ReplyId(line).Some? && 0 <= ReplyId(line).value < 100)
      ensures ok ==> delayTime == old(delayTime) + [receivedTime - sentTime[ReplyId(line).value]]
                     && counter == JavaInt(old(counter) - p.querySize)
      ensures !ok ==> delayTime == old(delayTime) && counter == old(counter)
    {
      var id := ReplyId(line);
      if id.None? || id.value < 0 || id.value >= MAX_ID {
        return false;
      }
      delayTime := delayTime + [receivedTime - sentTime[id.value]];
      counter := JavaInt(counter - p.querySize);
      ok := true;
    }
  }
}
