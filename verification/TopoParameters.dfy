/** The topology file: printing the YAML tree as legacy lines, and loading link characteristics from them. */
module TopoParameters {
  import opened Text
  import opened Parameters
  import O = StringOrder
  import BufferSize

  // ------------------------------------------------------------ numbers as text

  datatype Exponent = Exponent(negative: bool, digits: string)

  /** A finite YAML number as Python prints it: its text and its value. */
  datatype Num = Num(negative: bool, whole: nat, fraction: Option<string>, exponent: Option<Exponent>) {
    predicate Valid() {
      && (fraction.Some? ==> fraction.value != "" && AllDigits(fraction.value))
      && (exponent.Some? ==> exponent.value.digits != "" && AllDigits(exponent.value.digits))
    }

    function MantissaText(): string {
      if fraction.Some? then Dec(whole) + "." + fraction.value else Dec(whole)
    }

    function ExponentText(): string
      requires exponent.Some?
    {
      (if exponent.value.negative then "-" else "+") + exponent.value.digits
    }

    function Unsigned(): string {
      if exponent.Some? then MantissaText() + "e" + ExponentText() else MantissaText()
    }

    function Text(): string {
      if negative then "-" + Unsigned() else Unsigned()
    }

    function Magnitude(): real
      requires Valid()
    {
      var m := whole as real + if fraction.Some? then Decimals(fraction.value) else 0.0;
      if exponent.Some? then Scale(m, exponent.value.negative, FromDigits(exponent.value.digits)) else m
    }

    function Value(): real
      requires Valid()
    {
      if negative then -Magnitude() else Magnitude()
    }
  }

  function Decimals(digits: string): real
    requires AllDigits(digits)
  {
    FromDigits(digits) as real / Pow10(|digits|) as real
  }

  function Scale(m: real, negative: bool, k: nat): real {
    if negative then m / Pow10(k) as real else m * Pow10(k) as real
  }

  /** The digits of a part of a number, which may have single underscores between them. */
  function Digits(s: string): Option<string> {
    if IsIntBody(s) then Some(DropUnderscores(s)) else None
  }

  function Mantissa(s: string): Option<real> {
    var parts := Split(s, '.');
    var whole := Digits(parts[0]);
    if |parts| == 1 then
      match whole case None => None case Some(digits) => Some(FromDigits(digits) as real)
    else
      var fraction := Digits(parts[1]);
      if |parts| > 2 || (parts[0] == "" && parts[1] == "") || (parts[0] != "" && whole.None?) || (parts[1] != "" && fraction.None?) then
        None
      else
        Some((if whole.Some? then FromDigits(whole.value) as real else 0.0)
             + if fraction.Some? then Decimals(fraction.value) else 0.0)
  }

  function Signed(s: string): bool {
    s != "" && (s[0] == '-' || s[0] == '+')
  }

  /** A number without its sign: a mantissa, and after an `e` of either case a power of ten. */
  function UnsignedFloat(s: string): Option<real> {
    var parts := Split(s, if Free(s, 'E') then 'e' else 'E');
    if |parts| == 1 then Mantissa(parts[0])
    else if |parts| == 2 then
      var digits := if Signed(parts[1]) then parts[1][1..] else parts[1];
      match Mantissa(parts[0])
      case None => None
      case Some(m) =>
        match Digits(digits)
        case None => None
        case Some(power) => Some(Scale(m, parts[1][0] == '-', FromDigits(power)))
    else None
  }

  /** Python's `float` on finite decimal numbers; `None` stands for ValueError. */
  function PyFloat(s: string): Option<real> {
    var t := Strip(s);
    if !Signed(t) then UnsignedFloat(t)
    else match UnsignedFloat(t[1..])
      case None => None
      case Some(x) => Some(if t[0] == '-' then -x else x)
  }

  /** A number's value: with f fraction digits the mantissa is the digits without the point over 10^f, and the exponent
      scales it by a power of ten either way. */
  lemma NumValue(x: Num)
    requires x.Valid()
    ensures x.Value() == if x.negative then -x.Magnitude() else x.Magnitude()
    ensures var digits := if x.fraction.Some? then x.fraction.value else "";
            var whole := (x.whole * Pow10(|digits|) + FromDigits(digits)) as real;
            if x.exponent.None? then x.Magnitude() * Pow10(|digits|) as real == whole
            else
              var power := Pow10(FromDigits(x.exponent.value.digits)) as real;
              if x.exponent.value.negative then x.Magnitude() * power * Pow10(|digits|) as real == whole
              else x.Magnitude() * Pow10(|digits|) as real == whole * power
  {
    hide Pow10, FromDigits, Decimals, Scale;
    var digits := if x.fraction.Some? then x.fraction.value else "";
    var m := x.whole as real + Decimals(digits);
    NoDigits();
    MantissaTimes(x.whole, digits);
    assert m == x.whole as real + if x.fraction.Some? then Decimals(x.fraction.value) else 0.0;
    if x.exponent.Some? {
      ScaleTimes(m, FromDigits(x.exponent.value.digits), Pow10(|digits|) as real);
    }
  }

  lemma NoDigits()
    ensures FromDigits("") == 0 && Pow10(0) == 1 && Decimals("") == 0.0
  {
  }

  lemma QuotientTimes(a: real, b: real)
    requires b > 0.0
    ensures a / b * b == a
  {
  }

  lemma SumTimes(a: real, b: real, c: real)
    ensures (a + b) * c == a * c + b * c
  {
  }

  lemma RealProduct(a: nat, b: nat)
    ensures (a * b) as real == a as real * b as real
  {
  }

  lemma MantissaTimes(whole: nat, digits: string)
    requires AllDigits(digits)
    ensures (whole as real + Decimals(digits)) * Pow10(|digits|) as real == (whole * Pow10(|digits|) + FromDigits(digits)) as real
  {
    hide Pow10, FromDigits;
    var p, f := Pow10(|digits|), FromDigits(digits);
    QuotientTimes(f as real, p as real);
    SumTimes(whole as real, Decimals(digits), p as real);
    RealProduct(whole, p);
    assert (whole * p + f) as real == (whole * p) as real + f as real;
  }

  lemma ScaleTimes(m: real, k: nat, p: real)
    ensures Scale(m, true, k) * Pow10(k) as real * p == m * p
    ensures Scale(m, false, k) * p == m * p * Pow10(k) as real
  {
    hide Pow10;
    QuotientTimes(m, Pow10(k) as real);
    Commute(m, Pow10(k) as real, p);
  }

  lemma Commute(a: real, b: real, c: real)
    ensures a * b * c == a * c * b
  {
  }

  /** What a number's text consists of. */
  predicate NumChar(c: char) {
    IsDigit(c) || c == '.' || c == 'e' || c == '-' || c == '+'
  }

  lemma TextShape(x: Num)
    requires x.Valid()
    ensures var t := x.Text();
            && t != "" && IsDigit(t[|t| - 1]) && (IsDigit(t[0]) || t[0] == '-')
            && forall i :: 0 <= i < |t| ==> NumChar(t[i])
  {
  }

  lemma PlainDigits(s: string)
    requires s != "" && AllDigits(s)
    ensures Digits(s) == Some(s)
  {
  }

  lemma DigitsAreFree(s: string, c: char)
    requires AllDigits(s) && !IsDigit(c)
    ensures Free(s, c)
  {
  }

  lemma MantissaRoundTrip(x: Num)
    requires x.Valid()
    ensures Mantissa(x.MantissaText())
            == Some(x.whole as real + if x.fraction.Some? then Decimals(x.fraction.value) else 0.0)
  {
    hide Split, Free, Decimals, Digits;
    FromDec(x.whole);
    PlainDigits(Dec(x.whole));
    DigitsAreFree(Dec(x.whole), '.');
    if x.fraction.Some? {
      DigitsAreFree(x.fraction.value, '.');
      PlainDigits(x.fraction.value);
      SplitFirst(Dec(x.whole), x.fraction.value, '.');
      SplitWhole(x.fraction.value, '.');
    } else {
      SplitWhole(Dec(x.whole), '.');
    }
  }

  lemma MantissaShape(x: Num)
    requires x.Valid()
    ensures Free(x.MantissaText(), 'e') && Free(x.MantissaText(), 'E') && IsDigit(x.MantissaText()[0])
  {
  }

  lemma ExponentShape(x: Num)
    requires x.Valid() && x.exponent.Some?
    ensures var e := x.ExponentText();
            && Free(e, 'e') && Free(e, 'E') && Signed(e) && e[1..] == x.exponent.value.digits
            && (e[0] == '-' <==> x.exponent.value.negative)
  {
  }

  lemma FreeJoined(a: string, b: string, c: char)
    requires Free(a, c) && Free(b, c)
    ensures Free(a + b, c)
  {
  }

  lemma UnsignedRoundTrip(x: Num)
    requires x.Valid()
    ensures UnsignedFloat(x.Unsigned()) == Some(x.Magnitude())
  {
    hide Mantissa, Split, Free, Scale, Decimals, Digits, Num.MantissaText, Num.ExponentText;
    MantissaRoundTrip(x);
    MantissaShape(x);
    if x.exponent.Some? {
      var e := x.ExponentText();
      ExponentShape(x);
      PlainDigits(x.exponent.value.digits);
      OneIsFree();
      FreeJoined(x.MantissaText(), "e", 'E');
      FreeJoined(x.MantissaText() + "e", e, 'E');
      SplitFirst(x.MantissaText(), e, 'e');
      SplitWhole(e, 'e');
    } else {
      SplitWhole(x.MantissaText(), 'e');
    }
  }

  lemma OneIsFree()
    ensures Free("e", 'E')
  {
  }

  /** Any finite number printed is read back. */
  lemma FloatRoundTrip(x: Num)
    requires x.Valid()
    ensures PyFloat(x.Text()) == Some(x.Value())
  {
    hide UnsignedFloat;
    TextShape(x);
    StripTrim(x.Text());
    UnsignedRoundTrip(x);
    MantissaShape(x);
    assert IsDigit(x.Unsigned()[0]);
    if x.negative {
      assert x.Text()[1..] == x.Unsigned();
    }
  }

  // ------------------------------------------------------------ the YAML tree and its lines

  /** A path names its link by type and id, by one legacy name, or not at all. */
  datatype PathName = Typed(linkType: string, id: nat) | Named(name: string) | Unnamed

  datatype Path = Path(name: PathName, delay: Num, queue: Option<nat>, bandwidth: Num)

  datatype Topology = Topology(left: string, right: string, topoType: string, paths: seq<Path>)

  const DEFAULT_QUEUE: nat := 100

  function KeyOf(p: Path, idx: nat): string {
    match p.name
    case Typed(linkType, id) => "path_" + linkType + "_" + Dec(id)
    case Named(name) => "path_" + name
    case Unnamed => "path_" + ("c2r_" + Dec(idx))
  }

  function QueueOf(p: Path): nat {
    match p.queue case Some(q) => q case None => DEFAULT_QUEUE
  }

  function TripletOf(p: Path): string {
    p.delay.Text() + "," + Dec(QueueOf(p)) + "," + p.bandwidth.Text()
  }

  /** The lines as key and value, in the order printed. */
  function Entries(t: Topology): (es: seq<(string, string)>)
    ensures |es| == |t.paths| + 3
    ensures es[0] == ("leftSubnet", t.left) && es[1] == ("rightSubnet", t.right) && es[|t.paths| + 2] == ("topoType", t.topoType)
    ensures forall j :: 2 <= j < |t.paths| + 2 ==> es[j] == (KeyOf(t.paths[j - 2], j - 2), TripletOf(t.paths[j - 2]))
  {
    [("leftSubnet", t.left), ("rightSubnet", t.right)]
    + seq(|t.paths|, i requires 0 <= i < |t.paths| => (KeyOf(t.paths[i], i), TripletOf(t.paths[i])))
    + [("topoType", t.topoType)]
  }

  function LineOf(e: (string, string)): string {
    e.0 + ":" + e.1
  }

  function LegacyLines(t: Topology): (lines: seq<string>)
    ensures |lines| == |Entries(t)| && forall i :: 0 <= i < |lines| ==> lines[i] == LineOf(Entries(t)[i])
  {
    var es := Entries(t);
    seq(|es|, i requires 0 <= i < |es| => LineOf(es[i]))
  }

  method PrintPath(p: Path, idx: nat) returns (line: string)
    ensures line == LineOf((KeyOf(p, idx), TripletOf(p)))
  {
    var queue := if p.queue.Some? then p.queue.value else DEFAULT_QUEUE;
    var triplet := p.delay.Text() + "," + Dec(queue) + "," + p.bandwidth.Text();
    var key :=
      match p.name
      case Typed(linkType, id) => "path_" + linkType + "_" + Dec(id)
      case Named(name) => "path_" + name
      case Unnamed => "path_" + ("c2r_" + Dec(idx));
    line := key + ":" + triplet;
  }

  /** The printing loop of the runner. */
  method YamlTopoToLegacy(t: Topology) returns (text: string)
    ensures text == JoinLines(LegacyLines(t))
  {
    hide KeyOf, TripletOf, LineOf, JoinLines;
    var lines := [LineOf(("leftSubnet", t.left)), LineOf(("rightSubnet", t.right))];
    ghost var es := Entries(t);
    for idx := 0 to |t.paths|
      invariant |lines| == idx + 2 && forall i :: 0 <= i < |lines| ==> lines[i] == LineOf(es[i])
    {
      var line := PrintPath(t.paths[idx], idx);
      assert es[idx + 2] == (KeyOf(t.paths[idx], idx), TripletOf(t.paths[idx]));
      lines := lines + [line];
    }
    lines := lines + [LineOf(("topoType", t.topoType))];
    assert lines == LegacyLines(t);
    text := JoinLines(lines);
  }

  // ------------------------------------------------------------ loading the links

  datatype LinkCharacteristics = LinkCharacteristics(id: int, linkType: string, delay: real, queueSize: int,
                                                     bandwidth: real, loss: real, backup: int)

  /** Key of the form `path_{type}_{id}`; `None` stands for ValueError. */
  function ParseKey(key: string): Option<(string, int)> {
    var parts := Split(key, '_');
    if |parts| != 3 then None
    else match PyInt(parts[2]) case None => None case Some(id) => Some((parts[1], id))
  }

  datatype Numbers = Numbers(delay: real, bandwidth: real, queueSize: int, loss: real, backup: int)

  /** Two to five comma-separated numbers; `None` stands for ValueError. */
  function ParseCharacteristics(value: string): Option<Numbers> {
    var c := Split(value, ',');
    if |c| < 2 || |c| > 5 then None
    else
      var delay := PyFloat(c[0]);
      var bandwidth := PyFloat(if |c| == 2 then c[1] else c[2]);
      if delay.None? || bandwidth.None? then None
      else if |c| == 2 then
        Some(Numbers(delay.value, bandwidth.value, BufferSize.PacketsInFlight(delay.value, bandwidth.value), 0.0, 0))
      else
        var queue := PyInt(c[1]);
        var loss := if |c| >= 4 then PyFloat(c[3]) else Some(0.0);
        var backup := if |c| == 5 then PyInt(c[4]) else Some(0);
        if queue.None? || loss.None? || backup.None? then None
        else Some(Numbers(delay.value, bandwidth.value, queue.value, loss.value, backup.value))
  }

  /** A key is passed over or ignored with an error message, gives a link, or stops the program: a list value has
      no `split`, and a bandwidth of zero divides by zero. */
  datatype Outcome = Skipped | Loaded(link: LinkCharacteristics) | Crashed

  function LoadKey(key: string, value: Value): Outcome {
    if !("path" <= key) then Skipped
    else match ParseKey(key)
      case None => Skipped
      case Some((linkType, id)) =>
        match value
        case Many(_) => Crashed
        case Single(text) =>
          match ParseCharacteristics(text)
          case None => Skipped
          case Some(n) =>
            if n.bandwidth == 0.0 then Crashed
            else Loaded(LinkCharacteristics(id, linkType, n.delay, n.queueSize, n.bandwidth, n.loss, n.backup))
  }

  /** The links of the given keys in that order; `None` when one of them stops the program. */
  function LoadKeys(values: map<string, Value>, keys: seq<string>): Option<seq<LinkCharacteristics>>
    requires forall i :: 0 <= i < |keys| ==> keys[i] in values
  {
    if keys == [] then Some([])
    else
      match LoadKeys(values, keys[..|keys| - 1])
      case None => None
      case Some(links) =>
        match LoadKey(keys[|keys| - 1], values[keys[|keys| - 1]])
        case Skipped => Some(links)
        case Loaded(link) => Some(links + [link])
        case Crashed => None
  }

  /** The links in the order of the sorted keys. */
  function LoadLinks(d: Dictionary): Option<seq<LinkCharacteristics>>
    requires ListedOnce(d)
  {
    O.SortSorts(d.keys);
    LoadKeys(d.values, O.Sort(d.keys))
  }

  class TopoParameter {
    const d: Dictionary
    var linkCharacteristics: seq<LinkCharacteristics>

    constructor (d: Dictionary)
      ensures this.d == d && linkCharacteristics == []
    {
      this.d, linkCharacteristics := d, [];
    }

    /** False when the constructor of the original would raise. */
    method LoadLinkCharacteristics() returns (ok: bool)
      requires ListedOnce(d) && linkCharacteristics == []
      modifies this
      ensures ok == LoadLinks(d).Some?
      ensures ok ==> linkCharacteristics == LoadLinks(d).value
    {
      hide LoadKeys;
      O.SortSorts(d.keys);
      ok := LoadSorted(O.Sort(d.keys));
    }

    method LoadSorted(keys: seq<string>) returns (ok: bool)
      requires linkCharacteristics == [] && forall i :: 0 <= i < |keys| ==> keys[i] in d.values
      modifies this
      ensures ok == LoadKeys(d.values, keys).Some?
      ensures ok ==> linkCharacteristics == LoadKeys(d.values, keys).value
    {
      hide LoadKey;
      for i := 0 to |keys|
        invariant LoadKeys(d.values, keys[..i]) == Some(linkCharacteristics)
      {
        assert keys[..i + 1][..i] == keys[..i];
        var outcome := LoadKey(keys[i], d.values[keys[i]]);
        if outcome.Crashed? {
          CrashIsFinal(d.values, keys, i + 1);
          return false;
        }
        if outcome.Loaded? {
          linkCharacteristics := linkCharacteristics + [outcome.link];
        }
      }
      assert keys[..|keys|] == keys;
      ok := true;
    }
  }

  lemma {:induction false} CrashIsFinal(values: map<string, Value>, keys: seq<string>, i: nat)
    requires forall j :: 0 <= j < |keys| ==> keys[j] in values
    requires i <= |keys| && LoadKeys(values, keys[..i]).None?
    ensures LoadKeys(values, keys).None?
    decreases |keys|
  {
    if i == |keys| {
      assert keys[..i] == keys;
    } else {
      var front := keys[..|keys| - 1];
      assert front[..i] == keys[..i];
      hide LoadKey;
      CrashIsFinal(values, front, i);
    }
  }
}
