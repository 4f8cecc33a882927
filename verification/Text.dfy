/** Strings as the repository uses them: decimal rendering, `split`, `strip`, `int`. */
module Text {

  datatype Option<+T> = None | Some(value: T)

  // ---------------------------------------------------------------- decimals

  predicate IsDigit(c: char) {
    '0' <= c <= '9'
  }

  predicate AllDigits(s: string) {
    forall i :: 0 <= i < |s| ==> IsDigit(s[i])
  }

  function DigitChar(d: nat): (c: char)
    requires d < 10
    ensures IsDigit(c) && DigitValue(c) == d
  {
    '0' + d as char
  }

  function DigitValue(c: char): (d: nat)
    requires IsDigit(c)
    ensures d < 10
  {
    (c as int - '0' as int) as nat
  }

  /** `str(n)` of a natural number. */
  function Dec(n: nat): (s: string)
    ensures 0 < |s| && AllDigits(s)
    ensures n > 0 ==> s[0] != '0'
  {
    if n < 10 then [DigitChar(n)] else Dec(n / 10) + [DigitChar(n % 10)]
  }

  function FromDigits(s: string): nat
    requires AllDigits(s)
  {
    if s == "" then 0 else 10 * FromDigits(s[..|s| - 1]) + DigitValue(s[|s| - 1])
  }

  lemma {:induction false} FromDec(n: nat)
    ensures FromDigits(Dec(n)) == n
  {
    if n >= 10 {
      FromDec(n / 10);
      assert Dec(n)[..|Dec(n)| - 1] == Dec(n / 10);
    } else {
      assert Dec(n)[..0] == "";
    }
  }

  lemma DecInjective(a: nat, b: nat)
    requires Dec(a) == Dec(b)
    ensures a == b
  {
    FromDec(a);
    FromDec(b);
  }

  function Pow10(k: nat): (p: nat)
    ensures p > 0
  {
    if k == 0 then 1 else 10 * Pow10(k - 1)
  }

  /** A number below 10^k has at most k digits. */
  lemma {:induction false} DecLength(n: nat, k: nat)
    requires 0 < k && n < Pow10(k)
    ensures |Dec(n)| <= k
  {
    if n >= 10 {
      assert k > 1;
      DecLength(n / 10, k - 1);
    }
  }

  // ------------------------------------------------------ sequences of strings

  function Concat(parts: seq<string>): (s: string)
    ensures |parts| == 1 ==> s == parts[0]
  {
    if parts == [] then "" else parts[0] + Concat(parts[1..])
  }

  lemma {:induction false} ConcatAppend(a: seq<string>, b: seq<string>)
    ensures Concat(a + b) == Concat(a) + Concat(b)
  {
    if a == [] {
      assert a + b == b;
    } else {
      ConcatAppend(a[1..], b);
      assert (a + b)[1..] == a[1..] + b;
    }
  }

  function Repeat(c: char, n: int): (s: string)
    ensures |s| == if n > 0 then n else 0
    ensures forall i :: 0 <= i < |s| ==> s[i] == c
  {
    if n <= 0 then "" else seq(n, _ => c)
  }

  // ---------------------------------------------------------------- splitting

  /** `s.split(sep)` for a one-character separator. */
  function Split(s: string, sep: char): (parts: seq<string>)
    ensures |parts| >= 1
  {
    if s == "" then [""]
    else
      var rest := Split(s[1..], sep);
      if s[0] == sep then [""] + rest else [[s[0]] + rest[0]] + rest[1..]
  }

  predicate Free(s: string, c: char) {
    forall i :: 0 <= i < |s| ==> s[i] != c
  }

  lemma {:induction false} SplitWhole(s: string, sep: char)
    requires Free(s, sep)
    ensures Split(s, sep) == [s]
  {
    if s != "" {
      SplitWhole(s[1..], sep);
      assert [s[0]] + s[1..] == s;
    }
  }

  lemma {:induction false} SplitOne(s: string, sep: char)
    ensures |Split(s, sep)| == 1 ==> Split(s, sep) == [s] && Free(s, sep)
  {
    if s != "" && s[0] != sep {
      SplitOne(s[1..], sep);
      assert s == [s[0]] + s[1..];
    }
  }

  /** Splitting into two parts means that there is one separator, between them. */
  lemma {:induction false} SplitTwo(s: string, sep: char)
    ensures |Split(s, sep)| == 2 ==>
              s == Split(s, sep)[0] + [sep] + Split(s, sep)[1] && Free(Split(s, sep)[0], sep) && Free(Split(s, sep)[1], sep)
  {
    if s != "" && |Split(s, sep)| == 2 {
      var rest := Split(s[1..], sep);
      if s[0] == sep {
        SplitOne(s[1..], sep);
        assert Split(s, sep) == ["", s[1..]];
        assert s == "" + [sep] + s[1..];
      } else {
        SplitTwo(s[1..], sep);
        TwoAgain(s, sep, rest[0], rest[1]);
      }
    }
  }

  lemma TwoAgain(s: string, sep: char, a: string, b: string)
    requires s != "" && s[0] != sep && s[1..] == a + [sep] + b && Free(a, sep)
    ensures s == [s[0]] + a + [sep] + b && Free([s[0]] + a, sep)
  {
    assert s == [s[0]] + s[1..];
    assert [s[0]] + (a + [sep] + b) == [s[0]] + a + [sep] + b;
  }

  lemma {:induction false} SplitFirst(a: string, b: string, sep: char)
    requires Free(a, sep)
    ensures Split(a + [sep] + b, sep) == [a] + Split(b, sep)
  {
    var s := a + [sep] + b;
    if a == "" {
      assert s[1..] == b;
    } else {
      SplitFirst(a[1..], b, sep);
      assert s[1..] == a[1..] + [sep] + b;
      assert [a[0]] + a[1..] == a;
    }
  }

  // ------------------------------------------------------------ strip and int

  /** The ASCII characters Python's `str.strip` removes. */
  predicate IsSpace(c: char) {
    c == ' ' || '\t' <= c <= '\r' || '\U{1C}' <= c <= '\U{1F}'
  }

  function StripLeft(s: string): string {
    if s != "" && IsSpace(s[0]) then StripLeft(s[1..]) else s
  }

  function StripRight(s: string): string {
    if s != "" && IsSpace(s[|s| - 1]) then StripRight(s[..|s| - 1]) else s
  }

  function Strip(s: string): string {
    StripRight(StripLeft(s))
  }

  /** Neither end is white space. */
  predicate Trim(s: string) {
    s == "" || (!IsSpace(s[0]) && !IsSpace(s[|s| - 1]))
  }

  lemma StripTrim(s: string)
    requires Trim(s)
    ensures Strip(s) == s
  {
  }

  predicate AllSpace(s: string) {
    forall i :: 0 <= i < |s| ==> IsSpace(s[i])
  }

  lemma {:induction false} StripLeftDrops(s: string) returns (a: string)
    ensures AllSpace(a) && s == a + StripLeft(s) && (StripLeft(s) == "" || !IsSpace(StripLeft(s)[0]))
  {
    if s != "" && IsSpace(s[0]) {
      a := StripLeftDrops(s[1..]);
      assert s == [s[0]] + s[1..];
      a := [s[0]] + a;
    } else {
      a := "";
    }
  }

  lemma {:induction false} StripRightDrops(s: string) returns (b: string)
    ensures AllSpace(b) && s == StripRight(s) + b && (StripRight(s) == "" || !IsSpace(StripRight(s)[|StripRight(s)| - 1]))
  {
    if s != "" && IsSpace(s[|s| - 1]) {
      b := StripRightDrops(s[..|s| - 1]);
      assert s == s[..|s| - 1] + [s[|s| - 1]];
      b := b + [s[|s| - 1]];
    } else {
      b := "";
    }
  }

  /** Stripping drops white space, from both ends, until none is left there. */
  lemma StripDrops(s: string) returns (a: string, b: string)
    ensures AllSpace(a) && AllSpace(b) && s == a + Strip(s) + b && Trim(Strip(s))
  {
    a := StripLeftDrops(s);
    b := StripRightDrops(StripLeft(s));
    assert s == a + (Strip(s) + b);
    if Strip(s) != "" {
      assert StripLeft(s)[0] == Strip(s)[0];
    }
  }

  lemma StripNewline(s: string)
    requires Trim(s)
    ensures Strip(s + "\n") == s
  {
    if s == "" {
      assert StripLeft("\n") == StripLeft("") by {
        assert "\n"[1..] == "";
      }
    } else {
      assert StripLeft(s + "\n") == s + "\n";
      assert (s + "\n")[..|s|] == s;
      assert StripRight(s + "\n") == StripRight(s);
    }
  }

  /** Digits with single underscores between them, as Python's `int` accepts. */
  predicate IsIntBody(s: string) {
    s != "" && IsDigit(s[0]) && IsDigit(s[|s| - 1])
    && (forall i :: 0 <= i < |s| ==> IsDigit(s[i]) || s[i] == '_')
    && (forall i :: 0 < i < |s| && s[i] == '_' ==> s[i - 1] != '_')
  }

  function DropUnderscores(s: string): (r: string)
    requires forall i :: 0 <= i < |s| ==> IsDigit(s[i]) || s[i] == '_'
    ensures AllDigits(r)
    ensures AllDigits(s) ==> r == s
  {
    if s == "" then ""
    else if s[0] == '_' then DropUnderscores(s[1..])
    else [s[0]] + DropUnderscores(s[1..])
  }

  /** Python's `int(s)`; `None` stands for its ValueError. */
  function PyInt(s: string): Option<int> {
    var t := Strip(s);
    var signed := t != "" && (t[0] == '-' || t[0] == '+');
    var body := if signed then t[1..] else t;
    if !IsIntBody(body) then None
    else
      var n: int := FromDigits(DropUnderscores(body));
      Some(if signed && t[0] == '-' then -n else n)
  }

  lemma PyIntDigits(s: string)
    requires s != "" && AllDigits(s)
    ensures PyInt(s) == Some(FromDigits(s))
  {
    StripTrim(s);
  }

  lemma IntBodyOfDigits(s: string)
    requires s != "" && AllDigits(s)
    ensures IsIntBody(s) && DropUnderscores(s) == s
  {
  }

  lemma SignedTrim(s: string)
    requires s != "" && AllDigits(s)
    ensures Strip("-" + s) == "-" + s && Strip("+" + s) == "+" + s
  {
    StripTrim("-" + s);
    StripTrim("+" + s);
  }

  lemma PyIntSigned(n: nat)
    ensures PyInt("-" + Dec(n)) == Some(0 - n) && PyInt("+" + Dec(n)) == Some(n)
  {
    hide Strip, IsIntBody, Dec, FromDigits;
    var s := Dec(n);
    FromDec(n);
    SignedTrim(s);
    IntBodyOfDigits(s);
    assert ("-" + s)[1..] == s && ("+" + s)[1..] == s;
  }

  lemma PyIntDec(n: nat)
    ensures PyInt(Dec(n)) == Some(n)
  {
    PyIntDigits(Dec(n));
    FromDec(n);
  }
}
