/** The picture of the multi-interface topology: how many links it draws on each side. */
module Diagram {
  import opened Text

  /** What one turn of the drawing loop adds. */
  datatype Row = EvenMiddle | OddMiddle | Both(up: bool) | LeftOnly(up: bool) | RightOnly(up: bool) {
    function LeftLinks(): nat {
      if RightOnly? then 0 else 1
    }

    function RightLinks(): nat {
      if LeftOnly? then 0 else 1
    }
  }

  function RowText(row: Row): string {
    match row
    case EvenMiddle => "c                r                s\n" + " \\-sw---bl---sw-/ \\-sw---bl---sw-/\n"
    case OddMiddle => "c--sw---bl---sw--r--sw---bl---sw--s\n"
    case Both(up) => if up then " /-sw---bl---sw-\\ /-sw---bl---sw-\\ \n" else " \\-sw---bl---sw-/ \\-sw---bl---sw-/ \n"
    case LeftOnly(up) => if up then " /-sw---bl---sw-\\ \n" else " \\-sw---bl---sw-/ \n"
    case RightOnly(up) => if up then "                  /-sw---bl---sw-\\ \n" else "                  \\-sw---bl---sw-/ \n"
  }

  function Title(): string {
    "Simple multiple interface topology \n"
  }

  function Max(a: nat, b: nat): nat {
    if a < b then b else a
  }

  /** The row of turn i when `skipped` rows have drawn one side only. */
  function RowAt(nc: nat, ns: nat, i: nat, skipped: nat): Row {
    var m := Max(nc, ns);
    if i == m / 2 then if m % 2 == 0 then EvenMiddle else OddMiddle
    else if (nc == m && ns + skipped == m) || (ns == m && nc + skipped == m) then Both(i < m / 2)
    else if nc == m then LeftOnly(i < m / 2)
    else RightOnly(i < m / 2)
  }

  function Skips(row: Row): nat {
    if row.LeftOnly? || row.RightOnly? then 1 else 0
  }

  /** The rows of the first i turns, and how many of them draw one side only. */
  function Rows(nc: nat, ns: nat, i: nat): (seq<Row>, nat) {
    if i == 0 then ([], 0)
    else
      var (rows, skipped) := Rows(nc, ns, i - 1);
      var row := RowAt(nc, ns, i - 1, skipped);
      (rows + [row], skipped + Skips(row))
  }

  function Texts(rows: seq<Row>): string {
    if rows == [] then Title() else Texts(rows[..|rows| - 1]) + RowText(rows[|rows| - 1])
  }

  lemma TextsNext(rows: seq<Row>, row: Row)
    ensures Texts(rows + [row]) == Texts(rows) + RowText(row)
  {
    hide RowText, Title;
    assert (rows + [row])[..|rows|] == rows;
  }

  lemma NothingDrawn(nc: nat, ns: nat)
    ensures Rows(nc, ns, 0) == ([], 0) && Texts([]) == Title()
  {
    hide Title;
  }

  lemma RowsNext(nc: nat, ns: nat, i: nat)
    ensures Rows(nc, ns, i + 1) ==
            var row := RowAt(nc, ns, i, Rows(nc, ns, i).1);
            (Rows(nc, ns, i).0 + [row], Rows(nc, ns, i).1 + Skips(row))
  {
    hide RowAt, Skips;
  }

  /** The drawing loop. */
  method Draw(nc: nat, ns: nat) returns (s: string)
    ensures s == Texts(Rows(nc, ns, Max(nc, ns)).0)
  {
    hide RowText, Title, Texts, Rows;
    NothingDrawn(nc, ns);
    s := Title();
    var m := if nc >= ns then nc else ns;
    var skipped := 0;
    ghost var drawn: seq<Row> := [];
    for i := 0 to m
      invariant (drawn, skipped) == Rows(nc, ns, i) && s == Texts(drawn)
    {
      var row: Row;
      if i == m / 2 {
        row := if m % 2 == 0 then EvenMiddle else OddMiddle;
      } else if (nc == m && ns + skipped == m) || (ns == m && nc + skipped == m) {
        row := Both(i < m / 2);
      } else if nc == m {
        row := LeftOnly(i < m / 2);
        skipped := skipped + 1;
      } else {
        row := RightOnly(i < m / 2);
        skipped := skipped + 1;
      }
      s := s + RowText(row);
      TextsNext(drawn, row);
      RowsNext(nc, ns, i);
      drawn := drawn + [row];
    }
  }

  function Left(rows: seq<Row>): nat {
    if rows == [] then 0 else Left(rows[..|rows| - 1]) + rows[|rows| - 1].LeftLinks()
  }

  function Right(rows: seq<Row>): nat {
    if rows == [] then 0 else Right(rows[..|rows| - 1]) + rows[|rows| - 1].RightLinks()
  }

  /** Turns before i that are not the middle one. */
  function Passed(m: nat, i: nat): nat {
    if i > m / 2 then i - 1 else i
  }

  /** The one-sided rows come first, as many as the sides differ by, or as there are turns beside the middle one. */
  lemma {:induction false} DrawnSoFar(nc: nat, ns: nat, i: nat)
    requires i <= Max(nc, ns)
    ensures var (rows, skipped) := Rows(nc, ns, i);
            var m := Max(nc, ns);
            && skipped == (if Passed(m, i) < 2 * m - nc - ns then Passed(m, i) else 2 * m - nc - ns)
            && (nc == m ==> Left(rows) == i && Right(rows) + skipped == i)
            && (nc != m ==> Right(rows) == i && Left(rows) + skipped == i)
  {
    if i > 0 {
      DrawnSoFar(nc, ns, i - 1);
      var (before, skipped) := Rows(nc, ns, i - 1);
      var row := RowAt(nc, ns, i - 1, skipped);
      assert (before + [row])[..|before|] == before;
    }
  }

  /** For all numbers of links: the picture shows each side's number of links, but one for an empty side opposite a
      filled one; so it is right exactly when both sides have links or neither has. */
  lemma DrawsEveryLink(nc: nat, ns: nat)
    ensures var rows := Rows(nc, ns, Max(nc, ns)).0;
            && (nc > 0 || ns > 0 ==> Left(rows) == Max(nc, 1) && Right(rows) == Max(ns, 1))
            && (Left(rows) == nc && Right(rows) == ns <==> (nc > 0 <==> ns > 0))
  {
    DrawnSoFar(nc, ns, Max(nc, ns));
  }

  /** The row of every turn: the middle by parity, above it rows leaning up and below it rows leaning down; the first rows
      beside the middle draw the side with more links, as many as it has more, and all others draw both. */
  lemma RowInFull(nc: nat, ns: nat, i: nat)
    requires i < Max(nc, ns)
    ensures var m := Max(nc, ns);
            |Rows(nc, ns, m).0| == m
            && Rows(nc, ns, m).0[i] ==
               if i == m / 2 then (if m % 2 == 0 then EvenMiddle else OddMiddle)
               else if Passed(m, i) >= 2 * m - nc - ns then Both(i < m / 2)
               else if nc > ns then LeftOnly(i < m / 2)
               else RightOnly(i < m / 2)
  {
    DrawnSoFar(nc, ns, i);
    RowOfTurn(nc, ns, i, Max(nc, ns));
  }

  lemma {:induction false} RowOfTurn(nc: nat, ns: nat, i: nat, n: nat)
    requires i < n
    ensures |Rows(nc, ns, n).0| == n && Rows(nc, ns, n).0[i] == RowAt(nc, ns, i, Rows(nc, ns, i).1)
    decreases n
  {
    hide RowAt;
    RowsCount(nc, ns, n - 1);
    if i < n - 1 {
      RowOfTurn(nc, ns, i, n - 1);
    }
  }

  lemma {:induction false} RowsCount(nc: nat, ns: nat, n: nat)
    ensures |Rows(nc, ns, n).0| == n
  {
    hide RowAt, Skips;
    if n > 0 {
      RowsCount(nc, ns, n - 1);
    }
  }

  // ------------------------------------------------------------ what the text shows

  /** How many links, drawn as `bl`, a text shows. */
  function Drawn(s: string): nat {
    if |s| < 2 then 0 else (if s[0] == 'b' && s[1] == 'l' then 1 else 0) + Drawn(s[1..])
  }

  lemma {:induction false} DrawnApart(a: string, b: string)
    requires a == "" || a[|a| - 1] != 'b'
    ensures Drawn(a + b) == Drawn(a) + Drawn(b)
    decreases |a|
  {
    if a == "" {
      assert a + b == b;
    } else if |a| == 1 {
      assert (a + b)[1..] == b;
    } else {
      DrawnApart(a[1..], b);
      assert (a + b)[1..] == a[1..] + b;
    }
  }

  lemma {:induction false} NothingDrawnIn(s: string)
    requires Free(s, 'b')
    ensures Drawn(s) == 0
  {
    if |s| >= 2 {
      NothingDrawnIn(s[1..]);
    }
  }

  /** One link between stretches without any. */
  lemma OneLink(a: string, b: string)
    requires Free(a, 'b') && Free(b, 'b')
    ensures Drawn(a + "bl" + b) == 1
  {
    DrawnApart(a, "bl");
    DrawnApart(a + "bl", b);
    NothingDrawnIn(a);
    NothingDrawnIn(b);
    assert Drawn("bl") == 1 by {
      assert "bl"[1..] == "l";
    }
  }

  lemma TwoLinks(a: string, b: string, c: string)
    requires Free(a, 'b') && Free(b, 'b') && Free(c, 'b')
    ensures Drawn(a + "bl" + b + "bl" + c) == 2
  {
    var first, second := a + "bl", b + "bl" + c;
    OneLink(a, "");
    OneLink(b, c);
    assert first + "" == first;
    DrawnApart(first, second);
    assert first + second == a + "bl" + b + "bl" + c;
  }

  const CLIENT_UP := " /-sw---"
  const CLIENT_DOWN := " \\-sw---"

  lemma Stretches()
    ensures Free(CLIENT_UP, 'b') && Free(CLIENT_DOWN, 'b') && Free("---sw-\\", 'b') && Free("---sw-/", 'b')
    ensures Free("c--sw---", 'b') && Free("---sw--r--sw---", 'b') && Free("---sw--s\n", 'b')
    ensures Free("---sw-\\ \n", 'b') && Free("---sw-/ \n", 'b') && Free("---sw-/\n", 'b')
  {
  }

  lemma Joints()
    ensures Free("---sw-\\ /-sw---", 'b') && Free("---sw-/ \\-sw---", 'b')
    ensures Free("                  /-sw---", 'b') && Free("                  \\-sw---", 'b')
  {
  }

  lemma FirstLine()
    ensures Free("c                r                s\n \\-sw---", 'b')
  {
  }

  lemma EvenDraws()
    ensures Drawn(RowText(EvenMiddle)) == 2
  {
    hide Drawn, Free;
    Stretches();
    Joints();
    FirstLine();
    TwoLinks("c                r                s\n \\-sw---", "---sw-/ \\-sw---", "---sw-/\n");
    assert RowText(EvenMiddle) == "c                r                s\n \\-sw---" + "bl" + "---sw-/ \\-sw---" + "bl" + "---sw-/\n";
  }

  lemma OddDraws()
    ensures Drawn(RowText(OddMiddle)) == 2
  {
    hide Drawn, Free;
    Stretches();
    TwoLinks("c--sw---", "---sw--r--sw---", "---sw--s\n");
    assert RowText(OddMiddle) == "c--sw---" + "bl" + "---sw--r--sw---" + "bl" + "---sw--s\n";
  }

  lemma BothDraws(up: bool)
    ensures Drawn(RowText(Both(up))) == 2
  {
    hide Drawn, Free, RowText;
    Stretches();
    Joints();
    if up {
      UpText();
      TwoLinks(CLIENT_UP, "---sw-\\ /-sw---", "---sw-\\ \n");
    } else {
      DownText();
      TwoLinks(CLIENT_DOWN, "---sw-/ \\-sw---", "---sw-/ \n");
    }
  }

  lemma UpText()
    ensures RowText(Both(true)) == CLIENT_UP + "bl" + "---sw-\\ /-sw---" + "bl" + "---sw-\\ \n"
  {
  }

  lemma DownText()
    ensures RowText(Both(false)) == CLIENT_DOWN + "bl" + "---sw-/ \\-sw---" + "bl" + "---sw-/ \n"
  {
  }

  lemma LeftDraws(up: bool)
    ensures Drawn(RowText(LeftOnly(up))) == 1
  {
    hide Drawn, Free;
    Stretches();
    if up {
      OneLink(CLIENT_UP, "---sw-\\ \n");
      assert RowText(LeftOnly(true)) == CLIENT_UP + "bl" + "---sw-\\ \n";
    } else {
      OneLink(CLIENT_DOWN, "---sw-/ \n");
      assert RowText(LeftOnly(false)) == CLIENT_DOWN + "bl" + "---sw-/ \n";
    }
  }

  lemma RightDraws(up: bool)
    ensures Drawn(RowText(RightOnly(up))) == 1
  {
    hide Drawn, Free;
    Stretches();
    Joints();
    if up {
      OneLink("                  /-sw---", "---sw-\\ \n");
      assert RowText(RightOnly(true)) == "                  /-sw---" + "bl" + "---sw-\\ \n";
    } else {
      OneLink("                  \\-sw---", "---sw-/ \n");
      assert RowText(RightOnly(false)) == "                  \\-sw---" + "bl" + "---sw-/ \n";
    }
  }

  /** The left link at column 8 of the last line, the right one at column 25, and the line's end. */
  predicate Columns(row: Row) {
    var line := if row.EvenMiddle? then 36 else 0;
    var t := RowText(row);
    && t != "" && t[|t| - 1] == '\n'
    && (row.LeftLinks() == 1 ==> |t| > line + 9 && t[line + 8] == 'b' && t[line + 9] == 'l')
    && (row.RightLinks() == 1 ==> |t| > line + 26 && t[line + 25] == 'b' && t[line + 26] == 'l')
  }

  lemma EvenColumns()
    ensures Columns(EvenMiddle)
  {
  }

  lemma OddColumns()
    ensures Columns(OddMiddle)
  {
  }

  lemma BothColumns(up: bool)
    ensures Columns(Both(up))
  {
  }

  lemma SideColumns(up: bool)
    ensures Columns(LeftOnly(up)) && Columns(RightOnly(up))
  {
  }

  lemma RowColumns(row: Row)
    ensures Columns(row)
  {
    hide Columns;
    match row
    case EvenMiddle => EvenColumns();
    case OddMiddle => OddColumns();
    case Both(up) => BothColumns(up);
    case LeftOnly(up) => SideColumns(up);
    case RightOnly(up) => SideColumns(up);
  }

  /** A row's text draws as many links as the row stands for. */
  lemma RowDraws(row: Row)
    ensures Drawn(RowText(row)) == row.LeftLinks() + row.RightLinks()
    ensures RowText(row) != "" && RowText(row)[|RowText(row)| - 1] == '\n'
  {
    hide RowText, Drawn;
    RowColumns(row);
    match row
    case EvenMiddle => EvenDraws();
    case OddMiddle => OddDraws();
    case Both(up) => BothDraws(up);
    case LeftOnly(up) => LeftDraws(up);
    case RightOnly(up) => RightDraws(up);
  }

  lemma TitleIsPlain()
    ensures Title() != "" && Title()[|Title()| - 1] == '\n' && Free(Title(), 'b')
  {
  }

  lemma TitleDraws()
    ensures Title() != "" && Title()[|Title()| - 1] == '\n' && Drawn(Title()) == 0
  {
    hide Title, Drawn, Free;
    TitleIsPlain();
    NothingDrawnIn(Title());
  }

  lemma {:induction false} TextsDraw(rows: seq<Row>)
    ensures Texts(rows) != "" && Texts(rows)[|Texts(rows)| - 1] == '\n'
    ensures Drawn(Texts(rows)) == Left(rows) + Right(rows)
    decreases |rows|
  {
    hide RowText, Title, Drawn;
    if rows == [] {
      TitleDraws();
    } else {
      var front, row := rows[..|rows| - 1], rows[|rows| - 1];
      TextsDraw(front);
      RowDraws(row);
      TextsNext(front, row);
      assert front + [row] == rows;
      DrawnApart(Texts(front), RowText(row));
    }
  }

  /** The text itself shows as many links as the two sides have, an empty side opposite a filled one counted as one. */
  lemma TextShowsEveryLink(nc: nat, ns: nat)
    requires nc > 0 || ns > 0
    ensures Drawn(Texts(Rows(nc, ns, Max(nc, ns)).0)) == Max(nc, 1) + Max(ns, 1)
  {
    hide Drawn, Texts, Rows;
    TextsDraw(Rows(nc, ns, Max(nc, ns)).0);
    DrawsEveryLink(nc, ns);
  }
}
