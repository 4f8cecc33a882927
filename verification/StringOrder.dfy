/** Python's `sorted` on strings. */
module StringOrder {

  /** Lexicographic order by character codes. */
  predicate Less(a: string, b: string) {
    b != "" && (a == "" || a[0] < b[0] || (a[0] == b[0] && Less(a[1..], b[1..])))
  }

  lemma {:induction false} LessTotal(a: string, b: string)
    ensures a == b || Less(a, b) || Less(b, a)
    ensures !(Less(a, b) && Less(b, a)) && !Less(a, a)
  {
    if a != "" && b != "" {
      LessTotal(a[1..], b[1..]);
      LessTotal(a[1..], a[1..]);
      assert a == a[..1] + a[1..] && b == b[..1] + b[1..];
    } else if a != "" {
      LessTotal(a[1..], a[1..]);
    }
  }

  lemma {:induction false} LessTransitive(a: string, b: string, c: string)
    requires Less(a, b) && Less(b, c)
    ensures Less(a, c)
  {
    if a != "" && a[0] == b[0] && b[0] == c[0] {
      LessTransitive(a[1..], b[1..], c[1..]);
    }
  }

  lemma {:induction false} LessExtension(a: string, tail: string)
    requires tail != ""
    ensures Less(a, a + tail)
  {
    if a != "" {
      LessExtension(a[1..], tail);
      assert (a + tail)[1..] == a[1..] + tail;
    }
  }

  lemma {:induction false} LessPrefixed(p: string, a: string, b: string)
    ensures Less(p + a, p + b) <==> Less(a, b)
  {
    if p == "" {
      assert p + a == a && p + b == b;
    } else {
      LessPrefixed(p[1..], a, b);
      assert (p + a)[1..] == p[1..] + a && (p + b)[1..] == p[1..] + b;
    }
  }

  function Insert(k: string, ks: seq<string>): seq<string> {
    if ks == [] || Less(k, ks[0]) then [k] + ks else [ks[0]] + Insert(k, ks[1..])
  }

  function Sort(ks: seq<string>): seq<string> {
    if ks == [] then [] else Insert(ks[|ks| - 1], Sort(ks[..|ks| - 1]))
  }

  ghost predicate Sorted(ks: seq<string>) {
    forall i, j :: 0 <= i < j < |ks| ==> !Less(ks[j], ks[i])
  }

  lemma {:induction false} InsertMembers(k: string, ks: seq<string>)
    ensures multiset(Insert(k, ks)) == multiset(ks) + multiset{k}
    ensures |Insert(k, ks)| == |ks| + 1
    ensures forall x :: x in Insert(k, ks) <==> x == k || x in ks
  {
    if !(ks == [] || Less(k, ks[0])) {
      InsertMembers(k, ks[1..]);
      assert ks == [ks[0]] + ks[1..];
    }
  }

  lemma {:induction false} InsertSorted(k: string, ks: seq<string>)
    requires Sorted(ks)
    ensures Sorted(Insert(k, ks))
  {
    var r := Insert(k, ks);
    if ks == [] {
    } else if Less(k, ks[0]) {
      forall j | 0 <= j < |ks|
        ensures !Less(ks[j], k)
      {
        if Less(ks[j], k) {
          LessTransitive(ks[j], k, ks[0]);
          LessTotal(ks[j], ks[0]);
          assert false;
        }
      }
    } else {
      InsertSorted(k, ks[1..]);
      InsertMembers(k, ks[1..]);
      forall j | 1 <= j < |r|
        ensures !Less(r[j], ks[0])
      {
        assert r[j] == Insert(k, ks[1..])[j - 1];
        assert r[j] in Insert(k, ks[1..]);
        if r[j] != k {
          var i :| 0 <= i < |ks[1..]| && ks[1..][i] == r[j];
          assert ks[i + 1] == r[j];
        }
      }
    }
  }

  /** The result is in order and has the same strings as often. */
  lemma {:induction false} SortSorts(ks: seq<string>)
    ensures Sorted(Sort(ks)) && multiset(Sort(ks)) == multiset(ks) && |Sort(ks)| == |ks|
    ensures forall x :: x in Sort(ks) <==> x in ks
  {
    if ks != [] {
      var k, rest := ks[|ks| - 1], ks[..|ks| - 1];
      assert ks == rest + [k];
      SortSorts(rest);
      InsertSorted(k, Sort(rest));
      InsertMembers(k, Sort(rest));
    }
  }

  function Filter(p: string -> bool, ks: seq<string>): seq<string> {
    if ks == [] then [] else (if p(ks[0]) then [ks[0]] else []) + Filter(p, ks[1..])
  }

  lemma {:induction false} FilterLast(p: string -> bool, ks: seq<string>, k: string)
    ensures Filter(p, ks + [k]) == Filter(p, ks) + if p(k) then [k] else []
  {
    if ks == [] {
      assert ks + [k] == [k] && [k][1..] == [];
    } else {
      FilterLast(p, ks[1..], k);
      assert (ks + [k])[1..] == ks[1..] + [k];
    }
  }

  lemma {:induction false} FilterInsert(p: string -> bool, k: string, ks: seq<string>)
    requires Sorted(ks)
    ensures Filter(p, Insert(k, ks)) == if p(k) then Insert(k, Filter(p, ks)) else Filter(p, ks)
  {
    if ks == [] {
      assert Insert(k, ks)[1..] == [];
    } else if Less(k, ks[0]) {
      assert Insert(k, ks)[1..] == ks;
      if p(k) {
        InsertFirst(p, k, ks);
      }
    } else {
      FilterInsert(p, k, ks[1..]);
      assert Insert(k, ks)[1..] == Insert(k, ks[1..]);
      var rest := Filter(p, ks[1..]);
      if p(ks[0]) {
        assert ([ks[0]] + rest)[1..] == rest;
      } else {
        assert [] + rest == rest && [] + Filter(p, Insert(k, ks[1..])) == Filter(p, Insert(k, ks[1..]));
      }
    }
  }

  /** A string before the head of a sorted list goes in front of any selection from it. */
  lemma {:induction false} InsertFirst(p: string -> bool, k: string, ks: seq<string>)
    requires Sorted(ks) && (ks != [] ==> Less(k, ks[0]))
    ensures Insert(k, Filter(p, ks)) == [k] + Filter(p, ks)
  {
    if ks != [] && !p(ks[0]) {
      if |ks| > 1 {
        LessTotal(ks[0], ks[1]);
        if ks[0] != ks[1] {
          LessTransitive(k, ks[0], ks[1]);
        }
      }
      InsertFirst(p, k, ks[1..]);
      assert [] + Filter(p, ks[1..]) == Filter(p, ks[1..]);
    }
  }

  lemma SortLast(ks: seq<string>, k: string)
    ensures Sort(ks + [k]) == Insert(k, Sort(ks))
  {
    assert (ks + [k])[..|ks|] == ks;
  }

  /** Selecting from the sorted list is sorting the selection. */
  lemma {:induction false} FilterSort(p: string -> bool, ks: seq<string>)
    ensures Filter(p, Sort(ks)) == Sort(Filter(p, ks))
  {
    if ks != [] {
      var k, rest := ks[|ks| - 1], ks[..|ks| - 1];
      hide Sort, Insert, Filter;
      assert ks == rest + [k];
      FilterSort(p, rest);
      SortSorts(rest);
      FilterInsert(p, k, Sort(rest));
      FilterLast(p, rest, k);
      SortLast(rest, k);
      if p(k) {
        SortLast(Filter(p, rest), k);
      } else {
        assert Filter(p, rest) + [] == Filter(p, rest);
      }
    }
  }
}
