/** Link indices against link ids: the keys of one type are loaded in the order of their text. */
module LinkOrder {
  import opened Text
  import opened Parameters
  import opened TopoParameters
  import O = StringOrder
  import R = ConfigRoundTrip

  /** The links of one type, in order: `get_client_to_router_links` and `get_router_to_server_links`. */
  function OfType(links: seq<LinkCharacteristics>, linkType: string): seq<LinkCharacteristics> {
    if links == [] then []
    else
      var last := links[|links| - 1];
      OfType(links[..|links| - 1], linkType) + if last.linkType == linkType then [last] else []
  }

  lemma OfTypeLast(links: seq<LinkCharacteristics>, link: LinkCharacteristics, linkType: string)
    ensures OfType(links + [link], linkType) == OfType(links, linkType) + if link.linkType == linkType then [link] else []
  {
    assert (links + [link])[..|links|] == links;
  }

  /** A key that loads as a link of the type. */
  predicate Chosen(values: map<string, Value>, linkType: string, key: string) {
    key in values && LoadKey(key, values[key]).Loaded? && LoadKey(key, values[key]).link.linkType == linkType
  }

  lemma ChosenIsIn(values: map<string, Value>, linkType: string, key: string)
    requires Chosen(values, linkType, key)
    ensures key in values
  {
  }

  function Choice(values: map<string, Value>, linkType: string): string -> bool {
    key => Chosen(values, linkType, key)
  }

  function LinkAt(values: map<string, Value>, linkType: string, key: string): LinkCharacteristics
    requires Chosen(values, linkType, key)
  {
    LoadKey(key, values[key]).link
  }

  predicate AllChosen(values: map<string, Value>, linkType: string, keys: seq<string>) {
    forall i :: 0 <= i < |keys| ==> Chosen(values, linkType, keys[i])
  }

  function LinksAt(values: map<string, Value>, linkType: string, keys: seq<string>): seq<LinkCharacteristics>
    requires AllChosen(values, linkType, keys)
  {
    seq(|keys|, i requires 0 <= i < |keys| => LinkAt(values, linkType, keys[i]))
  }

  lemma {:induction false} FilterKeepsChosen(p: string -> bool, keys: seq<string>)
    ensures forall x :: x in O.Filter(p, keys) <==> x in keys && p(x)
  {
    if keys != [] {
      FilterKeepsChosen(p, keys[1..]);
    }
  }

  lemma FilterAllChosen(values: map<string, Value>, linkType: string, keys: seq<string>)
    ensures AllChosen(values, linkType, O.Filter(Choice(values, linkType), keys))
  {
    hide Chosen;
    FilterKeepsChosen(Choice(values, linkType), keys);
    var kept := O.Filter(Choice(values, linkType), keys);
    assert forall i :: 0 <= i < |kept| ==> kept[i] in kept;
  }

  lemma LoadOneMore(values: map<string, Value>, linkType: string, front: seq<string>, key: string)
    requires R.AllIn(front + [key], values) && R.AllIn(front, values) && key in values
    requires LoadKeys(values, front + [key]).Some?
    ensures LoadKeys(values, front).Some?
    ensures OfType(LoadKeys(values, front + [key]).value, linkType)
            == OfType(LoadKeys(values, front).value, linkType)
               + if Chosen(values, linkType, key) then [LinkAt(values, linkType, key)] else []
  {
    hide LoadKey, OfType;
    assert (front + [key])[..|front|] == front;
    var links := LoadKeys(values, front).value;
    if LoadKey(key, values[key]).Loaded? {
      OfTypeLast(links, LoadKey(key, values[key]).link, linkType);
    } else {
      assert OfType(links, linkType) + [] == OfType(links, linkType);
    }
  }

  function ChosenLinks(values: map<string, Value>, linkType: string, keys: seq<string>): seq<LinkCharacteristics> {
    if keys == [] then []
    else
      (if Chosen(values, linkType, keys[0]) then [LinkAt(values, linkType, keys[0])] else [])
      + ChosenLinks(values, linkType, keys[1..])
  }

  lemma {:induction false} ChosenLinksLast(values: map<string, Value>, linkType: string, keys: seq<string>, key: string)
    ensures ChosenLinks(values, linkType, keys + [key])
            == ChosenLinks(values, linkType, keys) + if Chosen(values, linkType, key) then [LinkAt(values, linkType, key)] else []
  {
    hide Chosen, LinkAt;
    if keys == [] {
      assert keys + [key] == [key] && [key][1..] == [];
    } else {
      ChosenLinksLast(values, linkType, keys[1..], key);
      assert (keys + [key])[1..] == keys[1..] + [key];
    }
  }

  lemma {:induction false} ChosenLinksAreAt(values: map<string, Value>, linkType: string, keys: seq<string>)
    ensures AllChosen(values, linkType, O.Filter(Choice(values, linkType), keys))
    ensures ChosenLinks(values, linkType, keys) == LinksAt(values, linkType, O.Filter(Choice(values, linkType), keys))
  {
    hide Chosen, LinkAt;
    FilterAllChosen(values, linkType, keys);
    if keys != [] {
      ChosenLinksAreAt(values, linkType, keys[1..]);
    }
  }

  lemma FrontIn(keys: seq<string>, values: map<string, Value>)
    requires R.AllIn(keys, values) && keys != []
    ensures keys == keys[..|keys| - 1] + [keys[|keys| - 1]]
    ensures R.AllIn(keys[..|keys| - 1], values) && keys[|keys| - 1] in values
  {
  }

  /** The links of a type are those of its keys, in the order of the keys. */
  lemma {:induction false} LoadedOfType(values: map<string, Value>, linkType: string, keys: seq<string>)
    requires R.AllIn(keys, values) && LoadKeys(values, keys).Some?
    ensures OfType(LoadKeys(values, keys).value, linkType) == ChosenLinks(values, linkType, keys)
    decreases |keys|
  {
    hide LoadKey, LinkAt, Chosen;
    if keys != [] {
      hide LoadKeys, OfType, ChosenLinks, R.AllIn;
      var front, key := keys[..|keys| - 1], keys[|keys| - 1];
      FrontIn(keys, values);
      LoadOneMore(values, linkType, front, key);
      LoadedOfType(values, linkType, front);
      ChosenLinksLast(values, linkType, front, key);
    }
  }

  // ------------------------------------------------------------ strictly sorted lists

  ghost predicate Ascending(keys: seq<string>) {
    forall i, j :: 0 <= i < j < |keys| ==> O.Less(keys[i], keys[j])
  }

  ghost predicate SameMembers(a: seq<string>, b: seq<string>) {
    forall x: string :: x in a <==> x in b
  }

  lemma FirstIsLeast(keys: seq<string>, x: string)
    requires Ascending(keys) && x in keys && x != keys[0]
    ensures O.Less(keys[0], x)
  {
    var i :| 0 <= i < |keys| && keys[i] == x;
  }

  lemma TailMembers(keys: seq<string>, x: string)
    requires Ascending(keys) && keys != []
    ensures x in keys[1..] <==> x in keys && x != keys[0]
  {
    O.LessTotal(keys[0], keys[0]);
    assert keys == [keys[0]] + keys[1..];
    if x in keys[1..] {
      var i :| 0 <= i < |keys[1..]| && keys[1..][i] == x;
      assert O.Less(keys[0], keys[i + 1]);
    }
  }

  lemma BothHaveMembers(a: seq<string>, b: seq<string>)
    requires SameMembers(a, b) && a != []
    ensures b != []
  {
    assert a[0] in b;
  }

  /** An ascending list is determined by its members. */
  lemma {:induction false} AscendingIsUnique(a: seq<string>, b: seq<string>)
    requires Ascending(a) && Ascending(b) && SameMembers(a, b)
    ensures a == b
  {
    if a != [] {
      BothHaveMembers(a, b);
      assert a[0] in b && b[0] in a;
      if a[0] != b[0] {
        FirstIsLeast(a, b[0]);
        FirstIsLeast(b, a[0]);
        O.LessTotal(a[0], b[0]);
        assert false;
      }
      forall x: string
        ensures x in a[1..] <==> x in b[1..]
      {
        TailMembers(a, x);
        TailMembers(b, x);
      }
      AscendingIsUnique(a[1..], b[1..]);
      assert a == [a[0]] + a[1..] && b == [b[0]] + b[1..];
    } else if b != [] {
      BothHaveMembers(b, a);
    }
  }

  lemma SortAscends(keys: seq<string>)
    requires Distinct(keys)
    ensures Ascending(O.Sort(keys)) && SameMembers(O.Sort(keys), keys)
  {
    O.SortSorts(keys);
    var s := O.Sort(keys);
    forall i, j | 0 <= i < j < |s|
      ensures O.Less(s[i], s[j])
    {
      O.LessTotal(s[i], s[j]);
      if s[i] == s[j] {
        TwiceInList(s, i, j);
        OnceInList(keys, s[i]);
        assert false;
      }
    }
  }

  lemma TwiceInList(s: seq<string>, i: nat, j: nat)
    requires i < j < |s| && s[i] == s[j]
    ensures multiset(s)[s[i]] >= 2
  {
    assert s == s[..i] + [s[i]] + s[i + 1..j] + [s[j]] + s[j + 1..];
  }

  lemma {:induction false} OnceInList(keys: seq<string>, x: string)
    requires Distinct(keys)
    ensures multiset(keys)[x] <= 1
  {
    if keys != [] {
      OnceInList(keys[1..], x);
      assert keys == [keys[0]] + keys[1..];
      if keys[0] == x {
        assert x !in keys[1..];
      }
    }
  }

  // ------------------------------------------------------------ canonical keys

  function Key(linkType: string, id: nat): string {
    "path_" + linkType + "_" + Dec(id)
  }

  function Keys(linkType: string, from: nat, to: nat): (keys: seq<string>)
    requires from <= to
    ensures |keys| == to - from && forall i :: 0 <= i < |keys| ==> keys[i] == Key(linkType, from + i)
  {
    seq(to - from, i requires 0 <= i < to - from => Key(linkType, from + i))
  }

  lemma KeyLess(linkType: string, i: nat, j: nat)
    ensures O.Less(Key(linkType, i), Key(linkType, j)) <==> O.Less(Dec(i), Dec(j))
  {
    O.LessPrefixed("path_" + linkType + "_", Dec(i), Dec(j));
  }

  lemma DigitsAscend(linkType: string, i: nat, j: nat)
    requires i < j < 10
    ensures O.Less(Key(linkType, i), Key(linkType, j))
  {
    KeyLess(linkType, i, j);
    assert Dec(i) == [DigitChar(i)] && Dec(j) == [DigitChar(j)];
    assert DigitChar(i) < DigitChar(j);
  }

  lemma TenDigits()
    ensures Dec(1) == "1" && Dec(10) == "10" && Dec(0) == "0"
  {
    assert DigitChar(1) == '1' && DigitChar(0) == '0';
    assert Dec(10) == Dec(1) + [DigitChar(0)];
  }

  /** Only 0 and 1 are written before 10. */
  lemma TenIsEarly(linkType: string, i: nat)
    requires i >= 2 && i != 10
    ensures O.Less(Key(linkType, 10), Key(linkType, i))
  {
    KeyLess(linkType, 10, i);
    TenDigits();
    var s := Dec(i);
    assert '1' <= s[0];
    if s[0] == '1' {
      if |s| == 1 {
        assert false;
      } else if s[1] == '0' {
        if |s| == 2 {
          assert s == Dec(10);
          DecInjective(i, 10);
        }
        assert O.Less("10"[1..][1..], s[1..][1..]);
        assert O.Less("10"[1..], s[1..]);
      } else {
        assert O.Less("10"[1..], s[1..]);
      }
    }
  }

  /** The keys that load as links of the type are those of the ids below n, canonically written. */
  ghost predicate Canonical(values: map<string, Value>, linkType: string, n: nat) {
    (forall key: string | Chosen(values, linkType, key) :: key in Keys(linkType, 0, n))
    && forall i: nat | i < n :: Chosen(values, linkType, Key(linkType, i))
  }

  lemma CanonicalChosen(values: map<string, Value>, linkType: string, n: nat)
    requires Canonical(values, linkType, n)
    ensures forall i: nat | i < n :: Chosen(values, linkType, Key(linkType, i))
  {
  }

  lemma DecFree(n: nat, c: char)
    requires !IsDigit(c)
    ensures Free(Dec(n), c)
  {
  }

  lemma PathFree()
    ensures Free("path", '_')
  {
  }

  /** A canonical key gives its id to its link. */
  lemma IdOfKey(values: map<string, Value>, linkType: string, i: nat)
    requires Free(linkType, '_') && Chosen(values, linkType, Key(linkType, i))
    ensures LinkAt(values, linkType, Key(linkType, i)).id == i
  {
    hide ParseKey, ParseCharacteristics, Key;
    KeyParses(linkType, i);
  }

  lemma KeyParses(linkType: string, i: nat)
    requires Free(linkType, '_')
    ensures ParseKey(Key(linkType, i)) == Some((linkType, i))
  {
    hide PyInt, Split, Free;
    DecFree(i, '_');
    PathFree();
    assert Key(linkType, i) == "path" + "_" + (linkType + "_" + Dec(i));
    SplitFirst("path", linkType + "_" + Dec(i), '_');
    SplitFirst(linkType, Dec(i), '_');
    SplitWhole(Dec(i), '_');
    PyIntDec(i);
  }

  lemma KeyInjective(linkType: string, i: nat, j: nat)
    requires Key(linkType, i) == Key(linkType, j)
    ensures i == j
  {
    var p := "path_" + linkType + "_";
    assert Key(linkType, i)[|p|..] == Dec(i) && Key(linkType, j)[|p|..] == Dec(j);
    DecInjective(i, j);
  }

  lemma {:induction false} FilterDistinct(p: string -> bool, keys: seq<string>)
    requires Distinct(keys)
    ensures Distinct(O.Filter(p, keys))
  {
    if keys != [] {
      FilterDistinct(p, keys[1..]);
      FilterKeepsChosen(p, keys[1..]);
      var kept := O.Filter(p, keys[1..]);
      assert keys[0] !in keys[1..];
      assert forall i :: 0 <= i < |kept| ==> kept[i] in kept;
    }
  }

  /** The keys of the type in the order in which they are loaded. */
  lemma ChosenKeysSorted(d: Dictionary, linkType: string, n: nat)
    requires ListedOnce(d) && Canonical(d.values, linkType, n)
    ensures Ascending(O.Filter(Choice(d.values, linkType), O.Sort(d.keys)))
    ensures SameMembers(O.Filter(Choice(d.values, linkType), O.Sort(d.keys)), Keys(linkType, 0, n))
  {
    hide Chosen, Key;
    var p := Choice(d.values, linkType);
    var kept := O.Filter(p, d.keys);
    O.FilterSort(p, d.keys);
    FilterKeepsChosen(p, d.keys);
    FilterDistinct(p, d.keys);
    SortAscends(kept);
    forall x: string
      ensures x in kept <==> x in Keys(linkType, 0, n)
    {
      if x in Keys(linkType, 0, n) {
        var i :| 0 <= i < n && Keys(linkType, 0, n)[i] == x;
        assert Chosen(d.values, linkType, Key(linkType, i));
        ChosenIsIn(d.values, linkType, x);
      }
    }
  }

  // ------------------------------------------------------------ the order of the ids

  /** Up to ten ids the keys are in the order of the ids. */
  lemma TenAscend(linkType: string, n: nat)
    requires n <= 10
    ensures Ascending(Keys(linkType, 0, n))
  {
    hide Key;
    forall i, j | 0 <= i < j < n
      ensures O.Less(Key(linkType, i), Key(linkType, j))
    {
      DigitsAscend(linkType, i, j);
    }
  }

  /** The keys after that of id 10. */
  function Rest(linkType: string, n: nat): (keys: seq<string>)
    requires n > 10
    ensures |keys| == n - 3
    ensures forall i :: 0 <= i < |keys| ==> keys[i] == Key(linkType, if i < 8 then i + 2 else i + 3)
  {
    Keys(linkType, 2, 10) + Keys(linkType, 11, n)
  }

  /** Beyond ten ids, the third key is that of id 10. */
  function Beyond(linkType: string, n: nat): seq<string>
    requires n > 10
  {
    [Key(linkType, 0)] + ([Key(linkType, 1)] + ([Key(linkType, 10)] + O.Sort(Rest(linkType, n))))
  }

  lemma RestIsLater(linkType: string, n: nat, x: string)
    requires n > 10 && x in Rest(linkType, n)
    ensures O.Less(Key(linkType, 10), x)
  {
    hide Key;
    var i :| 0 <= i < n - 3 && Rest(linkType, n)[i] == x;
    TenIsEarly(linkType, if i < 8 then i + 2 else i + 3);
  }

  lemma RestDistinct(linkType: string, n: nat)
    requires n > 10
    ensures Distinct(Rest(linkType, n))
  {
    hide Key;
    var rest := Rest(linkType, n);
    forall i, j | 0 <= i < j < |rest|
      ensures rest[i] != rest[j]
    {
      if rest[i] == rest[j] {
        KeyInjective(linkType, if i < 8 then i + 2 else i + 3, if j < 8 then j + 2 else j + 3);
      }
    }
  }

  lemma AscendingPrepend(x: string, y: string, keys: seq<string>)
    requires Ascending([y] + keys) && O.Less(x, y)
    ensures Ascending([x] + ([y] + keys))
  {
    var ks := [y] + keys;
    forall j | 0 <= j < |ks|
      ensures O.Less(x, ks[j])
    {
      if j > 0 {
        assert O.Less(ks[0], ks[j]);
        O.LessTransitive(x, y, ks[j]);
      }
    }
  }

  lemma EarlyKeys(linkType: string)
    ensures O.Less(Key(linkType, 0), Key(linkType, 1)) && O.Less(Key(linkType, 1), Key(linkType, 10))
  {
    DigitsAscend(linkType, 0, 1);
    KeyLess(linkType, 1, 10);
    TenDigits();
    O.LessExtension("1", "0");
  }

  lemma BeyondAscends(linkType: string, n: nat)
    requires n > 10
    ensures Ascending(Beyond(linkType, n))
  {
    hide Key;
    var sorted := O.Sort(Rest(linkType, n));
    RestDistinct(linkType, n);
    SortAscends(Rest(linkType, n));
    forall i | 0 <= i < |sorted|
      ensures O.Less(Key(linkType, 10), sorted[i])
    {
      assert sorted[i] in sorted;
      RestIsLater(linkType, n, sorted[i]);
    }
    EarlyKeys(linkType);
    assert Ascending([Key(linkType, 10)] + sorted);
    AscendingPrepend(Key(linkType, 1), Key(linkType, 10), sorted);
    AscendingPrepend(Key(linkType, 0), Key(linkType, 1), [Key(linkType, 10)] + sorted);
  }

  lemma InRest(linkType: string, n: nat, i: nat)
    requires n > 10 && 2 <= i < n && i != 10
    ensures Key(linkType, i) in Rest(linkType, n)
  {
    hide Key;
    assert Rest(linkType, n)[if i < 10 then i - 2 else i - 3] == Key(linkType, i);
  }

  lemma BeyondMembers(linkType: string, n: nat)
    requires n > 10
    ensures SameMembers(Beyond(linkType, n), Keys(linkType, 0, n))
  {
    hide Key;
    var keys, rest := Keys(linkType, 0, n), Rest(linkType, n);
    O.SortSorts(rest);
    forall x: string
      ensures x in Beyond(linkType, n) <==> x in keys
    {
      assert x in Beyond(linkType, n) <==> x == Key(linkType, 0) || x == Key(linkType, 1) || x == Key(linkType, 10) || x in rest;
      if x in rest {
        var i :| 0 <= i < n - 3 && rest[i] == x;
        assert keys[if i < 8 then i + 2 else i + 3] == x;
      }
      assert keys[0] in keys && keys[1] in keys && keys[10] in keys;
      if x in keys {
        var i :| 0 <= i < n && keys[i] == x;
        if 2 <= i && i != 10 {
          InRest(linkType, n, i);
        }
      }
    }
  }

  lemma SameTransitive(a: seq<string>, b: seq<string>, c: seq<string>)
    requires SameMembers(a, b) && SameMembers(c, b)
    ensures SameMembers(a, c)
  {
  }

  /** The links of the type are those of its keys in ascending order. */
  lemma OrderedKeys(d: Dictionary, linkType: string, n: nat, order: seq<string>)
    requires ListedOnce(d) && LoadLinks(d).Some? && Canonical(d.values, linkType, n)
    requires Ascending(order) && SameMembers(order, Keys(linkType, 0, n))
    ensures AllChosen(d.values, linkType, order)
    ensures OfType(LoadLinks(d).value, linkType) == LinksAt(d.values, linkType, order)
  {
    hide Chosen, LoadKeys, OfType, Ascending, SameMembers, Canonical, O.Sort, O.Filter, ChosenLinks, LinksAt;
    var sorted := O.Sort(d.keys);
    var kept := O.Filter(Choice(d.values, linkType), sorted);
    O.SortSorts(d.keys);
    LoadedOfType(d.values, linkType, sorted);
    ChosenLinksAreAt(d.values, linkType, sorted);
    ChosenKeysSorted(d, linkType, n);
    SameTransitive(kept, Keys(linkType, 0, n), order);
    AscendingIsUnique(kept, order);
  }

  /** For every file whose keys of a type are those of ids 0 to n - 1, canonically written: the links of that type
      are n, link i has id i for every i exactly when there are at most ten, and beyond that the third has id 10. */
  lemma IndexIsId(d: Dictionary, linkType: string, n: nat)
    requires ListedOnce(d) && LoadLinks(d).Some? && Free(linkType, '_') && Canonical(d.values, linkType, n)
    ensures var links := OfType(LoadLinks(d).value, linkType);
            && |links| == n
            && ((forall i: nat | i < n :: links[i].id == i) <==> n <= 10)
            && (n > 10 ==> links[2].id == 10)
  {
    hide Chosen, Key, LoadLinks, OfType, Canonical;
    assert forall i: nat | i < n :: Chosen(d.values, linkType, Key(linkType, i)) by {
      CanonicalChosen(d.values, linkType, n);
    }
    if n <= 10 {
      var order := Keys(linkType, 0, n);
      TenAscend(linkType, n);
      OrderedKeys(d, linkType, n, order);
      forall i: nat | i < n
        ensures LinkAt(d.values, linkType, order[i]).id == i
      {
        IdOfKey(d.values, linkType, i);
      }
    } else {
      var order := Beyond(linkType, n);
      BeyondAscends(linkType, n);
      BeyondMembers(linkType, n);
      OrderedKeys(d, linkType, n, order);
      assert order[2] == Key(linkType, 10);
      IdOfKey(d.values, linkType, 10);
      O.SortSorts(Rest(linkType, n));
      var links := OfType(LoadLinks(d).value, linkType);
      assert links[2].id == 10;
    }
  }

  // ------------------------------------------------------------ YAML topologies

  /** The paths of the type declare exactly the ids below n, each under its canonical name. */
  ghost predicate DeclaresBelow(t: Topology, linkType: string, n: nat) {
    (forall i :: 0 <= i < |t.paths| ==> DeclaresOne(t.paths[i], i, linkType, n))
    && forall id: nat | id < n :: exists i :: 0 <= i < |t.paths| && R.Declared(t.paths[i], i) == Some((linkType, id))
  }

  predicate DeclaresOne(p: Path, idx: nat, linkType: string, n: nat) {
    match R.Declared(p, idx)
    case None => true
    case Some((t, id)) => t == linkType ==> 0 <= id < n && KeyOf(p, idx) == Key(linkType, id)
  }

  lemma ChosenOfEntry(t: Topology, d: Dictionary, linkType: string, j: nat)
    requires R.WellFormed(t) && R.Holds(d, Entries(t)) && j < |Entries(t)|
    ensures Chosen(d.values, linkType, Entries(t)[j].0) <==>
            2 <= j < |t.paths| + 2 && R.Declared(t.paths[j - 2], j - 2).value.0 == linkType
  {
    hide LoadKey, R.Declared, KeyOf, Entries, R.PlainValue;
    R.KeyOutcome(t, j);
  }

  lemma KeyOfEntry(t: Topology, d: Dictionary, key: string) returns (j: nat)
    requires R.Holds(d, Entries(t)) && ListedOnce(d) && key in d.values
    ensures j < |Entries(t)| && Entries(t)[j].0 == key
  {
    hide Entries;
    assert key in d.keys;
    j :| 0 <= j < |d.keys| && d.keys[j] == key;
  }

  lemma DeclaredSome(t: Topology, i: nat)
    requires R.WellFormed(t) && i < |t.paths|
    ensures R.Declared(t.paths[i], i).Some?
  {
    assert R.WellFormedPath(t.paths[i], i);
  }

  lemma EntryKey(t: Topology, i: nat)
    requires i < |t.paths|
    ensures i + 2 < |Entries(t)| && Entries(t)[i + 2].0 == KeyOf(t.paths[i], i)
  {
  }

  lemma KeysHold(linkType: string, n: nat, id: int)
    requires 0 <= id < n
    ensures Key(linkType, id) in Keys(linkType, 0, n)
  {
    assert Keys(linkType, 0, n)[id] == Key(linkType, id);
  }

  lemma ChosenIsCanonical(t: Topology, d: Dictionary, linkType: string, n: nat, key: string)
    requires R.WellFormed(t) && R.Holds(d, Entries(t)) && ListedOnce(d) && DeclaresBelow(t, linkType, n)
    requires Chosen(d.values, linkType, key)
    ensures key in Keys(linkType, 0, n)
  {
    hide Chosen, Key, Keys, KeyOf, TripletOf, R.WellFormed, R.Holds, R.Declared, ListedOnce, Entries, DeclaresBelow;
    ChosenIsIn(d.values, linkType, key);
    var j := KeyOfEntry(t, d, key);
    ChosenOfEntry(t, d, linkType, j);
    DeclaredSome(t, j - 2);
    PathIsCanonical(t, linkType, n, j - 2);
  }

  /** The canonical key of the path at place i + 2 of the entries. */
  lemma PathIsCanonical(t: Topology, linkType: string, n: nat, i: nat)
    requires DeclaresBelow(t, linkType, n) && i < |t.paths|
    requires R.Declared(t.paths[i], i).Some? && R.Declared(t.paths[i], i).value.0 == linkType
    ensures var id := R.Declared(t.paths[i], i).value.1;
            && 0 <= id < n && i + 2 < |Entries(t)|
            && Entries(t)[i + 2].0 == Key(linkType, id) && Key(linkType, id) in Keys(linkType, 0, n)
  {
    hide Key, Keys, KeyOf, TripletOf, R.Declared, Entries;
    EntryKey(t, i);
    assert DeclaresOne(t.paths[i], i, linkType, n);
    KeysHold(linkType, n, R.Declared(t.paths[i], i).value.1);
  }

  lemma CanonicalIsChosen(t: Topology, d: Dictionary, linkType: string, n: nat, id: nat)
    requires R.WellFormed(t) && R.Holds(d, Entries(t)) && DeclaresBelow(t, linkType, n) && id < n
    ensures Chosen(d.values, linkType, Key(linkType, id))
  {
    hide Chosen, Key, Keys, KeyOf, TripletOf, R.WellFormed, R.Holds, R.Declared, Entries;
    var i :| 0 <= i < |t.paths| && R.Declared(t.paths[i], i) == Some((linkType, id));
    PathIsCanonical(t, linkType, n, i);
    ChosenOfEntry(t, d, linkType, i + 2);
  }

  lemma DeclaredIsCanonical(t: Topology, d: Dictionary, linkType: string, n: nat)
    requires R.WellFormed(t) && R.Holds(d, Entries(t)) && ListedOnce(d) && DeclaresBelow(t, linkType, n)
    ensures Canonical(d.values, linkType, n)
  {
    hide Chosen, Key, R.WellFormed, R.Holds, ListedOnce, DeclaresBelow, Entries, Keys;
    forall key: string | Chosen(d.values, linkType, key)
      ensures key in Keys(linkType, 0, n)
    {
      ChosenIsCanonical(t, d, linkType, n, key);
    }
    forall id: nat | id < n
      ensures Chosen(d.values, linkType, Key(linkType, id))
    {
      CanonicalIsChosen(t, d, linkType, n, id);
    }
  }

  /** For every well-formed YAML topology declaring ids 0 to n - 1 of a type: after printing and loading, address
      and interface index i belong to declared path i for every i exactly when n is at most 10. */
  lemma YamlIndexIsId(t: Topology, linkType: string, n: nat)
    requires R.WellFormed(t) && DeclaresBelow(t, linkType, n) && Free(linkType, '_')
    ensures ListedOnce(R.ReadDictionary(t)) && LoadLinks(R.ReadDictionary(t)).Some?
    ensures var links := OfType(LoadLinks(R.ReadDictionary(t)).value, linkType);
            && |links| == n
            && ((forall i: nat | i < n :: links[i].id == i) <==> n <= 10)
            && (n > 10 ==> links[2].id == 10)
  {
    hide R.WellFormed, R.ReadDictionary, LoadLinks, Canonical, DeclaresBelow, R.Holds;
    var d := R.ReadDictionary(t);
    R.DictionaryRoundTrip(t);
    R.SortedKeysLoad(t, d);
    DeclaredIsCanonical(t, d, linkType, n);
    IndexIsId(d, linkType, n);
  }
}
