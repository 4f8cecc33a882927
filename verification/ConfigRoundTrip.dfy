/** Printing a YAML topology as legacy lines and loading it back gives the same links. */
module ConfigRoundTrip {
  import opened Text
  import opened Parameters
  import opened TopoParameters
  import O = StringOrder
  import BufferSize

  // ------------------------------------------------------------ what a topology declares

  /** The link a path is about; a legacy name counts when it has the form `{type}_{id}`. */
  function Declared(p: Path, idx: nat): Option<(string, int)> {
    match p.name
    case Typed(linkType, id) => Some((linkType, id))
    case Unnamed => Some(("c2r", idx))
    case Named(name) =>
      var parts := Split(name, '_');
      if |parts| != 2 then None
      else match PyInt(parts[1]) case None => None case Some(id) => Some((parts[0], id))
  }

  predicate PlainWord(s: string) {
    PlainLine(s) && Free(s, ':')
  }

  predicate WellFormedPath(p: Path, idx: nat) {
    && Declared(p, idx).Some?
    && p.delay.Valid() && p.bandwidth.Valid() && p.bandwidth.Value() != 0.0
    && (p.name.Typed? ==> PlainWord(p.name.linkType) && Free(p.name.linkType, '_'))
    && (p.name.Named? ==> PlainWord(p.name.name))
  }

  /** Text without colons, line breaks, or white space at its end. */
  predicate PlainValue(s: string) {
    PlainWord(s) && (s != "" ==> !IsSpace(s[|s| - 1]))
  }

  ghost predicate WellFormed(t: Topology) {
    && PlainValue(t.left) && PlainValue(t.right) && PlainValue(t.topoType)
    && (forall i :: 0 <= i < |t.paths| ==> WellFormedPath(t.paths[i], i))
    && (forall i, j :: 0 <= i < j < |t.paths| ==> Declared(t.paths[i], i) != Declared(t.paths[j], j))
  }

  function LinkOf(p: Path, idx: nat): LinkCharacteristics
    requires WellFormedPath(p, idx)
  {
    LinkCharacteristics(Declared(p, idx).value.1, Declared(p, idx).value.0, p.delay.Value(), QueueOf(p),
                        p.bandwidth.Value(), 0.0, 0)
  }

  function Links(t: Topology): (links: seq<LinkCharacteristics>)
    requires WellFormed(t)
    ensures |links| == |t.paths| && forall i :: 0 <= i < |links| ==> links[i] == LinkOf(t.paths[i], i)
  {
    seq(|t.paths|, i requires 0 <= i < |t.paths| => LinkOf(t.paths[i], i))
  }

  // ------------------------------------------------------------ one path line

  lemma KeyRoundTrip(p: Path, idx: nat)
    requires WellFormedPath(p, idx)
    ensures ParseKey(KeyOf(p, idx)) == Declared(p, idx)
  {
    hide PyInt;
    var key := KeyOf(p, idx);
    match p.name
    case Typed(linkType, id) =>
      assert key == "path" + "_" + (linkType + "_" + Dec(id));
      SplitFirst("path", linkType + "_" + Dec(id), '_');
      SplitFirst(linkType, Dec(id), '_');
      SplitWhole(Dec(id), '_');
      PyIntDec(id);
    case Named(name) =>
      assert key == "path" + "_" + name;
      SplitFirst("path", name, '_');
    case Unnamed =>
      assert key == "path" + "_" + ("c2r" + "_" + Dec(idx));
      SplitFirst("path", "c2r" + "_" + Dec(idx), '_');
      SplitFirst("c2r", Dec(idx), '_');
      SplitWhole(Dec(idx), '_');
      PyIntDec(idx);
  }

  lemma KeyShape(p: Path, idx: nat)
    requires WellFormedPath(p, idx)
    ensures PlainWord(KeyOf(p, idx)) && "path_" <= KeyOf(p, idx)
  {
  }

  lemma NumText(x: Num, c: char)
    requires x.Valid() && !NumChar(c)
    ensures Free(x.Text(), c) && x.Text() != "" && IsDigit(x.Text()[|x.Text()| - 1])
  {
    TextShape(x);
  }

  lemma ThreeParts(d: string, q: string, b: string)
    requires Free(d, ',') && Free(q, ',') && Free(b, ',')
    ensures Split(d + "," + q + "," + b, ',') == [d, q, b]
  {
    assert d + "," + q + "," + b == d + "," + (q + "," + b);
    SplitFirst(d, q + "," + b, ',');
    SplitFirst(q, b, ',');
    SplitWhole(b, ',');
  }

  lemma ThreePartsParse(d: string, q: string, b: string, delay: real, queue: int, bandwidth: real)
    requires Free(d, ',') && Free(q, ',') && Free(b, ',')
    requires PyFloat(d) == Some(delay) && PyInt(q) == Some(queue) && PyFloat(b) == Some(bandwidth)
    ensures ParseCharacteristics(d + "," + q + "," + b) == Some(Numbers(delay, bandwidth, queue, 0.0, 0))
  {
    hide PyFloat, PyInt;
    ThreeParts(d, q, b);
  }

  lemma TripletRoundTrip(p: Path)
    requires p.delay.Valid() && p.bandwidth.Valid()
    ensures ParseCharacteristics(TripletOf(p)) == Some(Numbers(p.delay.Value(), p.bandwidth.Value(), QueueOf(p), 0.0, 0))
  {
    hide PyFloat, PyInt, ParseCharacteristics;
    NumText(p.delay, ',');
    NumText(p.bandwidth, ',');
    FloatRoundTrip(p.delay);
    FloatRoundTrip(p.bandwidth);
    PyIntDec(QueueOf(p));
    ThreePartsParse(p.delay.Text(), Dec(QueueOf(p)), p.bandwidth.Text(), p.delay.Value(), QueueOf(p), p.bandwidth.Value());
  }

  lemma TripletFree(p: Path, c: char)
    requires p.delay.Valid() && p.bandwidth.Valid() && !NumChar(c) && c != ','
    ensures Free(TripletOf(p), c)
  {
    NumText(p.delay, c);
    NumText(p.bandwidth, c);
  }

  lemma TripletPlain(p: Path)
    requires p.delay.Valid() && p.bandwidth.Valid()
    ensures PlainValue(TripletOf(p))
  {
    TripletFree(p, ':');
    TripletFree(p, '\n');
    TripletFree(p, '\r');
    NumText(p.bandwidth, ':');
    var b := p.bandwidth.Text();
    assert TripletOf(p)[|TripletOf(p)| - 1] == b[|b| - 1];
  }

  /** Each printed path line loads as its link. */
  lemma PathLoads(p: Path, idx: nat)
    requires WellFormedPath(p, idx)
    ensures LoadKey(KeyOf(p, idx), Single(TripletOf(p))) == Loaded(LinkOf(p, idx))
  {
    hide ParseKey, ParseCharacteristics, KeyOf, TripletOf, Declared;
    KeyRoundTrip(p, idx);
    KeyShape(p, idx);
    TripletRoundTrip(p);
  }

  // ------------------------------------------------------------ reading the lines back

  predicate PlainEntry(e: (string, string)) {
    PlainWord(e.0) && PlainValue(e.1) && e.0 != "" && e.0[0] != '#' && !IsSpace(e.0[0])
  }

  /** A plain key and value on a line come back from it. */
  lemma EntryRoundTrip(e: (string, string))
    requires PlainEntry(e)
    ensures Entry(LineOf(e) + "\n") == Some(e)
    ensures PlainLine(LineOf(e))
  {
    var (key, value) := e;
    var line := LineOf(e);
    assert line[0] == key[0];
    assert line[|line| - 1] == if value == "" then ':' else value[|value| - 1];
    StripNewline(line);
    SplitFirst(key, value, ':');
    SplitWhole(value, ':');
  }

  lemma PathEntryPlain(p: Path, idx: nat)
    requires WellFormedPath(p, idx)
    ensures PlainEntry((KeyOf(p, idx), TripletOf(p)))
  {
    hide PlainWord, PlainValue, Declared, KeyOf, TripletOf;
    KeyShape(p, idx);
    TripletPlain(p);
  }

  lemma EntryPlain(t: Topology, i: nat)
    requires WellFormed(t) && i < |Entries(t)|
    ensures PlainEntry(Entries(t)[i])
  {
    hide KeyOf, TripletOf, WellFormedPath;
    if 2 <= i < |t.paths| + 2 {
      hide PlainEntry;
      PathEntryPlain(t.paths[i - 2], i - 2);
    }
  }

  /** Each line has its key and value. */
  ghost predicate Reads(lines: seq<string>, es: seq<(string, string)>) {
    |lines| == |es| && forall i :: 0 <= i < |lines| ==> Entry(lines[i]) == Some(es[i])
  }

  lemma LinesReadBack(t: Topology)
    requires WellFormed(t)
    ensures Reads(ReadLines(JoinLines(LegacyLines(t))), Entries(t))
  {
    hide WellFormed, Entry, Entries, LineOf, ReadLines, JoinLines, PlainEntry;
    forall i | 0 <= i < |Entries(t)|
      ensures Entry(LegacyLines(t)[i] + "\n") == Some(Entries(t)[i]) && PlainLine(LegacyLines(t)[i])
    {
      EntryPlain(t, i);
      EntryRoundTrip(Entries(t)[i]);
    }
    ReadBack(LegacyLines(t));
  }

  lemma FirstLetter(t: Topology, i: nat)
    requires WellFormed(t) && i < |Entries(t)|
    ensures Entries(t)[i].0 != ""
    ensures Entries(t)[i].0[0] == if i == 0 then 'l' else if i == 1 then 'r' else if i < |t.paths| + 2 then 'p' else 't'
  {
    if 2 <= i < |t.paths| + 2 {
      hide KeyOf, TripletOf, Declared;
      KeyShape(t.paths[i - 2], i - 2);
    }
  }

  lemma KeysDiffer(t: Topology, i: nat, j: nat)
    requires WellFormed(t) && i < j < |Entries(t)|
    ensures Entries(t)[i].0 != Entries(t)[j].0
  {
    hide KeyOf, TripletOf, Declared, ParseKey;
    FirstLetter(t, i);
    FirstLetter(t, j);
    if 2 <= i && j < |t.paths| + 2 {
      KeyRoundTrip(t.paths[i - 2], i - 2);
      KeyRoundTrip(t.paths[j - 2], j - 2);
    }
  }

  /** Each line fills its own key with its own value, in order. */
  ghost predicate Holds(d: Dictionary, es: seq<(string, string)>) {
    |d.keys| == |es|
    && forall i :: 0 <= i < |es| ==> d.keys[i] == es[i].0 && es[i].0 in d.values && d.values[es[i].0] == Single(es[i].1)
  }

  ghost predicate KeysDistinct(es: seq<(string, string)>) {
    forall i, j :: 0 <= i < j < |es| ==> es[i].0 != es[j].0
  }

  lemma InsertNew(d: Dictionary, es: seq<(string, string)>, n: nat)
    requires n < |es| && Holds(d, es[..n]) && ListedOnce(d) && KeysDistinct(es)
    ensures Holds(Insert(d, es[n].0, es[n].1), es[..n + 1])
  {
    assert forall i :: 0 <= i < n ==> d.keys[i] == es[..n][i].0;
    assert es[n].0 !in d.keys;
    assert es[n].0 !in d.values;
  }

  lemma LoadNext(lines: seq<string>, es: seq<(string, string)>, n: nat)
    requires Reads(lines, es) && n < |lines|
    ensures Load(lines[..n + 1]) == Insert(Load(lines[..n]), es[n].0, es[n].1)
  {
    hide Entry, Insert;
    assert lines[..n + 1][..n] == lines[..n];
  }

  /** Lines with distinct keys fill the dictionary in order, each key with its own value. */
  lemma {:induction false} LoadOfDistinct(lines: seq<string>, es: seq<(string, string)>, n: nat)
    requires Reads(lines, es) && KeysDistinct(es) && n <= |lines|
    ensures Holds(Load(lines[..n]), es[..n])
  {
    if n > 0 {
      hide Entry, Holds, ListedOnce, Insert, Load, KeysDistinct;
      LoadOfDistinct(lines, es, n - 1);
      KeysAreListedOnce(lines[..n - 1]);
      LoadNext(lines, es, n - 1);
      InsertNew(Load(lines[..n - 1]), es, n - 1);
    }
  }

  // ------------------------------------------------------------ the links, in any order

  function One(values: map<string, Value>, key: string): seq<LinkCharacteristics>
    requires key in values
  {
    match LoadKey(key, values[key]) case Loaded(link) => [link] case _ => []
  }

  predicate AllIn(keys: seq<string>, values: map<string, Value>) {
    forall i :: 0 <= i < |keys| ==> keys[i] in values
  }

  function Gather(values: map<string, Value>, keys: seq<string>): seq<LinkCharacteristics>
    requires AllIn(keys, values)
  {
    if keys == [] then [] else One(values, keys[0]) + Gather(values, keys[1..])
  }

  lemma {:induction false} GatherLast(values: map<string, Value>, keys: seq<string>, key: string)
    requires AllIn(keys, values) && key in values
    ensures Gather(values, keys + [key]) == Gather(values, keys) + One(values, key)
  {
    hide One;
    if keys == [] {
      assert keys + [key] == [key] && [key][1..] == [];
    } else {
      GatherLast(values, keys[1..], key);
      assert (keys + [key])[1..] == keys[1..] + [key];
    }
  }

  lemma LoadOneMore(values: map<string, Value>, front: seq<string>, key: string)
    requires AllIn(front + [key], values) && key in values && AllIn(front, values)
    requires !LoadKey(key, values[key]).Crashed? && LoadKeys(values, front) == Some(Gather(values, front))
    ensures LoadKeys(values, front + [key]) == Some(Gather(values, front + [key]))
  {
    hide LoadKey, Gather;
    GatherLast(values, front, key);
    assert (front + [key])[..|front|] == front;
    assert Gather(values, front) + [] == Gather(values, front);
  }

  /** Without a crash, loading gathers the links of the keys in order. */
  lemma {:induction false} LoadGathers(values: map<string, Value>, keys: seq<string>)
    requires AllIn(keys, values)
    requires forall i :: 0 <= i < |keys| ==> !LoadKey(keys[i], values[keys[i]]).Crashed?
    ensures LoadKeys(values, keys) == Some(Gather(values, keys))
    decreases |keys|
  {
    hide LoadKey;
    if keys != [] {
      hide Gather, LoadKeys;
      var front, key := keys[..|keys| - 1], keys[|keys| - 1];
      assert keys == front + [key];
      LoadGathers(values, front);
      LoadOneMore(values, front, key);
    }
  }

  lemma {:induction false} GatherInsert(values: map<string, Value>, key: string, keys: seq<string>)
    requires AllIn(keys, values) && key in values
    ensures AllIn(O.Insert(key, keys), values)
    ensures multiset(Gather(values, O.Insert(key, keys))) == multiset(Gather(values, keys)) + multiset(One(values, key))
  {
    hide One;
    if keys == [] || O.Less(key, keys[0]) {
      assert ([key] + keys)[1..] == keys;
    } else {
      GatherInsert(values, key, keys[1..]);
      assert O.Insert(key, keys)[1..] == O.Insert(key, keys[1..]);
    }
  }

  /** Sorting the keys permutes the links. */
  lemma {:induction false} GatherSort(values: map<string, Value>, keys: seq<string>)
    requires AllIn(keys, values)
    ensures AllIn(O.Sort(keys), values)
    ensures multiset(Gather(values, O.Sort(keys))) == multiset(Gather(values, keys))
    decreases |keys|
  {
    if keys != [] {
      hide One;
      var front, key := keys[..|keys| - 1], keys[|keys| - 1];
      assert keys == front + [key];
      GatherSort(values, front);
      GatherInsert(values, key, O.Sort(front));
      GatherLast(values, front, key);
    }
  }

  // ------------------------------------------------------------ the round trip

  /** The dictionary read back from the printed text. */
  function ReadDictionary(t: Topology): Dictionary {
    Load(ReadLines(JoinLines(LegacyLines(t))))
  }

  lemma DictionaryRoundTrip(t: Topology)
    requires WellFormed(t)
    ensures ListedOnce(ReadDictionary(t)) && Holds(ReadDictionary(t), Entries(t))
  {
    hide WellFormed, Entry, Entries, LegacyLines, ReadLines, JoinLines, Load, Holds;
    var lines := ReadLines(JoinLines(LegacyLines(t)));
    LinesReadBack(t);
    forall i, j | 0 <= i < j < |Entries(t)|
      ensures Entries(t)[i].0 != Entries(t)[j].0
    {
      KeysDiffer(t, i, j);
    }
    LoadOfDistinct(lines, Entries(t), |lines|);
    assert lines[..|lines|] == lines && Entries(t)[..|lines|] == Entries(t);
    KeysAreListedOnce(lines);
  }

  /** Of the dictionary's keys, those of paths give their links and the other three none. */
  lemma KeyOutcome(t: Topology, i: nat)
    requires WellFormed(t) && i < |Entries(t)|
    ensures var e := Entries(t)[i];
            LoadKey(e.0, Single(e.1)) == if 2 <= i < |t.paths| + 2 then Loaded(LinkOf(t.paths[i - 2], i - 2)) else Skipped
  {
    hide ParseKey, ParseCharacteristics, KeyOf, TripletOf, LinkOf;
    if 2 <= i < |t.paths| + 2 {
      PathLoads(t.paths[i - 2], i - 2);
    } else {
      assert Entries(t)[i].0[0] != "path"[0];
    }
  }

  /** How many path lines are among the first i lines. */
  function PathsAmong(t: Topology, i: nat): (n: nat)
    ensures n <= |t.paths|
  {
    if i < 2 then 0 else if i < |t.paths| + 2 then i - 2 else |t.paths|
  }

  lemma TakeNext<T>(s: seq<T>, i: nat)
    requires i < |s|
    ensures s[..i + 1] == s[..i] + [s[i]]
  {
  }

  lemma OneMoreDeclared(t: Topology, i: nat)
    requires WellFormed(t) && i < |Entries(t)|
    ensures Links(t)[..PathsAmong(t, i + 1)]
            == Links(t)[..PathsAmong(t, i)] + if 2 <= i < |t.paths| + 2 then [LinkOf(t.paths[i - 2], i - 2)] else []
  {
    hide LinkOf, Declared, WellFormedPath, Entries, PlainValue;
    if 2 <= i < |t.paths| + 2 {
      TakeNext(Links(t), i - 2);
    } else {
      assert Links(t)[..PathsAmong(t, i)] + [] == Links(t)[..PathsAmong(t, i)];
    }
  }

  lemma HeldAreIn(d: Dictionary, es: seq<(string, string)>)
    requires Holds(d, es)
    ensures AllIn(d.keys, d.values)
  {
  }

  lemma GatherNext(values: map<string, Value>, keys: seq<string>, i: nat)
    requires AllIn(keys, values) && i < |keys|
    ensures AllIn(keys[..i], values) && AllIn(keys[..i + 1], values)
    ensures Gather(values, keys[..i + 1]) == Gather(values, keys[..i]) + One(values, keys[i])
  {
    hide One, Gather;
    assert keys[..i + 1] == keys[..i] + [keys[i]];
    GatherLast(values, keys[..i], keys[i]);
  }

  lemma OneOfHeld(t: Topology, d: Dictionary, i: nat)
    requires WellFormed(t) && Holds(d, Entries(t)) && i < |Entries(t)|
    ensures d.keys[i] in d.values
    ensures One(d.values, d.keys[i]) == if 2 <= i < |t.paths| + 2 then [LinkOf(t.paths[i - 2], i - 2)] else []
  {
    hide LoadKey, LinkOf, WellFormed, Entries;
    KeyOutcome(t, i);
  }

  /** The links gathered from the first i keys are the first declared links. */
  ghost predicate GatheredSoFar(t: Topology, d: Dictionary, i: nat)
    requires WellFormed(t) && i <= |d.keys|
  {
    AllIn(d.keys[..i], d.values) && Gather(d.values, d.keys[..i]) == Links(t)[..PathsAmong(t, i)]
  }

  lemma GatheredNext(t: Topology, d: Dictionary, i: nat)
    requires WellFormed(t) && Holds(d, Entries(t)) && i < |Entries(t)| && GatheredSoFar(t, d, i)
    ensures GatheredSoFar(t, d, i + 1)
  {
    HeldAreIn(d, Entries(t));
    hide WellFormed, LinkOf, Gather, Links, Entries, One, PathsAmong, AllIn;
    GatherNext(d.values, d.keys, i);
    OneOfHeld(t, d, i);
    OneMoreDeclared(t, i);
  }

  lemma {:induction false} GatherDeclared(t: Topology, d: Dictionary, i: nat)
    requires WellFormed(t) && Holds(d, Entries(t)) && i <= |Entries(t)|
    ensures GatheredSoFar(t, d, i)
  {
    if i == 0 {
      assert d.keys[..0] == [] && Links(t)[..0] == [];
    } else {
      hide WellFormed, GatheredSoFar, Entries;
      GatherDeclared(t, d, i - 1);
      GatheredNext(t, d, i - 1);
    }
  }

  lemma SortedKeysLoad(t: Topology, d: Dictionary)
    requires WellFormed(t) && Holds(d, Entries(t)) && ListedOnce(d)
    ensures LoadLinks(d).Some? && multiset(LoadLinks(d).value) == multiset(Links(t))
    ensures AllIn(O.Sort(d.keys), d.values) && LoadLinks(d).value == Gather(d.values, O.Sort(d.keys))
  {
    hide WellFormed, LoadKey, LinkOf, Entries, Gather, Links, LoadKeys;
    HeldAreIn(d, Entries(t));
    GatherDeclared(t, d, |d.keys|);
    assert d.keys[..|d.keys|] == d.keys && Links(t)[..|t.paths|] == Links(t);
    var sorted := O.Sort(d.keys);
    O.SortSorts(d.keys);
    GatherSort(d.values, d.keys);
    forall i | 0 <= i < |sorted|
      ensures !LoadKey(sorted[i], d.values[sorted[i]]).Crashed?
    {
      assert sorted[i] in sorted;
      var k :| 0 <= k < |d.keys| && d.keys[k] == sorted[i];
      KeyOutcome(t, k);
    }
    LoadGathers(d.values, sorted);
  }

  /** For every well-formed YAML topology: the printed file loads without error; the links are a permutation of the
      declared ones, each with its delay, bandwidth and queue (100 when absent), loss 0 and backup 0; and the
      subnets and the type are found under their names. */
  lemma RoundTrip(t: Topology, defaults: map<string, string>)
    requires WellFormed(t)
    ensures var d := ReadDictionary(t);
            && ListedOnce(d) && LoadLinks(d).Some? && multiset(LoadLinks(d).value) == multiset(Links(t))
            && Lookup(d, defaults, "leftSubnet") == Some(Single(t.left))
            && Lookup(d, defaults, "rightSubnet") == Some(Single(t.right))
            && Lookup(d, defaults, "topoType") == Some(Single(t.topoType))
    ensures forall i :: 0 <= i < |t.paths| ==>
              var p, l := t.paths[i], Links(t)[i];
              && l.delay == p.delay.Value() && l.bandwidth == p.bandwidth.Value() && l.loss == 0.0 && l.backup == 0
              && l.queueSize == (if p.queue.Some? then p.queue.value else 100)
              && (p.name.Typed? ==> l.linkType == p.name.linkType && l.id == p.name.id)
              && (p.name.Unnamed? ==> l.linkType == "c2r" && l.id == i)
              && (p.name.Named? ==> var parts := Split(p.name.name, '_');
                                    |parts| == 2 && l.linkType == parts[0] && PyInt(parts[1]) == Some(l.id))
  {
    hide WellFormed, ReadDictionary, LinkOf, KeyOf, TripletOf, LoadLinks, Links;
    DictionaryRoundTrip(t);
    SortedKeysLoad(t, ReadDictionary(t));
    forall i | 0 <= i < |t.paths|
      ensures WellFormedPath(t.paths[i], i) && Links(t)[i] == LinkOf(t.paths[i], i)
    {
      LinkAtIs(t, i);
    }
    LinkFields(t);
  }

  lemma LinkAtIs(t: Topology, i: nat)
    requires WellFormed(t) && i < |t.paths|
    ensures WellFormedPath(t.paths[i], i) && Links(t)[i] == LinkOf(t.paths[i], i)
  {
  }

  lemma LinkFields(t: Topology)
    requires forall i :: 0 <= i < |t.paths| ==> WellFormedPath(t.paths[i], i)
    ensures forall i :: 0 <= i < |t.paths| ==>
              var p, l := t.paths[i], LinkOf(t.paths[i], i);
              && l.delay == p.delay.Value() && l.bandwidth == p.bandwidth.Value() && l.loss == 0.0 && l.backup == 0
              && l.queueSize == (if p.queue.Some? then p.queue.value else 100)
              && (p.name.Typed? ==> l.linkType == p.name.linkType && l.id == p.name.id)
              && (p.name.Unnamed? ==> l.linkType == "c2r" && l.id == i)
              && (p.name.Named? ==> var parts := Split(p.name.name, '_');
                                    |parts| == 2 && l.linkType == parts[0] && PyInt(parts[1]) == Some(l.id))
  {
    hide Split, PyInt;
  }

  // ------------------------------------------------------------ the other forms of a value

  lemma TwoParts(d: string, b: string)
    requires Free(d, ',') && Free(b, ',')
    ensures Split(d + "," + b, ',') == [d, b]
  {
    SplitFirst(d, b, ',');
    SplitWhole(b, ',');
  }

  lemma FourParts(d: string, q: string, b: string, l: string)
    requires Free(d, ',') && Free(q, ',') && Free(b, ',') && Free(l, ',')
    ensures Split(d + "," + q + "," + b + "," + l, ',') == [d, q, b, l]
  {
    hide Split, Free;
    assert d + "," + q + "," + b + "," + l == d + "," + (q + "," + b + "," + l);
    ThreeParts(q, b, l);
    SplitFirst(d, q + "," + b + "," + l, ',');
  }

  lemma FiveParts(d: string, q: string, b: string, l: string, k: string)
    requires Free(d, ',') && Free(q, ',') && Free(b, ',') && Free(l, ',') && Free(k, ',')
    ensures Split(d + "," + q + "," + b + "," + l + "," + k, ',') == [d, q, b, l, k]
  {
    hide Split, Free;
    assert d + "," + q + "," + b + "," + l + "," + k == d + "," + (q + "," + b + "," + l + "," + k);
    FourParts(q, b, l, k);
    SplitFirst(d, q + "," + b + "," + l + "," + k, ',');
  }

  lemma NumReads(x: Num)
    requires x.Valid()
    ensures Free(x.Text(), ',') && PyFloat(x.Text()) == Some(x.Value())
  {
    hide PyFloat, Free;
    NumText(x, ',');
    FloatRoundTrip(x);
  }

  lemma DecReads(n: nat)
    ensures Free(Dec(n), ',') && PyInt(Dec(n)) == Some(n)
  {
    hide PyInt;
    PyIntDec(n);
  }

  /** The forms of a value that the runner does not print: delay and bandwidth alone, whose queue is the packets in
      flight; with a loss rate; and with a backup flag behind it. */
  lemma OtherForms(d: Num, q: nat, b: Num, l: Num, k: nat)
    requires d.Valid() && b.Valid() && l.Valid()
    ensures var inFlight := BufferSize.Ceil(b.Value() * d.Value() / 6.0);
            ParseCharacteristics(d.Text() + "," + b.Text()) == Some(Numbers(d.Value(), b.Value(), inFlight, 0.0, 0))
    ensures ParseCharacteristics(d.Text() + "," + Dec(q) + "," + b.Text()) == Some(Numbers(d.Value(), b.Value(), q, 0.0, 0))
    ensures ParseCharacteristics(d.Text() + "," + Dec(q) + "," + b.Text() + "," + l.Text())
            == Some(Numbers(d.Value(), b.Value(), q, l.Value(), 0))
    ensures ParseCharacteristics(d.Text() + "," + Dec(q) + "," + b.Text() + "," + l.Text() + "," + Dec(k))
            == Some(Numbers(d.Value(), b.Value(), q, l.Value(), k))
  {
    hide PyFloat, PyInt, Split, Free, Dec, Num.Text, Num.Value, BufferSize.PacketsInFlight;
    NumReads(d);
    NumReads(b);
    NumReads(l);
    DecReads(q);
    DecReads(k);
    TwoParts(d.Text(), b.Text());
    ThreeParts(d.Text(), Dec(q), b.Text());
    FourParts(d.Text(), Dec(q), b.Text(), l.Text());
    FiveParts(d.Text(), Dec(q), b.Text(), l.Text(), Dec(k));
    BufferSize.PacketsCoverRoundTrip(d.Value(), b.Value());
  }

  /** Any other number of fields is refused, and such a path ignored. */
  lemma OtherCountsAreIgnored(linkType: string, id: nat, value: string)
    requires Free(linkType, '_') && (|Split(value, ',')| < 2 || |Split(value, ',')| > 5)
    ensures LoadKey("path_" + linkType + "_" + Dec(id), Single(value)) == Skipped
  {
    hide ParseKey;
  }

  /** The file as text: the two subnets, a line for each path, and the type. */
  lemma PrintedFile(t: Topology, i: nat)
    requires i < |t.paths|
    ensures var lines, p := LegacyLines(t), t.paths[i];
            && |lines| == |t.paths| + 3
            && lines[0] == "leftSubnet:" + t.left && lines[1] == "rightSubnet:" + t.right
            && lines[|t.paths| + 2] == "topoType:" + t.topoType
            && var key := (match p.name
                           case Typed(linkType, id) => linkType + "_" + Dec(id)
                           case Named(name) => name
                           case Unnamed => "c2r_" + Dec(i));
               var queue := if p.queue.Some? then Dec(p.queue.value) else "100";
               lines[i + 2] == "path_" + key + ":" + p.delay.Text() + "," + queue + "," + p.bandwidth.Text()
  {
    hide Num.Text;
    var es, lines := Entries(t), LegacyLines(t);
    HundredText();
    assert lines[0] == LineOf(es[0]) && lines[1] == LineOf(es[1]) && lines[|t.paths| + 2] == LineOf(es[|t.paths| + 2]);
    assert es[i + 2] == (KeyOf(t.paths[i], i), TripletOf(t.paths[i]));
    LineText(t.paths[i], i);
    assert lines[i + 2] == LineOf(es[i + 2]);
  }

  lemma HundredText()
    ensures Dec(100) == "100"
  {
    assert DigitChar(1) == '1' && DigitChar(0) == '0';
    assert Dec(1) == "1" && Dec(10) == Dec(1) + [DigitChar(0)] && Dec(100) == Dec(10) + [DigitChar(0)];
  }

  lemma LineText(p: Path, i: nat)
    ensures var key := (match p.name
                        case Typed(linkType, id) => linkType + "_" + Dec(id)
                        case Named(name) => name
                        case Unnamed => "c2r_" + Dec(i));
            LineOf((KeyOf(p, i), TripletOf(p)))
            == "path_" + key + ":" + p.delay.Text() + ","
               + (if p.queue.Some? then Dec(p.queue.value) else Dec(100)) + "," + p.bandwidth.Text()
  {
    hide Num.Text, Dec;
  }

  // ------------------------------------------------------------ when loading stops

  /** A key of the form `path…_type_id`. */
  predicate IsPathKey(key: string) {
    && "path" <= key && |Split(key, '_')| == 3 && PyInt(Split(key, '_')[2]).Some?
  }

  /** The program stops at a path that is declared twice, or has well-formed numbers and no bandwidth. */
  predicate Stops(key: string, value: Value) {
    IsPathKey(key)
    && match value
       case Many(_) => true
       case Single(text) =>
         var numbers := ParseCharacteristics(text);
         numbers.Some? && numbers.value.bandwidth == 0.0
  }

  lemma CrashedWhen(key: string, value: Value)
    ensures LoadKey(key, value).Crashed? <==> Stops(key, value)
  {
    hide ParseCharacteristics, Split, PyInt;
  }

  lemma {:induction false} LoadKeysStops(values: map<string, Value>, keys: seq<string>)
    requires AllIn(keys, values)
    ensures LoadKeys(values, keys).None? <==> exists i :: 0 <= i < |keys| && LoadKey(keys[i], values[keys[i]]).Crashed?
    decreases |keys|
  {
    hide LoadKey;
    if keys != [] {
      var front := keys[..|keys| - 1];
      LoadKeysStops(values, front);
      if i :| 0 <= i < |keys| && LoadKey(keys[i], values[keys[i]]).Crashed? {
        assert i < |front| ==> front[i] == keys[i];
      }
    }
  }

  /** For every file: loading stops the program exactly when the file has a path key that is repeated, or whose numbers
      are well-formed with a bandwidth of zero. Every other unusable line is only passed over. */
  lemma LoadingStopsExactly(lines: seq<string>)
    ensures var d := Load(lines);
            ListedOnce(d) && (LoadLinks(d).None? <==> exists key: string :: key in d.values && Stops(key, d.values[key]))
  {
    hide LoadKey, Stops, LoadKeys, Load, O.Sort;
    KeysAreListedOnce(lines);
    var d := Load(lines);
    var sorted := O.Sort(d.keys);
    O.SortSorts(d.keys);
    assert AllIn(sorted, d.values) by {
      assert forall i :: 0 <= i < |sorted| ==> sorted[i] in sorted;
    }
    LoadKeysStops(d.values, sorted);
    forall key: string | key in d.values
      ensures exists i :: 0 <= i < |sorted| && sorted[i] == key
    {
      assert key in d.keys && key in sorted;
    }
    forall i | 0 <= i < |sorted|
      ensures LoadKey(sorted[i], d.values[sorted[i]]).Crashed? <==> Stops(sorted[i], d.values[sorted[i]])
    {
      CrashedWhen(sorted[i], d.values[sorted[i]]);
    }
  }
}
