/** The legacy parameter file: reading it line by line into a dictionary that collects repeated keys. */
module Parameters {
  import opened Text

  /** A dictionary value: a string, or the list it becomes when its key is repeated. */
  datatype Value = Single(text: string) | Many(texts: seq<string>)

  /** A dictionary with its keys in order of insertion. */
  datatype Dictionary = Dictionary(keys: seq<string>, values: map<string, Value>)

  const Empty: Dictionary := Dictionary([], map[])

  /** The key and value of a line, unless it is a comment or does not have exactly one colon. */
  function Entry(line: string): Option<(string, string)> {
    if line != "" && line[0] == '#' then None
    else
      var parts := Split(Strip(line), ':');
      if |parts| == 2 then Some((parts[0], parts[1])) else None
  }

  /** A line gives a key and a value exactly when it is no comment and, stripped, consists of the two around a colon. */
  lemma EntryMeans(line: string, key: string, text: string)
    ensures Entry(line) == Some((key, text)) <==>
            !(line != "" && line[0] == '#') && Free(key, ':') && Free(text, ':') && Strip(line) == key + ":" + text
  {
    hide Strip;
    SplitTwo(Strip(line), ':');
    if Free(key, ':') && Free(text, ':') && Strip(line) == key + ":" + text {
      SplitFirst(key, text, ':');
      SplitWhole(text, ':');
    }
  }

  function Extend(v: Value, text: string): Value {
    match v case Single(first) => Many([first] + [text]) case Many(texts) => Many(texts + [text])
  }

  function Insert(d: Dictionary, key: string, text: string): Dictionary {
    if key in d.values then Dictionary(d.keys, d.values[key := Extend(d.values[key], text)])
    else Dictionary(d.keys + [key], d.values[key := Single(text)])
  }

  function AddLine(d: Dictionary, line: string): Dictionary {
    match Entry(line) case None => d case Some((key, text)) => Insert(d, key, text)
  }

  function Load(lines: seq<string>): Dictionary {
    if lines == [] then Empty else AddLine(Load(lines[..|lines| - 1]), lines[|lines| - 1])
  }

  /** What `get` returns: the file's value, the default, or an exception. */
  function Lookup(d: Dictionary, defaults: map<string, string>, key: string): Option<Value> {
    if key in d.values then Some(d.values[key])
    else if key in defaults then Some(Single(defaults[key]))
    else None
  }

  class Parameter {
    var keys: seq<string>
    var values: map<string, Value>
    var defaultParameters: map<string, string>

    ghost function View(): Dictionary
      reads this
    {
      Dictionary(keys, values)
    }

    constructor (defaults: map<string, string>)
      ensures View() == Empty && defaultParameters == defaults
    {
      keys, values, defaultParameters := [], map[], defaults;
    }

    method LoadParameterFile(lines: seq<string>)
      requires View() == Empty
      modifies this`keys, this`values
      ensures View() == Load(lines)
    {
      for i := 0 to |lines|
        invariant View() == Load(lines[..i])
      {
        hide Strip, Split;
        assert lines[..i + 1][..i] == lines[..i];
        var entry := Entry(lines[i]);
        if entry.Some? {
          var (key, value) := entry.value;
          if key in values {
            var list := if values[key].Single? then [values[key].text] else values[key].texts;
            values := values[key := Many(list + [value])];
          } else {
            keys := keys + [key];
            values := values[key := Single(value)];
          }
        }
      }
      assert lines[..|lines|] == lines;
    }

    method Get(key: string) returns (v: Option<Value>)
      ensures v == Lookup(View(), defaultParameters, key)
    {
      if key in values {
        v := Some(values[key]);
      } else if key in defaultParameters {
        v := Some(Single(defaultParameters[key]));
      } else {
        v := None;
      }
    }
  }

  // ------------------------------------------------------------ the dictionary is a multimap

  /** The values a file gives to a key, in file order. */
  function ValuesOf(lines: seq<string>, key: string): seq<string> {
    if lines == [] then []
    else
      var before := ValuesOf(lines[..|lines| - 1], key);
      match Entry(lines[|lines| - 1])
      case None => before
      case Some((k, text)) => if k == key then before + [text] else before
  }

  function Collected(texts: seq<string>): Option<Value> {
    if texts == [] then None else if |texts| == 1 then Some(Single(texts[0])) else Some(Many(texts))
  }

  /** For every file and key, `get` returns all the file's values of the key in file order: a string when there is
      one, a list when there are several, and the default only when there is none. */
  lemma {:induction false} DictionaryIsMultimap(lines: seq<string>, key: string, defaults: map<string, string>)
    ensures var d := Load(lines);
            && (key in d.values <==> ValuesOf(lines, key) != [])
            && (key in d.values ==> Some(d.values[key]) == Collected(ValuesOf(lines, key)))
            && Lookup(d, defaults, key) ==
               if ValuesOf(lines, key) != [] then Collected(ValuesOf(lines, key))
               else if key in defaults then Some(Single(defaults[key])) else None
  {
    if lines != [] {
      hide Entry;
      DictionaryIsMultimap(lines[..|lines| - 1], key, defaults);
      var before := ValuesOf(lines[..|lines| - 1], key);
      assert |before| == 1 ==> before == [before[0]];
    }
  }

  predicate Distinct(keys: seq<string>) {
    forall i, j :: 0 <= i < j < |keys| ==> keys[i] != keys[j]
  }

  /** The key list names exactly the keys, each once. */
  ghost predicate ListedOnce(d: Dictionary) {
    Distinct(d.keys) && forall k: string :: k in d.keys <==> k in d.values
  }

  lemma InsertListsOnce(d: Dictionary, key: string, text: string)
    requires ListedOnce(d)
    ensures ListedOnce(Insert(d, key, text))
  {
    var e := Insert(d, key, text);
    if key !in d.values {
      assert forall k :: k in e.keys <==> k in d.keys || k == key;
      assert forall i :: 0 <= i < |d.keys| ==> d.keys[i] in d.keys;
    }
  }

  lemma {:induction false} KeysAreListedOnce(lines: seq<string>)
    ensures ListedOnce(Load(lines))
  {
    if lines != [] {
      hide Entry, Insert;
      KeysAreListedOnce(lines[..|lines| - 1]);
      var entry := Entry(lines[|lines| - 1]);
      if entry.Some? {
        InsertListsOnce(Load(lines[..|lines| - 1]), entry.value.0, entry.value.1);
      }
    }
  }

  // ------------------------------------------------------------ the lines of a text

  /** Text-mode reading turns every line end into a newline. */
  function Universal(text: string): string {
    if text == "" then ""
    else if text[0] == '\r' then
      "\n" + Universal(if |text| > 1 && text[1] == '\n' then text[2..] else text[1..])
    else text[..1] + Universal(text[1..])
  }

  /** `readlines`: the lines with their newlines. */
  function Lines(text: string): seq<string> {
    if text == "" then []
    else if text[0] == '\n' then ["\n"] + Lines(text[1..])
    else
      var rest := Lines(text[1..]);
      if rest == [] then [text[..1]] else [text[..1] + rest[0]] + rest[1..]
  }

  function ReadLines(text: string): seq<string> {
    Lines(Universal(text))
  }

  lemma {:induction false} UniversalPlain(text: string)
    requires Free(text, '\r')
    ensures Universal(text) == text
  {
    if text != "" {
      UniversalPlain(text[1..]);
      assert text[..1] + text[1..] == text;
    }
  }

  lemma {:induction false} LinesFirst(line: string, rest: string)
    requires Free(line, '\n')
    ensures Lines(line + "\n" + rest) == [line + "\n"] + Lines(rest)
  {
    var text := line + "\n" + rest;
    if line == "" {
      assert text[1..] == rest && line + "\n" == "\n";
    } else {
      LinesFirst(line[1..], rest);
      assert text[1..] == line[1..] + "\n" + rest;
      assert text[..1] + (line[1..] + "\n") == line + "\n";
    }
  }

  /** Whichever way a line ends, it is read with a newline. */
  lemma {:induction false} LineEndsAreOne(line: string, rest: string)
    requires PlainLine(line)
    ensures ReadLines(line + "\n" + rest) == [line + "\n"] + ReadLines(rest)
    ensures ReadLines(line + "\r\n" + rest) == [line + "\n"] + ReadLines(rest)
    ensures rest == "" || rest[0] != '\n' ==> ReadLines(line + "\r" + rest) == [line + "\n"] + ReadLines(rest)
  {
    hide Lines;
    UniversalAfter(line, "\n" + rest);
    UniversalAfter(line, "\r\n" + rest);
    UniversalAfter(line, "\r" + rest);
    assert line + "\n" + rest == line + ("\n" + rest) && line + "\r\n" + rest == line + ("\r\n" + rest)
           && line + "\r" + rest == line + ("\r" + rest);
    UniversalEnds(rest);
    assert line + ("\n" + Universal(rest)) == line + "\n" + Universal(rest);
    LinesFirst(line, Universal(rest));
  }

  lemma UniversalEnds(rest: string)
    ensures Universal("\n" + rest) == "\n" + Universal(rest) && Universal("\r\n" + rest) == "\n" + Universal(rest)
    ensures rest == "" || rest[0] != '\n' ==> Universal("\r" + rest) == "\n" + Universal(rest)
  {
    assert ("\n" + rest)[1..] == rest && ("\n" + rest)[..1] == "\n";
    assert ("\r\n" + rest)[2..] == rest && ("\r\n" + rest)[1] == '\n';
    assert ("\r" + rest)[1..] == rest;
  }

  lemma {:induction false} UniversalAfter(line: string, rest: string)
    requires Free(line, '\r')
    ensures Universal(line + rest) == line + Universal(rest)
  {
    if line == "" {
      assert line + rest == rest;
    } else {
      UniversalAfter(line[1..], rest);
      assert (line + rest)[1..] == line[1..] + rest && (line + rest)[..1] == line[..1];
      assert line[..1] + (line[1..] + Universal(rest)) == line + Universal(rest);
    }
  }

  /** `"\n".join(lines) + "\n"`. */
  function JoinLines(lines: seq<string>): string {
    if lines == [] then "" else lines[0] + "\n" + JoinLines(lines[1..])
  }

  predicate PlainLine(line: string) {
    Free(line, '\n') && Free(line, '\r')
  }

  lemma {:induction false} JoinLinesPlain(lines: seq<string>)
    requires forall i :: 0 <= i < |lines| ==> PlainLine(lines[i])
    ensures Free(JoinLines(lines), '\r')
  {
    if lines != [] {
      JoinLinesPlain(lines[1..]);
    }
  }

  lemma {:induction false} LinesOfJoin(lines: seq<string>)
    requires forall i :: 0 <= i < |lines| ==> PlainLine(lines[i])
    ensures |Lines(JoinLines(lines))| == |lines|
    ensures forall i :: 0 <= i < |lines| ==> Lines(JoinLines(lines))[i] == lines[i] + "\n"
  {
    if lines != [] {
      LinesOfJoin(lines[1..]);
      LinesFirst(lines[0], JoinLines(lines[1..]));
    }
  }

  /** A file written from plain lines is read back as these lines. */
  lemma ReadBack(lines: seq<string>)
    requires forall i :: 0 <= i < |lines| ==> PlainLine(lines[i])
    ensures |ReadLines(JoinLines(lines))| == |lines|
    ensures forall i :: 0 <= i < |lines| ==> ReadLines(JoinLines(lines))[i] == lines[i] + "\n"
  {
    JoinLinesPlain(lines);
    UniversalPlain(JoinLines(lines));
    LinesOfJoin(lines);
  }
}
