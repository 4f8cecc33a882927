/** Saving, writing and restoring kernel settings around an experiment, in three namespaces. */
module Sysctl {
  import opened Text

  // ------------------------------------------------------------ the `sysctl` program

  /** What the kernel makes of a text written to a key: the value it then shows, or a refusal. */
  type Kernel = (string, string) -> Option<string>

  type Settings = map<string, string>

  function ReadCommand(key: string): string {
    "sysctl " + key
  }

  function WriteCommand(key: string, value: string): string {
    ReadCommand(key) + "=\"" + value + "\""
  }

  /** Texts the shell passes on unchanged between double quotes. */
  predicate Plain(s: string) {
    Free(s, '"') && Free(s, '$') && Free(s, '`') && Free(s, '\\')
  }

  /** Names of settings. */
  predicate PlainKey(s: string) {
    Free(s, ' ') && Free(s, '=') && Free(s, '"')
  }

  /** The part of a text after its first c. */
  function After(s: string, c: char): Option<string> {
    if s == "" then None else if s[0] == c then Some(s[1..]) else After(s[1..], c)
  }

  function Before(s: string, c: char): string {
    if s == "" || s[0] == c then "" else [s[0]] + Before(s[1..], c)
  }

  /** The key and text of a write command, as shell and program read it; other quotings are refused. */
  function ParseWrite(cmd: string): Option<(string, string)> {
    if !("sysctl " <= cmd) then None
    else
      match After(cmd[7..], '=')
      case None => None
      case Some(quoted) =>
        if |quoted| >= 2 && quoted[0] == '"' && quoted[|quoted| - 1] == '"' && Plain(quoted[1..|quoted| - 1]) then
          Some((Before(cmd[7..], '='), quoted[1..|quoted| - 1]))
        else None
  }

  /** A setting that exists takes the value the kernel makes of the text; everything else stays. */
  function Written(kernel: Kernel, s: Settings, key: string, text: string): Settings {
    if key in s && kernel(key, text).Some? then s[key := kernel(key, text).value] else s
  }

  function Exec(kernel: Kernel, s: Settings, cmd: string): Settings {
    match ParseWrite(cmd) case None => s case Some((key, text)) => Written(kernel, s, key, text)
  }

  function Shown(key: string, value: string): string {
    key + " = " + value + "\n"
  }

  function NoSuchKey(key: string): string {
    "sysctl: cannot stat /proc/sys/" + key + ": No such file or directory\n"
  }

  /** Reading in a namespace prints the setting or the error text. */
  function ReadIn(s: Settings, key: string): string {
    if key in s then Shown(key, s[key]) else NoSuchKey(key)
  }

  /** Reading globally gives the word `Error` when the program complains. */
  function ReadGlobal(s: Settings, unreadable: set<string>, key: string): string {
    if key in s && key !in unreadable then Shown(key, s[key]) else "Error"
  }

  /** `val.split(" ", 2)[2][:-1]`; `None` stands for IndexError. */
  function ThirdField(out: string): Option<string> {
    match After(out, ' ')
    case None => None
    case Some(rest) =>
      match After(rest, ' ')
      case None => None
      case Some(field) => Some(if field == "" then "" else field[..|field| - 1])
  }

  // ------------------------------------------------------------ string facts

  lemma {:induction false} AfterFree(a: string, b: string, c: char)
    requires Free(a, c)
    ensures After(a + [c] + b, c) == Some(b) && Before(a + [c] + b, c) == a
  {
    var s := a + [c] + b;
    if a == "" {
      assert s[1..] == b;
    } else {
      AfterFree(a[1..], b, c);
      assert s[1..] == a[1..] + [c] + b && [a[0]] + a[1..] == a;
    }
  }

  /** Whatever the value, with spaces, tabs or line ends, reading gives it back. */
  lemma ShownIsRecovered(key: string, value: string)
    requires PlainKey(key)
    ensures ThirdField(Shown(key, value)) == Some(value)
  {
    assert Shown(key, value) == key + " " + ("=" + " " + (value + "\n"));
    AfterFree(key, "=" + " " + (value + "\n"), ' ');
    AfterFree("=", value + "\n", ' ');
    assert (value + "\n")[..|value + "\n"| - 1] == value;
  }

  lemma ErrorTextHasFields(key: string)
    ensures ThirdField(NoSuchKey(key)).Some?
  {
    var rest := "stat /proc/sys/" + key + ": No such file or directory\n";
    assert NoSuchKey(key) == "sysctl:" + " " + ("cannot" + " " + rest);
    AfterFree("sysctl:", "cannot" + " " + rest, ' ');
    AfterFree("cannot", rest, ' ');
  }

  /** A write command writes its text to its key. */
  lemma CommandWrites(kernel: Kernel, s: Settings, key: string, value: string)
    requires PlainKey(key)
    ensures Exec(kernel, s, WriteCommand(key, value)) == if Plain(value) then Written(kernel, s, key, value) else s
  {
    var cmd, quoted := WriteCommand(key, value), "\"" + value + "\"";
    assert cmd[..7] == "sysctl " && cmd[7..] == key + "=" + quoted;
    AfterFree(key, quoted, '=');
    assert quoted[1..|quoted| - 1] == value;
  }

  // ------------------------------------------------------------ one namespace

  /** Parameter names with their kernel keys, in order. */
  type Names = seq<(string, string)>

  ghost predicate PlainNames(names: Names) {
    (forall i :: 0 <= i < |names| ==> PlainKey(names[i].1))
    && forall i, j :: 0 <= i < j < |names| ==> names[i].0 != names[j].0
  }

  function KeyOf(names: Names, name: string): (key: string)
    ensures forall i :: 0 <= i < |names| && names[i].0 == name && (forall j :: 0 <= j < i ==> names[j].0 != name) ==> key == names[i].1
  {
    if names == [] then "" else if names[0].0 == name then names[0].1 else KeyOf(names[1..], name)
  }

  /** The values to restore, by name; `None` when a reading cannot be taken apart. */
  function Saved(names: Names, read: string -> string): Option<seq<(string, string)>> {
    if names == [] then Some([])
    else
      var last := names[|names| - 1];
      match Saved(names[..|names| - 1], read)
      case None => None
      case Some(before) =>
        if read(last.1) == "Error" then Some(before)
        else match ThirdField(read(last.1)) case None => None case Some(v) => Some(before + [(last.0, v)])
  }

  /** The saved names are written in turn, each with a text chosen by name. */
  function WriteAll(kernel: Kernel, s: Settings, names: Names, saved: seq<(string, string)>, text: (string, string) -> string): Settings {
    if saved == [] then s
    else
      var (name, value) := saved[|saved| - 1];
      Exec(kernel, WriteAll(kernel, s, names, saved[..|saved| - 1], text), WriteCommand(KeyOf(names, name), text(name, value)))
  }

  // ------------------------------------------------------------ the three namespaces

  datatype Who = Root | Client | Server

  datatype State = State(root: Settings, client: Settings, server: Settings) {
    function At(who: Who): Settings {
      match who case Root => root case Client => client case Server => server
    }

    function With(who: Who, s: Settings): State {
      match who case Root => this.(root := s) case Client => this.(client := s) case Server => this.(server := s)
    }
  }

  const SYSCTL_KEY: Names := [
    ("rmem", "net.ipv4.tcp_rmem"), ("wmem", "net.ipv4.tcp_wmem"), ("mptcpEnabled", "net.mptcp.mptcp_enabled"),
    ("kpm", "net.mptcp.mptcp_path_manager"), ("sched", "net.mptcp.mptcp_scheduler"),
    ("congctrl", "net.ipv4.tcp_congestion_control"), ("autocork", "net.ipv4.tcp_autocorking"),
    ("earlyRetrans", "net.ipv4.tcp_early_retrans"), ("bufferAutotuning", "net.ipv4.tcp_moderate_rcvbuf")]

  const SYSCTL_KEY_CLIENT: Names := [("kpmc", "net.mptcp.mptcp_path_manager")]

  const SYSCTL_KEY_SERVER: Names := [("kpms", "net.mptcp.mptcp_path_manager")]

  function NamesOf(who: Who): Names {
    match who case Root => SYSCTL_KEY case Client => SYSCTL_KEY_CLIENT case Server => SYSCTL_KEY_SERVER
  }

  /** What reading a key prints in a namespace; only the global reading can fail. */
  function Reading(st: State, unreadable: set<string>, who: Who): string -> string {
    key => if who.Root? then ReadGlobal(st.root, unreadable, key) else ReadIn(st.At(who), key)
  }

  /** The machine: its settings, and the keys whose global reading fails although they exist. */
  class Machine {
    const kernel: Kernel
    const unreadable: set<string>
    var state: State

    constructor (kernel: Kernel, unreadable: set<string>, state: State)
      ensures this.kernel == kernel && this.unreadable == unreadable && this.state == state
    {
      this.kernel, this.unreadable, this.state := kernel, unreadable, state;
    }

    method Read(who: Who, key: string) returns (out: string)
      ensures out == Reading(state, unreadable, who)(key)
    {
      out := if who.Root? then ReadGlobal(state.root, unreadable, key) else ReadIn(state.At(who), key);
    }

    method CommandTo(who: Who, cmd: string)
      modifies this
      ensures state == old(state).With(who, Exec(kernel, old(state).At(who), cmd))
    {
      state := state.With(who, Exec(kernel, state.At(who), cmd));
    }

    /** `sysctl -w key=value` */
    method Assign(who: Who, key: string, text: string)
      modifies this
      ensures state == old(state).With(who, Written(kernel, old(state).At(who), key, text))
    {
      state := state.With(who, Written(kernel, state.At(who), key, text));
    }
  }

  class Experiment {
    const machine: Machine
    const parameter: string -> string
    var toRestore: map<Who, seq<(string, string)>>

    constructor (machine: Machine, parameter: string -> string)
      ensures this.machine == machine && this.parameter == parameter
      ensures toRestore == map[Root := [], Client := [], Server := []]
    {
      this.machine, this.parameter, toRestore := machine, parameter, map[Root := [], Client := [], Server := []];
    }

    /** `_save_sysctl`; `None` for the IndexError of an output without three fields. */
    method SaveInto(who: Who) returns (saved: Option<seq<(string, string)>>)
      ensures saved == Saved(NamesOf(who), Reading(machine.state, machine.unreadable, who))
    {
      hide ThirdField, ReadGlobal, ReadIn, NamesOf, Saved, Reading;
      var names := NamesOf(who);
      ghost var read := Reading(machine.state, machine.unreadable, who);
      var values: seq<(string, string)> := [];
      SavedNone(names, read);
      for i := 0 to |names|
        invariant Saved(names[..i], read) == Some(values)
      {
        SavedNext(names, read, i);
        var out := machine.Read(who, names[i].1);
        if out != "Error" {
          var value := ThirdField(out);
          if value.None? {
            SavedStops(names, read, i + 1);
            return None;
          }
          values := values + [(names[i].0, value.value)];
        }
      }
      assert names[..|names|] == names;
      saved := Some(values);
    }

    method SaveSysctl() returns (ok: bool)
      modifies this
      ensures ok <==> forall who: Who :: Saved(NamesOf(who), Reading(machine.state, machine.unreadable, who)).Some?
      ensures ok ==> toRestore == SavedState(machine.state, machine.unreadable)
      ensures Root in toRestore && Client in toRestore && Server in toRestore
    {
      hide Saved, Reading;
      toRestore := map[Root := [], Client := [], Server := []];
      var root := SaveInto(Root);
      if root.None? {
        return false;
      }
      toRestore := toRestore[Root := root.value];
      var client := SaveInto(Client);
      if client.None? {
        return false;
      }
      toRestore := toRestore[Client := client.value];
      var server := SaveInto(Server);
      if server.None? {
        return false;
      }
      toRestore := toRestore[Server := server.value];
      ok := true;
    }

    /** The loops of `_write_sysctl` and `_restore_sysctl` over one dictionary. */
    method WriteFrom(who: Who, text: (string, string) -> string)
      requires who in toRestore
      modifies machine
      ensures machine.state == old(machine.state).With(who,
                WriteAll(machine.kernel, old(machine.state).At(who), NamesOf(who), toRestore[who], text))
    {
      hide Exec, KeyOf, WriteCommand, WriteAll, NamesOf;
      var saved, names := toRestore[who], NamesOf(who);
      ghost var s := machine.state.At(who);
      assert saved[..0] == [] && WriteAll(machine.kernel, s, names, [], text) == s by { WriteNone(machine.kernel, s, names, text); }
      for i := 0 to |saved|
        invariant machine.state == old(machine.state).With(who, WriteAll(machine.kernel, s, names, saved[..i], text))
      {
        WriteAllNext(machine.kernel, s, names, saved, text, i);
        var (name, value) := saved[i];
        machine.CommandTo(who, WriteCommand(KeyOf(names, name), text(name, value)));
      }
      assert saved[..|saved|] == saved;
    }

    method WriteSysctl()
      requires Root in toRestore && Client in toRestore && Server in toRestore
      modifies machine
      ensures machine.state == WriteState(machine.kernel, old(machine.state), toRestore, (name, _) => parameter(name))
    {
      hide WriteAll;
      var text := (name: string, value: string) => parameter(name);
      WriteFrom(Root, text);
      WriteFrom(Client, text);
      WriteFrom(Server, text);
      assert text == ((name, _) => parameter(name));
    }

    method RestoreSysctl()
      requires Root in toRestore && Client in toRestore && Server in toRestore
      modifies machine
      ensures machine.state == WriteState(machine.kernel, old(machine.state), toRestore, SavedText)
    {
      hide WriteAll;
      WriteFrom(Root, SavedText);
      WriteFrom(Client, SavedText);
      WriteFrom(Server, SavedText);
    }
  }

  /** The whole life of an experiment, whose run writes settings of its own. */
  method Perform(e: Experiment, run: RunWrites)
    modifies e, e.machine
    ensures e.machine.state == Transacted(e.machine.kernel, old(e.machine.state), e.machine.unreadable, e.parameter, run)
  {
    hide WriteState, SavedState, Saved, Reading, NamesOf, RunAll;
    var machine := e.machine;
    forall who: Who
      ensures Saved(NamesOf(who), Reading(machine.state, machine.unreadable, who)).Some?
    {
      SavingNeverStops(machine.state, machine.unreadable, who);
    }
    var ok := e.SaveSysctl();
    e.WriteSysctl();
    ghost var started := machine.state;
    assert run[..0] == [] && RunAll(machine.kernel, started, []) == started by { RunNone(machine.kernel, started); }
    for i := 0 to |run|
      invariant e.toRestore == SavedState(old(machine.state), machine.unreadable)
      invariant machine.state == RunAll(machine.kernel, started, run[..i])
    {
      RunNext(machine.kernel, started, run, i);
      var (who, key, text) := run[i];
      machine.Assign(who, key, text);
    }
    assert run[..|run|] == run;
    e.RestoreSysctl();
  }

  lemma RunNone(kernel: Kernel, st: State)
    ensures RunAll(kernel, st, []) == st
  {
  }

  lemma RunNext(kernel: Kernel, st: State, run: RunWrites, i: nat)
    requires i < |run|
    ensures RunAll(kernel, st, run[..i + 1]) ==
            var before := RunAll(kernel, st, run[..i]);
            before.With(run[i].0, Written(kernel, before.At(run[i].0), run[i].1, run[i].2))
  {
    hide Written;
    assert run[..i + 1][..i] == run[..i];
  }

  function SavedText(name: string, value: string): string {
    value
  }

  lemma SavedNone(names: Names, read: string -> string)
    ensures Saved(names[..0], read) == Some([])
  {
  }

  lemma SavedNext(names: Names, read: string -> string, i: nat)
    requires i < |names| && Saved(names[..i], read).Some?
    ensures Saved(names[..i + 1], read) ==
            var before := Saved(names[..i], read).value;
            if read(names[i].1) == "Error" then Some(before)
            else if ThirdField(read(names[i].1)).None? then None
            else Some(before + [(names[i].0, ThirdField(read(names[i].1)).value)])
  {
    hide ThirdField;
    assert names[..i + 1][..i] == names[..i];
  }

  lemma WriteNone(kernel: Kernel, s: Settings, names: Names, text: (string, string) -> string)
    ensures WriteAll(kernel, s, names, [], text) == s
  {
  }

  lemma WriteAllNext(kernel: Kernel, s: Settings, names: Names, saved: seq<(string, string)>, text: (string, string) -> string, i: nat)
    requires i < |saved|
    ensures WriteAll(kernel, s, names, saved[..i + 1], text)
            == Exec(kernel, WriteAll(kernel, s, names, saved[..i], text), WriteCommand(KeyOf(names, saved[i].0), text(saved[i].0, saved[i].1)))
  {
    hide Exec, WriteCommand, KeyOf;
    assert saved[..i + 1][..i] == saved[..i];
  }

  lemma {:induction false} SavedStops(names: Names, read: string -> string, i: nat)
    requires i <= |names| && Saved(names[..i], read).None?
    ensures Saved(names, read).None?
    decreases |names|
  {
    hide ThirdField;
    if i == |names| {
      assert names[..i] == names;
    } else {
      assert names[..|names| - 1][..i] == names[..i];
      SavedStops(names[..|names| - 1], read, i);
    }
  }

  function SavedOf(st: State, unreadable: set<string>, who: Who): seq<(string, string)> {
    match Saved(NamesOf(who), Reading(st, unreadable, who)) case None => [] case Some(saved) => saved
  }

  function SavedState(st: State, unreadable: set<string>): map<Who, seq<(string, string)>> {
    map[Root := SavedOf(st, unreadable, Root), Client := SavedOf(st, unreadable, Client), Server := SavedOf(st, unreadable, Server)]
  }

  function WriteState(kernel: Kernel, st: State, saved: map<Who, seq<(string, string)>>, text: (string, string) -> string): State
    requires Root in saved && Client in saved && Server in saved
  {
    State(WriteAll(kernel, st.root, NamesOf(Root), saved[Root], text), WriteAll(kernel, st.client, NamesOf(Client), saved[Client], text),
          WriteAll(kernel, st.server, NamesOf(Server), saved[Server], text))
  }

  // ------------------------------------------------------------ what is saved

  lemma {:induction false} KeyOfName(names: Names, i: nat)
    requires PlainNames(names) && i < |names|
    ensures KeyOf(names, names[i].0) == names[i].1
  {
    if i > 0 {
      assert names[0].0 != names[i].0;
      KeyOfName(names[1..], i - 1);
    }
  }

  lemma PlainFront(names: Names)
    requires PlainNames(names) && names != []
    ensures PlainNames(names[..|names| - 1]) && PlainKey(names[|names| - 1].1)
  {
  }

  /** Reading a key gives `Error`, or a text with three fields. */
  lemma ReadingFields(st: State, unreadable: set<string>, who: Who, key: string)
    requires PlainKey(key)
    ensures var out := Reading(st, unreadable, who)(key);
            && (out == "Error" <==> who.Root? && (key !in st.root || key in unreadable))
            && (out != "Error" ==> ThirdField(out).Some?)
            && (out != "Error" && key in st.At(who) ==> ThirdField(out) == Some(st.At(who)[key]))
  {
    hide ThirdField, PlainKey;
    var s := st.At(who);
    if key in s {
      ShownIsRecovered(key, s[key]);
      assert Shown(key, s[key])[|Shown(key, s[key])| - 1] == '\n';
    } else {
      ErrorTextHasFields(key);
      assert NoSuchKey(key)[0] == 's';
    }
  }

  /** Saving never stops. */
  lemma {:induction false} SavingSucceeds(names: Names, st: State, unreadable: set<string>, who: Who)
    requires PlainNames(names)
    ensures Saved(names, Reading(st, unreadable, who)).Some?
    decreases |names|
  {
    hide ThirdField, Reading, PlainKey;
    if names != [] {
      PlainFront(names);
      SavingSucceeds(names[..|names| - 1], st, unreadable, who);
      ReadingFields(st, unreadable, who, names[|names| - 1].1);
    }
  }

  /** Every saved entry is the name of a key that was read, with its value when the key exists. */
  ghost predicate EntryIsRead(names: Names, st: State, unreadable: set<string>, who: Who, entry: (string, string)) {
    exists i :: 0 <= i < |names| && entry.0 == names[i].0 && SavedKey(st, unreadable, who, names[i].1, entry.1)
  }

  predicate SavedKey(st: State, unreadable: set<string>, who: Who, key: string, value: string) {
    (who.Root? ==> key in st.root && key !in unreadable) && (key in st.At(who) ==> value == st.At(who)[key])
  }

  lemma {:induction false} SavedEntries(names: Names, st: State, unreadable: set<string>, who: Who)
    requires PlainNames(names) && Saved(names, Reading(st, unreadable, who)).Some?
    ensures var saved := Saved(names, Reading(st, unreadable, who)).value;
            forall i :: 0 <= i < |saved| ==> EntryIsRead(names, st, unreadable, who, saved[i])
    decreases |names|
  {
    hide ThirdField, Reading, PlainKey, SavedKey;
    if names != [] {
      var front, last := names[..|names| - 1], names[|names| - 1];
      PlainFront(names);
      SavedEntries(front, st, unreadable, who);
      ReadingFields(st, unreadable, who, last.1);
      forall e: (string, string) | EntryIsRead(front, st, unreadable, who, e)
        ensures EntryIsRead(names, st, unreadable, who, e)
      {
        var i :| 0 <= i < |front| && e.0 == front[i].0 && SavedKey(st, unreadable, who, front[i].1, e.1);
        assert names[i] == front[i];
      }
      LastEntry(names, st, unreadable, who);
    }
  }

  lemma LastEntry(names: Names, st: State, unreadable: set<string>, who: Who)
    requires PlainNames(names) && names != []
    ensures var last, out := names[|names| - 1], Reading(st, unreadable, who)(names[|names| - 1].1);
            out != "Error" ==> ThirdField(out).Some? && EntryIsRead(names, st, unreadable, who, (last.0, ThirdField(out).value))
  {
    hide ThirdField, Reading, PlainKey;
    var last := names[|names| - 1];
    PlainFront(names);
    ReadingFields(st, unreadable, who, last.1);
  }

  /** And every name whose key is read without error has an entry. */
  lemma {:induction false} ReadIsSaved(names: Names, st: State, unreadable: set<string>, who: Who, i: nat)
    requires PlainNames(names) && Saved(names, Reading(st, unreadable, who)).Some? && i < |names|
    requires who.Root? ==> names[i].1 in st.root && names[i].1 !in unreadable
    ensures exists k :: 0 <= k < |Saved(names, Reading(st, unreadable, who)).value|
                        && Saved(names, Reading(st, unreadable, who)).value[k].0 == names[i].0
    decreases |names|
  {
    hide ThirdField, Reading, PlainKey;
    var front, last := names[..|names| - 1], names[|names| - 1];
    var saved := Saved(names, Reading(st, unreadable, who)).value;
    PlainFront(names);
    ReadingFields(st, unreadable, who, last.1);
    if i < |names| - 1 {
      ReadIsSaved(front, st, unreadable, who, i);
      var before := Saved(front, Reading(st, unreadable, who)).value;
      var k :| 0 <= k < |before| && before[k].0 == front[i].0;
      assert saved[k] == before[k];
    } else {
      assert saved[|saved| - 1].0 == last.0;
    }
  }

  // ------------------------------------------------------------ the transaction

  ghost predicate Covered(names: Names, saved: seq<(string, string)>, key: string) {
    exists k :: 0 <= k < |saved| && KeyOf(names, saved[k].0) == key
  }

  lemma {:induction false} KeyOfPlain(names: Names, name: string)
    requires PlainNames(names)
    ensures PlainKey(KeyOf(names, name))
  {
    if names != [] {
      KeyOfPlain(names[1..], name);
    }
  }

  lemma CoveredLast(names: Names, saved: seq<(string, string)>, key: string)
    requires saved != []
    ensures Covered(names, saved, key) <==> Covered(names, saved[..|saved| - 1], key) || KeyOf(names, saved[|saved| - 1].0) == key
  {
    hide KeyOf;
    if k :| 0 <= k < |saved| && KeyOf(names, saved[k].0) == key {
      assert k < |saved| - 1 ==> saved[..|saved| - 1][k] == saved[k];
    }
  }

  /** Writing changes no other setting, and neither adds nor removes one. */
  lemma {:induction false} WritingKeepsOthers(kernel: Kernel, s: Settings, names: Names, saved: seq<(string, string)>,
                                              text: (string, string) -> string, key: string)
    requires PlainNames(names)
    ensures var t := WriteAll(kernel, s, names, saved, text);
            && (key in t <==> key in s) && (key in s && !Covered(names, saved, key) ==> t[key] == s[key])
    decreases |saved|
  {
    hide Exec, WriteCommand, KeyOf, Covered;
    if saved != [] {
      var front := saved[..|saved| - 1];
      var (name, value) := saved[|saved| - 1];
      WritingKeepsOthers(kernel, s, names, front, text, key);
      CoveredLast(names, saved, key);
      KeyOfPlain(names, name);
      CommandWrites(kernel, WriteAll(kernel, s, names, front, text), KeyOf(names, name), text(name, value));
    }
  }

  /** Writing one text to a saved setting leaves it at what the kernel makes of the text, or as it was. */
  lemma {:induction false} WritingSets(kernel: Kernel, s: Settings, names: Names, saved: seq<(string, string)>,
                                       text: (string, string) -> string, key: string, w: string)
    requires PlainNames(names) && key in s
    requires forall k :: 0 <= k < |saved| && KeyOf(names, saved[k].0) == key ==> text(saved[k].0, saved[k].1) == w
    ensures var t := WriteAll(kernel, s, names, saved, text);
            key in t && t[key] == if Covered(names, saved, key) && Plain(w) && kernel(key, w).Some? then kernel(key, w).value else s[key]
    decreases |saved|
  {
    hide Exec, WriteCommand, KeyOf, Plain;
    if saved != [] {
      var front := saved[..|saved| - 1];
      var (name, value) := saved[|saved| - 1];
      WritingSets(kernel, s, names, front, text, key, w);
      CoveredLast(names, saved, key);
      KeyOfPlain(names, name);
      hide Covered;
      CommandWrites(kernel, WriteAll(kernel, s, names, front, text), KeyOf(names, name), text(name, value));
    }
  }

  lemma MemoryKeysPlain()
    ensures PlainKey("net.ipv4.tcp_rmem") && PlainKey("net.ipv4.tcp_wmem")
  {
  }

  lemma MptcpKeysPlain()
    ensures PlainKey("net.mptcp.mptcp_enabled") && PlainKey("net.mptcp.mptcp_scheduler")
  {
  }

  lemma PathManagerKeyPlain()
    ensures PlainKey("net.mptcp.mptcp_path_manager")
  {
  }

  lemma CongestionKeyPlain()
    ensures PlainKey("net.ipv4.tcp_congestion_control")
  {
  }

  lemma CorkingKeysPlain()
    ensures PlainKey("net.ipv4.tcp_autocorking") && PlainKey("net.ipv4.tcp_early_retrans")
  {
  }

  lemma BufferKeyPlain()
    ensures PlainKey("net.ipv4.tcp_moderate_rcvbuf")
  {
  }

  /** The global names differ in their first letters. */
  lemma GlobalNamesDiffer(i: nat, j: nat)
    requires i < j < |SYSCTL_KEY|
    ensures SYSCTL_KEY[i].0 != SYSCTL_KEY[j].0
  {
    assert SYSCTL_KEY[i].0[0] == "rwmkscaeb"[i] && SYSCTL_KEY[j].0[0] == "rwmkscaeb"[j];
  }

  lemma PlainNamesOf(who: Who)
    ensures PlainNames(NamesOf(who))
  {
    hide PlainKey;
    MemoryKeysPlain();
    MptcpKeysPlain();
    PathManagerKeyPlain();
    CongestionKeyPlain();
    CorkingKeysPlain();
    BufferKeyPlain();
    if who.Root? {
      forall i, j | 0 <= i < j < |SYSCTL_KEY|
        ensures SYSCTL_KEY[i].0 != SYSCTL_KEY[j].0
      {
        GlobalNamesDiffer(i, j);
      }
    }
  }

  /** A setting that the experiment saves: it has a parameter, and its reading does not fail. */
  ghost predicate IsSaved(unreadable: set<string>, who: Who, key: string) {
    (exists i :: 0 <= i < |NamesOf(who)| && NamesOf(who)[i].1 == key) && (who.Root? ==> key !in unreadable)
  }

  lemma SavedIsCovered(st: State, unreadable: set<string>, who: Who, key: string)
    requires key in st.At(who)
    ensures var saved := SavedOf(st, unreadable, who);
            && (Covered(NamesOf(who), saved, key) <==> IsSaved(unreadable, who, key))
            && forall k :: 0 <= k < |saved| && KeyOf(NamesOf(who), saved[k].0) == key ==> saved[k].1 == st.At(who)[key]
  {
    hide KeyOf, NamesOf, Reading, Saved, PlainNames;
    var names := NamesOf(who);
    PlainNamesOf(who);
    SavingSucceeds(names, st, unreadable, who);
    var saved := Saved(names, Reading(st, unreadable, who)).value;
    SavedEntries(names, st, unreadable, who);
    forall k | 0 <= k < |saved| && KeyOf(names, saved[k].0) == key
      ensures saved[k].1 == st.At(who)[key] && IsSaved(unreadable, who, key)
    {
      assert EntryIsRead(names, st, unreadable, who, saved[k]);
      var i :| 0 <= i < |names| && saved[k].0 == names[i].0 && SavedKey(st, unreadable, who, names[i].1, saved[k].1);
      KeyOfName(names, i);
    }
    if IsSaved(unreadable, who, key) {
      var i :| 0 <= i < |names| && names[i].1 == key;
      ReadIsSaved(names, st, unreadable, who, i);
      KeyOfName(names, i);
    }
  }

  /** The settings an experiment's run writes itself. */
  type RunWrites = seq<(Who, string, string)>

  function RunAll(kernel: Kernel, st: State, run: RunWrites): State {
    if run == [] then st
    else
      var before := RunAll(kernel, st, run[..|run| - 1]);
      var (who, key, text) := run[|run| - 1];
      before.With(who, Written(kernel, before.At(who), key, text))
  }

  lemma WrittenIsLocal(kernel: Kernel, s: Settings, t: Settings, k: string, text: string, key: string)
    ensures key in Written(kernel, s, k, text) <==> key in s
    ensures key in s && k != key ==> Written(kernel, s, k, text)[key] == s[key]
    ensures key in s && key in t && s[key] == t[key] ==> Written(kernel, s, k, text)[key] == Written(kernel, t, k, text)[key]
  {
  }

  /** What a run does to a setting depends on that setting alone. */
  lemma {:induction false} RunIsLocal(kernel: Kernel, a: State, b: State, run: RunWrites, who: Who, key: string)
    requires key in a.At(who) && key in b.At(who) && a.At(who)[key] == b.At(who)[key]
    ensures var x, y := RunAll(kernel, a, run).At(who), RunAll(kernel, b, run).At(who);
            key in x && key in y && x[key] == y[key]
  {
    hide Written;
    if run != [] {
      RunIsLocal(kernel, a, b, run[..|run| - 1], who, key);
      var (w, k, text) := run[|run| - 1];
      var s, t := RunAll(kernel, a, run[..|run| - 1]).At(who), RunAll(kernel, b, run[..|run| - 1]).At(who);
      WrittenIsLocal(kernel, s, t, k, text, key);
      WrittenIsLocal(kernel, t, s, k, text, key);
    }
  }

  lemma {:induction false} RunKeepsKeys(kernel: Kernel, st: State, run: RunWrites, who: Who, key: string)
    ensures key in RunAll(kernel, st, run).At(who) <==> key in st.At(who)
    ensures key in st.At(who) && (forall i :: 0 <= i < |run| ==> run[i].0 != who || run[i].1 != key) ==>
              RunAll(kernel, st, run).At(who)[key] == st.At(who)[key]
  {
    hide Written;
    if run != [] {
      RunKeepsKeys(kernel, st, run[..|run| - 1], who, key);
      var (w, k, text) := run[|run| - 1];
      var s := RunAll(kernel, st, run[..|run| - 1]).At(who);
      WrittenIsLocal(kernel, s, s, k, text, key);
    }
  }

  /** The kernel takes back what it shows, and so does the shell. */
  ghost predicate TakesBack(kernel: Kernel, st: State) {
    forall who: Who, key :: key in st.At(who) ==> Plain(st.At(who)[key]) && kernel(key, st.At(who)[key]) == Some(st.At(who)[key])
  }

  lemma SavingNeverStops(st: State, unreadable: set<string>, who: Who)
    ensures Saved(NamesOf(who), Reading(st, unreadable, who)).Some?
  {
    hide Saved, Reading, NamesOf, PlainNames;
    PlainNamesOf(who);
    SavingSucceeds(NamesOf(who), st, unreadable, who);
  }

  /** The state when the run starts. */
  function Started(kernel: Kernel, st: State, unreadable: set<string>, parameter: string -> string): State {
    WriteState(kernel, st, SavedState(st, unreadable), (name, _) => parameter(name))
  }

  /** Save, write, run, restore. */
  function Transacted(kernel: Kernel, st: State, unreadable: set<string>, parameter: string -> string, run: RunWrites): State {
    WriteState(kernel, RunAll(kernel, Started(kernel, st, unreadable, parameter), run), SavedState(st, unreadable), SavedText)
  }

  lemma StatesAt(kernel: Kernel, st: State, unreadable: set<string>, parameter: string -> string, run: RunWrites, who: Who)
    ensures Started(kernel, st, unreadable, parameter).At(who)
            == WriteAll(kernel, st.At(who), NamesOf(who), SavedOf(st, unreadable, who), (name, _) => parameter(name))
    ensures Transacted(kernel, st, unreadable, parameter, run).At(who)
            == WriteAll(kernel, RunAll(kernel, Started(kernel, st, unreadable, parameter), run).At(who), NamesOf(who),
                        SavedOf(st, unreadable, who), SavedText)
  {
    hide WriteAll, NamesOf, SavedOf, RunAll;
  }

  /** For every initial state, every pattern of failing readings, every choice of parameters and every run: each
      saved setting is back at its initial value, and each other one is as the run alone would have left it; so
      settings whose reading failed are never written by the experiment. */
  lemma Transaction(kernel: Kernel, st: State, unreadable: set<string>, parameter: string -> string, run: RunWrites,
                    who: Who, key: string)
    requires TakesBack(kernel, st)
    ensures var t := Transacted(kernel, st, unreadable, parameter, run).At(who);
            && (key in t <==> key in st.At(who)) && (key in st.At(who) <==> key in RunAll(kernel, st, run).At(who))
            && (key in t ==> t[key] == if IsSaved(unreadable, who, key) then st.At(who)[key] else RunAll(kernel, st, run).At(who)[key])
  {
    hide Saved, SavedOf, Reading, NamesOf, WriteAll, RunAll, KeyOf, PlainNames, IsSaved, Covered, Plain, Started, Transacted;
    PlainNamesOf(who);
    StatesAt(kernel, st, unreadable, parameter, run, who);
    var names, saved, text := NamesOf(who), SavedOf(st, unreadable, who), (name, _) => parameter(name);
    var st1 := Started(kernel, st, unreadable, parameter);
    var st2 := RunAll(kernel, st1, run);
    WritingKeepsOthers(kernel, st.At(who), names, saved, text, key);
    RunKeepsKeys(kernel, st1, run, who, key);
    RunKeepsKeys(kernel, st, run, who, key);
    WritingKeepsOthers(kernel, st2.At(who), names, saved, SavedText, key);
    if key in st.At(who) {
      SavedIsCovered(st, unreadable, who, key);
      WritingSets(kernel, st2.At(who), names, saved, SavedText, key, st.At(who)[key]);
      if !IsSaved(unreadable, who, key) {
        RunIsLocal(kernel, st, st1, run, who, key);
      }
    }
  }

  // ------------------------------------------------------------ the settings when the run starts

  /** The global keys differ. */
  lemma GlobalKeysDiffer(i: nat, j: nat)
    requires i < j < |SYSCTL_KEY|
    ensures SYSCTL_KEY[i].1 != SYSCTL_KEY[j].1
  {
    assert |SYSCTL_KEY[i].1| == [17, 17, 23, 28, 25, 31, 24, 26, 28][i] && |SYSCTL_KEY[j].1| == [17, 17, 23, 28, 25, 31, 24, 26, 28][j];
    assert i == 3 && j == 8 ==> SYSCTL_KEY[i].1[4] == 'm' && SYSCTL_KEY[j].1[4] == 'i';
    assert i == 0 && j == 1 ==> SYSCTL_KEY[i].1[13] == 'r' && SYSCTL_KEY[j].1[13] == 'w';
  }

  lemma KeysOfDiffer(who: Who, i: nat, j: nat)
    requires i < |NamesOf(who)| && j < |NamesOf(who)| && NamesOf(who)[i].1 == NamesOf(who)[j].1
    ensures i == j
  {
    if who.Root? {
      if i < j {
        GlobalKeysDiffer(i, j);
      } else if j < i {
        GlobalKeysDiffer(j, i);
      }
    }
  }

  /** An entry under a key has the parameter name that belongs to the key. */
  lemma SavedUnderKey(st: State, unreadable: set<string>, who: Who, i: nat, k: nat)
    requires i < |NamesOf(who)| && k < |SavedOf(st, unreadable, who)|
    requires KeyOf(NamesOf(who), SavedOf(st, unreadable, who)[k].0) == NamesOf(who)[i].1
    ensures SavedOf(st, unreadable, who)[k].0 == NamesOf(who)[i].0
  {
    hide KeyOf, NamesOf, Reading, Saved, PlainNames, SavedKey;
    var names := NamesOf(who);
    PlainNamesOf(who);
    SavingSucceeds(names, st, unreadable, who);
    SavedEntries(names, st, unreadable, who);
    var entry := SavedOf(st, unreadable, who)[k];
    assert EntryIsRead(names, st, unreadable, who, entry);
    var j :| 0 <= j < |names| && entry.0 == names[j].0 && SavedKey(st, unreadable, who, names[j].1, entry.1);
    KeyOfName(names, j);
    KeysOfDiffer(who, i, j);
  }

  /** A setting that exists, and whose reading does not fail, holds what the kernel makes of the text; a text that the
      shell would change or the kernel refuses, like a failed reading, leaves it as it was. */
  ghost predicate InForce(kernel: Kernel, unreadable: set<string>, before: Settings, after: Settings, key: string, text: string) {
    key in before ==>
      key in after &&
      after[key] == if key !in unreadable && Plain(text) && kernel(key, text).Some? then kernel(key, text).value else before[key]
  }

  lemma StartedAt(kernel: Kernel, st: State, unreadable: set<string>, parameter: string -> string, who: Who, i: nat)
    requires i < |NamesOf(who)|
    ensures InForce(kernel, if who.Root? then unreadable else {}, st.At(who), Started(kernel, st, unreadable, parameter).At(who),
                    NamesOf(who)[i].1, parameter(NamesOf(who)[i].0))
  {
    hide KeyOf, NamesOf, Reading, Saved, PlainNames, WriteAll, SavedOf, Covered, Plain, Started;
    var names, saved, text := NamesOf(who), SavedOf(st, unreadable, who), (name, _) => parameter(name);
    var key, w := names[i].1, parameter(names[i].0);
    if key in st.At(who) {
      PlainNamesOf(who);
      StatesAt(kernel, st, unreadable, parameter, [], who);
      forall k | 0 <= k < |saved| && KeyOf(names, saved[k].0) == key
        ensures text(saved[k].0, saved[k].1) == w
      {
        SavedUnderKey(st, unreadable, who, i, k);
      }
      WritingSets(kernel, st.At(who), names, saved, text, key, w);
      SavedIsCovered(st, unreadable, who, key);
    }
  }

  lemma StartedElsewhere(kernel: Kernel, st: State, unreadable: set<string>, parameter: string -> string, who: Who, key: string)
    requires forall i :: 0 <= i < |NamesOf(who)| ==> NamesOf(who)[i].1 != key
    ensures var t := Started(kernel, st, unreadable, parameter).At(who);
            (key in t <==> key in st.At(who)) && (key in t ==> t[key] == st.At(who)[key])
  {
    hide KeyOf, NamesOf, Reading, Saved, PlainNames, WriteAll, SavedOf, Covered, Started;
    PlainNamesOf(who);
    StatesAt(kernel, st, unreadable, parameter, [], who);
    WritingKeepsOthers(kernel, st.At(who), NamesOf(who), SavedOf(st, unreadable, who), (name, _) => parameter(name), key);
    if key in st.At(who) {
      SavedIsCovered(st, unreadable, who, key);
    }
  }

  /** When the run starts, each of the eleven parameters is in force under its own key, in its own namespace, and every
      other setting is as it was. */
  lemma ParametersInForce(kernel: Kernel, st: State, unreadable: set<string>, parameter: string -> string)
    ensures var r, t := st.root, Started(kernel, st, unreadable, parameter).root;
            && InForce(kernel, unreadable, r, t, "net.ipv4.tcp_rmem", parameter("rmem"))
            && InForce(kernel, unreadable, r, t, "net.ipv4.tcp_wmem", parameter("wmem"))
            && InForce(kernel, unreadable, r, t, "net.mptcp.mptcp_enabled", parameter("mptcpEnabled"))
            && InForce(kernel, unreadable, r, t, "net.mptcp.mptcp_path_manager", parameter("kpm"))
            && InForce(kernel, unreadable, r, t, "net.mptcp.mptcp_scheduler", parameter("sched"))
            && InForce(kernel, unreadable, r, t, "net.ipv4.tcp_congestion_control", parameter("congctrl"))
            && InForce(kernel, unreadable, r, t, "net.ipv4.tcp_autocorking", parameter("autocork"))
            && InForce(kernel, unreadable, r, t, "net.ipv4.tcp_early_retrans", parameter("earlyRetrans"))
            && InForce(kernel, unreadable, r, t, "net.ipv4.tcp_moderate_rcvbuf", parameter("bufferAutotuning"))
    ensures var t := Started(kernel, st, unreadable, parameter);
            && InForce(kernel, {}, st.client, t.client, "net.mptcp.mptcp_path_manager", parameter("kpmc"))
            && InForce(kernel, {}, st.server, t.server, "net.mptcp.mptcp_path_manager", parameter("kpms"))
    ensures forall who: Who, key: string ::
              key != "net.mptcp.mptcp_path_manager"
              && (who.Root? ==>
                    key != "net.ipv4.tcp_rmem" && key != "net.ipv4.tcp_wmem" && key != "net.mptcp.mptcp_enabled"
                    && key != "net.mptcp.mptcp_scheduler" && key != "net.ipv4.tcp_congestion_control"
                    && key != "net.ipv4.tcp_autocorking" && key != "net.ipv4.tcp_early_retrans"
                    && key != "net.ipv4.tcp_moderate_rcvbuf") ==>
                var s, t := st.At(who), Started(kernel, st, unreadable, parameter).At(who);
                (key in t <==> key in s) && (key in t ==> t[key] == s[key])
  {
    hide Started, InForce;
    StartedAt(kernel, st, unreadable, parameter, Root, 0);
    StartedAt(kernel, st, unreadable, parameter, Root, 1);
    StartedAt(kernel, st, unreadable, parameter, Root, 2);
    StartedAt(kernel, st, unreadable, parameter, Root, 3);
    StartedAt(kernel, st, unreadable, parameter, Root, 4);
    StartedAt(kernel, st, unreadable, parameter, Root, 5);
    StartedAt(kernel, st, unreadable, parameter, Root, 6);
    StartedAt(kernel, st, unreadable, parameter, Root, 7);
    StartedAt(kernel, st, unreadable, parameter, Root, 8);
    StartedAt(kernel, st, unreadable, parameter, Client, 0);
    StartedAt(kernel, st, unreadable, parameter, Server, 0);
    forall who: Who, key: string | forall i :: 0 <= i < |NamesOf(who)| ==> NamesOf(who)[i].1 != key
      ensures var s, t := st.At(who), Started(kernel, st, unreadable, parameter).At(who);
              (key in t <==> key in s) && (key in t ==> t[key] == s[key])
    {
      StartedElsewhere(kernel, st, unreadable, parameter, who, key);
    }
  }

  ghost predicate SameAt(a: State, b: State, who: Who) {
    forall key :: (key in a.At(who) <==> key in b.At(who)) && (key in a.At(who) ==> a.At(who)[key] == b.At(who)[key])
  }

  lemma SameStates(a: State, b: State)
    requires SameAt(a, b, Root) && SameAt(a, b, Client) && SameAt(a, b, Server)
    ensures a == b
  {
    SameSettings(a.At(Root), b.At(Root));
    SameSettings(a.At(Client), b.At(Client));
    SameSettings(a.At(Server), b.At(Server));
  }

  lemma SameSettings(s: Settings, t: Settings)
    requires forall key :: (key in s <==> key in t) && (key in s ==> s[key] == t[key])
    ensures s == t
  {
    assert forall key :: key in s.Keys <==> key in t.Keys;
  }

  /** The initial state is back exactly when the run leaves the settings not saved at their initial values. */
  lemma RestoredExactly(kernel: Kernel, st: State, unreadable: set<string>, parameter: string -> string, run: RunWrites)
    requires TakesBack(kernel, st)
    ensures Transacted(kernel, st, unreadable, parameter, run) == st <==> Harmless(kernel, st, unreadable, run)
  {
    hide RunAll, IsSaved, TakesBack, Transacted;
    var t := Transacted(kernel, st, unreadable, parameter, run);
    forall who: Who, key
      ensures (key in t.At(who) <==> key in st.At(who)) && (key in st.At(who) <==> key in RunAll(kernel, st, run).At(who))
      ensures key in t.At(who) ==>
                t.At(who)[key] == if IsSaved(unreadable, who, key) then st.At(who)[key] else RunAll(kernel, st, run).At(who)[key]
    {
      Transaction(kernel, st, unreadable, parameter, run, who, key);
    }
    if Harmless(kernel, st, unreadable, run) {
      SameStates(t, st);
    }
  }

  ghost predicate Harmless(kernel: Kernel, st: State, unreadable: set<string>, run: RunWrites) {
    forall who: Who, key :: key in st.At(who) && !IsSaved(unreadable, who, key) ==>
      key in RunAll(kernel, st, run).At(who) && RunAll(kernel, st, run).At(who)[key] == st.At(who)[key]
  }

  /** A run that writes only saved settings, or missing ones, is undone completely. */
  lemma SavedRunIsUndone(kernel: Kernel, st: State, unreadable: set<string>, parameter: string -> string, run: RunWrites)
    requires TakesBack(kernel, st)
    requires forall i :: 0 <= i < |run| && run[i].1 in st.At(run[i].0) ==> IsSaved(unreadable, run[i].0, run[i].1)
    ensures Transacted(kernel, st, unreadable, parameter, run) == st
  {
    hide RunAll, IsSaved, TakesBack, Transacted;
    RestoredExactly(kernel, st, unreadable, parameter, run);
    forall who: Who, key | key in st.At(who) && !IsSaved(unreadable, who, key)
      ensures key in RunAll(kernel, st, run).At(who) && RunAll(kernel, st, run).At(who)[key] == st.At(who)[key]
    {
      RunKeepsKeys(kernel, st, run, who, key);
    }
  }

  /** The two writes in the run of the iperf scenario. */
  const IPERF_SCENARIO: RunWrites :=
    [(Root, "net.mptcp.mptcp_enabled", "0"), (Root, "net.ipv4.tcp_congestion_control", "reno")]

  /** While it runs, MPTCP is off and congestion control is Reno, as far as the kernel takes these, and nothing else is
      changed. */
  lemma IperfScenarioSets(kernel: Kernel, st: State, key: string)
    ensures var t := RunAll(kernel, st, IPERF_SCENARIO);
            && t.client == st.client && t.server == st.server && (key in t.root <==> key in st.root)
            && (key in st.root ==>
                  t.root[key] == if key == "net.mptcp.mptcp_enabled" && kernel(key, "0").Some? then kernel(key, "0").value
                                 else if key == "net.ipv4.tcp_congestion_control" && kernel(key, "reno").Some? then
                                   kernel(key, "reno").value
                                 else st.root[key])
  {
    assert IPERF_SCENARIO[..1] == [IPERF_SCENARIO[0]] && IPERF_SCENARIO[..1][..0] == [];
    RunNext(kernel, st, IPERF_SCENARIO, 0);
    RunNext(kernel, st, IPERF_SCENARIO, 1);
    assert IPERF_SCENARIO[..2] == IPERF_SCENARIO && IPERF_SCENARIO[..0] == [];
    RunNone(kernel, st);
    assert "net.mptcp.mptcp_enabled"[4] != "net.ipv4.tcp_congestion_control"[4];
  }

  lemma IperfScenarioIsUndone(kernel: Kernel, st: State, unreadable: set<string>, parameter: string -> string)
    requires TakesBack(kernel, st)
    requires "net.mptcp.mptcp_enabled" !in unreadable && "net.ipv4.tcp_congestion_control" !in unreadable
    ensures Transacted(kernel, st, unreadable, parameter, IPERF_SCENARIO) == st
  {
    hide RunAll, TakesBack, Transacted;
    assert NamesOf(Root)[2].1 == "net.mptcp.mptcp_enabled" && NamesOf(Root)[5].1 == "net.ipv4.tcp_congestion_control";
    SavedRunIsUndone(kernel, st, unreadable, parameter, IPERF_SCENARIO);
  }
}
