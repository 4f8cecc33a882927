/** A host's addresses, policy rules and routing tables as its configuration commands leave them. */
module Routing {
  import opened Text

  datatype Ip = Ip(a: nat, b: nat, c: nat, d: nat)

  /** An octet in canonical decimal; other spellings are refused. */
  function ParseOctet(s: string): Option<nat> {
    if s != "" && AllDigits(s) && FromDigits(s) < 256 && s == Dec(FromDigits(s)) then Some(FromDigits(s)) else None
  }

  function ParseIp(s: string): Option<Ip> {
    var parts := Split(s, '.');
    if |parts| != 4 then None
    else
      match (ParseOctet(parts[0]), ParseOctet(parts[1]), ParseOctet(parts[2]), ParseOctet(parts[3]))
      case (Some(a), Some(b), Some(c), Some(d)) => Some(Ip(a, b, c, d))
      case _ => None
  }

  /** A network of the form `a.b.c.0/24`. */
  function ParseNet(s: string): Option<Ip> {
    var parts := Split(s, '/');
    if |parts| == 2 && parts[1] == "24" && ParseIp(parts[0]).Some? && ParseIp(parts[0]).value.d == 0 then ParseIp(parts[0])
    else None
  }

  /** The commands sent to hosts. All netmasks are 255.255.255.0; `Arp` names the interface whose MAC it gives. */
  datatype Command =
    | IfUp(ifname: string, ip: string)
    | Flush(ifname: string)
    | Arp(ip: string, ifname: string)
    | RuleFrom(ip: string, table: nat)
    | LinkRoute(net: string, ifname: string, table: nat)
    | TableDefault(via: string, table: nat)
    | GlobalDefault(via: string, ifname: string)
    | SimpleDefault(via: string)

  datatype Route = OnLink(net: Ip, dev: string) | Default(via: Ip, dev: string)

  datatype Hop = Hop(dev: string, next: Ip)

  /** Tables the kernel consults without being asked: first that of local addresses, at the end these two. */
  const LOCAL: nat := 255
  const MAIN: nat := 254
  const LAST: nat := 253

  type Log = seq<Command>

  // ------------------------------------------------------------ addresses

  function Without(held: seq<(string, Ip)>, ifname: string): seq<(string, Ip)> {
    if held == [] then []
    else (if held[0].0 == ifname then [] else [held[0]]) + Without(held[1..], ifname)
  }

  /** Giving an interface an address takes its old one away. */
  function WithAddress(held: seq<(string, Ip)>, ifname: string, ip: string): seq<(string, Ip)> {
    match ParseIp(ip) case None => held case Some(x) => Without(held, ifname) + [(ifname, x)]
  }

  /** The address of each interface that has one. */
  function Addresses(log: Log): seq<(string, Ip)> {
    if log == [] then []
    else
      var before := Addresses(log[..|log| - 1]);
      match log[|log| - 1]
      case IfUp(ifname, ip) => WithAddress(before, ifname, ip)
      case Flush(ifname) => Without(before, ifname)
      case _ => before
  }

  predicate SameNet(x: Ip, y: Ip) {
    x.a == y.a && x.b == y.b && x.c == y.c
  }

  /** The interface whose /24 an address is in. */
  function ConnectedDev(held: seq<(string, Ip)>, x: Ip): Option<string> {
    if held == [] then None else if SameNet(held[0].1, x) then Some(held[0].0) else ConnectedDev(held[1..], x)
  }

  predicate Owns(held: seq<(string, Ip)>, x: Ip) {
    exists i :: 0 <= i < |held| && held[i].1 == x
  }

  // ------------------------------------------------------------ rules and tables

  function WithRule(rules: seq<(Ip, nat)>, ip: string, t: nat): seq<(Ip, nat)> {
    match ParseIp(ip) case None => rules case Some(x) => rules + [(x, t)]
  }

  /** Rules in order of addition. */
  function Rules(log: Log): seq<(Ip, nat)> {
    if log == [] then []
    else
      var before := Rules(log[..|log| - 1]);
      match log[|log| - 1]
      case RuleFrom(ip, t) => WithRule(before, ip, t)
      case _ => before
  }

  function FirstOnLink(routes: seq<Route>, x: Ip): Option<string> {
    if routes == [] then None
    else if routes[0].OnLink? && SameNet(routes[0].net, x) then Some(routes[0].dev)
    else FirstOnLink(routes[1..], x)
  }

  function FirstDefault(routes: seq<Route>): Option<Hop> {
    if routes == [] then None
    else if routes[0].Default? then Some(Hop(routes[0].dev, routes[0].via))
    else FirstDefault(routes[1..])
  }

  /** A default route needs a gateway on a connected network, and a table without one. */
  function AddDefault(routes: seq<Route>, held: seq<(string, Ip)>, via: string): seq<Route> {
    match ParseIp(via)
    case None => routes
    case Some(x) =>
      if FirstDefault(routes).Some? || ConnectedDev(held, x).None? then routes
      else routes + [Default(x, ConnectedDev(held, x).value)]
  }

  /** A network already there, or connected when the table is the main one, is not added again. */
  function AddOnLink(routes: seq<Route>, held: seq<(string, Ip)>, t: nat, net: string, dev: string): seq<Route> {
    match ParseNet(net)
    case None => routes
    case Some(x) =>
      if FirstOnLink(routes, x).Some? || (t == MAIN && ConnectedDev(held, x).Some?) then routes else routes + [OnLink(x, dev)]
  }

  function AddDefaultVia(routes: seq<Route>, held: seq<(string, Ip)>, via: string, dev: string): seq<Route> {
    if ParseIp(via).Some? && ConnectedDev(held, ParseIp(via).value) == Some(dev) then AddDefault(routes, held, via) else routes
  }

  /** What commands have put into a table; what is there already is not added again. */
  function Table(log: Log, t: nat): seq<Route> {
    if log == [] then []
    else
      var front := log[..|log| - 1];
      var before := Table(front, t);
      match log[|log| - 1]
      case LinkRoute(net, dev, u) => if u == t then AddOnLink(before, Addresses(front), t, net, dev) else before
      case TableDefault(via, u) => if u == t then AddDefault(before, Addresses(front), via) else before
      case GlobalDefault(via, dev) => if t == MAIN then AddDefaultVia(before, Addresses(front), via, dev) else before
      case SimpleDefault(via) => if t == MAIN then AddDefault(before, Addresses(front), via) else before
      case _ => before
  }

  // ------------------------------------------------------------ looking up a packet

  /** Networks before the default; the main table also has the connected networks. */
  function InTable(log: Log, t: nat, dst: Ip): Option<Hop> {
    if t == MAIN && ConnectedDev(Addresses(log), dst).Some? then Some(Hop(ConnectedDev(Addresses(log), dst).value, dst))
    else if FirstOnLink(Table(log, t), dst).Some? then Some(Hop(FirstOnLink(Table(log, t), dst).value, dst))
    else FirstDefault(Table(log, t))
  }

  /** Rules for the source, the newest first; a table without a route passes the packet on. */
  function ByRules(log: Log, rules: seq<(Ip, nat)>, src: Ip, dst: Ip): Option<Hop> {
    if rules == [] then None
    else
      var last := rules[|rules| - 1];
      if last.0 == src && InTable(log, last.1, dst).Some? then InTable(log, last.1, dst)
      else ByRules(log, rules[..|rules| - 1], src, dst)
  }

  /** Where a host sends a packet; nowhere when it is for the host itself. */
  function Lookup(log: Log, src: Ip, dst: Ip): Option<Hop> {
    if Owns(Addresses(log), dst) then None
    else if InTable(log, LOCAL, dst).Some? then InTable(log, LOCAL, dst)
    else if ByRules(log, Rules(log), src, dst).Some? then ByRules(log, Rules(log), src, dst)
    else if InTable(log, MAIN, dst).Some? then InTable(log, MAIN, dst)
    else InTable(log, LAST, dst)
  }

  // ------------------------------------------------------------ one command at a time

  lemma AddressesNext(log: Log, c: Command)
    ensures c.IfUp? ==> Addresses(log + [c]) == WithAddress(Addresses(log), c.ifname, c.ip)
    ensures c.Flush? ==> Addresses(log + [c]) == Without(Addresses(log), c.ifname)
    ensures !c.IfUp? && !c.Flush? ==> Addresses(log + [c]) == Addresses(log)
  {
    hide WithAddress, Without;
    assert (log + [c])[..|log|] == log;
  }

  lemma RulesNext(log: Log, c: Command)
    ensures Rules(log + [c]) == if c.RuleFrom? then WithRule(Rules(log), c.ip, c.table) else Rules(log)
  {
    hide WithRule;
    assert (log + [c])[..|log|] == log;
  }

  lemma TableNext(log: Log, c: Command, t: nat)
    ensures Table(log + [c], t) ==
            if c.LinkRoute? && c.table == t then AddOnLink(Table(log, t), Addresses(log), t, c.net, c.ifname)
            else if (c.TableDefault? && c.table == t) || (c.SimpleDefault? && t == MAIN) then
              AddDefault(Table(log, t), Addresses(log), c.via)
            else if c.GlobalDefault? && t == MAIN then AddDefaultVia(Table(log, t), Addresses(log), c.via, c.ifname)
            else Table(log, t)
  {
    hide AddOnLink, AddDefault, AddDefaultVia, Addresses;
    assert (log + [c])[..|log|] == log;
  }

  /** Names of the interfaces with an address. */
  predicate Named(held: seq<(string, Ip)>, ifname: string) {
    exists i :: 0 <= i < |held| && held[i].0 == ifname
  }

  lemma {:induction false} WithoutUnnamed(held: seq<(string, Ip)>, ifname: string)
    requires !Named(held, ifname)
    ensures Without(held, ifname) == held
  {
    if held != [] {
      assert forall i :: 0 <= i < |held| ==> held[i].0 != ifname;
      WithoutUnnamed(held[1..], ifname);
    }
  }

  /** In a list of different /24 networks, an address is found at the place of its network. */
  lemma {:induction false} ConnectedAt(held: seq<(string, Ip)>, x: Ip, i: nat)
    requires i < |held| && SameNet(held[i].1, x)
    requires forall j :: 0 <= j < i ==> !SameNet(held[j].1, x)
    ensures ConnectedDev(held, x) == Some(held[i].0)
  {
    if i > 0 {
      ConnectedAt(held[1..], x, i - 1);
    }
  }

  lemma {:induction false} ConnectedNowhere(held: seq<(string, Ip)>, x: Ip)
    requires forall j :: 0 <= j < |held| ==> !SameNet(held[j].1, x)
    ensures ConnectedDev(held, x).None?
  {
    if held != [] {
      ConnectedNowhere(held[1..], x);
    }
  }

  // ------------------------------------------------------------ addresses as the configuration writes them

  /** `{prefix}{i}.{host}`. */
  function Address(prefix: string, i: nat, host: string): string {
    prefix + Dec(i) + "." + host
  }

  /** A prefix of the form "a.b.". */
  ghost predicate IsPrefix(prefix: string, a: nat, b: nat) {
    a < 256 && b < 256 && prefix == Dec(a) + "." + Dec(b) + "."
  }

  lemma OctetOfDec(n: nat)
    ensures ParseOctet(Dec(n)) == if n < 256 then Some(n) else None
  {
    FromDec(n);
  }

  lemma Regroup(x: string, y: string, z: string)
    ensures x + "." + y + "." + z == x + "." + (y + "." + z)
  {
  }

  lemma FourParts(p: string, q: string, r: string, last: string)
    requires Free(p, '.') && Free(q, '.') && Free(r, '.') && Free(last, '.')
    ensures Split(p + "." + q + "." + r + "." + last, '.') == [p, q, r, last]
  {
    hide Split, Free;
    var s2 := r + "." + last;
    Regroup(p + "." + q, r, last);
    Regroup(p, q, s2);
    SplitFirst(p, q + "." + s2, '.');
    SplitFirst(q, s2, '.');
    SplitFirst(r, last, '.');
    SplitWhole(last, '.');
  }

  /** An address is read as its prefix, index and host number exactly when the index fits an octet. */
  lemma AddressParses(prefix: string, a: nat, b: nat, i: nat, h: nat)
    requires IsPrefix(prefix, a, b) && h < 256
    ensures ParseIp(Address(prefix, i, Dec(h))) == if i < 256 then Some(Ip(a, b, i, h)) else None
  {
    hide Split, ParseOctet, Dec;
    assert Address(prefix, i, Dec(h)) == Dec(a) + "." + Dec(b) + "." + Dec(i) + "." + Dec(h);
    FourParts(Dec(a), Dec(b), Dec(i), Dec(h));
    OctetOfDec(a);
    OctetOfDec(b);
    OctetOfDec(i);
    OctetOfDec(h);
  }

  lemma SubnetParses(prefix: string, a: nat, b: nat, i: nat)
    requires IsPrefix(prefix, a, b)
    ensures ParseNet(Address(prefix, i, "0/24")) == if i < 256 then Some(Ip(a, b, i, 0)) else None
  {
    hide Split, ParseIp;
    var front := Address(prefix, i, Dec(0));
    assert Dec(0) == "0" by { ZeroText(); }
    AddressParses(prefix, a, b, i, 0);
    assert Address(prefix, i, "0/24") == front + "/" + "24";
    SplitFirst(front, "24", '/');
    SplitWhole("24", '/');
  }

  lemma ZeroText()
    ensures Dec(0) == "0" && Dec(1) == "1" && Dec(2) == "2"
  {
    assert DigitChar(0) == '0' && DigitChar(1) == '1' && DigitChar(2) == '2';
  }
}
