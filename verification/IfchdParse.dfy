/** The command parser of the interface-change daemon (src/ifchd-parse.rl).

The daemon runs a character-driven machine over each buffer that it receives and
dispatches a command at every terminator. `Render` is the text of a list of commands;
the machine is proved to accept exactly the texts of non-empty lists of well-formed
commands, and to dispatch exactly that list.
 */
module IfchdParse {
  import opened Wire

  /** `enum ifchd_states`, without STATE_NOTHING. */
  datatype Cmd =
    | Ip4Set | Timezone | Router | Dns | LprSvr | Hostname | Domain | IpTtl | Mtu | NtpSvr | Wins | Carrier

  datatype Command = Command(cmd: Cmd, arg: string)

  /** What may follow the name of a command. */
  datatype Arg =
    | Addresses(min: nat, max: nat)  // comma-separated dotted quads; max 0 is no limit
    | Text                           // one or more characters other than ';' and NUL
    | Raw(n: nat)                    // exactly n arbitrary characters

  function Name(c: Cmd): string {
    match c
    case Ip4Set => "ip4:"
    case Timezone => "tzone:"
    case Router => "routr:"
    case Dns => "dns:"
    case LprSvr => "lpr:"
    case Hostname => "host:"
    case Domain => "dom:"
    case IpTtl => "ipttl:"
    case Mtu => "mtu:"
    case NtpSvr => "ntp:"
    case Wins => "wins:"
    case Carrier => "carrier:"
  }

  function ArgOf(c: Cmd): Arg {
    match c
    case Ip4Set => Addresses(2, 3)
    case Router => Addresses(1, 1)
    case Dns => Addresses(1, 0)
    case LprSvr => Addresses(1, 0)
    case NtpSvr => Addresses(1, 0)
    case Wins => Addresses(1, 0)
    case Hostname => Text
    case Domain => Text
    case Timezone => Raw(4)
    case Mtu => Raw(2)
    case IpTtl => Raw(1)
    case Carrier => Raw(0)
  }

  /** The command whose whole name was read. */
  function Lookup(s: string): (r: Option<Cmd>) {
    if s == "ip4:" then Some(Ip4Set)
    else if s == "tzone:" then Some(Timezone)
    else if s == "routr:" then Some(Router)
    else if s == "dns:" then Some(Dns)
    else if s == "lpr:" then Some(LprSvr)
    else if s == "host:" then Some(Hostname)
    else if s == "dom:" then Some(Domain)
    else if s == "ipttl:" then Some(IpTtl)
    else if s == "mtu:" then Some(Mtu)
    else if s == "ntp:" then Some(NtpSvr)
    else if s == "wins:" then Some(Wins)
    else if s == "carrier:" then Some(Carrier)
    else None
  }

  const ALL: set<Cmd> :=
    {Ip4Set, Timezone, Router, Dns, LprSvr, Hostname, Domain, IpTtl, Mtu, NtpSvr, Wins, Carrier}

  /** Some name goes on from `s`. */
  predicate Viable(s: string) {
    exists c :: c in ALL && s <= Name(c)
  }

  /** Where the machine is inside an argument. */
  datatype Pos = Pos(addr: nat, octet: nat, digits: nat, chars: nat)

  const ARG_START := Pos(0, 0, 0, 0)

  /** The machine's state. `Between` is the only final one; `Start` is left by the first character. */
  datatype State = Start | Between | Naming(read: string) | InArg(cmd: Cmd, pos: Pos) | Error

  /** The argument may end here. */
  predicate Complete(a: Arg, p: Pos) {
    match a
    case Addresses(min, _) => p.digits >= 1 && p.octet == 3 && p.addr + 1 >= min
    case Text => p.chars >= 1
    case Raw(n) => p.chars == n
  }

  /** The position behind one more character of the argument, if it may have one. */
  function Advance(a: Arg, p: Pos, c: char): (r: Option<Pos>) {
    match a
    case Addresses(_, max) =>
      if '0' <= c <= '9' && p.digits < 3 then Some(p.(digits := p.digits + 1))
      else if c == '.' && p.digits >= 1 && p.octet < 3 then Some(p.(octet := p.octet + 1, digits := 0))
      else if c == ',' && p.digits >= 1 && p.octet == 3 && (max == 0 || p.addr + 1 < max) then
        Some(Pos(p.addr + 1, 0, 0, 0))
      else None
    case Text => if c == ';' || c == '\0' then None else Some(p.(chars := p.chars + 1))
    case Raw(n) => if p.chars < n then Some(p.(chars := p.chars + 1)) else None
  }

  /** One character of input. A terminator behind a complete argument dispatches the command. */
  function Next(s: State, c: char): (r: State) {
    match s
    case Error => Error
    case Start => Spell([c])
    case Between => Spell([c])
    case Naming(read) => Spell(read + [c])
    case InArg(cmd, p) =>
      var q := Advance(ArgOf(cmd), p, c);
      if q.Some? then InArg(cmd, q.value)
      else if c == ';' && Complete(ArgOf(cmd), p) then Between
      else Error
  }

  function Spell(s: string): (r: State) {
    var c := Lookup(s);
    if c.Some? then InArg(c.value, ARG_START) else if Viable(s) then Naming(s) else Error
  }

  // ---------------------------------------------------------------------------
  // Reference: the text of a list of commands
  // ---------------------------------------------------------------------------

  /** The positions that an argument's characters lead through. */
  function Walk(a: Arg, p: Pos, s: string): (r: Option<Pos>)
    decreases |s|
  {
    if s == [] then Some(p)
    else
      var q := Advance(a, p, s[0]);
      if q.None? then None else Walk(a, q.value, s[1..])
  }

  predicate WellFormed(c: Command) {
    var q := Walk(ArgOf(c.cmd), ARG_START, c.arg);
    q.Some? && Complete(ArgOf(c.cmd), q.value)
  }

  function RenderOne(c: Command): string {
    Name(c.cmd) + c.arg + ";"
  }

  function Render(l: seq<Command>): string {
    if l == [] then "" else RenderOne(l[0]) + Render(l[1..])
  }

  ghost predicate AllWellFormed(l: seq<Command>) {
    forall c :: c in l ==> WellFormed(c)
  }

  /** What the machine does with the input `rest` in state `s`, when `read` are the characters of
      the current argument so far: the commands that it dispatches, and its last state. */
  function Scan(s: State, read: string, rest: string): (r: (seq<Command>, State))
    decreases |rest|
  {
    if rest == [] then ([], s)
    else
      var t := Next(s, rest[0]);
      if s.InArg? && t == Between then
        var (l, end) := Scan(t, "", rest[1..]);
        ([Command(s.cmd, read)] + l, end)
      else
        Scan(t, if s.InArg? then read + [rest[0]] else "", rest[1..])
  }

  // ---------------------------------------------------------------------------
  // Names
  // ---------------------------------------------------------------------------

  lemma NameShape(c: Cmd)
    ensures var n := Name(c);
            && c in ALL && |n| >= 2 && n[|n| - 1] == ':'
            && forall i :: 0 <= i < |n| - 1 ==> n[i] != ':'
  {
  }

  lemma LookupName(c: Cmd)
    ensures Lookup(Name(c)) == Some(c)
  {
  }

  lemma LookupSound(s: string)
    ensures Lookup(s).Some? ==> s == Name(Lookup(s).value)
  {
  }

  /** Spelling a name letter by letter leads to its argument and nowhere else. */
  lemma SpellPrefix(c: Cmd, k: nat)
    requires 1 <= k <= |Name(c)|
    ensures Spell(Name(c)[..k]) == if k == |Name(c)| then InArg(c, ARG_START) else Naming(Name(c)[..k])
  {
    hide Name, Lookup;
    var n := Name(c);
    NameShape(c);
    LookupSound(n[..k]);
    if k == |n| {
      assert n[..k] == n;
      LookupName(c);
    } else {
      assert n[..k] <= Name(c);
      assert Viable(n[..k]);
      if Lookup(n[..k]).Some? {
        NameShape(Lookup(n[..k]).value);
        assert false;
      }
    }
  }

  lemma {:induction false} ScanName(s: State, c: Cmd, k: nat, rest: string)
    requires k < |Name(c)|
    requires if k == 0 then s == Start || s == Between else s == Naming(Name(c)[..k])
    ensures Scan(s, "", Name(c)[k..] + rest) == Scan(InArg(c, ARG_START), "", rest)
    decreases |Name(c)| - k
  {
    hide Name, Spell;
    var n := Name(c);
    var input := n[k..] + rest;
    SpellPrefix(c, k + 1);
    assert n[..k] + [n[k]] == n[..k + 1] && (k == 0 ==> [n[k]] == n[..k + 1]);
    assert input[0] == n[k] && input[1..] == n[k + 1..] + rest;
    assert Next(s, n[k]) == Spell(n[..k + 1]);
    if k + 1 < |n| {
      ScanName(Naming(n[..k + 1]), c, k + 1, rest);
    } else {
      assert n[k + 1..] + rest == rest;
    }
  }

  // ---------------------------------------------------------------------------
  // Arguments
  // ---------------------------------------------------------------------------

  /** One character of input. */
  lemma ScanStep(s: State, read: string, c: char, rest: string)
    ensures var t := Next(s, c);
            if s.InArg? && t == Between then
              Scan(s, read, [c] + rest) == ([Command(s.cmd, read)] + Scan(t, "", rest).0, Scan(t, "", rest).1)
            else
              Scan(s, read, [c] + rest) == Scan(t, if s.InArg? then read + [c] else "", rest)
  {
    hide Next;
    assert ([c] + rest)[1..] == rest;
  }

  lemma CompleteStops(a: Arg, p: Pos)
    requires Complete(a, p)
    ensures Advance(a, p, ';') == None
  {
  }

  lemma {:induction false} ScanArg(c: Cmd, p: Pos, read: string, arg: string, rest: string)
    requires var q := Walk(ArgOf(c), p, arg); q.Some? && Complete(ArgOf(c), q.value)
    ensures var after := Scan(Between, "", rest);
            Scan(InArg(c, p), read, arg + ";" + rest) == ([Command(c, read + arg)] + after.0, after.1)
    decreases |arg|
  {
    hide Advance, Complete, ArgOf, Scan;
    if arg == [] {
      CompleteStops(ArgOf(c), p);
      ScanStep(InArg(c, p), read, ';', rest);
      assert arg + ";" + rest == [';'] + rest && read + arg == read;
    } else {
      var q := Advance(ArgOf(c), p, arg[0]).value;
      ScanStep(InArg(c, p), read, arg[0], arg[1..] + ";" + rest);
      assert arg + ";" + rest == [arg[0]] + (arg[1..] + ";" + rest);
      ScanArg(c, q, read + [arg[0]], arg[1..], rest);
      assert read + [arg[0]] + arg[1..] == read + arg;
    }
  }

  lemma {:induction false} WalkSnoc(a: Arg, p: Pos, s: string, c: char)
    ensures var q := Walk(a, p, s);
            Walk(a, p, s + [c]) == if q.None? then None else Advance(a, q.value, c)
    decreases |s|
  {
    hide Advance;
    if s == [] {
      assert (s + [c])[1..] == [];
    } else {
      assert (s + [c])[1..] == s[1..] + [c];
      var q := Advance(a, p, s[0]);
      if q.Some? {
        WalkSnoc(a, q.value, s[1..], c);
      }
    }
  }

  // ---------------------------------------------------------------------------
  // The machine accepts exactly the rendered lists
  // ---------------------------------------------------------------------------

  lemma ScanOne(s: State, c: Command, rest: string)
    requires (s == Start || s == Between) && WellFormed(c)
    ensures var after := Scan(Between, "", rest);
            Scan(s, "", RenderOne(c) + rest) == ([c] + after.0, after.1)
  {
    hide Name, ArgOf, Walk, Complete, Scan;
    NameShape(c.cmd);
    ScanArg(c.cmd, ARG_START, "", c.arg, rest);
    ScanName(s, c.cmd, 0, c.arg + ";" + rest);
    assert RenderOne(c) + rest == Name(c.cmd)[0..] + (c.arg + ";" + rest);
    assert "" + c.arg == c.arg;
  }

  lemma ScanEnds(s: State, read: string)
    ensures Scan(s, read, "") == ([], s)
  {
  }

  /** The machine runs through the text of a list and goes on behind it. */
  lemma {:induction false} RenderScans(s: State, l: seq<Command>, rest: string)
    requires s == Start || s == Between
    requires AllWellFormed(l)
    ensures var after := Scan(if l == [] then s else Between, "", rest);
            Scan(s, "", Render(l) + rest) == (l + after.0, after.1)
    decreases |l|
  {
    hide Scan, RenderOne, WellFormed;
    if l == [] {
      assert Render(l) + rest == rest;
      assert l + Scan(s, "", rest).0 == Scan(s, "", rest).0;
    } else {
      assert l[0] in l;
      RenderScans(Between, l[1..], rest);
      ScanOne(s, l[0], Render(l[1..]) + rest);
      assert Render(l) + rest == RenderOne(l[0]) + (Render(l[1..]) + rest);
      var after := Scan(Between, "", rest);
      assert l + after.0 == [l[0]] + (l[1..] + after.0);
    }
  }

  /** The part of a command's text that the machine has read. */
  ghost function Pending(s: State, read: string): string {
    match s
    case Naming(n) => n
    case InArg(c, _) => Name(c) + read
    case _ => ""
  }

  ghost predicate Coherent(s: State, read: string) {
    && (s.InArg? ==> Walk(ArgOf(s.cmd), ARG_START, read) == Some(s.pos))
    && (!s.InArg? ==> read == "")
  }

  lemma {:induction false} ScanSound(s: State, read: string, rest: string)
    requires Coherent(s, read) && Scan(s, read, rest).1 == Between
    ensures var l := Scan(s, read, rest).0;
            AllWellFormed(l) && Pending(s, read) + rest == Render(l) && (s != Between ==> l != [])
    decreases |rest|
  {
    hide Spell, Lookup, Name, ArgOf, Walk;
    if rest != [] {
      if s.InArg? {
        ScanSoundArg(s, read, rest);
      } else if s.Error? {
        ErrorStays(rest);
        assert false;
      } else {
        ScanSoundName(s, rest);
      }
    }
  }

  lemma {:induction false} ScanSoundName(s: State, rest: string)
    requires s.Start? || s.Between? || s.Naming?
    requires rest != [] && Scan(s, "", rest).1 == Between
    ensures var l := Scan(s, "", rest).0;
            AllWellFormed(l) && Pending(s, "") + rest == Render(l) && l != []
    decreases |rest|, 0
  {
    hide Lookup, Name, ArgOf, Advance, Complete;
    var c := rest[0];
    var n := if s.Naming? then s.read + [c] else [c];
    assert Next(s, c) == Spell(n);
    SpellPending(n);
    if Spell(n) == Error {
      ErrorStays(rest[1..]);
      assert false;
    } else {
      ScanSound(Spell(n), "", rest[1..]);
      assert Pending(s, "") + rest == n + rest[1..];
    }
  }

  lemma SpellPending(n: string)
    ensures Spell(n) != Error ==> Pending(Spell(n), "") == n && Coherent(Spell(n), "")
    ensures Spell(n).Error? || Spell(n).Naming? || Spell(n).InArg?
  {
    hide Lookup, Name, ArgOf, Viable;
    LookupSound(n);
  }

  lemma {:induction false} ErrorStays(rest: string)
    ensures Scan(Error, "", rest) == ([], Error)
    decreases |rest|
  {
    if rest != [] {
      ErrorStays(rest[1..]);
    }
  }

  lemma {:induction false} ScanSoundArg(s: State, read: string, rest: string)
    requires s.InArg? && rest != [] && Coherent(s, read) && Scan(s, read, rest).1 == Between
    ensures var l := Scan(s, read, rest).0;
            AllWellFormed(l) && Pending(s, read) + rest == Render(l) && l != []
    decreases |rest|, 0
  {
    hide Name, ArgOf, Walk, Advance, Complete, Next;
    var c, a := rest[0], ArgOf(s.cmd);
    var t := Next(s, c);
    NextInArg(s, c);
    if t == Between {
      ScanSound(Between, "", rest[1..]);
      RenderMore(Command(s.cmd, read), Scan(Between, "", rest[1..]).0);
    } else if t.InArg? {
      WalkSnoc(a, ARG_START, read, c);
      ScanSound(t, read + [c], rest[1..]);
      assert Pending(t, read + [c]) + rest[1..] == Pending(s, read) + rest;
    } else {
      ErrorStaysRead(read + [c], rest[1..]);
      assert false;
    }
  }

  lemma NextInArg(s: State, c: char)
    requires s.InArg?
    ensures var t := Next(s, c);
            || t.Error?
            || (t == Between && c == ';' && Complete(ArgOf(s.cmd), s.pos))
            || (t.InArg? && t.cmd == s.cmd && Advance(ArgOf(s.cmd), s.pos, c) == Some(t.pos))
  {
    hide ArgOf, Advance, Complete;
  }

  lemma RenderMore(c: Command, l: seq<Command>)
    requires WellFormed(c) && AllWellFormed(l)
    ensures AllWellFormed([c] + l) && Render([c] + l) == Name(c.cmd) + c.arg + ([';'] + Render(l))
  {
    hide Name, WellFormed;
    assert ([c] + l)[1..] == l;
  }

  lemma ErrorStaysRead(read: string, rest: string)
    ensures Scan(Error, read, rest) == ([], Error)
  {
    if rest != [] {
      ErrorStays(rest[1..]);
    }
  }

  /** The daemon accepts a buffer and dispatches the list `l` exactly when `l` is a non-empty list
      of well-formed commands and the buffer is its text. */
  lemma AcceptsExactlyRendered(buf: string, l: seq<Command>)
    ensures Scan(Start, "", buf) == (l, Between) <==> l != [] && AllWellFormed(l) && buf == Render(l)
  {
    hide Scan, Walk;
    if Scan(Start, "", buf) == (l, Between) {
      ScanSound(Start, "", buf);
    }
    if l != [] && AllWellFormed(l) && buf == Render(l) {
      RenderScans(Start, l, "");
      ScanEnds(Between, "");
      assert Render(l) + "" == Render(l) && l + [] == l;
    }
  }

  // ---------------------------------------------------------------------------
  // Which arguments are well-formed
  // ---------------------------------------------------------------------------

  lemma {:induction false} WalkText(p: Pos, s: string)
    ensures Walk(Text, p, s) ==
            if ';' in s || '\0' in s then None else Some(p.(chars := p.chars + |s|))
    decreases |s|
  {
    if s != [] {
      assert s == [s[0]] + s[1..];
      if s[0] != ';' && s[0] != '\0' {
        WalkText(p.(chars := p.chars + 1), s[1..]);
      }
    }
  }

  lemma {:induction false} WalkRaw(n: nat, p: Pos, s: string)
    ensures Walk(Raw(n), p, s) == if p.chars + |s| <= n || s == [] then Some(p.(chars := p.chars + |s|)) else None
    decreases |s|
  {
    if s != [] && p.chars < n {
      WalkRaw(n, p.(chars := p.chars + 1), s[1..]);
    }
  }

  /** A host or domain name is accepted exactly when it is not empty and has no terminator. */
  lemma TextWellFormedIff(c: Command)
    requires c.cmd == Hostname || c.cmd == Domain
    ensures WellFormed(c) <==> c.arg != "" && ';' !in c.arg && '\0' !in c.arg
  {
    WalkText(ARG_START, c.arg);
  }

  /** An MTU is accepted exactly when it is two characters long, whatever they are. */
  lemma MtuWellFormedIff(c: Command)
    requires c.cmd == Mtu
    ensures WellFormed(c) <==> |c.arg| == 2
  {
    WalkRaw(2, ARG_START, c.arg);
  }

  /** The other arguments of fixed length. */
  lemma RawWellFormedIff(c: Command)
    requires c.cmd == Timezone || c.cmd == IpTtl || c.cmd == Carrier
    ensures WellFormed(c) <==> |c.arg| == if c.cmd == Timezone then 4 else if c.cmd == IpTtl then 1 else 0
  {
    WalkRaw(if c.cmd == Timezone then 4 else if c.cmd == IpTtl then 1 else 0, ARG_START, c.arg);
  }

  /** The parts of a text between the places of a character. */
  function Split(c: char, s: string): (l: seq<string>)
    ensures l != []
  {
    if s == "" then [""]
    else
      var l := Split(c, s[1..]);
      if s[0] == c then [""] + l else [[s[0]] + l[0]] + l[1..]
  }

  ghost predicate Digits(s: string) {
    forall k :: 0 <= k < |s| ==> '0' <= s[k] <= '9'
  }

  ghost predicate Number(s: string) {
    1 <= |s| <= 3 && Digits(s)
  }

  /** Four numbers with dots between them. */
  ghost predicate Quad(s: string) {
    var l := Split('.', s);
    |l| == 4 && forall k :: 0 <= k < 4 ==> Number(l[k])
  }

  ghost predicate AllQuads(l: seq<string>) {
    forall k :: 0 <= k < |l| ==> Quad(l[k])
  }

  /** Between `min` and `max` quads with commas between them; 0 is no limit. */
  ghost predicate QuadList(s: string, min: nat, max: nat) {
    var l := Split(',', s);
    min <= |l| && (max == 0 || |l| <= max) && AllQuads(l)
  }

  /** What is still to come of an address when `octet` numbers and `digits` digits of it were read. */
  ghost predicate QuadRest(octet: nat, digits: nat, s: string) {
    var l := Split('.', s);
    && octet + |l| == 4 && Digits(l[0]) && 1 <= digits + |l[0]| <= 3
    && forall k :: 1 <= k < |l| ==> Number(l[k])
  }

  lemma QuadRestStep(octet: nat, digits: nat, c: char, s: string)
    requires octet <= 3 && digits <= 3
    ensures '0' <= c <= '9' ==> (QuadRest(octet, digits, [c] + s) <==> digits < 3 && QuadRest(octet, digits + 1, s))
    ensures c == '.' ==> (QuadRest(octet, digits, [c] + s) <==> octet < 3 && digits >= 1 && QuadRest(octet + 1, 0, s))
    ensures c != '.' && !('0' <= c <= '9') ==> !QuadRest(octet, digits, [c] + s)
  {
    var t, r := [c] + s, Split('.', s);
    assert t[1..] == s;
    if c == '.' {
      assert Split('.', t) == [""] + r;
      assert forall k :: 1 <= k < |r| + 1 ==> Split('.', t)[k] == r[k - 1];
      assert forall k :: 0 <= k < |r| ==> r[k] == Split('.', t)[k + 1];
    } else {
      assert Split('.', t) == [[c] + r[0]] + r[1..];
      assert forall k :: 1 <= k < |r| ==> Split('.', t)[k] == r[k];
      DigitsStep(c, r[0]);
    }
  }

  lemma DigitsStep(c: char, s: string)
    ensures Digits([c] + s) <==> '0' <= c <= '9' && Digits(s)
  {
    var t := [c] + s;
    assert t[0] == c && forall k :: 0 <= k < |s| ==> s[k] == t[k + 1];
  }

  lemma QuadIsRest(s: string)
    ensures Quad(s) <==> QuadRest(0, 0, s)
  {
    hide Split;
  }

  lemma QuadRestEnds(octet: nat, digits: nat)
    requires octet <= 3 && digits <= 3
    ensures QuadRest(octet, digits, "") <==> octet == 3 && digits >= 1
  {
  }

  /** The same for a list of addresses, with `addr` complete ones read. */
  ghost predicate ListRest(min: nat, max: nat, p: Pos, s: string) {
    var l := Split(',', s);
    && min <= p.addr + |l| && (max == 0 || p.addr + |l| <= max)
    && QuadRest(p.octet, p.digits, l[0]) && AllQuads(l[1..])
  }

  lemma ListRestStep(min: nat, max: nat, p: Pos, c: char, s: string)
    requires p.octet <= 3 && p.digits <= 3 && (max == 0 || p.addr < max)
    ensures var q := Advance(Addresses(min, max), p, c);
            ListRest(min, max, p, [c] + s) <==> q.Some? && ListRest(min, max, q.value, s)
  {
    hide QuadRest, Quad, Split;
    var r := Split(',', s);
    SplitStep(',', c, s);
    if c == ',' {
      QuadRestEnds(p.octet, p.digits);
      QuadIsRest(r[0]);
      assert r == [r[0]] + r[1..];
      assert AllQuads(r) <==> Quad(r[0]) && AllQuads(r[1..]) by {
        assert forall k :: 1 <= k < |r| ==> r[k] == r[1..][k - 1];
      }
    } else {
      QuadRestStep(p.octet, p.digits, c, r[0]);
    }
  }

  lemma SplitStep(sep: char, c: char, s: string)
    ensures var l, r := Split(sep, [c] + s), Split(sep, s);
            if c == sep then l == [""] + r && l[0] == "" && l[1..] == r
            else l == [[c] + r[0]] + r[1..] && |l| == |r| && l[0] == [c] + r[0] && l[1..] == r[1..]
  {
    assert ([c] + s)[1..] == s;
  }

  lemma {:induction false} WalkAddressesIff(min: nat, max: nat, p: Pos, s: string)
    requires p.octet <= 3 && p.digits <= 3 && (max == 0 || p.addr < max)
    ensures var q := Walk(Addresses(min, max), p, s);
            q.Some? && Complete(Addresses(min, max), q.value) <==> ListRest(min, max, p, s)
    decreases |s|
  {
    if s == "" {
      QuadRestEnds(p.octet, p.digits);
    } else {
      hide ListRest;
      ListRestStep(min, max, p, s[0], s[1..]);
      assert s == [s[0]] + s[1..];
      var q := Advance(Addresses(min, max), p, s[0]);
      if q.Some? {
        WalkAddressesIff(min, max, q.value, s[1..]);
      }
    }
  }

  /** The argument of a command with addresses is accepted exactly when it is a list of dotted quads: two or three
      for an interface's address, one for a router, and any number but none for the other lists. */
  lemma AddressesWellFormedIff(c: Command)
    requires c.cmd in {Ip4Set, Router, Dns, LprSvr, NtpSvr, Wins}
    ensures c.cmd == Ip4Set ==> (WellFormed(c) <==> QuadList(c.arg, 2, 3))
    ensures c.cmd == Router ==> (WellFormed(c) <==> Quad(c.arg) && ',' !in c.arg)
    ensures c.cmd in {Dns, LprSvr, NtpSvr, Wins} ==> (WellFormed(c) <==> QuadList(c.arg, 1, 0))
  {
    hide Walk, Complete, Quad, QuadRest, Split;
    var min, max := if c.cmd == Ip4Set then 2 else 1, if c.cmd == Ip4Set then 3 else if c.cmd == Router then 1 else 0;
    assert ArgOf(c.cmd) == Addresses(min, max);
    WalkAddressesIff(min, max, ARG_START, c.arg);
    var l := Split(',', c.arg);
    QuadIsRest(l[0]);
    assert l == [l[0]] + l[1..];
    assert AllQuads(l) <==> Quad(l[0]) && AllQuads(l[1..]) by {
      assert forall k :: 1 <= k < |l| ==> l[k] == l[1..][k - 1];
    }
    SplitWhole(',', c.arg);
  }

  lemma {:induction false} SplitWhole(c: char, s: string)
    ensures |Split(c, s)| == 1 <==> c !in s
    ensures c !in s ==> Split(c, s) == [s]
    decreases |s|
  {
    if s != "" {
      assert s == [s[0]] + s[1..];
      SplitWhole(c, s[1..]);
    }
  }

  lemma {:induction false} SplitAt(c: char, a: string, t: string)
    requires c !in a
    ensures Split(c, a + [c] + t) == [a] + Split(c, t)
    decreases |a|
  {
    if a == "" {
      assert a + [c] + t == [c] + t;
      SplitStep(c, c, t);
    } else {
      SplitAt(c, a[1..], t);
      SplitStep(c, a[0], a[1..] + [c] + t);
      assert a + [c] + t == [a[0]] + (a[1..] + [c] + t);
      assert a == [a[0]] + a[1..];
    }
  }

  // ---------------------------------------------------------------------------
  // The daemon
  // ---------------------------------------------------------------------------

  const MAX_BUF: nat := 1024

  /** The text of a C string. */
  function UpToNul(s: string): (r: string)
    ensures r <= s && '\0' !in r
    ensures '\0' !in s ==> r == s
    ensures |r| < |s| ==> s[|r|] == '\0'
  {
    if s == [] || s[0] == '\0' then "" else [s[0]] + UpToNul(s[1..])
  }

  /** What of a datagram reaches the daemon. */
  function Received(dgram: string): (r: string)
    ensures |r| < MAX_BUF && r <= dgram && (|dgram| < MAX_BUF ==> r == dgram)
    ensures |dgram| >= MAX_BUF ==> |r| == 1023
  {
    if |dgram| < MAX_BUF then dgram else dgram[..MAX_BUF - 1]
  }

  class Ifchd {
    /** False once a fatal result has ended the process. */
    var alive: bool
    /** `cl.state`, the command being read; None is STATE_NOTHING. */
    var state: Option<Cmd>
    /** Every command that was dispatched so far, oldest first. */
    ghost var received: seq<Command>

    constructor ()
      ensures alive && state == None && received == []
    {
      alive, state, received := true, None, [];
    }

    /** `execute_buffer`. The results of the `perform_*` functions are those of the outside world;
        `results` records them. The argument buffer has room for all of `newbuf`, and nothing is
        ever left over from an earlier buffer, since an unparsed rest goes with the fatal result. */
    method ExecuteBuffer(newbuf: string) returns (r: int, ghost ran: seq<Command>, ghost results: seq<int>)
      requires |newbuf| < MAX_BUF
      modifies this`state, this`received
      ensures received == old(received) + ran
      ensures Executed(Scan(Start, "", UpToNul(newbuf)), results, r, ran)
    {
      hide Next, Scan, UpToNul;
      var buf := UpToNul(newbuf);
      ghost var all := Scan(Start, "", buf);
      var p, cs, argStart, failed := 0, Start, 0, false;
      ran, results := [], [];
      assert buf[0..] == buf && all.0 == ran + all.0;
      while p < |buf|
        invariant 0 <= argStart <= p <= |buf| && |results| == |ran|
        invariant received == old(received) + ran
        invariant -99 !in results && (!failed <==> forall k :: 0 <= k < |results| ==> results[k] == 0)
        invariant var rest := Scan(cs, if cs.InArg? then buf[argStart..p] else "", buf[p..]);
                  all.0 == ran + rest.0 && all.1 == rest.1
      {
        ghost var read := if cs.InArg? then buf[argStart..p] else "";
        ScanStep(cs, read, buf[p], buf[p + 1..]);
        assert buf[p..] == [buf[p]] + buf[p + 1..];
        var next := Next(cs, buf[p]);
        if cs.InArg? {
          NextInArg(cs, buf[p]);
        }
        if cs.InArg? && next == Between {
          // ArgEn and Dispatch.
          state := Some(cs.cmd);
          received := received + [Command(cs.cmd, buf[argStart..p])];
          ran := ran + [Command(cs.cmd, buf[argStart..p])];
          var pr: int := *;
          ghost var before := results;
          results := results + [pr];
          assert results[|before|] == pr && forall k {:trigger before[k]} :: 0 <= k < |before| ==> results[k] == before[k];
          if pr == -99 {
            return -99, ran, results;
          }
          failed := failed || pr != 0;
          assert all.0 == ran + Scan(next, "", buf[p + 1..]).0;
        } else if next == Error {
          ErrorStaysRead(if cs.InArg? then read + [buf[p]] else "", buf[p + 1..]);
          assert all.0 == ran && all.1 == Error;
          break;
        } else if next.InArg? && !cs.InArg? {
          argStart := p + 1;
          assert buf[argStart..p + 1] == "";
        } else {
          assert cs.InArg? ==> read + [buf[p]] == buf[argStart..p + 1];
        }
        p, cs := p + 1, next;
      }
      if p == |buf| {
        assert buf[p..] == "";
        ScanEnds(cs, if cs.InArg? then buf[argStart..p] else "");
        assert all.0 == ran && all.1 == cs;
      }
      r := if p < |buf| || cs != Between then -99 else if failed then -1 else 0;
    }

    /** `process_client_socket`: one datagram, cut to the size of the buffer. True is the reply '+'. */
    method ProcessClientSocket(dgram: string) returns (reply: bool, ghost ran: seq<Command>)
      requires alive
      modifies this
      ensures received == old(received) + ran
      ensures exists r, results :: Executed(Scan(Start, "", UpToNul(Received(dgram))), results, r, ran)
                                   && reply == (r == 0) && alive == (r != -99)
      ensures reply ==> Scan(Start, "", UpToNul(Received(dgram))) == (ran, Between)
    {
      hide Scan;
      var r;
      ghost var results;
      r, ran, results := ExecuteBuffer(Received(dgram));
      reply := r >= 0;
      if r == -99 {
        alive := false;
      }
    }
  }

  /** What `execute_buffer` runs and returns on a buffer that scans as `all`: everything that was
      dispatched, up to the first fatal command. */
  ghost predicate Executed(all: (seq<Command>, State), results: seq<int>, r: int, ran: seq<Command>) {
    && ran <= all.0 && |results| == |ran|
    && (forall k :: 0 <= k < |ran| - 1 ==> results[k] != -99)
    && var fatal := ran != [] && results[|ran| - 1] == -99;
    && (!fatal ==> ran == all.0)
    && r == (if fatal || all.1 != Between then -99
             else if forall k :: 0 <= k < |ran| ==> results[k] == 0 then 0 else -1)
  }
}
