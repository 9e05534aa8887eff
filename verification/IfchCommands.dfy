/** The commands that the client sends to the interface-change daemon (src/ifchange.c:50-193
    and 253-349), as text and as the lists that they stand for.

`Intended` is what a bind means to send: the address and those options that differ from the
packet that was bound last. `SentUpTo` is the text that the printers leave in the buffer.
 */
module IfchCommands {
  import opened Wire
  import opened Options
  import opened IfchdParse

  // ---------------------------------------------------------------------------
  // Text
  // ---------------------------------------------------------------------------

  function Digit(d: nat): char
    requires d < 10
  {
    ('0' as int + d) as char
  }

  /** printf("%u") */
  function Dec(n: nat): (s: string)
    ensures |s| >= 1 && (n < 100 ==> |s| <= 2) && (n < 1000 ==> |s| <= 3)
    ensures forall c :: c in s ==> '0' <= c <= '9'
  {
    if n < 10 then [Digit(n)] else Dec(n / 10) + [Digit(n % 10)]
  }

  /** inet_ntop(AF_INET) */
  function Dotted(b: Bytes): (s: string)
    requires |b| == 4
    ensures |s| <= 15
  {
    Dec(b[0]) + "." + Dec(b[1]) + "." + Dec(b[2]) + "." + Dec(b[3])
  }

  /** The addresses of an option, separated by commas; a rest of less than four bytes is ignored. */
  function IpList(data: Bytes): (s: string)
    requires |data| >= 4
  {
    Dotted(data[..4]) + if |data| >= 8 then "," + IpList(data[4..]) else ""
  }

  function AsText(data: Bytes): (s: string)
    ensures |s| == |data| && forall i :: 0 <= i < |s| ==> s[i] as int == data[i]
  {
    seq(|data|, i requires 0 <= i < |data| => data[i] as char)
  }

  /** The argument of the ip4 command. */
  function Ip4Arg(ip: U32, subnet: Bytes, bcast: Option<Bytes>): (s: string)
    requires |subnet| == 4 && (bcast.Some? ==> |bcast.value| == 4)
    ensures |s| <= 47
  {
    Dotted(Be32(ip)) + "," + Dotted(subnet) + if bcast.Some? then "," + Dotted(bcast.value) else ""
  }

  // ---------------------------------------------------------------------------
  // What a bind means to send
  // ---------------------------------------------------------------------------

  /** The options that `ifchange_bind` passes on, in that order. */
  const CODES: seq<Byte> := [ROUTER, DNS, HOSTNAME, DOMAIN, MTU, WINS]

  function CmdOf(code: Byte): (c: Cmd)
    requires code in CODES
  {
    if code == ROUTER then Router else if code == DNS then Dns else if code == HOSTNAME then Hostname
    else if code == DOMAIN then Domain else if code == MTU then Cmd.Mtu else Cmd.Wins
  }

  /** The text of an option's value, before the C string ends at a NUL; None if the value is too
      short to print. */
  function Printed(code: Byte, data: Bytes): (r: Option<string>)
    requires code in CODES
  {
    if code == HOSTNAME || code == DOMAIN then Some(AsText(data))
    else if code == MTU then if |data| < 2 then None else Some(Dec(FromBe16(data[..2])))
    else if |data| < 4 then None
    else if code == ROUTER then Some(Dotted(data[..4]))
    else Some(IpList(data))
  }

  function Value(p: Packet, code: Byte): (v: Bytes)
    ensures |v| <= MAX_DOPT_SIZE
  {
    Opt(p, code, MAX_DOPT_SIZE)
  }

  /** The command for an option, if it is there, new and printable. */
  function Update(cfg: Packet, p: Packet, code: Byte): (r: Option<Command>)
    requires code in CODES
  {
    var v := Value(p, code);
    var text := Printed(code, v);
    if v == [] || v == Value(cfg, code) || text.None? then None
    else Some(Command(CmdOf(code), UpToNul(text.value)))
  }

  /** An address option that is long enough to be printed. */
  function Address(p: Packet, code: Byte): (r: Option<Bytes>)
    ensures r.Some? ==> |r.value| == 4
  {
    var v := Value(p, code);
    if |v| >= 4 then Some(v[..4]) else None
  }

  predicate Changed(cfg: Packet, p: Packet, code: Byte) {
    |Value(p, code)| >= 4 && Value(p, code) != Value(cfg, code)
  }

  const CLASS_C: Bytes := [255, 255, 255, 0]

  function AddressUpdate(cfg: Packet, p: Packet): (r: Option<Command>)
    ensures r.Some? ==> r.value.cmd == Ip4Set && |r.value.arg| <= 47
  {
    if p.yiaddr == cfg.yiaddr && !Changed(cfg, p, SUBNET) && !Changed(cfg, p, BROADCAST) then None
    else
      var sn := Address(p, SUBNET);
      Some(Command(Ip4Set, Ip4Arg(p.yiaddr, if sn.Some? then sn.value else CLASS_C, Address(p, BROADCAST))))
  }

  function Listed(c: Option<Command>): (l: seq<Command>) {
    if c.Some? then [c.value] else []
  }

  /** The updates for the first n options. */
  function Updates(cfg: Packet, p: Packet, n: nat): (l: seq<Command>)
    requires n <= |CODES|
  {
    if n == 0 then Listed(AddressUpdate(cfg, p))
    else Updates(cfg, p, n - 1) + Listed(Update(cfg, p, CODES[n - 1]))
  }

  /** Every command that a bind of `p` means to send when `cfg` was bound last. */
  function Intended(cfg: Packet, p: Packet): (l: seq<Command>) {
    Updates(cfg, p, |CODES|)
  }

  // ---------------------------------------------------------------------------
  // What a bind sends
  // ---------------------------------------------------------------------------

  const BUF_SIZE: nat := 2048

  /** The room that `ifcmd_raw` insists on. */
  function Needed(c: Cmd, printed: string): nat {
    |Name(c)| - 1 + |printed| + 3
  }

  /** What `send_cmd` writes into a buffer with `room` bytes left. */
  function SentCmd(cfg: Packet, p: Packet, code: Byte, room: nat): (s: string)
    requires code in CODES
    ensures s == "" || |s| < room
  {
    var u := Update(cfg, p, code);
    if u.None? || room < Needed(u.value.cmd, Printed(code, Value(p, code)).value) then "" else RenderOne(u.value)
  }

  function SentIp(cfg: Packet, p: Packet): (s: string)
    ensures |s| <= 52
  {
    var u := AddressUpdate(cfg, p);
    if u.None? then "" else RenderOne(u.value)
  }

  /** The buffer behind the first n options. */
  function SentUpTo(cfg: Packet, p: Packet, n: nat): (s: string)
    requires n <= |CODES|
    ensures |s| <= BUF_SIZE
  {
    if n == 0 then SentIp(cfg, p)
    else
      var s := SentUpTo(cfg, p, n - 1);
      s + SentCmd(cfg, p, CODES[n - 1], BUF_SIZE - |s|)
  }

  // ---------------------------------------------------------------------------
  // Which commands the daemon accepts
  // ---------------------------------------------------------------------------

  /** The number that a text of digits stands for. */
  function Numeral(s: string): int {
    if s == "" then 0 else 10 * Numeral(s[..|s| - 1]) + (s[|s| - 1] as int - '0' as int)
  }

  /** Decimal text has the value that was printed, and no leading zero. */
  lemma {:induction false} DecReads(n: nat)
    ensures Numeral(Dec(n)) == n && (Dec(n)[0] == '0' ==> n == 0)
  {
    var s := Dec(n);
    if n < 10 {
      assert s[..|s| - 1] == "";
    } else {
      DecReads(n / 10);
      assert s[..|s| - 1] == Dec(n / 10);
    }
  }

  lemma DecIsNumber(n: Byte)
    ensures Number(Dec(n)) && '.' !in Dec(n) && ',' !in Dec(n)
  {
    hide Dec;
    assert forall k :: 0 <= k < |Dec(n)| ==> Dec(n)[k] in Dec(n);
  }

  lemma DottedSplits(b: Bytes)
    requires |b| == 4
    ensures Split('.', Dotted(b)) == [Dec(b[0]), Dec(b[1]), Dec(b[2]), Dec(b[3])]
    ensures Quad(Dotted(b)) && ',' !in Dotted(b)
  {
    hide Dec, Split;
    var s0, s1, s2, s3 := Dec(b[0]), Dec(b[1]), Dec(b[2]), Dec(b[3]);
    DecIsNumber(b[0]);
    DecIsNumber(b[1]);
    DecIsNumber(b[2]);
    DecIsNumber(b[3]);
    SplitAt('.', s0, s1 + ['.'] + (s2 + ['.'] + s3));
    SplitAt('.', s1, s2 + ['.'] + s3);
    SplitAt('.', s2, s3);
    SplitWhole('.', s3);
    assert Dotted(b) == s0 + ['.'] + (s1 + ['.'] + (s2 + ['.'] + s3));
  }

  /** A dotted address reads as its four bytes, in order. */
  lemma DottedReads(b: Bytes)
    requires |b| == 4
    ensures var l := Split('.', Dotted(b)); |l| == 4 && forall k :: 0 <= k < 4 ==> Numeral(l[k]) == b[k]
  {
    hide Dec, Dotted, Split, Numeral;
    DottedSplits(b);
    DecReads(b[0]);
    DecReads(b[1]);
    DecReads(b[2]);
    DecReads(b[3]);
  }

  lemma DottedInjective(a: Bytes, b: Bytes)
    requires |a| == 4 && |b| == 4 && Dotted(a) == Dotted(b)
    ensures a == b
  {
    hide Dotted, Split, Numeral;
    DottedReads(a);
    DottedReads(b);
    assert forall k :: 0 <= k < 4 ==> a[k] == Numeral(Split('.', Dotted(a))[k]) == b[k];
  }

  /** A list of addresses reads as the addresses in the option's value, in order. */
  lemma {:induction false} IpListReads(data: Bytes)
    requires |data| >= 4
    ensures var l := Split(',', IpList(data));
            |l| == |data| / 4 && forall k :: 0 <= k < |l| ==> l[k] == Dotted(data[4 * k..4 * k + 4])
    decreases |data|
  {
    hide Dotted, Split;
    var h := Dotted(data[..4]);
    DottedSplits(data[..4]);
    if |data| < 8 {
      assert IpList(data) == h;
      SplitWhole(',', h);
    } else {
      var t := IpList(data[4..]);
      IpListReads(data[4..]);
      SplitAt(',', h, t);
      assert IpList(data) == h + [','] + t;
      assert forall k :: 0 <= k < |data| / 4 - 1 ==> data[4..][4 * k..4 * k + 4] == data[4 * (k + 1)..4 * (k + 1) + 4];
    }
  }

  /** The address command names the address, the mask and, if there is one, the broadcast address. */
  lemma Ip4ArgReads(ip: U32, sn: Bytes, bc: Option<Bytes>)
    requires |sn| == 4 && (bc.Some? ==> |bc.value| == 4)
    ensures Split(',', Ip4Arg(ip, sn, bc)) ==
            [Dotted(Be32(ip)), Dotted(sn)] + if bc.Some? then [Dotted(bc.value)] else []
  {
    hide Dotted, Split;
    var s, t := Dotted(Be32(ip)), Dotted(sn);
    DottedSplits(Be32(ip));
    DottedSplits(sn);
    if bc.None? {
      SplitAt(',', s, t);
      SplitWhole(',', t);
      assert Ip4Arg(ip, sn, bc) == s + [','] + t;
    } else {
      var u := Dotted(bc.value);
      DottedSplits(bc.value);
      SplitAt(',', s, t + [','] + u);
      SplitAt(',', t, u);
      SplitWhole(',', u);
      assert Ip4Arg(ip, sn, bc) == s + [','] + (t + [','] + u);
    }
  }

  lemma Ip4ArgInjective(ip: U32, sn: Bytes, bc: Option<Bytes>, sn': Bytes, bc': Option<Bytes>)
    requires |sn| == 4 && |sn'| == 4 && (bc.Some? ==> |bc.value| == 4) && (bc'.Some? ==> |bc'.value| == 4)
    requires Ip4Arg(ip, sn, bc) == Ip4Arg(ip, sn', bc')
    ensures sn == sn' && bc == bc'
  {
    hide Dotted, Split, Ip4Arg;
    Ip4ArgReads(ip, sn, bc);
    Ip4ArgReads(ip, sn', bc');
    var l := Split(',', Ip4Arg(ip, sn, bc));
    assert l[1] == Dotted(sn) == Dotted(sn');
    DottedInjective(sn, sn');
    assert |l| == (if bc.Some? then 3 else 2) == if bc'.Some? then 3 else 2;
    if bc.Some? {
      assert l[2] == Dotted(bc.value) == Dotted(bc'.value);
      DottedInjective(bc.value, bc'.value);
    }
  }

  /** What the client prints as an address command is always accepted. */
  lemma Ip4ArgWellFormed(ip: U32, subnet: Bytes, bcast: Option<Bytes>)
    requires |subnet| == 4 && (bcast.Some? ==> |bcast.value| == 4)
    ensures WellFormed(Command(Ip4Set, Ip4Arg(ip, subnet, bcast)))
  {
    hide Dotted, Split, WellFormed, Quad, Ip4Arg;
    Ip4ArgReads(ip, subnet, bcast);
    DottedSplits(Be32(ip));
    DottedSplits(subnet);
    if bcast.Some? {
      DottedSplits(bcast.value);
    }
    AddressesWellFormedIff(Command(Ip4Set, Ip4Arg(ip, subnet, bcast)));
  }

  lemma IpListWellFormed(data: Bytes)
    requires |data| >= 4
    ensures QuadList(IpList(data), 1, 0)
  {
    hide Dotted, Split, Quad, IpList;
    IpListReads(data);
    var l := Split(',', IpList(data));
    forall k | 0 <= k < |l| ensures Quad(l[k]) {
      DottedSplits(data[4 * k..4 * k + 4]);
    }
  }

  predicate IsText(code: Byte) {
    code == HOSTNAME || code == DOMAIN
  }

  /** Nothing that `ifchange_bind` prints for this option can be rejected. */
  predicate Acceptable(c: Command) {
    && (c.cmd == Hostname || c.cmd == Domain ==> c.arg != "" && ';' !in c.arg)
    && (c.cmd == Cmd.Mtu ==> |c.arg| == 2)
  }

  ghost predicate NoNul(s: string) {
    '\0' !in s
  }

  lemma DottedNoNul(b: Bytes)
    requires |b| == 4
    ensures NoNul(Dotted(b))
  {
    hide Dec;
  }

  lemma {:induction false} IpListNoNul(data: Bytes)
    requires |data| >= 4
    ensures NoNul(IpList(data))
    decreases |data|
  {
    hide Dotted;
    DottedNoNul(data[..4]);
    if |data| >= 8 {
      IpListNoNul(data[4..]);
    }
  }

  /** A printed option is accepted exactly when it is acceptable: every router, DNS and WINS
      command is, a host or domain name unless it is empty or holds the terminator, and an MTU only
      with two digits. */
  lemma UpdateWellFormedIff(cfg: Packet, p: Packet, code: Byte)
    requires code in CODES && Update(cfg, p, code).Some?
    ensures var u := Update(cfg, p, code).value; u.cmd == CmdOf(code) && (WellFormed(u) <==> Acceptable(u))
  {
    hide Value, Dec, Dotted, IpList, WellFormed, Quad, QuadList, AsText;
    var u := Update(cfg, p, code).value;
    var v := Value(p, code);
    if IsText(code) {
      TextWellFormedIff(u);
    } else if code == MTU {
      MtuWellFormedIff(u);
    } else if code == ROUTER {
      DottedNoNul(v[..4]);
      DottedSplits(v[..4]);
      AddressesWellFormedIff(u);
    } else {
      IpListNoNul(v);
      IpListWellFormed(v);
      AddressesWellFormedIff(u);
    }
  }

  // ---------------------------------------------------------------------------
  // What a bind means to send, command by command
  // ---------------------------------------------------------------------------

  /** The packet carries the option, with another value than before. */
  predicate News(cfg: Packet, p: Packet, code: Byte) {
    Value(p, code) != [] && Value(p, code) != Value(cfg, code)
  }

  lemma {:induction false} UpdatesIff(cfg: Packet, p: Packet, n: nat, c: Command)
    requires n <= |CODES|
    ensures c in Updates(cfg, p, n) <==>
            AddressUpdate(cfg, p) == Some(c) || exists i :: 0 <= i < n && Update(cfg, p, CODES[i]) == Some(c)
  {
    hide Update, AddressUpdate;
    if n > 0 {
      UpdatesIff(cfg, p, n - 1, c);
      assert Updates(cfg, p, n) == Updates(cfg, p, n - 1) + Listed(Update(cfg, p, CODES[n - 1]));
      assert c in Listed(Update(cfg, p, CODES[n - 1])) <==> Update(cfg, p, CODES[n - 1]) == Some(c);
    }
  }

  lemma UpdateIff(cfg: Packet, p: Packet, i: nat, c: Command)
    requires i < |CODES| && c.cmd == CmdOf(CODES[i])
    ensures c in Intended(cfg, p) <==> Update(cfg, p, CODES[i]) == Some(c)
  {
    hide Value, Printed, UpToNul, CmdOf;
    UpdatesIff(cfg, p, |CODES|, c);
    forall k | 0 <= k < |CODES|
      ensures CmdOf(CODES[k]) == CmdOf(CODES[i]) ==> k == i
    {
      CmdsDistinct(k, i);
    }
    CmdsDistinct(i, i);
  }

  lemma CmdsDistinct(i: nat, j: nat)
    requires i < |CODES| && j < |CODES|
    ensures CmdOf(CODES[i]) == CmdOf(CODES[j]) <==> i == j
    ensures CmdOf(CODES[i]) != Ip4Set
  {
  }

  /** The commands of a bind for host and domain name and for the MTU, in the numbers of RFC 2132. */
  lemma NamesIntendedIff(cfg: Packet, p: Packet, arg: string)
    ensures Command(Hostname, arg) in Intended(cfg, p) <==> News(cfg, p, 12) && arg == UpToNul(AsText(Value(p, 12)))
    ensures Command(Domain, arg) in Intended(cfg, p) <==> News(cfg, p, 15) && arg == UpToNul(AsText(Value(p, 15)))
    ensures Command(Cmd.Mtu, arg) in Intended(cfg, p) <==>
            var v := Value(p, 26); News(cfg, p, 26) && |v| >= 2 && arg == Dec((v[0] as int) * 256 + v[1])
  {
    hide Value, AsText, UpToNul, Dec, Dotted, IpList, Updates;
    UpdateIff(cfg, p, 2, Command(Hostname, arg));
    UpdateIff(cfg, p, 3, Command(Domain, arg));
    UpdateIff(cfg, p, 4, Command(Cmd.Mtu, arg));
    assert CODES[2] == 12 && CODES[3] == 15 && CODES[4] == 26;
    var v := Value(p, 26);
    if |v| >= 2 {
      DecNoNul(FromBe16(v[..2]));
    }
  }

  lemma DecNoNul(n: nat)
    ensures '\0' !in Dec(n)
  {
    hide Dec;
  }

  /** Those for router, DNS and WINS servers. */
  lemma AddressesIntendedIff(cfg: Packet, p: Packet, arg: string)
    ensures Command(Router, arg) in Intended(cfg, p) <==>
            var v := Value(p, 3); News(cfg, p, 3) && |v| >= 4 && arg == Dotted(v[..4])
    ensures Command(Dns, arg) in Intended(cfg, p) <==>
            var v := Value(p, 6); News(cfg, p, 6) && |v| >= 4 && arg == IpList(v)
    ensures Command(Cmd.Wins, arg) in Intended(cfg, p) <==>
            var v := Value(p, 44); News(cfg, p, 44) && |v| >= 4 && arg == IpList(v)
  {
    hide Value, AsText, UpToNul, Dec, Dotted, IpList, Updates;
    UpdateIff(cfg, p, 0, Command(Router, arg));
    UpdateIff(cfg, p, 1, Command(Dns, arg));
    UpdateIff(cfg, p, 5, Command(Cmd.Wins, arg));
    assert CODES[0] == 3 && CODES[1] == 6 && CODES[5] == 44;
    if |Value(p, 3)| >= 4 {
      DottedNoNul(Value(p, 3)[..4]);
    }
    if |Value(p, 6)| >= 4 {
      IpListNoNul(Value(p, 6));
    }
    if |Value(p, 44)| >= 4 {
      IpListNoNul(Value(p, 44));
    }
  }

  /** The one for the address, and that there is no other command. */
  lemma AddressIntendedIff(cfg: Packet, p: Packet, arg: string)
    ensures Command(Ip4Set, arg) in Intended(cfg, p) <==>
            var sn, bc := Value(p, 1), Value(p, 28);
            && (p.yiaddr != cfg.yiaddr || (|sn| >= 4 && sn != Value(cfg, 1)) || (|bc| >= 4 && bc != Value(cfg, 28)))
            && arg == Ip4Arg(p.yiaddr, if |sn| >= 4 then sn[..4] else [255, 255, 255, 0],
                             if |bc| >= 4 then Some(bc[..4]) else None)
    ensures forall c :: c in Intended(cfg, p) ==> c.cmd in {Ip4Set, Router, Dns, Hostname, Domain, Cmd.Mtu, Cmd.Wins}
  {
    hide Value, Printed, UpToNul, Ip4Arg;
    UpdatesIff(cfg, p, |CODES|, Command(Ip4Set, arg));
    forall c | c in Intended(cfg, p)
      ensures c.cmd in {Ip4Set, Router, Dns, Hostname, Domain, Cmd.Mtu, Cmd.Wins}
    {
      UpdatesIff(cfg, p, |CODES|, c);
    }
  }

  ghost predicate AllAcceptable(l: seq<Command>) {
    forall c :: c in l ==> Acceptable(c)
  }

  lemma {:induction false} UpdatesWellFormedIff(cfg: Packet, p: Packet, n: nat)
    requires n <= |CODES|
    ensures AllWellFormed(Updates(cfg, p, n)) <==> AllAcceptable(Updates(cfg, p, n))
  {
    hide WellFormed, Acceptable, Update, AddressUpdate;
    if n == 0 {
      AddressUpdateWellFormed(cfg, p);
    } else {
      UpdatesWellFormedIff(cfg, p, n - 1);
      if Update(cfg, p, CODES[n - 1]).Some? {
        UpdateWellFormedIff(cfg, p, CODES[n - 1]);
      }
    }
  }

  lemma AddressUpdateWellFormed(cfg: Packet, p: Packet)
    ensures var u := AddressUpdate(cfg, p); u.Some? ==> WellFormed(u.value) && Acceptable(u.value)
  {
    hide Walk, Value, Dotted;
    if AddressUpdate(cfg, p).Some? {
      var sn := Address(p, SUBNET);
      Ip4ArgWellFormed(p.yiaddr, if sn.Some? then sn.value else CLASS_C, Address(p, BROADCAST));
    }
  }

  /** The buffer is the text of the intended list if no command was dropped for lack of room. */
  lemma {:induction false} SentIsRendered(cfg: Packet, p: Packet, n: nat)
    requires n <= |CODES| && Roomy(cfg, p, n)
    ensures SentUpTo(cfg, p, n) == Render(Updates(cfg, p, n))
  {
    hide RenderOne, Update, AddressUpdate, Needed, Value, Printed;
    if n == 0 {
      RenderListed(AddressUpdate(cfg, p));
    } else {
      SentIsRendered(cfg, p, n - 1);
      var u := Update(cfg, p, CODES[n - 1]);
      RenderConcat(Updates(cfg, p, n - 1), Listed(u));
      RenderListed(u);
      if u.None? {
        assert SentUpTo(cfg, p, n) == SentUpTo(cfg, p, n - 1) + "";
      }
    }
  }

  /** Every command among the first n options has the room that it needs. */
  ghost predicate Roomy(cfg: Packet, p: Packet, n: nat)
    requires n <= |CODES|
  {
    n > 0 ==>
      && Roomy(cfg, p, n - 1)
      && (Update(cfg, p, CODES[n - 1]).Some? ==> SentCmd(cfg, p, CODES[n - 1], BUF_SIZE - |SentUpTo(cfg, p, n - 1)|) != "")
  }

  lemma RenderListed(c: Option<Command>)
    ensures Render(Listed(c)) == if c.Some? then RenderOne(c.value) else ""
  {
    hide RenderOne;
    if c.Some? {
      assert Listed(c)[1..] == [];
      assert RenderOne(c.value) + "" == RenderOne(c.value);
    }
  }

  lemma {:induction false} RenderConcat(a: seq<Command>, b: seq<Command>)
    ensures Render(a + b) == Render(a) + Render(b)
    decreases |a|
  {
    hide RenderOne;
    if a == [] {
      assert a + b == b;
    } else {
      assert (a + b)[1..] == a[1..] + b;
      RenderConcat(a[1..], b);
    }
  }

  /** A command that is well-formed, or an empty name, or a number in place of an MTU. */
  predicate Tame(c: Command) {
    || WellFormed(c)
    || ((c.cmd == Hostname || c.cmd == Domain) && c.arg == "")
    || (c.cmd == Cmd.Mtu && c.arg != "" && |c.arg| != 2 && forall d :: d in c.arg ==> '0' <= d <= '9')
  }

  ghost predicate AllTame(l: seq<Command>) {
    forall c :: c in l ==> Tame(c)
  }

  lemma EmptyTextRejected(c: Cmd, rest: string)
    requires c == Hostname || c == Domain
    ensures Scan(InArg(c, ARG_START), "", ";" + rest).1 == Error
  {
    hide Scan;
    ScanStep(InArg(c, ARG_START), "", ';', rest);
    ErrorStaysRead("" + [';'], rest);
  }

  /** The machine takes the terminator of a one-digit MTU for its second character. */
  lemma ShortMtuRejected(arg: string, rest: string)
    requires |arg| == 1 && (rest == "" || rest[0] != ';')
    ensures Scan(InArg(Cmd.Mtu, ARG_START), "", arg + ";" + rest).1 != Between
  {
    hide Scan;
    var p1, p2 := Pos(0, 0, 0, 1), Pos(0, 0, 0, 2);
    assert arg + ";" + rest == [arg[0]] + (";" + rest);
    ScanStep(InArg(Cmd.Mtu, ARG_START), "", arg[0], ";" + rest);
    ScanStep(InArg(Cmd.Mtu, p1), "" + [arg[0]], ';', rest);
    var read := "" + [arg[0]] + [';'];
    if rest == "" {
      ScanEnds(InArg(Cmd.Mtu, p2), read);
    } else {
      ScanStep(InArg(Cmd.Mtu, p2), read, rest[0], rest[1..]);
      ErrorStaysRead(read + [rest[0]], rest[1..]);
      assert rest == [rest[0]] + rest[1..];
    }
  }

  lemma LongMtuRejected(arg: string, rest: string)
    requires |arg| > 2 && arg[2] != ';'
    ensures Scan(InArg(Cmd.Mtu, ARG_START), "", arg + ";" + rest).1 == Error
  {
    hide Scan;
    var p1, p2 := Pos(0, 0, 0, 1), Pos(0, 0, 0, 2);
    var tail := arg[3..] + ";" + rest;
    assert arg + ";" + rest == [arg[0]] + ([arg[1]] + ([arg[2]] + tail));
    ScanStep(InArg(Cmd.Mtu, ARG_START), "", arg[0], [arg[1]] + ([arg[2]] + tail));
    ScanStep(InArg(Cmd.Mtu, p1), "" + [arg[0]], arg[1], [arg[2]] + tail);
    var read := "" + [arg[0]] + [arg[1]];
    ScanStep(InArg(Cmd.Mtu, p2), read, arg[2], tail);
    ErrorStaysRead(read + [arg[2]], tail);
  }

  lemma RenderStart(l: seq<Command>)
    ensures Render(l) == "" || Render(l)[0] != ';'
  {
    if l != [] {
      NameShape(l[0].cmd);
      hide Name;
      assert Render(l)[0] == Name(l[0].cmd)[0];
    }
  }

  lemma IllFormedRejected(s: State, c: Command, l: seq<Command>)
    requires (s == Start || s == Between) && Tame(c) && !WellFormed(c)
    ensures Scan(s, "", RenderOne(c) + Render(l)).1 != Between
  {
    hide Scan, Name, WellFormed, Render;
    NameShape(c.cmd);
    var rest := Render(l);
    ScanName(s, c.cmd, 0, c.arg + ";" + rest);
    assert RenderOne(c) + rest == Name(c.cmd)[0..] + (c.arg + ";" + rest);
    if c.cmd != Cmd.Mtu {
      EmptyTextRejected(c.cmd, rest);
      assert c.arg + ";" + rest == ";" + rest;
    } else if |c.arg| == 1 {
      RenderStart(l);
      ShortMtuRejected(c.arg, rest);
    } else {
      assert c.arg[2] in c.arg;
      LongMtuRejected(c.arg, rest);
    }
  }

  /** One ill-formed command makes the daemon reject the whole buffer. */
  lemma {:induction false} IllFormedListRejected(s: State, l: seq<Command>)
    requires (s == Start || s == Between) && AllTame(l) && !AllWellFormed(l)
    ensures Scan(s, "", Render(l)).1 != Between
    decreases |l|
  {
    hide Scan, RenderOne, WellFormed, Tame;
    assert l != [];
    assert l[0] in l;
    if WellFormed(l[0]) {
      ScanOne(s, l[0], Render(l[1..]));
      assert forall c :: c in l ==> c == l[0] || c in l[1..];
      IllFormedListRejected(Between, l[1..]);
    } else {
      IllFormedRejected(s, l[0], l[1..]);
    }
  }

  /** No host or domain name of `p` holds the terminator. */
  predicate NoTerminator(p: Packet) {
    && ';' !in UpToNul(AsText(Value(p, HOSTNAME)))
    && ';' !in UpToNul(AsText(Value(p, DOMAIN)))
  }

  lemma UpdateTame(cfg: Packet, p: Packet, code: Byte)
    requires code in CODES && NoTerminator(p) && Update(cfg, p, code).Some?
    ensures Tame(Update(cfg, p, code).value)
  {
    UpdateWellFormedIff(cfg, p, code);
    hide Value, Dec, Dotted, IpList, AsText, WellFormed;
  }

  lemma {:induction false} UpdatesTame(cfg: Packet, p: Packet, n: nat)
    requires n <= |CODES| && NoTerminator(p)
    ensures AllTame(Updates(cfg, p, n))
  {
    hide Tame, Update, AddressUpdate, NoTerminator;
    if n == 0 {
      AddressUpdateTame(cfg, p);
    } else {
      UpdatesTame(cfg, p, n - 1);
      if Update(cfg, p, CODES[n - 1]).Some? {
        UpdateTame(cfg, p, CODES[n - 1]);
      }
    }
  }

  lemma AddressUpdateTame(cfg: Packet, p: Packet)
    ensures var u := AddressUpdate(cfg, p); u.Some? ==> Tame(u.value)
  {
    hide WellFormed, AddressUpdate;
    AddressUpdateWellFormed(cfg, p);
  }

  /** Unless a name holds the terminator, the daemon accepts the text of what a bind intends exactly
      when every command is acceptable, and then dispatches exactly the intended commands. In
      particular a bind that passes on an MTU outside 10..99 is always rejected. */
  lemma BindAcceptedIff(cfg: Packet, p: Packet)
    requires NoTerminator(p)
    ensures var l := Intended(cfg, p);
            var (ran, end) := Scan(Start, "", Render(l));
            && (end == Between <==> l != [] && AllAcceptable(l))
            && (end == Between ==> ran == l)
  {
    hide Scan, Updates, NoTerminator, WellFormed, Acceptable, Tame;
    var l := Intended(cfg, p);
    UpdatesTame(cfg, p, |CODES|);
    UpdatesWellFormedIff(cfg, p, |CODES|);
    if AllWellFormed(l) {
      AcceptsExactlyRendered(Render(l), l);
      if l == [] {
        ScanEnds(Start, "");
      }
    } else {
      IllFormedListRejected(Start, l);
    }
  }

  /** Whatever its names hold, a bind is understood as it was meant exactly when every command is acceptable. */
  lemma BindUnderstoodIff(cfg: Packet, p: Packet)
    ensures var l := Intended(cfg, p); Scan(Start, "", Render(l)) == (l, Between) <==> l != [] && AllAcceptable(l)
  {
    hide Scan, Updates, WellFormed, Acceptable;
    AcceptsExactlyRendered(Render(Intended(cfg, p)), Intended(cfg, p));
    UpdatesWellFormedIff(cfg, p, |CODES|);
  }

  /** If the only news is a host name that holds the terminator and a domain command, the daemon accepts
      the bind, but runs that command too. */
  lemma NameReadAsCommand(cfg: Packet, data: Bytes, a: string, b: string)
    requires WellFormed(Command(Hostname, a)) && WellFormed(Command(Domain, b))
    requires AsText(data) == a + ";" + Name(Domain) + b && Tlv(HOSTNAME, data).Valid()
    requires HasRoom(cfg.options, Tlv(HOSTNAME, data)) && Values(AllOptions(cfg), HOSTNAME) == []
    ensures var l := Intended(cfg, WithOption(cfg, Tlv(HOSTNAME, data)));
            && l == [Command(Hostname, AsText(data))]
            && Scan(Start, "", Render(l)) == ([Command(Hostname, a), Command(Domain, b)], Between)
  {
    hide Scan, WellFormed, Intended, HasRoom, AsText, WithOption, Values, AllOptions, Render, Name;
    var l := [Command(Hostname, a), Command(Domain, b)];
    TextWellFormedIff(l[0]);
    TextWellFormedIff(l[1]);
    NameNotEmpty(a, b);
    OneNewName(cfg, data);
    SameText(a, b);
    AcceptsExactlyRendered(Render(l), l);
  }

  lemma NameNotEmpty(a: string, b: string)
    ensures a + ";" + Name(Domain) + b != "" && ('\0' !in a && '\0' !in b ==> '\0' !in a + ";" + Name(Domain) + b)
  {
  }

  lemma SameText(a: string, b: string)
    ensures Render([Command(Hostname, a + ";" + Name(Domain) + b)]) == Render([Command(Hostname, a), Command(Domain, b)])
  {
    hide Render, Name;
    var c, d, e := Command(Hostname, a), Command(Domain, b), Command(Hostname, a + ";" + Name(Domain) + b);
    RenderConcat([c], [d]);
    RenderListed(Some(c));
    RenderListed(Some(d));
    RenderListed(Some(e));
    assert [c] + [d] == [c, d];
    assert RenderOne(e) == RenderOne(c) + RenderOne(d);
  }

  lemma OneNewName(cfg: Packet, data: Bytes)
    requires Tlv(HOSTNAME, data).Valid() && data != [] && '\0' !in AsText(data)
    requires HasRoom(cfg.options, Tlv(HOSTNAME, data)) && Values(AllOptions(cfg), HOSTNAME) == []
    ensures Intended(cfg, WithOption(cfg, Tlv(HOSTNAME, data))) == [Command(Hostname, AsText(data))]
  {
    hide HasRoom, AsText, Values, AllOptions, Added, Opt;
    var t := Tlv(HOSTNAME, data);
    var p := WithOption(cfg, t);
    forall code: Byte | code != HOSTNAME ensures Value(p, code) == Value(cfg, code) {
      AddLeavesOthersAlone(cfg, t, code, MAX_DOPT_SIZE);
    }
    AddSeenThroughGet(cfg, t, HOSTNAME, MAX_DOPT_SIZE);
    OptIsConcatenationIffFits(cfg, HOSTNAME, MAX_DOPT_SIZE);
    assert Value(p, HOSTNAME) == data;
    OnlyUpdate(cfg, p, |CODES|);
  }

  lemma {:induction false} OnlyUpdate(cfg: Packet, p: Packet, n: nat)
    requires n <= |CODES| && p.yiaddr == cfg.yiaddr && Update(cfg, p, HOSTNAME).Some?
    requires forall code :: code != HOSTNAME ==> Value(p, code) == Value(cfg, code)
    ensures Updates(cfg, p, n) == if n < 3 then [] else [Update(cfg, p, HOSTNAME).value]
  {
    hide Update, AddressUpdate;
    if n == 0 {
      NoAddressUpdate(cfg, p);
    } else {
      OnlyUpdate(cfg, p, n - 1);
      assert CODES[2] == HOSTNAME;
      assert n != 3 ==> CODES[n - 1] != HOSTNAME;
      NoUpdate(cfg, p, CODES[n - 1]);
    }
  }

  lemma NoAddressUpdate(cfg: Packet, p: Packet)
    requires p.yiaddr == cfg.yiaddr
    requires Value(p, SUBNET) == Value(cfg, SUBNET) && Value(p, BROADCAST) == Value(cfg, BROADCAST)
    ensures AddressUpdate(cfg, p) == None
  {
    hide Value;
  }

  lemma NoUpdate(cfg: Packet, p: Packet, code: Byte)
    requires code in CODES
    ensures Value(p, code) == Value(cfg, code) ==> Update(cfg, p, code) == None
  {
    hide Value, Printed, CmdOf;
  }
}
