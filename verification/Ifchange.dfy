/** The configuration channel to the interface-change daemon (src/ifchange.c).

Over any run of accepted binds and deconfigurations, the commands that the daemon received
imply everything that the cached packet carries, although only changes are ever sent.
 */
module Ifchange {
  import opened Wire
  import opened Options
  import opened IfchdParse
  import opened IfchCommands

  // ---------------------------------------------------------------------------
  // A differential update agrees with a full one
  // ---------------------------------------------------------------------------

  /** The last argument that the daemon received for each command. */
  function Last(l: seq<Command>): (m: map<Cmd, string>) {
    if l == [] then map[] else Last(l[..|l| - 1])[l[|l| - 1].cmd := l[|l| - 1].arg]
  }

  lemma LastListed(l: seq<Command>, c: Option<Command>)
    ensures Last(l + Listed(c)) == if c.Some? then Last(l)[c.value.cmd := c.value.arg] else Last(l)
  {
    if c.Some? {
      assert (l + [c.value])[..|l|] == l;
    } else {
      assert l + [] == l;
    }
  }

  /** `m` implies the value of an option that `q` carries. */
  predicate OptionImplied(m: map<Cmd, string>, q: Packet, code: Byte)
    requires code in CODES
  {
    var text := Printed(code, Value(q, code));
    Value(q, code) != [] && text.Some? ==> CmdOf(code) in m && m[CmdOf(code)] == UpToNul(text.value)
  }

  ghost predicate OptionsImplied(m: map<Cmd, string>, q: Packet) {
    forall i :: 0 <= i < |CODES| ==> OptionImplied(m, q, CODES[i])
  }

  /** `m` implies the address of `q`, and the mask and broadcast address if it carries them. A daemon
      that never received an address implies the zero address and nothing else. */
  ghost predicate AddressImplied(m: map<Cmd, string>, q: Packet) {
    if Ip4Set !in m then q.yiaddr == 0 && Address(q, SUBNET).None? && Address(q, BROADCAST).None?
    else
      exists sn: Bytes, bc: Option<Bytes> | |sn| == 4 && (bc.Some? ==> |bc.value| == 4) ::
        && m[Ip4Set] == Ip4Arg(q.yiaddr, sn, bc)
        && (Address(q, SUBNET).Some? ==> sn == Address(q, SUBNET).value)
        && (Address(q, BROADCAST).Some? ==> bc == Address(q, BROADCAST))
  }

  lemma AddressStep(m: map<Cmd, string>, cfg: Packet, p: Packet)
    requires AddressImplied(m, cfg)
    ensures var u := AddressUpdate(cfg, p);
            AddressImplied(if u.Some? then m[u.value.cmd := u.value.arg] else m, p)
  {
    hide Value, Ip4Arg;
    var u := AddressUpdate(cfg, p);
    if u.Some? {
      var sn := Address(p, SUBNET);
      var mask := if sn.Some? then sn.value else CLASS_C;
      assert u.value.arg == Ip4Arg(p.yiaddr, mask, Address(p, BROADCAST));
    }
  }

  /** Behind the first n updates, `m` implies the address and the first n options of the new packet,
      and still the other options of the old one. */
  ghost predicate ImpliedUpTo(m: map<Cmd, string>, cfg: Packet, p: Packet, n: nat)
    requires n <= |CODES|
  {
    && AddressImplied(m, p)
    && forall i :: 0 <= i < |CODES| ==> OptionImplied(m, if i < n then p else cfg, CODES[i])
  }

  lemma OptionStep(m: map<Cmd, string>, cfg: Packet, p: Packet, n: nat)
    requires 0 < n <= |CODES| && ImpliedUpTo(m, cfg, p, n - 1)
    ensures var u := Update(cfg, p, CODES[n - 1]);
            ImpliedUpTo(if u.Some? then m[u.value.cmd := u.value.arg] else m, cfg, p, n)
  {
    hide Value, Printed, AddressImplied, CmdOf;
    var u := Update(cfg, p, CODES[n - 1]);
    var m' := if u.Some? then m[u.value.cmd := u.value.arg] else m;
    assert OptionImplied(m, cfg, CODES[n - 1]);
    forall i | 0 <= i < |CODES|
      ensures OptionImplied(m', if i < n then p else cfg, CODES[i])
    {
      CmdsDistinct(i, n - 1);
      assert OptionImplied(m, if i < n - 1 then p else cfg, CODES[i]);
    }
    CmdsDistinct(n - 1, n - 1);
    SameAddress(m, m', p);
  }

  lemma SameAddress(m: map<Cmd, string>, m': map<Cmd, string>, q: Packet)
    requires AddressImplied(m, q) && (Ip4Set in m <==> Ip4Set in m') && (Ip4Set in m ==> m'[Ip4Set] == m[Ip4Set])
    ensures AddressImplied(m', q)
  {
    hide Value, Ip4Arg, Address;
  }

  lemma {:induction false} UpdatesStep(got: seq<Command>, cfg: Packet, p: Packet, n: nat)
    requires n <= |CODES| && AddressImplied(Last(got), cfg) && OptionsImplied(Last(got), cfg)
    ensures ImpliedUpTo(Last(got + Updates(cfg, p, n)), cfg, p, n)
  {
    hide Last, AddressUpdate, Update, AddressImplied, OptionImplied;
    if n == 0 {
      LastListed(got, AddressUpdate(cfg, p));
      AddressStep(Last(got), cfg, p);
      AddressKeepsOptions(Last(got), cfg, p);
    } else {
      UpdatesStep(got, cfg, p, n - 1);
      var l, u := got + Updates(cfg, p, n - 1), Update(cfg, p, CODES[n - 1]);
      LastListed(l, u);
      OptionStep(Last(l), cfg, p, n);
      assert got + Updates(cfg, p, n) == l + Listed(u);
    }
  }

  lemma AddressKeepsOptions(m: map<Cmd, string>, cfg: Packet, p: Packet)
    requires OptionsImplied(m, cfg)
    ensures var u := AddressUpdate(cfg, p);
            OptionsImplied(if u.Some? then m[u.value.cmd := u.value.arg] else m, cfg)
  {
    hide Value, Printed, Ip4Arg, CmdOf;
    var u := AddressUpdate(cfg, p);
    var m' := if u.Some? then m[u.value.cmd := u.value.arg] else m;
    forall i | 0 <= i < |CODES|
      ensures OptionImplied(m', cfg, CODES[i])
    {
      CmdsDistinct(i, i);
      assert OptionImplied(m, cfg, CODES[i]);
    }
  }

  /** Receiving only what changed leaves the daemon with everything that the new packet carries. */
  lemma DifferentialUpdateIsComplete(got: seq<Command>, cfg: Packet, p: Packet)
    requires AddressImplied(Last(got), cfg) && OptionsImplied(Last(got), cfg)
    ensures AddressImplied(Last(got + Intended(cfg, p)), p)
    ensures OptionsImplied(Last(got + Intended(cfg, p)), p)
  {
    hide Last, Updates, AddressImplied, OptionImplied;
    UpdatesStep(got, cfg, p, |CODES|);
    var m := Last(got + Intended(cfg, p));
    forall i | 0 <= i < |CODES|
      ensures OptionImplied(m, p, CODES[i])
    {
    }
  }

  /** An option with an unchanged value is not sent again. */
  lemma UnchangedNotResent(cfg: Packet, p: Packet, i: nat)
    requires i < |CODES| && Value(p, CODES[i]) == Value(cfg, CODES[i])
    ensures forall c :: c in Intended(cfg, p) ==> c.cmd != CmdOf(CODES[i])
  {
    hide Update, AddressUpdate, CmdOf;
    NotResentUpTo(cfg, p, i, |CODES|);
  }

  lemma {:induction false} NotResentUpTo(cfg: Packet, p: Packet, i: nat, n: nat)
    requires i < |CODES| && n <= |CODES| && Value(p, CODES[i]) == Value(cfg, CODES[i])
    ensures forall c :: c in Updates(cfg, p, n) ==> c.cmd != CmdOf(CODES[i])
  {
    hide Value, Printed, CmdOf, AddressUpdate;
    CmdsDistinct(i, i);
    if n > 0 {
      NotResentUpTo(cfg, p, i, n - 1);
      CmdsDistinct(i, n - 1);
    }
  }

  lemma {:induction false} ZerosParse(n: nat, i: nat)
    ensures Parse(Zeros(n), i) == []
    decreases n - i
  {
    if i < n {
      ZerosParse(n, i + 1);
    }
  }

  /** The zeroed cache carries no option. */
  lemma ZeroPacketCarriesNothing(code: Byte)
    ensures Value(ZeroPacket(), code) == []
  {
    hide Parse;
    ZerosParse(OPTIONS_SIZE, 0);
    ZerosParse(FILE_SIZE, 0);
    ZerosParse(SNAME_SIZE, 0);
  }

  lemma FreshDaemonImplied()
    ensures AddressImplied(Last([]), ZeroPacket()) && OptionsImplied(Last([]), ZeroPacket())
  {
    hide Value;
    ZeroPacketCarriesNothing(SUBNET);
    ZeroPacketCarriesNothing(BROADCAST);
    forall i | 0 <= i < |CODES|
      ensures OptionImplied(map[], ZeroPacket(), CODES[i])
    {
      ZeroPacketCarriesNothing(CODES[i]);
    }
  }

  /** For every option that the new packet carries, the daemon ends up with the same value as after a
      full update of a fresh daemon. */
  lemma DifferentialAgreesWithFull(got: seq<Command>, cfg: Packet, p: Packet, i: nat)
    requires AddressImplied(Last(got), cfg) && OptionsImplied(Last(got), cfg)
    requires i < |CODES| && Value(p, CODES[i]) != [] && Printed(CODES[i], Value(p, CODES[i])).Some?
    ensures var c := CmdOf(CODES[i]);
            var few, full := Last(got + Intended(cfg, p)), Last(Intended(ZeroPacket(), p));
            c in few && c in full && few[c] == full[c]
  {
    hide Last, Updates, AddressImplied, Value, Printed, CmdOf, UpToNul;
    FreshDaemonImplied();
    DifferentialUpdateIsComplete(got, cfg, p);
    DifferentialUpdateIsComplete([], ZeroPacket(), p);
    assert [] + Intended(ZeroPacket(), p) == Intended(ZeroPacket(), p);
    assert OptionImplied(Last(got + Intended(cfg, p)), p, CODES[i]);
    assert OptionImplied(Last(Intended(ZeroPacket(), p)), p, CODES[i]);
  }

  /** The mask and the broadcast address that a full update gives. */
  function Mask(p: Packet): (sn: Bytes)
    ensures |sn| == 4
  {
    var sn := Address(p, SUBNET);
    if sn.Some? then sn.value else CLASS_C
  }

  lemma {:induction false} LastAddress(got: seq<Command>, cfg: Packet, p: Packet, n: nat)
    requires n <= |CODES|
    ensures var m, u := Last(got + Updates(cfg, p, n)), AddressUpdate(cfg, p);
            if u.Some? then Ip4Set in m && m[Ip4Set] == u.value.arg
            else (Ip4Set in m <==> Ip4Set in Last(got)) && (Ip4Set in m ==> m[Ip4Set] == Last(got)[Ip4Set])
  {
    hide Last, AddressUpdate, CmdOf, Value, Printed;
    if n == 0 {
      LastListed(got, AddressUpdate(cfg, p));
    } else {
      LastAddress(got, cfg, p, n - 1);
      var l, u := got + Updates(cfg, p, n - 1), Update(cfg, p, CODES[n - 1]);
      LastListed(l, u);
      CmdsDistinct(n - 1, n - 1);
      assert got + Updates(cfg, p, n) == l + Listed(u);
    }
  }

  /** The daemon's address command, with the mask `sn` and the broadcast address `bc`, becomes that of a full
      update exactly when there is one, and either something that the new packet carries has changed, or what
      it does not carry is what a full update would give. Otherwise the old mask or broadcast address stays. */
  lemma AddressAgreesWithFullIff(got: seq<Command>, cfg: Packet, p: Packet, sn: Bytes, bc: Option<Bytes>)
    requires |sn| == 4 && (bc.Some? ==> |bc.value| == 4)
    requires Ip4Set in Last(got) && Last(got)[Ip4Set] == Ip4Arg(cfg.yiaddr, sn, bc)
    requires (Address(cfg, SUBNET).Some? ==> sn == Address(cfg, SUBNET).value)
             && (Address(cfg, BROADCAST).Some? ==> bc == Address(cfg, BROADCAST))
    ensures var few, full := Last(got + Intended(cfg, p)), Last(Intended(ZeroPacket(), p));
            && Ip4Set in few
            && (Ip4Set in full && few[Ip4Set] == full[Ip4Set] <==>
                && (p.yiaddr != 0 || Address(p, SUBNET).Some? || Address(p, BROADCAST).Some?)
                && (|| p.yiaddr != cfg.yiaddr || Changed(cfg, p, SUBNET) || Changed(cfg, p, BROADCAST)
                    || (&& (Address(p, SUBNET).Some? || sn == CLASS_C)
                        && (Address(p, BROADCAST).Some? || bc == None))))
  {
    hide Last, Updates, Value, Ip4Arg;
    LastAddress(got, cfg, p, |CODES|);
    LastAddress([], ZeroPacket(), p, |CODES|);
    assert [] + Intended(ZeroPacket(), p) == Intended(ZeroPacket(), p);
    NoneReceived();
    ZeroPacketCarriesNothing(SUBNET);
    ZeroPacketCarriesNothing(BROADCAST);
    if AddressUpdate(cfg, p).None? && Ip4Arg(p.yiaddr, sn, bc) == Ip4Arg(p.yiaddr, Mask(p), Address(p, BROADCAST)) {
      Ip4ArgInjective(p.yiaddr, sn, bc, Mask(p), Address(p, BROADCAST));
    }
  }

  lemma NoneReceived()
    ensures Ip4Set !in Last([])
  {
  }

  // ---------------------------------------------------------------------------
  // The printers
  // ---------------------------------------------------------------------------

  /** snprintf("%s") where the text and its NUL have room. */
  method PutString(buf: array<char>, off: nat, text: string)
    requires off + |text| < buf.Length
    modifies buf
    ensures buf[..off + |text|] == old(buf[..])[..off] + text
  {
    Copy(buf, off, text + ['\0']);
    assert buf[..off + |text|] == buf[..][..off + |text|] == old(buf[..])[..off] + text;
  }

  /** `ifcmd_raw`: prints one command at `off`. */
  method IfcmdRaw(buf: array<char>, off: nat, cmd: Cmd, optdata: string) returns (n: int)
    requires off <= buf.Length
    modifies buf
    ensures buf.Length - off < Needed(cmd, optdata) ==> n == -1
    ensures buf.Length - off >= Needed(cmd, optdata) ==>
              n == |RenderOne(Command(cmd, UpToNul(optdata)))| && off + n < buf.Length
              && buf[..off + n] == old(buf[..])[..off] + RenderOne(Command(cmd, UpToNul(optdata)))
    ensures n == -1 ==> buf[..] == old(buf[..])
  {
    hide Name, UpToNul;
    NameShape(cmd);
    if buf.Length - off < |Name(cmd)| - 1 + |optdata| + 3 {
      return -1;
    }
    var text := Name(cmd) + UpToNul(optdata) + ";";
    PutString(buf, off, text);
    n := |text|;
  }

  /** `ifcmd_iplist`: the addresses of an option. */
  method PrintIpList(optdata: Bytes) returns (buf: string)
    requires 4 <= |optdata| <= MAX_DOPT_SIZE
    ensures buf == IpList(optdata)
    ensures |buf| < BUF_SIZE
  {
    hide Dotted;
    buf := Dotted(optdata[..4]);
    var optoff := 4;
    assert optdata[0..] == optdata;
    while |optdata| >= 4 + optoff
      invariant 4 <= optoff <= |optdata|
      invariant IpList(optdata) == buf + if |optdata| - optoff >= 4 then "," + IpList(optdata[optoff..]) else ""
      invariant |buf| <= 4 * optoff
    {
      IpListStep(optdata, optoff, buf);
      buf := buf + "," + Dotted(optdata[optoff..optoff + 4]);
      optoff := optoff + 4;
    }
  }

  lemma IpListStep(data: Bytes, off: nat, buf: string)
    requires off + 4 <= |data|
    ensures buf + ("," + IpList(data[off..]))
         == (buf + "," + Dotted(data[off..off + 4]))
            + if |data| - off - 4 >= 4 then "," + IpList(data[off + 4..]) else ""
  {
    hide Dotted;
    assert data[off..][..4] == data[off..off + 4];
    assert data[off..][4..] == data[off + 4..];
  }

  /** `ifchd_cmd`: prints the value of one option. */
  method IfchdCmd(buf: array<char>, off: nat, optdata: Bytes, code: Byte) returns (n: int)
    requires off <= buf.Length && code in CODES && 0 < |optdata| <= MAX_DOPT_SIZE
    modifies buf
    ensures var text := Printed(code, optdata);
            var cmd := CmdOf(code);
            if text.None? || buf.Length - off < Needed(cmd, text.value)
            then n == -1 && buf[..] == old(buf[..])
            else n == |RenderOne(Command(cmd, UpToNul(text.value)))| && off + n < buf.Length
                 && buf[..off + n] == old(buf[..])[..off] + RenderOne(Command(cmd, UpToNul(text.value)))
  {
    hide Dotted, IpList, Dec, UpToNul, RenderOne, Needed, AsText;
    if code == HOSTNAME || code == DOMAIN {
      n := IfcmdRaw(buf, off, CmdOf(code), AsText(optdata));
    } else if code == MTU {
      if |optdata| < 2 {
        return -1;
      }
      n := IfcmdRaw(buf, off, CmdOf(code), Dec(FromBe16(optdata[..2])));
    } else if |optdata| < 4 {
      return -1;
    } else if code == ROUTER {
      n := IfcmdRaw(buf, off, CmdOf(code), Dotted(optdata[..4]));
    } else {
      var list := PrintIpList(optdata);
      n := IfcmdRaw(buf, off, CmdOf(code), list);
    }
  }

  /** `get_dhcp_opt` into a buffer of MAX_DOPT_SIZE bytes. */
  method GetValue(p: Packet, code: Byte) returns (v: Bytes)
    ensures v == Value(p, code)
  {
    hide Opt;
    var dbuf := new Byte[MAX_DOPT_SIZE](_ => 0);
    var n := GetDhcpOpt(p, code, dbuf);
    v := dbuf[..n];
    assert dbuf[..][..n] == dbuf[..n];
  }

  /** `send_cmd` */
  method SendCmd(buf: array<char>, off: nat, cfg: Packet, p: Packet, code: Byte) returns (n: nat)
    requires off <= buf.Length && code in CODES
    modifies buf
    ensures n == |SentCmd(cfg, p, code, buf.Length - off)| && off + n <= buf.Length
    ensures buf[..off + n] == old(buf[..])[..off] + SentCmd(cfg, p, code, buf.Length - off)
  {
    hide Value, Printed, UpToNul, RenderOne, Needed, CmdOf;
    var optdata := GetValue(p, code);
    var olddata := GetValue(cfg, code);
    assert buf[..off + 0] == old(buf[..])[..off] + "";
    if optdata == [] || olddata == optdata {
      return 0;
    }
    var r := IfchdCmd(buf, off, optdata, code);
    n := if r > 0 then r else 0;
    if r == -1 {
      assert buf[..off] == buf[..][..off];
    }
  }

  /** `send_client_ip` */
  method SendClientIp(buf: array<char>, cfg: Packet, p: Packet) returns (n: nat)
    requires buf.Length == BUF_SIZE
    modifies buf
    ensures n == |SentIp(cfg, p)| <= BUF_SIZE
    ensures buf[..n] == SentIp(cfg, p)
  {
    hide Value, Ip4Arg, Name;
    var changeIp := p.yiaddr != cfg.yiaddr;
    var subnet := GetValue(p, SUBNET);
    var changeSubnet := false;
    if |subnet| >= 4 {
      var was := GetValue(cfg, SUBNET);
      changeSubnet := was != subnet;
    }
    var bcast := GetValue(p, BROADCAST);
    var changeBcast := false;
    if |bcast| >= 4 {
      var was := GetValue(cfg, BROADCAST);
      changeBcast := was != bcast;
    }
    if !changeIp && !changeSubnet && !changeBcast {
      return 0;
    }
    var arg := Ip4Arg(p.yiaddr, if |subnet| >= 4 then subnet[..4] else CLASS_C,
                      if |bcast| >= 4 then Some(bcast[..4]) else None);
    var text := Name(Ip4Set) + arg + ";";
    assert text == SentIp(cfg, p);
    n := |text|;
    PutString(buf, 0, text);
  }

  /** The buffer holds the address and the first n options, up to `bo`. */
  ghost predicate Built(buf: array<char>, bo: nat, cfg: Packet, p: Packet, n: nat)
    requires n <= |CODES|
    reads buf
  {
    buf.Length == BUF_SIZE && bo == |SentUpTo(cfg, p, n)| && buf[..bo] == SentUpTo(cfg, p, n)
  }

  /** One more option behind the buffer built so far. */
  method SendNext(buf: array<char>, bo: nat, cfg: Packet, p: Packet, n: nat) returns (bo': nat)
    requires n < |CODES| && Built(buf, bo, cfg, p, n)
    modifies buf
    ensures Built(buf, bo', cfg, p, n + 1)
  {
    hide SentCmd, SentIp;
    var k := SendCmd(buf, bo, cfg, p, CODES[n]);
    bo' := bo + k;
    assert old(buf[..])[..bo] == old(buf[..bo]);
  }

  /** The buffer that `ifchange_bind` builds. */
  method BuildBind(cfg: Packet, p: Packet) returns (text: string)
    ensures text == SentUpTo(cfg, p, |CODES|)
  {
    hide SentUpTo;
    var buf := new char[BUF_SIZE](_ => '\0');
    SentNothing(cfg, p);
    var bo := SendClientIp(buf, cfg, p);
    bo := SendOptions(buf, bo, cfg, p);
    text := buf[..bo];
  }

  method SendOptions(buf: array<char>, bo: nat, cfg: Packet, p: Packet) returns (bo': nat)
    requires Built(buf, bo, cfg, p, 0)
    modifies buf
    ensures Built(buf, bo', cfg, p, |CODES|)
  {
    hide Built;
    bo' := SendNext(buf, bo, cfg, p, 0);   // ROUTER
    bo' := SendNext(buf, bo', cfg, p, 1);  // DNS
    bo' := SendNext(buf, bo', cfg, p, 2);  // HOSTNAME
    bo' := SendNext(buf, bo', cfg, p, 3);  // DOMAIN
    bo' := SendNext(buf, bo', cfg, p, 4);  // MTU
    bo' := SendNext(buf, bo', cfg, p, 5);  // WINS
  }

  lemma SentNothing(cfg: Packet, p: Packet)
    ensures SentUpTo(cfg, p, 0) == SentIp(cfg, p)
  {
  }

  /** No command of a bind is lost: each has room in the buffer, and the datagram in the daemon's. */
  ghost predicate NothingDropped(cfg: Packet, p: Packet) {
    Roomy(cfg, p, |CODES|) && |Render(Intended(cfg, p))| < MAX_BUF
  }

  /** The room for the first n options of `p`, all of them new. */
  function Size(p: Packet, n: nat): (k: nat)
    requires n <= |CODES|
  {
    if n == 0 then 52
    else
      var text := Printed(CODES[n - 1], Value(p, CODES[n - 1]));
      Size(p, n - 1) + if text.Some? then Needed(CmdOf(CODES[n - 1]), text.value) else 0
  }

  lemma {:induction false} SizeSuffices(cfg: Packet, p: Packet, n: nat)
    requires n <= |CODES| && Size(p, n) <= BUF_SIZE
    ensures Roomy(cfg, p, n) && |SentUpTo(cfg, p, n)| <= Size(p, n)
  {
    hide Value, Printed, CmdOf, Name, UpToNul;
    if n > 0 {
      SizeSuffices(cfg, p, n - 1);
    }
  }

  /** A packet whose options fit the daemon's buffer together can be bound behind any other. */
  lemma SmallNotDropped(cfg: Packet, p: Packet)
    requires Size(p, |CODES|) < MAX_BUF
    ensures NothingDropped(cfg, p)
  {
    hide Size, Roomy, SentUpTo, Render, Updates;
    SizeSuffices(cfg, p, |CODES|);
    SentIsRendered(cfg, p, |CODES|);
  }

  lemma {:induction false} UpdatesNoNul(cfg: Packet, p: Packet, n: nat)
    requires n <= |CODES|
    ensures forall c :: c in Updates(cfg, p, n) ==> NoNul(c.arg)
  {
    hide Value, Printed, CmdOf, Dotted, UpToNul;
    if n == 0 {
      if AddressUpdate(cfg, p).Some? {
        var sn, bc := Address(p, SUBNET), Address(p, BROADCAST);
        DottedNoNul(Be32(p.yiaddr));
        DottedNoNul(if sn.Some? then sn.value else CLASS_C);
        if bc.Some? {
          DottedNoNul(bc.value);
        }
      }
    } else {
      UpdatesNoNul(cfg, p, n - 1);
    }
  }

  lemma {:induction false} RenderNoNul(l: seq<Command>)
    requires forall c :: c in l ==> NoNul(c.arg)
    ensures NoNul(Render(l))
    decreases |l|
  {
    if l != [] {
      assert l[0] in l;
      NameNoNul(l[0].cmd);
      hide Name;
      RenderNoNul(l[1..]);
    }
  }

  lemma NameNoNul(c: Cmd)
    ensures NoNul(Name(c))
  {
  }

  /** What the daemon makes of a bind of which nothing is dropped. */
  lemma BindReachesDaemon(cfg: Packet, p: Packet)
    requires NothingDropped(cfg, p)
    ensures UpToNul(Received(SentUpTo(cfg, p, |CODES|))) == Render(Intended(cfg, p))
  {
    hide Updates, UpToNul, SentUpTo;
    SentIsRendered(cfg, p, |CODES|);
    UpdatesNoNul(cfg, p, |CODES|);
    RenderNoNul(Intended(cfg, p));
  }

  // ---------------------------------------------------------------------------
  // Bind and deconfigure
  // ---------------------------------------------------------------------------

  /** The address command of `ifchange_deconfig`. */
  function DeconfigCommand(): Command {
    Command(Ip4Set, Ip4Arg(0, [255, 255, 255, 255], None))
  }

  /** A bind, or a deconfiguration. */
  datatype Change = Give(packet: Packet) | Take

  /** The cached packet, and whether the interface is deconfigured. */
  datatype Cache = Cache(cfg: Packet, deconfigured: bool)

  /** The cache after changes that are all accepted. */
  function CacheAfter(c: Cache, run: seq<Change>): (r: Cache) {
    if run == [] then c
    else
      var b := CacheAfter(c, run[..|run| - 1]);
      match run[|run| - 1]
      case Give(p) => Cache(p, false)
      case Take => if b.deconfigured then b else Cache(ZeroPacket(), true)
  }

  /** No name of a bind holds the terminator, and no command of it is dropped when `cfg` was bound last. */
  ghost predicate Plain(cfg: Packet, ch: Change) {
    ch.Give? ==> NoTerminator(ch.packet) && NothingDropped(cfg, ch.packet)
  }

  /** The same of every change of a run that starts with the cache `c`. */
  ghost predicate AllPlain(c: Cache, run: seq<Change>) {
    forall k :: 0 <= k < |run| ==> Plain(CacheAfter(c, run[..k]).cfg, run[k])
  }

  class Configurator {
    /** `cfg_packet`, the packet that was bound last. */
    var cfg: Packet
    /** Set if the interface has already been deconfigured. */
    var ifDeconfig: bool
    const daemon: Ifchd
    /** Every bind since the last deconfiguration was plain, and no change has failed since. */
    ghost var inStep: bool

    /** What the daemon received implies everything that the cache carries. */
    ghost predicate Synced()
      reads this, daemon
    {
      AddressImplied(Last(daemon.received), cfg) && OptionsImplied(Last(daemon.received), cfg)
    }

    /** As long as that holds, the daemon is in step with the cache. */
    ghost predicate Kept()
      reads this, daemon
    {
      inStep ==> Synced()
    }

    constructor (daemon: Ifchd)
      ensures this.daemon == daemon && cfg == ZeroPacket() && !ifDeconfig
      ensures daemon.received == [] ==> Synced()
      ensures Kept() && inStep == (daemon.received == [])
    {
      this.daemon := daemon;
      cfg, ifDeconfig, inStep := ZeroPacket(), false, daemon.received == [];
      new;
      FreshDaemonImplied();
    }

    /** `ifchwrite`: writes a buffer and waits for the reply. The write itself may fail, as it does
        when the daemon is gone. */
    method Ifchwrite(buf: string) returns (ok: bool, ghost ran: seq<Command>)
      modifies daemon
      ensures daemon.received == old(daemon.received) + ran
      ensures ok ==> Scan(Start, "", UpToNul(Received(buf))) == (ran, Between)
      ensures ok ==> daemon.alive
    {
      hide Scan, UpToNul;
      var written: bool := *;
      if !daemon.alive || !written {
        return false, [];
      }
      ok, ran := daemon.ProcessClientSocket(buf);
    }

    /** `ifchange_bind`. A bind that has nothing to send fails. */
    method Bind(p: Packet) returns (ok: bool)
      modifies this, daemon
      ensures ok ==> cfg == p && !ifDeconfig && daemon.alive
      ensures !ok ==> cfg == old(cfg) && ifDeconfig == old(ifDeconfig)
      ensures Intended(old(cfg), p) == [] ==> !ok && daemon.received == old(daemon.received)
      ensures ok && NoTerminator(p) && NothingDropped(old(cfg), p) ==>
                daemon.received == old(daemon.received) + Intended(old(cfg), p)
      ensures ok && NoTerminator(p) && NothingDropped(old(cfg), p) && old(Synced()) ==> Synced()
      ensures inStep == (ok && old(inStep) && Plain(old(cfg), Give(p)))
      ensures old(Kept()) ==> Kept()
    {
      hide SentUpTo, Intended, NothingDropped, NoTerminator, Scan, UpToNul, AddressImplied, OptionsImplied, Last;
      var buf := BuildBind(cfg, p);
      NothingIntendedNothingSent(cfg, p);
      ghost var was := inStep;
      inStep := false;
      if buf == "" {
        return false;
      }
      ghost var ran;
      ok, ran := Ifchwrite(buf);
      if ok {
        BindSyncs(old(daemon.received), old(cfg), p, ran);
        ifDeconfig := false;
        cfg := p;
        inStep := was && Plain(old(cfg), Give(p));
      }
    }

    /** `ifchange_deconfig` */
    method Deconfig() returns (ok: bool)
      modifies this, daemon
      ensures ok ==> ifDeconfig
      ensures ok && old(ifDeconfig) ==> cfg == old(cfg) && daemon.received == old(daemon.received)
      ensures ok && !old(ifDeconfig) ==>
                cfg == ZeroPacket() && daemon.received == old(daemon.received) + [DeconfigCommand()] && Synced()
      ensures !ok ==> cfg == old(cfg) && ifDeconfig == old(ifDeconfig)
      ensures inStep == (ok && (old(ifDeconfig) ==> old(inStep)))
      ensures old(Kept()) ==> Kept()
    {
      hide Scan, UpToNul;
      if ifDeconfig {
        return true;
      }
      inStep := false;
      ghost var ran;
      ok, ran := Ifchwrite("ip4:0.0.0.0,255.255.255.255;");
      if ok {
        ifDeconfig, inStep := true, true;
        cfg := ZeroPacket();
        DeconfigSyncs(old(daemon.received), ran);
      }
    }

    /** Any run of binds and deconfigurations, up to the first that is not accepted. While all are accepted,
        the daemon stays in step with the cache. */
    method Run(run: seq<Change>) returns (n: nat)
      requires Synced() && AllPlain(Cache(cfg, ifDeconfig), run)
      modifies this, daemon
      ensures n <= |run| && Cache(cfg, ifDeconfig) == CacheAfter(old(Cache(cfg, ifDeconfig)), run[..n])
      ensures n == |run| ==> Synced()
    {
      hide NoTerminator, NothingDropped, Intended, Synced;
      n := 0;
      while n < |run|
        invariant n <= |run| && Synced()
        invariant Cache(cfg, ifDeconfig) == CacheAfter(old(Cache(cfg, ifDeconfig)), run[..n])
      {
        var ok := Apply(run[n]);
        if !ok {
          return;
        }
        assert run[..n + 1][..n] == run[..n];
        n := n + 1;
      }
    }

    /** One of these. */
    method Apply(ch: Change) returns (ok: bool)
      requires Synced() && Plain(cfg, ch)
      modifies this, daemon
      ensures ok ==> Synced()
      ensures !ok ==> cfg == old(cfg) && ifDeconfig == old(ifDeconfig)
      ensures ok && ch.Give? ==> cfg == ch.packet && !ifDeconfig
      ensures ok && ch.Take? ==> ifDeconfig && cfg == if old(ifDeconfig) then old(cfg) else ZeroPacket()
    {
      hide NoTerminator, NothingDropped, Intended, AddressImplied, OptionsImplied, Last;
      match ch
      case Give(p) =>
        ok := Bind(p);
      case Take =>
        ok := Deconfig();
    }
  }

  lemma {:induction false} NothingUpTo(cfg: Packet, p: Packet, n: nat)
    requires n <= |CODES| && Updates(cfg, p, n) == []
    ensures SentUpTo(cfg, p, n) == ""
  {
    hide Update, AddressUpdate, RenderOne, Needed, Printed, Value;
    if n > 0 {
      NothingUpTo(cfg, p, n - 1);
    }
  }

  lemma NothingIntendedNothingSent(cfg: Packet, p: Packet)
    ensures Intended(cfg, p) == [] ==> SentUpTo(cfg, p, |CODES|) == ""
  {
    if Intended(cfg, p) == [] {
      NothingUpTo(cfg, p, |CODES|);
    }
  }

  /** An accepted bind of which nothing is dropped delivers the intended commands and keeps the daemon
      in step with the cache. */
  lemma BindSyncs(got: seq<Command>, cfg: Packet, p: Packet, ran: seq<Command>)
    requires Scan(Start, "", UpToNul(Received(SentUpTo(cfg, p, |CODES|)))) == (ran, Between)
    ensures NoTerminator(p) && NothingDropped(cfg, p) ==> ran == Intended(cfg, p)
    ensures NoTerminator(p) && NothingDropped(cfg, p) &&
            AddressImplied(Last(got), cfg) && OptionsImplied(Last(got), cfg) ==>
              AddressImplied(Last(got + ran), p) && OptionsImplied(Last(got + ran), p)
  {
    hide Scan, SentUpTo, Updates, NoTerminator, NothingDropped, AddressImplied, OptionsImplied, Last;
    if NoTerminator(p) && NothingDropped(cfg, p) {
      BindReachesDaemon(cfg, p);
      BindAcceptedIff(cfg, p);
      if AddressImplied(Last(got), cfg) && OptionsImplied(Last(got), cfg) {
        DifferentialUpdateIsComplete(got, cfg, p);
      }
    }
  }

  lemma DottedZero()
    ensures Dotted([0, 0, 0, 0]) == "0.0.0.0"
  {
  }

  lemma DottedOnes()
    ensures Dotted([255, 255, 255, 255]) == "255.255.255.255"
  {
    assert Dec(255) == "255";
  }

  lemma DeconfigText()
    ensures RenderOne(DeconfigCommand()) == "ip4:0.0.0.0,255.255.255.255;"
    ensures WellFormed(DeconfigCommand())
  {
    hide Walk, Dec;
    Ip4ArgWellFormed(0, [255, 255, 255, 255], None);
    assert Be32(0) == [0, 0, 0, 0];
    DottedZero();
    DottedOnes();
    hide Dotted;
  }

  lemma DeconfigReceived()
    ensures UpToNul(Received("ip4:0.0.0.0,255.255.255.255;")) == Render([DeconfigCommand()])
  {
    hide RenderOne, UpToNul;
    DeconfigText();
    RenderListed(Some(DeconfigCommand()));
  }

  lemma DeconfigSyncs(got: seq<Command>, ran: seq<Command>)
    requires Scan(Start, "", UpToNul(Received("ip4:0.0.0.0,255.255.255.255;"))) == (ran, Between)
    ensures ran == [DeconfigCommand()]
    ensures AddressImplied(Last(got + ran), ZeroPacket()) && OptionsImplied(Last(got + ran), ZeroPacket())
  {
    hide Scan, Ip4Arg, WellFormed, Value, RenderOne, UpToNul, Received, Render, Last, AddressImplied;
    DeconfigText();
    DeconfigReceived();
    AcceptsExactlyRendered(Render([DeconfigCommand()]), [DeconfigCommand()]);
    LastListed(got, Some(DeconfigCommand()));
    DeconfigAddress(Last(got + ran));
    forall i | 0 <= i < |CODES|
      ensures OptionImplied(Last(got + ran), ZeroPacket(), CODES[i])
    {
      ZeroPacketCarriesNothing(CODES[i]);
    }
  }

  lemma DeconfigAddress(m: map<Cmd, string>)
    requires Ip4Set in m && m[Ip4Set] == DeconfigCommand().arg
    ensures AddressImplied(m, ZeroPacket())
  {
    hide Ip4Arg, Value;
    ZeroPacketCarriesNothing(SUBNET);
    ZeroPacketCarriesNothing(BROADCAST);
    assert m[Ip4Set] == Ip4Arg(0, [255, 255, 255, 255], None);
  }
}
