/** The messages that the client sends (src/dhcp.c:418-517).

Each builder writes its options one after the other into the 308-byte field. What it
means to send is the list `OptionsOf`; every builder is proved to render exactly that
list, so that no option is ever dropped and each one decodes back to its value.
 */
module Messages {
  import opened Wire
  import opened Options

  /** The part of `struct client_config_t` that goes into messages. */
  datatype Identity = Identity(arp: Bytes, clientid: Bytes, hostname: Bytes, vendor: Bytes)

  /** It fits the buffers of the configuration; strings keep a byte for their NUL. */
  type Config = c: Identity | |c.arp| == 6 && |c.clientid| <= 64 && |c.hostname| <= 63 && |c.vendor| <= 63
    witness Identity(Zeros(6), [], [], [])

  /** sizeof(struct ip_udp_dhcp_packet) */
  const MAX_MESSAGE: U16 := 576

  const REQUEST_LIST: Bytes := [SUBNET, ROUTER, DNS, HOSTNAME, DOMAIN, BROADCAST]

  /** "ndhc", the vendor id of a client that has none configured. */
  const DEFAULT_VENDOR: Bytes := [0x6e, 0x64, 0x68, 0x63]

  datatype Kind =
    | Discover(addr: U32)
    | Selecting(addr: U32, server: U32)
    | Renew(addr: U32)
    | Rebind(addr: U32)
    | Decline(addr: U32, server: U32)
    | Release(addr: U32, server: U32)

  function TypeOf(k: Kind): Byte {
    match k
    case Discover(_) => DHCPDISCOVER
    case Decline(_, _) => DHCPDECLINE
    case Release(_, _) => DHCPRELEASE
    case _ => DHCPREQUEST
  }

  function Head(cfg: Config, k: Kind): (l: seq<Tlv>) {
    [Tlv(MSGTYPE, [TypeOf(k)]), Tlv(CLIENT_ID, cfg.clientid)]
  }

  /** The address and server that a message names. */
  function Subject(k: Kind): (l: seq<Tlv>) {
    match k
    case Discover(addr) => if addr == 0 then [] else [Tlv(REQIP, Be32(addr))]
    case Renew(_) => []
    case Rebind(addr) => [Tlv(REQIP, Be32(addr))]
    case Selecting(addr, server) => [Tlv(REQIP, Be32(addr)), Tlv(SERVER_ID, Be32(server))]
    case Decline(addr, server) => [Tlv(REQIP, Be32(addr)), Tlv(SERVER_ID, Be32(server))]
    case Release(addr, server) => [Tlv(REQIP, Be32(addr)), Tlv(SERVER_ID, Be32(server))]
  }

  /** What every message that asks for a lease ends with. */
  function Wishes(cfg: Config): (l: seq<Tlv>) {
    [Tlv(MAX_SIZE, Be16(MAX_MESSAGE)),
     Tlv(PARAM_REQ, REQUEST_LIST),
     Tlv(VENDOR, if cfg.vendor == [] then DEFAULT_VENDOR else cfg.vendor)]
    + if cfg.hostname == [] then [] else [Tlv(HOSTNAME, cfg.hostname)]
  }

  /** The options that a message of kind `k` is meant to carry. */
  function OptionsOf(cfg: Config, k: Kind): (l: seq<Tlv>) {
    Head(cfg, k) + Subject(k) + if k.Decline? || k.Release? then [] else Wishes(cfg)
  }

  /** Whether the message names the client's address as its own. */
  predicate SetsCiaddr(k: Kind) {
    k.Renew? || k.Rebind? || k.Release?
  }

  // ---------------------------------------------------------------------------
  // A rendered list decodes
  // ---------------------------------------------------------------------------

  ghost predicate Distinct(l: seq<Tlv>) {
    forall i, j :: 0 <= i < j < |l| ==> l[i].code != l[j].code
  }

  /** The message decodes to exactly the list `l`. */
  ghost predicate Carries(m: Packet, l: seq<Tlv>) {
    && (forall t :: t in l ==> Opt(m, t.code, MAX_DOPT_SIZE) == t.data)
    && (forall code: Byte :: (forall t :: t in l ==> t.code != code) ==> Opt(m, code, MAX_DOPT_SIZE) == [])
  }

  lemma {:induction false} ValuesAbsent(l: seq<Tlv>, code: Byte)
    requires forall t :: t in l ==> t.code != code
    ensures Values(l, code) == []
  {
    if l != [] {
      assert l[0] in l;
      ValuesAbsent(l[1..], code);
    }
  }

  lemma {:induction false} ValuesDistinct(l: seq<Tlv>, i: nat)
    requires i < |l| && Distinct(l)
    ensures Values(l, l[i].code) == l[i].data
  {
    if i == 0 {
      ValuesAbsent(l[1..], l[0].code);
    } else {
      assert l[1..][i - 1] == l[i];
      ValuesDistinct(l[1..], i - 1);
    }
  }

  lemma {:induction false} NoOverload(l: seq<Tlv>, ol: Overload)
    requires forall t :: t in l ==> t.code != OVERLOAD
    ensures OverloadOf(l, ol) == ol
  {
    if l != [] {
      assert l[0] in l;
      NoOverload(l[1..], ol);
    }
  }

  /** A message whose options are the image of a list with distinct codes decodes to it. */
  lemma RenderedDecodes(m: Packet, l: seq<Tlv>)
    requires AllValid(l) && Distinct(l) && |Encode(l)| < OPTIONS_SIZE && m.options == Rendered(l)
    requires forall t :: t in l ==> t.code != OVERLOAD
    ensures Carries(m, l)
  {
    RenderedReads(l);
    NoOverload(l, Overload(false, false));
    assert AllOptions(m) == l;
    hide Parse, Encode, Rendered, OverloadOf, AllOptions, Opt, Values;
    forall t | t in l
      ensures Opt(m, t.code, MAX_DOPT_SIZE) == t.data
    {
      var i :| 0 <= i < |l| && l[i] == t;
      ValuesDistinct(l, i);
      assert |t.data| <= 255;
      OptIsConcatenationIffFits(m, t.code, MAX_DOPT_SIZE);
    }
    forall code: Byte | forall t :: t in l ==> t.code != code
      ensures Opt(m, code, MAX_DOPT_SIZE) == []
    {
      ValuesAbsent(l, code);
      OptIsConcatenationIffFits(m, code, MAX_DOPT_SIZE);
    }
  }

  // ---------------------------------------------------------------------------
  // The builders
  // ---------------------------------------------------------------------------

  /** One add at the end of a field that is the image of `l`. */
  method Put(options: array<Byte>, code: Byte, data: Bytes, ghost l: seq<Tlv>)
    requires Tlv(code, data).Valid() && AllValid(l) && |Encode(l)| + 2 + |data| < OPTIONS_SIZE
    requires options[..] == Rendered(l)
    modifies options
    ensures AllValid(l + [Tlv(code, data)])
    ensures |Encode(l + [Tlv(code, data)])| == |Encode(l)| + 2 + |data|
    ensures options[..] == Rendered(l + [Tlv(code, data)])
  {
    RenderedReads(l);
    RenderedAdd(l, Tlv(code, data));
    var _ := AddOptionString(options, code, data);
  }

  /** As `Put`, through the fixed-size adders. */
  method PutFixed(options: array<Byte>, code: Byte, data: Bytes, ghost l: seq<Tlv>)
    requires |data| == 1 || |data| == 2 || |data| == 4
    requires Tlv(code, data).Valid() && AllValid(l) && |Encode(l)| + 2 + |data| < OPTIONS_SIZE
    requires options[..] == Rendered(l)
    modifies options
    ensures AllValid(l + [Tlv(code, data)])
    ensures |Encode(l + [Tlv(code, data)])| == |Encode(l)| + 2 + |data|
    ensures options[..] == Rendered(l + [Tlv(code, data)])
  {
    RenderedReads(l);
    RenderedAdd(l, Tlv(code, data));
    var _ := AddFixedOption(options, code, data);
  }

  /** `init_packet`: the type and the client id of a zeroed message. */
  method InitPacket(options: array<Byte>, cfg: Config, k: Kind)
    requires options[..] == Zeros(OPTIONS_SIZE)
    modifies options
    ensures AllValid(Head(cfg, k)) && |Encode(Head(cfg, k))| == 5 + |cfg.clientid|
    ensures options[..] == Rendered(Head(cfg, k))
  {
    options[0] := END;
    assert options[..] == Rendered([]);
    PutFixed(options, MSGTYPE, [TypeOf(k)], []);
    assert [] + [Tlv(MSGTYPE, [TypeOf(k)])] == [Tlv(MSGTYPE, [TypeOf(k)])];
    Put(options, CLIENT_ID, cfg.clientid, [Tlv(MSGTYPE, [TypeOf(k)])]);
    assert [Tlv(MSGTYPE, [TypeOf(k)])] + [Tlv(CLIENT_ID, cfg.clientid)] == Head(cfg, k);
  }

  /** `add_option_maxsize`, `add_option_request_list` and `add_options_vendor_hostname`. */
  method AddWishes(options: array<Byte>, cfg: Config, ghost l: seq<Tlv>)
    requires AllValid(l) && |Encode(l)| <= 81 && options[..] == Rendered(l)
    modifies options
    ensures AllValid(l + Wishes(cfg)) && |Encode(l + Wishes(cfg))| <= |Encode(l)| + 142
    ensures options[..] == Rendered(l + Wishes(cfg))
  {
    hide Encode, Rendered;
    ghost var l0 := l + [Tlv(MAX_SIZE, Be16(MAX_MESSAGE))];
    PutFixed(options, MAX_SIZE, Be16(MAX_MESSAGE), l);
    ghost var l1 := l0 + [Tlv(PARAM_REQ, REQUEST_LIST)];
    Put(options, PARAM_REQ, REQUEST_LIST, l0);
    var vendor := if cfg.vendor == [] then DEFAULT_VENDOR else cfg.vendor;
    ghost var l2 := l1 + [Tlv(VENDOR, vendor)];
    Put(options, VENDOR, vendor, l1);
    if cfg.hostname != [] {
      Put(options, HOSTNAME, cfg.hostname, l2);
      assert l2 + [Tlv(HOSTNAME, cfg.hostname)] == l + Wishes(cfg);
    } else {
      assert l2 == l + Wishes(cfg);
    }
  }

  /** The message that a sender's finished option field makes. */
  method Finish(options: array<Byte>, cfg: Config, xid: U32, k: Kind) returns (m: Packet)
    requires AllValid(OptionsOf(cfg, k)) && |Encode(OptionsOf(cfg, k))| <= 223
    requires options[..] == Rendered(OptionsOf(cfg, k))
    ensures Sent(m, cfg, xid, k)
  {
    m := ZeroPacket().(
      op := 1, htype := 1, hlen := 6, xid := xid, ciaddr := if SetsCiaddr(k) then k.addr else 0,
      cookie := DHCP_MAGIC, chaddr := cfg.arp + Zeros(10), options := options[..]);
    RenderedReads(OptionsOf(cfg, k));
    DistinctOptions(cfg, k);
    RenderedDecodes(m, OptionsOf(cfg, k));
  }

  lemma DistinctOptions(cfg: Config, k: Kind)
    ensures Distinct(OptionsOf(cfg, k))
    ensures forall t :: t in OptionsOf(cfg, k) ==> t.code != OVERLOAD
  {
    var a, b, c := Head(cfg, k), Subject(k), if k.Decline? || k.Release? then [] else Wishes(cfg);
    HeadCodes(cfg, k);
    SubjectCodes(k);
    WishesCodes(cfg);
    hide Head, Subject, Wishes;
    DistinctConcat(a, {MSGTYPE, CLIENT_ID}, b, {REQIP, SERVER_ID});
    DistinctConcat(a + b, {MSGTYPE, CLIENT_ID, REQIP, SERVER_ID}, c, {MAX_SIZE, PARAM_REQ, VENDOR, HOSTNAME});
  }

  lemma HeadCodes(cfg: Config, k: Kind)
    ensures Distinct(Head(cfg, k)) && CodesIn(Head(cfg, k), {MSGTYPE, CLIENT_ID})
  {
  }

  lemma SubjectCodes(k: Kind)
    ensures Distinct(Subject(k)) && CodesIn(Subject(k), {REQIP, SERVER_ID})
  {
  }

  lemma WishesCodes(cfg: Config)
    ensures Distinct(Wishes(cfg)) && CodesIn(Wishes(cfg), {MAX_SIZE, PARAM_REQ, VENDOR, HOSTNAME})
  {
  }

  ghost predicate CodesIn(l: seq<Tlv>, codes: set<Byte>) {
    forall i :: 0 <= i < |l| ==> l[i].code in codes
  }

  lemma DistinctConcat(a: seq<Tlv>, s: set<Byte>, b: seq<Tlv>, t: set<Byte>)
    requires Distinct(a) && CodesIn(a, s) && Distinct(b) && CodesIn(b, t) && s !! t
    ensures Distinct(a + b) && CodesIn(a + b, s + t)
  {
  }

  /** What a message of kind `k` is, on the wire and to a reader. */
  ghost predicate Sent(m: Packet, cfg: Config, xid: U32, k: Kind) {
    && m.xid == xid && m.ciaddr == (if SetsCiaddr(k) then k.addr else 0) && m.yiaddr == 0
    && m.op == 1 && m.htype == 1 && m.hlen == 6
    && m.cookie == DHCP_MAGIC && m.chaddr == cfg.arp + Zeros(10)
    && EndIdx(m.options, 0) <= 223
    && AllValid(OptionsOf(cfg, k)) && |Encode(OptionsOf(cfg, k))| <= 223
    && m.options == Rendered(OptionsOf(cfg, k))
    && Carries(m, OptionsOf(cfg, k))
  }

  // What a reader finds, in the numbers of RFC 2131 and RFC 2132.

  const BOOTREQUEST: Byte := 1

  /** A message of this client, of the type `typ`. */
  ghost predicate Header(m: Packet, cfg: Config, xid: U32, typ: Byte)
  {
    && m.op == BOOTREQUEST && m.htype == 1 && m.hlen == 6 && m.xid == xid && m.yiaddr == 0
    && m.chaddr[..6] == cfg.arp && m.cookie == 0x6382_5363
    && OptionMsgType(m) == typ && Opt(m, 61, MAX_DOPT_SIZE) == cfg.clientid
  }

  /** It names this address as requested and this server. */
  ghost predicate Names(m: Packet, addr: Option<U32>, server: Option<U32>) {
    Opt32(m, 50) == addr && Opt32(m, 54) == server && OptionServerId(m) == server
  }

  /** It says how large an answer may be, what the answer should hold, and who asks. */
  ghost predicate Asks(m: Packet, cfg: Config) {
    && Opt(m, 57, MAX_DOPT_SIZE) == [576 / 256, 576 % 256]
    && Opt(m, 55, MAX_DOPT_SIZE) == [1, 3, 6, 12, 15, 28]
    && Opt(m, 60, MAX_DOPT_SIZE) == (if cfg.vendor == [] then ['n' as int, 'd' as int, 'h' as int, 'c' as int] else cfg.vendor)
    && Opt(m, 12, MAX_DOPT_SIZE) == cfg.hostname
  }

  lemma Found(m: Packet, l: seq<Tlv>, i: nat)
    requires Carries(m, l) && i < |l|
    ensures Opt(m, l[i].code, MAX_DOPT_SIZE) == l[i].data
  {
    assert l[i] in l;
  }

  lemma Absent(m: Packet, l: seq<Tlv>, code: Byte)
    requires Carries(m, l) && forall i :: 0 <= i < |l| ==> l[i].code != code
    ensures Opt(m, code, MAX_DOPT_SIZE) == []
  {
    hide Opt;
  }

  lemma HeaderReads(m: Packet, cfg: Config, xid: U32, k: Kind)
    requires Sent(m, cfg, xid, k)
    ensures Header(m, cfg, xid, TypeOf(k)) && m.ciaddr == if SetsCiaddr(k) then k.addr else 0
  {
    hide Opt, Encode, Rendered, EndIdx, Carries, Subject, Wishes;
    var l := OptionsOf(cfg, k);
    assert l[0] == Tlv(MSGTYPE, [TypeOf(k)]) && l[1] == Tlv(CLIENT_ID, cfg.clientid);
    Found(m, l, 0);
    Found(m, l, 1);
  }

  lemma SubjectReads(m: Packet, cfg: Config, xid: U32, k: Kind)
    requires Sent(m, cfg, xid, k)
    ensures Names(m, if k.Renew? || (k.Discover? && k.addr == 0) then None else Some(k.addr),
                  if k.Discover? || k.Renew? || k.Rebind? then None else Some(k.server))
  {
    hide Opt, Encode, Rendered, EndIdx, Carries;
    var l := OptionsOf(cfg, k);
    assert |Head(cfg, k)| == 2;
    if k.Renew? || (k.Discover? && k.addr == 0) {
      Absent(m, l, REQIP);
    } else {
      assert l[2] == Subject(k)[0] == Tlv(REQIP, Be32(k.addr));
      Found(m, l, 2);
      Be32RoundTrip(k.addr);
    }
    if k.Discover? || k.Renew? || k.Rebind? {
      Absent(m, l, SERVER_ID);
    } else {
      assert l[3] == Subject(k)[1] == Tlv(SERVER_ID, Be32(k.server));
      Found(m, l, 3);
      Be32RoundTrip(k.server);
    }
  }

  lemma WishesRead(m: Packet, cfg: Config, xid: U32, k: Kind)
    requires Sent(m, cfg, xid, k) && !k.Decline? && !k.Release?
    ensures Asks(m, cfg)
  {
    hide Opt, Encode, Rendered, EndIdx, Carries;
    var n := |Head(cfg, k) + Subject(k)|;
    var l, w := OptionsOf(cfg, k), Wishes(cfg);
    assert l[n..] == w;
    assert l[n] == w[0] && l[n + 1] == w[1] && l[n + 2] == w[2];
    Found(m, l, n);
    Found(m, l, n + 1);
    Found(m, l, n + 2);
    if cfg.hostname == [] {
      Absent(m, l, HOSTNAME);
    } else {
      assert l[n + 3] == w[3];
      Found(m, l, n + 3);
    }
  }

  method BuildDiscover(cfg: Config, xid: U32, addr: U32) returns (m: Packet)
    ensures Sent(m, cfg, xid, Discover(addr))
    ensures Header(m, cfg, xid, 1) && m.ciaddr == 0
    ensures Names(m, if addr == 0 then None else Some(addr), None) && Asks(m, cfg)
  {
    hide Names, Asks, Header, OptionMsgType, Opt;
    var k := Discover(addr);
    var options := new Byte[OPTIONS_SIZE](_ => 0);
    assert options[..] == Zeros(OPTIONS_SIZE);
    InitPacket(options, cfg, k);
    if addr != 0 {
      PutFixed(options, REQIP, Be32(addr), Head(cfg, k));
    }
    assert Head(cfg, k) + [] == Head(cfg, k);
    AddWishes(options, cfg, Head(cfg, k) + Subject(k));
    m := Finish(options, cfg, xid, k);
    HeaderReads(m, cfg, xid, k);
    SubjectReads(m, cfg, xid, k);
    WishesRead(m, cfg, xid, k);
  }

  method BuildSelecting(cfg: Config, xid: U32, addr: U32, server: U32) returns (m: Packet)
    ensures Sent(m, cfg, xid, Selecting(addr, server))
    ensures Header(m, cfg, xid, 3) && m.ciaddr == 0
    ensures Names(m, Some(addr), Some(server)) && Asks(m, cfg)
  {
    hide Names, Asks, Header, OptionMsgType, Opt;
    var k := Selecting(addr, server);
    var options := new Byte[OPTIONS_SIZE](_ => 0);
    assert options[..] == Zeros(OPTIONS_SIZE);
    InitPacket(options, cfg, k);
    AddSubject(options, addr, server, Head(cfg, k), Subject(k));
    AddWishes(options, cfg, Head(cfg, k) + Subject(k));
    m := Finish(options, cfg, xid, k);
    HeaderReads(m, cfg, xid, k);
    SubjectReads(m, cfg, xid, k);
    WishesRead(m, cfg, xid, k);
  }

  /** `add_option_reqip` and `add_option_serverid`. */
  method AddSubject(options: array<Byte>, addr: U32, server: U32, ghost l: seq<Tlv>, ghost subject: seq<Tlv>)
    requires AllValid(l) && |Encode(l)| <= 69 && options[..] == Rendered(l)
    requires subject == [Tlv(REQIP, Be32(addr)), Tlv(SERVER_ID, Be32(server))]
    modifies options
    ensures AllValid(l + subject) && |Encode(l + subject)| == |Encode(l)| + 12
    ensures options[..] == Rendered(l + subject)
  {
    hide Encode, Rendered;
    ghost var l0 := l + [Tlv(REQIP, Be32(addr))];
    PutFixed(options, REQIP, Be32(addr), l);
    PutFixed(options, SERVER_ID, Be32(server), l0);
    assert l0 + [Tlv(SERVER_ID, Be32(server))] == l + subject;
  }

  method BuildRenew(cfg: Config, xid: U32, addr: U32) returns (m: Packet)
    ensures Sent(m, cfg, xid, Renew(addr))
    ensures Header(m, cfg, xid, 3) && m.ciaddr == addr
    ensures Names(m, None, None) && Asks(m, cfg)
  {
    hide Names, Asks, Header, OptionMsgType, Opt;
    var k := Renew(addr);
    var options := new Byte[OPTIONS_SIZE](_ => 0);
    assert options[..] == Zeros(OPTIONS_SIZE);
    InitPacket(options, cfg, k);
    assert Head(cfg, k) + Subject(k) == Head(cfg, k);
    AddWishes(options, cfg, Head(cfg, k));
    m := Finish(options, cfg, xid, k);
    HeaderReads(m, cfg, xid, k);
    SubjectReads(m, cfg, xid, k);
    WishesRead(m, cfg, xid, k);
  }

  method BuildRebind(cfg: Config, xid: U32, addr: U32) returns (m: Packet)
    ensures Sent(m, cfg, xid, Rebind(addr))
    ensures Header(m, cfg, xid, 3) && m.ciaddr == addr
    ensures Names(m, Some(addr), None) && Asks(m, cfg)
  {
    hide Names, Asks, Header, OptionMsgType, Opt;
    var k := Rebind(addr);
    var options := new Byte[OPTIONS_SIZE](_ => 0);
    assert options[..] == Zeros(OPTIONS_SIZE);
    InitPacket(options, cfg, k);
    PutFixed(options, REQIP, Be32(addr), Head(cfg, k));
    AddWishes(options, cfg, Head(cfg, k) + Subject(k));
    m := Finish(options, cfg, xid, k);
    HeaderReads(m, cfg, xid, k);
    SubjectReads(m, cfg, xid, k);
    WishesRead(m, cfg, xid, k);
  }

  method BuildDecline(cfg: Config, xid: U32, addr: U32, server: U32) returns (m: Packet)
    ensures Sent(m, cfg, xid, Decline(addr, server))
    ensures Header(m, cfg, xid, 4) && m.ciaddr == 0
    ensures Names(m, Some(addr), Some(server))
  {
    hide Names, Asks, Header, OptionMsgType, Opt;
    var k := Decline(addr, server);
    var options := new Byte[OPTIONS_SIZE](_ => 0);
    assert options[..] == Zeros(OPTIONS_SIZE);
    InitPacket(options, cfg, k);
    AddSubject(options, addr, server, Head(cfg, k), Subject(k));
    assert OptionsOf(cfg, k) == Head(cfg, k) + Subject(k);
    m := Finish(options, cfg, xid, k);
    HeaderReads(m, cfg, xid, k);
    SubjectReads(m, cfg, xid, k);
  }

  method BuildRelease(cfg: Config, xid: U32, addr: U32, server: U32) returns (m: Packet)
    ensures Sent(m, cfg, xid, Release(addr, server))
    ensures Header(m, cfg, xid, 7) && m.ciaddr == addr
    ensures Names(m, Some(addr), Some(server))
  {
    hide Names, Asks, Header, OptionMsgType, Opt;
    var k := Release(addr, server);
    var options := new Byte[OPTIONS_SIZE](_ => 0);
    assert options[..] == Zeros(OPTIONS_SIZE);
    InitPacket(options, cfg, k);
    AddSubject(options, addr, server, Head(cfg, k), Subject(k));
    assert OptionsOf(cfg, k) == Head(cfg, k) + Subject(k);
    m := Finish(options, cfg, xid, k);
    HeaderReads(m, cfg, xid, k);
    SubjectReads(m, cfg, xid, k);
  }
}
