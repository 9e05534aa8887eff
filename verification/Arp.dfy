/** ARP probing, announcement, defence and fingerprinting (src/arp.c). The functions of the source are
methods on the client. A send may fail; a socket may fail to open. */
module Arp {
  import opened Wire
  import opened Protocol
  import opened GatewayCheck
  import opened Machine
  import Bpf
  import Messages
  import Ifchange
  import Options

  const ARP_MSG_SIZE: nat := 0x2a
  const ARP_RETRANS_DELAY: nat := 5000
  const DEFEND_INTERVAL: nat := 10000

  /** The `ARPR_*` results. `ArprHalt` stands for an end of the process. */
  datatype Arpr = ArprOk | ArprConflict | ArprFail | ArprFree | ArprHalt

  // ---------------------------------------------------------------------------
  // Frames
  // ---------------------------------------------------------------------------

  const ARPOP_REQUEST: U16 := 1
  const ARPOP_REPLY: U16 := 2

  /** The frame that a host writes: `struct arpMsg` field by field, for IPv4 over Ethernet. */
  function ArpFrame(dest: Bytes, source: Bytes, op: U16, smac: Bytes, sip: U32, dmac: Bytes, dip: U32): (f: Frame)
    requires |dest| == 6 && |source| == 6 && |smac| == 6 && |dmac| == 6
  {
    dest + source + Be16(Bpf.ETH_P_ARP) + Be16(Bpf.ARPHRD_ETHER) + Be16(Bpf.ETH_P_IP) + [6, 4] + Be16(op)
    + smac + Be32(sip) + dmac + Be32(dip) + Zeros(18)
  }

  function Smac(f: Frame): (mac: Bytes)
    ensures |mac| == 6
  {
    f[0x16..0x1c]
  }

  function Sip(f: Frame): U32 {
    FromBe32(f[0x1c..0x20])
  }

  function Dip(f: Frame): U32 {
    FromBe32(f[0x26..0x2a])
  }

  /** `arp_is_query_reply`: an answer that was sent to us. */
  predicate IsQueryReply(arp: Bytes, f: Frame) {
    FromBe16(f[0x14..0x16]) == ARPOP_REPLY && f[..6] == arp && f[0x20..0x26] == arp
  }

  /** `arp_validate_bpf_defense`: another host uses our address. */
  predicate UsesOurAddress(arp: Bytes, addr: U32, f: Frame) {
    Sip(f) == addr && Smac(f) != arp
  }

  /** The test at src/arp.c:685-686, which takes the sender to be ourselves. */
  predicate Collides(arp: Bytes, addr: U32, f: Frame) {
    IsQueryReply(arp, f) && Sip(f) == addr && Smac(f) == arp
  }

  /** Where the parts of a frame lie. */
  lemma FrameLayout(dest: Bytes, source: Bytes, op: U16, smac: Bytes, sip: U32, dmac: Bytes, dip: U32)
    requires |dest| == 6 && |source| == 6 && |smac| == 6 && |dmac| == 6
    ensures var f := ArpFrame(dest, source, op, smac, sip, dmac, dip);
            && f[..6] == dest && f[6..12] == source
            && f[12..14] == Be16(0x0806) && f[14..16] == Be16(1) && f[16..18] == Be16(0x0800) && f[18] == 6 && f[19] == 4
            && f[0x14..0x16] == Be16(op) && f[0x16..0x1c] == smac && f[0x1c..0x20] == Be32(sip)
            && f[0x20..0x26] == dmac && f[0x26..0x2a] == Be32(dip)
  {
    hide Be16, Be32;
  }

  /** The client reads from a frame exactly what its sender wrote. */
  lemma FrameReads(dest: Bytes, source: Bytes, op: U16, smac: Bytes, sip: U32, dmac: Bytes, dip: U32, arp: Bytes)
    requires |dest| == 6 && |source| == 6 && |smac| == 6 && |dmac| == 6
    ensures var f := ArpFrame(dest, source, op, smac, sip, dmac, dip);
            && Smac(f) == smac && Sip(f) == sip && Dip(f) == dip && Bpf.ValidateArp(f)
            && (IsQueryReply(arp, f) <==> op == 2 && dest == arp && dmac == arp)
  {
    hide ArpFrame, Be16, Be32, FromBe16, FromBe32;
    FrameLayout(dest, source, op, smac, sip, dmac, dip);
    Be16RoundTrip(op);
    Be16RoundTrip(0x0806);
    Be16RoundTrip(1);
    Be16RoundTrip(0x0800);
    Be32RoundTrip(sip);
    Be32RoundTrip(dip);
  }

  /** What the tests of the client make of a reply to the host `to` from the host at `mac` and `ip`. */
  lemma ReplyMeans(c: Client, source: Bytes, mac: Bytes, ip: U32, to: Bytes, dip: U32)
    requires |source| == 6 && |mac| == 6 && |to| == 6
    requires c.reply == ArpFrame(to, source, 2, mac, ip, to, dip)
    ensures FromRouter(c) <==> to == c.config.arp && ip == c.cs.routerAddr
    ensures FromServer(c) <==> to == c.config.arp && ip == c.cs.srcAddr
    ensures Mismatch(c) <==>
            && to == c.config.arp
            && ((ip == c.cs.routerAddr && mac != c.fp.routerArp) || (ip == c.cs.srcAddr && mac != c.fp.serverArp))
    ensures Collides(c.config.arp, c.cs.clientAddr, c.reply) <==>
            to == c.config.arp && ip == c.cs.clientAddr && mac == c.config.arp
    ensures UsesOurAddress(c.config.arp, c.cs.clientAddr, c.reply) <==> ip == c.cs.clientAddr && mac != c.config.arp
  {
    hide ArpFrame, Sip, Smac, IsQueryReply, Bpf.ValidateArp;
    FrameReads(to, source, 2, mac, ip, to, dip, c.config.arp);
  }

  // ---------------------------------------------------------------------------
  // Sockets and sending
  // ---------------------------------------------------------------------------

  method ArpMinCloseFd(c: Client)
    modifies c`arpOpen, c`arpIsDefense
    ensures !c.arpOpen && c.arpIsDefense == (old(c.arpIsDefense) && !old(c.arpOpen))
  {
    if !c.arpOpen {
      return;
    }
    c.arpOpen, c.arpIsDefense := false, false;
  }

  method ArpCloseFd(c: Client)
    modifies c`arpOpen, c`arpIsDefense, c`wakeTs
    ensures !c.arpOpen && c.wakeTs == NoTimers()
  {
    ArpMinCloseFd(c);
    for i := 0 to AS_MAX
      invariant !c.arpOpen
      invariant forall k :: 0 <= k < i ==> c.wakeTs[k] == -1
    {
      c.wakeTs := c.wakeTs[i := -1];
    }
  }

  /** `arp_reset_state`; the reply flags go with the rest of the fingerprint. */
  method ArpResetState(c: Client)
    modifies c`arpOpen, c`arpIsDefense, c`wakeTs, c`reply, c`garp, c`check
    ensures !c.arpOpen && c.wakeTs == NoTimers()
    ensures c.garp == ArpData(0, 0, 0, 0, 0, 0, 0, 0, 0, 0, 0)
    ensures c.check == Check(old(c.check.running), false, false) && c.reply == Zeros(ARP_FRAME)
  {
    ArpCloseFd(c);
    c.reply := Zeros(ARP_FRAME);
    c.garp := c.garp.(lastConflictTs := 0, gwCheckInitpings := 0, arpCheckStartTs := 0, totalConflicts := 0,
                      probeWaitTime := 0);
    c.check := c.check.(serverReplied := false, routerReplied := false);
    c.garp := c.garp.(probeTs := 0, probeCount := 0, pingTs := 0, pingCount := 0, announceTs := 0, announceCount := 0);
  }

  /** `arp_open_fd` */
  method ArpOpenFd(c: Client, defense: bool) returns (ok: bool)
    requires c.Traced() && LinkedGw(c.fp, c.sentGwQuery, c.check, c.garp, Mode(c.arpOpen, c.arpIsDefense), c.trace.gw)
    modifies c`arpOpen, c`arpIsDefense, c`usingBpf, c`trace
    ensures c.arpOpen == ok && (ok ==> c.arpIsDefense == defense)
    ensures old(c.arpOpen) && old(c.arpIsDefense) == defense ==> ok
    ensures LinkedGw(c.fp, c.sentGwQuery, c.check, c.garp, Mode(c.arpOpen, c.arpIsDefense), c.trace.gw)
    ensures c.Traced() && Opened(c)
  {
    hide Played;
    ok := true;
    if !c.arpOpen || defense != c.arpIsDefense {
      ArpMinCloseFd(c);
      var bpf: bool := *;
      ok := *;
      c.usingBpf, c.arpIsDefense, c.arpOpen := bpf, defense, ok;
    }
    c.RecordGw(Open(Mode(c.arpOpen, c.arpIsDefense)));
  }

  /** The log has the socket as it is now, and nothing else has happened. */
  twostate predicate Opened(c: Client)
    reads c
  {
    var s := Mode(c.arpOpen, c.arpIsDefense);
    c.trace == old(c.trace).(gwLog := old(c.trace.gwLog) + [Open(s)], gw := old(c.trace.gw).(socket := s))
  }

  /** The request that the client broadcasts, for an address `dip` from `sip`. */
  function RequestFrame(arp: Bytes, sip: U32, dip: U32): (f: Frame)
    requires |arp| == 6
  {
    ArpFrame([255, 255, 255, 255, 255, 255], arp, ARPOP_REQUEST, arp, sip, [0, 0, 0, 0, 0, 0], dip)
  }

  /** What a host that receives it finds: a request of ours, and no reply. */
  lemma RequestReads(arp: Bytes, sip: U32, dip: U32)
    requires |arp| == 6
    ensures var f := RequestFrame(arp, sip, dip);
            && Smac(f) == arp && Sip(f) == sip && Dip(f) == dip && Bpf.ValidateArp(f)
            && f[..6] == [255, 255, 255, 255, 255, 255] && f[6..12] == arp && FromBe16(f[0x14..0x16]) == 1
            && forall other: Bytes :: !IsQueryReply(other, f)
  {
    hide ArpFrame, Sip, Smac, Dip, Bpf.ValidateArp;
    var all: Bytes, none: Bytes := [255, 255, 255, 255, 255, 255], [0, 0, 0, 0, 0, 0];
    FrameReads(all, arp, ARPOP_REQUEST, arp, sip, none, dip, arp);
    FrameLayout(all, arp, ARPOP_REQUEST, arp, sip, none, dip);
    Be16RoundTrip(1);
  }

  /** `arp_send`. The log has the addresses that a receiver of the frame finds. */
  method ArpSend(c: Client, frame: Frame) returns (ok: bool)
    modifies c`arps
    ensures c.arps == old(c.arps) + [ArpRequest(Sip(frame), Dip(frame), ok)]
    ensures ok ==> c.arpOpen
  {
    ok := *;
    if !c.arpOpen {
      ok := false;
    }
    c.arps := c.arps + [ArpRequest(Sip(frame), Dip(frame), ok)];
  }

  /** `arp_send` of a request. */
  method SendRequest(c: Client, sip: U32, dip: U32) returns (ok: bool)
    modifies c`arps
    ensures c.arps == old(c.arps) + [ArpRequest(sip, dip, ok)]
    ensures ok ==> c.arpOpen
  {
    hide ArpFrame, Sip, Dip, RequestFrame;
    RequestReads(c.config.arp, sip, dip);
    ok := ArpSend(c, RequestFrame(c.config.arp, sip, dip));
  }

  method ArpPing(c: Client, ip: U32) returns (ok: bool)
    modifies c`arps, c`clock, c`garp
    ensures Grown(c)
    ensures c.arps == old(c.arps) + [ArpRequest(c.cs.clientAddr, ip, ok)]
    ensures c.garp == if ok then old(c.garp).(pingCount := old(c.garp.pingCount) + 1, pingTs := c.clock) else old(c.garp)
  {
    ok := SendRequest(c, c.cs.clientAddr, ip);
    if ok {
      var t := c.Curms();
      c.garp := c.garp.(pingCount := c.garp.pingCount + 1, pingTs := t);
    }
  }

  /** `arp_ip_anon_ping`: an ARP probe, whose sender address is zero. */
  method ArpIpAnonPing(c: Client, ip: U32) returns (ok: bool)
    requires c.Traced()
    requires c.trace.ref.phase == Bound || (c.trace.ref.phase == Checking && ip == c.trace.ref.addr)
    modifies c`arps, c`clock, c`garp, c`trace
    ensures c.Traced() && Grown(c)
    ensures !ok ==> c.trace == old(c.trace) && c.garp == old(c.garp)
    ensures c.arps == old(c.arps) + [ArpRequest(0, ip, ok)]
    ensures ok ==> c.garp == old(c.garp).(probeCount := old(c.garp.probeCount) + 1, probeTs := c.clock)
    ensures ok ==> c.trace == old(c.trace).(log := old(c.trace.log) + [Probe(c.clock, ip)],
                                            ref := Next(old(c.trace.ref), Probe(c.clock, ip)).value)
  {
    hide Played;
    ok := SendRequest(c, 0, ip);
    if ok {
      var t := c.Curms();
      c.garp := c.garp.(probeCount := c.garp.probeCount + 1, probeTs := t);
      c.Record(Probe(t, ip));
    }
  }

  method ArpAnnouncement(c: Client) returns (ok: bool)
    modifies c`arps, c`clock, c`garp
    ensures Grown(c)
    ensures c.arps == old(c.arps) + [ArpRequest(c.cs.clientAddr, c.cs.clientAddr, ok)]
    ensures c.garp == if ok then old(c.garp).(announceCount := old(c.garp.announceCount) + 1, announceTs := c.clock)
                      else old(c.garp)
    ensures !ok ==> c.clock == old(c.clock)
  {
    ok := SendRequest(c, c.cs.clientAddr, c.cs.clientAddr);
    if ok {
      var t := c.Curms();
      c.garp := c.garp.(announceCount := c.garp.announceCount + 1, announceTs := t);
    }
  }

  // ---------------------------------------------------------------------------
  // The collision check
  // ---------------------------------------------------------------------------

  /** `arp_check`, for the packet of an ACK. In BOUND nothing serves the timer that it arms. */
  method ArpCheck(c: Client, packet: Packet) returns (ok: bool)
    requires c.Traced() && LinkedGw(c.fp, c.sentGwQuery, c.check, c.garp, Mode(c.arpOpen, c.arpIsDefense), c.trace.gw)
    requires if c.trace.ref.phase == Checking
             then LinkedAcked(c.cs, c.trace.ref, c.clock) && c.trace.ref.probes == c.garp.probeCount == 0
                  && packet.yiaddr == c.trace.ref.addr
             else c.trace.ref.phase == Bound && c.Inv()
    modifies c`arpOpen, c`arpIsDefense, c`usingBpf, c`dhcpPacket, c`garp, c`wakeTs, c`clock, c`arps, c`trace
    ensures Grown(c) && c.Traced() && c.trace.ref.phase == old(c.trace.ref.phase)
    ensures c.dhcpPacket == packet && LinkedGw(c.fp, c.sentGwQuery, c.check, c.garp, Mode(c.arpOpen, c.arpIsDefense), c.trace.gw)
    ensures ok || c.trace.ref.phase == Bound ==> c.Inv()
    ensures ok ==> c.arps == old(c.arps) + [ArpRequest(0, packet.yiaddr, true)] && c.arpOpen && !c.arpIsDefense
    ensures ok ==> c.garp.arpCheckStartTs == c.garp.probeTs && c.garp.probeWaitTime == c.settings.probeWait % 0x1_0000
    ensures ok ==> c.wakeTs == old(c.wakeTs)[AS_COLLISION_CHECK := c.garp.arpCheckStartTs + c.garp.probeWaitTime]
    ensures !ok ==> c.trace.log == old(c.trace.log) && c.trace.ref == old(c.trace.ref)
    ensures c.trace.ref.phase == Bound ==> c.trace.ref == old(c.trace.ref)
    ensures c.trace.gwLog == old(c.trace.gwLog) + [Open(Mode(c.arpOpen, c.arpIsDefense))]
    ensures c.garp.pingCount == old(c.garp.pingCount) && c.garp.gwCheckInitpings == old(c.garp.gwCheckInitpings)
    ensures Entered(c, if ok && c.trace.ref.phase == Checking then 1 else 0)
    ensures !ok ==> c.wakeTs == old(c.wakeTs)
    ensures ok ==> c.trace.log == old(c.trace.log) + [Probe(c.garp.probeTs, packet.yiaddr)]
  {
    hide Client.Traced, Next, Linked, LinkedAcked, LinkedGw, Mode;
    ghost var g, clock, ch := c.garp, c.clock, c.dhcpPacket.yiaddr;
    if c.trace.ref.phase == Bound {
      StillBound(c.cs, g, ch, c.Configured(), c.trace.ref, clock);
    }
    ok := StartProbing(c, packet);
    if ok {
      CheckLinks(c.cs, g, ch, c.Configured(), old(c.trace.ref), clock, packet.yiaddr, c.garp, c.clock);
    }
  }

  /** The effects of `arp_check`. */
  method StartProbing(c: Client, packet: Packet) returns (ok: bool)
    requires c.Traced() && LinkedGw(c.fp, c.sentGwQuery, c.check, c.garp, Mode(c.arpOpen, c.arpIsDefense), c.trace.gw)
    requires c.trace.ref.phase == Bound || (c.trace.ref.phase == Checking && packet.yiaddr == c.trace.ref.addr)
    modifies c`arpOpen, c`arpIsDefense, c`usingBpf, c`dhcpPacket, c`garp, c`wakeTs, c`clock, c`arps, c`trace
    ensures c.Traced() && LinkedGw(c.fp, c.sentGwQuery, c.check, c.garp, Mode(c.arpOpen, c.arpIsDefense), c.trace.gw)
    ensures Grown(c) && c.dhcpPacket == packet && (ok ==> c.arpOpen && !c.arpIsDefense)
    ensures c.trace.gwLog == old(c.trace.gwLog) + [Open(Mode(c.arpOpen, c.arpIsDefense))]
    ensures !ok ==> c.garp == old(c.garp) && c.trace.log == old(c.trace.log) && c.trace.ref == old(c.trace.ref)
    ensures ok ==>
              && c.garp == old(c.garp).(probeCount := old(c.garp.probeCount) + 1, probeTs := c.clock, arpCheckStartTs := c.clock,
                                        probeWaitTime := c.settings.probeWait % 0x1_0000)
              && c.wakeTs == old(c.wakeTs)[AS_COLLISION_CHECK := c.clock + c.garp.probeWaitTime]
              && c.arps == old(c.arps) + [ArpRequest(0, packet.yiaddr, true)]
              && c.trace.log == old(c.trace.log) + [Probe(c.clock, packet.yiaddr)]
              && c.trace.ref == Next(old(c.trace.ref), Probe(c.clock, packet.yiaddr)).value
    ensures !ok ==> c.wakeTs == old(c.wakeTs)
  {
    hide Client.Traced, Next, LinkedGw, Mode;
    c.dhcpPacket := packet;
    ok := ArpOpenFd(c, false);
    if !ok {
      return;
    }
    MorePings(c.fp, c.sentGwQuery, c.check, c.garp, Mode(c.arpOpen, c.arpIsDefense), c.trace.gw);
    ok := ArpIpAnonPing(c, c.dhcpPacket.yiaddr);
    if !ok {
      return;
    }
    c.garp := c.garp.(arpCheckStartTs := c.garp.probeTs, probeWaitTime := c.settings.probeWait % 0x1_0000);
    c.wakeTs := c.wakeTs[AS_COLLISION_CHECK := c.garp.arpCheckStartTs + c.garp.probeWaitTime];
  }

  lemma CheckLinks(cs: ClientState, g: ArpData, ch: U32, conf: Option<U32>, a: Ref, clock: nat, addr: U32, h: ArpData, t: nat)
    requires clock <= t && h == g.(probeCount := g.probeCount + 1, probeTs := t, arpCheckStartTs := t,
                                   probeWaitTime := h.probeWaitTime)
    requires if a.phase == Checking
             then LinkedAcked(cs, a, clock) && a.probes == g.probeCount == 0 && addr == a.addr
             else a.phase == Bound && Linked(cs, g, ch, conf, a, clock)
    ensures var r := Next(a, Probe(t, addr));
            && r.Some? && r.value.phase == a.phase && (a.phase == Bound ==> r.value == a)
            && r.value.entries == a.entries + (if a.phase == Checking then 1 else 0)
            && Linked(cs, h, addr, conf, r.value, t)
  {
  }

  /** `arp_gen_probe_wait`, as the 16 bits that are kept of it. */
  method ArpGenProbeWait(c: Client) returns (w: U16)
    ensures 0 <= c.settings.probeMin && c.settings.probeMin + 1000 <= 0x1_0000 && c.settings.probeMax <= 0x1_0000 ==>
              c.settings.probeMin <= w < c.settings.probeMin + 1000 || c.settings.probeMin <= w < c.settings.probeMax
  {
    hide Below, Low16;
    var range := c.settings.probeMax - c.settings.probeMin;
    if range < 1000 {
      range := 1000;
    }
    var r := Random();
    w := Low16(c.settings.probeMin + Below(r, range));
  }

  function Below(r: nat, range: nat): (n: nat)
    requires range > 0
    ensures n < range
  {
    r % range
  }

  function Low16(x: int): (w: U16)
    ensures 0 <= x < 0x1_0000 ==> w == x
  {
    x % 0x1_0000
  }

  /** `send_decline` */
  method SendDecline(c: Client, server: U32) returns (ok: bool)
    requires c.Traced() && Next(c.trace.ref, Decline(c.cs.xid, c.cs.clientAddr, server)) == Some(c.trace.ref)
    modifies c`trace, c`tries
    ensures Grown(c) && c.Traced() && c.tries == old(c.tries) + 1
    ensures c.trace == if ok then old(c.trace).(log := old(c.trace.log) + [Decline(c.cs.xid, c.cs.clientAddr, server)])
                       else old(c.trace)
  {
    hide Played, Next, Messages.Sent, Messages.Asks, Options.Opt, Options.Opt32, Options.OptionServerId,
         Options.OptionMsgType;
    var m := Messages.BuildDecline(c.config, c.cs.xid, c.cs.clientAddr, server);
    ok := *;
    c.tries := c.tries + 1;
    if ok {
      c.Record(EventOf(0, m, false).value);
    }
  }

  /** `arp_do_collision_check`. The DECLINE names the offered address as its server. */
  method ArpDoCollisionCheck(c: Client) returns (r: Arpr)
    requires c.Inv() && c.trace.ref.phase == Checking
    modifies c`garp, c`wakeTs, c`tries, c`trace
    ensures Grown(c)
    ensures c.Inv() && c.trace.ref == old(c.trace.ref)
    ensures r == ArprOk <==> !Collides(c.config.arp, c.cs.clientAddr, c.reply)
    ensures r == ArprOk || r == ArprConflict || r == ArprFail
    ensures if r == ArprOk then c.wakeTs == old(c.wakeTs) && c.garp == old(c.garp) && c.trace == old(c.trace)
                                && c.tries == old(c.tries)
            else c.wakeTs == old(c.wakeTs)[AS_COLLISION_CHECK := -1] && c.tries == old(c.tries) + 1
                 && c.garp == old(c.garp).(totalConflicts := old(c.garp.totalConflicts) + 1)
    ensures c.trace.log == old(c.trace.log) +
                           if r == ArprConflict then [Decline(c.cs.xid, c.cs.clientAddr, c.cs.clientAddr)] else []
  {
    hide Client.Inv, Client.Traced, Next, Sip, Smac, IsQueryReply;
    CheckParts(c);
    if !IsQueryReply(c.config.arp, c.reply) {
      return ArprOk;
    }
    if Sip(c.reply) == c.dhcpPacket.yiaddr && c.config.arp == Smac(c.reply) {
      c.garp := c.garp.(totalConflicts := c.garp.totalConflicts + 1);
      c.wakeTs := c.wakeTs[AS_COLLISION_CHECK := -1];
      var ok := SendDecline(c, c.dhcpPacket.yiaddr);
      StaysAtCheck(c);
      return if ok then ArprConflict else ArprFail;
    }
    return ArprOk;
  }

  lemma CheckParts(c: Client)
    requires c.Inv() && c.trace.ref.phase == Checking
    ensures c.Traced() && c.dhcpPacket.yiaddr == c.cs.clientAddr == c.trace.ref.addr
    ensures Next(c.trace.ref, Decline(c.cs.xid, c.cs.clientAddr, c.cs.clientAddr)) == Some(c.trace.ref)
  {
    hide Played, LinkedGw;
  }

  /** Enough probes were sent, or enough time has passed, to take the address. */
  predicate Probed(g: ArpData, probeNum: int, now: nat) {
    now >= g.arpCheckStartTs + ANNOUNCE_WAIT || g.probeCount >= probeNum
  }

  /** `arp_collision_timeout`. Binding may fail, and the client may be told to quit then. */
  method ArpCollisionTimeout(c: Client, now: nat) returns (r: Arpr)
    requires c.Inv() && c.trace.ref.phase == Checking && now <= c.clock
    modifies c`cs, c`programInit, c`garp, c`wakeTs, c`listening, c`clock, c`arps, c`trace, c.ifch, c.ifch.daemon
    ensures Grown(c) && c.cs == old(c.cs).(routerAddr := c.cs.routerAddr)
    ensures r == ArprFree || r == ArprOk || r == ArprFail || r == ArprHalt
    ensures r == ArprFree || r == ArprHalt <==> Probed(old(c.garp), c.settings.probeNum, now)
    ensures r == ArprHalt ==> c.Traced()
    ensures r != ArprHalt ==> c.Inv()
    ensures r == ArprFree ==> c.trace.ref.phase == Bound && NewlyBound(c)
    ensures r == ArprFree ==> c.trace.log == old(c.trace.log) + [Configure(now, c.cs.clientAddr)]
    ensures r == ArprOk || r == ArprFail ==>
              c.trace.ref == old(c.trace.ref).(probes := c.trace.ref.probes) && c.cs == old(c.cs)
    ensures r == ArprOk ==> c.wakeTs == old(c.wakeTs)[AS_COLLISION_CHECK := c.garp.probeTs + c.garp.probeWaitTime]
    ensures r == ArprOk || r == ArprFail ==>
              c.arps == old(c.arps) + if now < old(c.garp.probeTs) + old(c.garp.probeWaitTime) then []
                                      else [ArpRequest(0, c.cs.clientAddr, r == ArprOk)]
    ensures r == ArprFree ==> Entered(c, 1)
    ensures r == ArprHalt ==> Entered(c, 0) || Entered(c, 1)
    ensures old(c.ifch.Kept()) ==> c.ifch.Kept()
    ensures r == ArprOk || r == ArprFail ==>
              c.trace.log == old(c.trace.log) + if now < old(c.garp.probeTs) + old(c.garp.probeWaitTime) || r == ArprFail then []
                                                else [Probe(c.garp.probeTs, c.cs.clientAddr)]
    ensures r == ArprOk || r == ArprFail ==> c.trace.gwLog == old(c.trace.gwLog)
    ensures now < old(c.garp.probeTs) + old(c.garp.probeWaitTime) ==> r != ArprFail
  {
    hide Ifchange.Configurator.Kept, Ifchange.Plain, Client.Inv, Client.Traced;
    if now >= c.garp.arpCheckStartTs + 2000 || c.garp.probeCount >= c.settings.probeNum {
      r := Lease(c, now);
    } else {
      r := NextProbe(c, now);
    }
  }

  /** The part of it about a check that goes on (src/arp.c:532-546). */
  method NextProbe(c: Client, now: nat) returns (r: Arpr)
    requires c.Inv() && c.trace.ref.phase == Checking
    modifies c`garp, c`wakeTs, c`clock, c`arps, c`trace
    ensures Grown(c) && c.Inv() && c.trace.ref == old(c.trace.ref).(probes := c.trace.ref.probes)
    ensures r == ArprOk || r == ArprFail
    ensures r == ArprOk ==> c.wakeTs == old(c.wakeTs)[AS_COLLISION_CHECK := c.garp.probeTs + c.garp.probeWaitTime]
    ensures c.arps == old(c.arps) + if now < old(c.garp.probeTs) + old(c.garp.probeWaitTime) then []
                                    else [ArpRequest(0, c.cs.clientAddr, r == ArprOk)]
    ensures c.trace.gwLog == old(c.trace.gwLog)
    ensures c.trace.log == old(c.trace.log) + if now < old(c.garp.probeTs) + old(c.garp.probeWaitTime) || r == ArprFail then []
                                              else [Probe(c.garp.probeTs, c.cs.clientAddr)]
    ensures now < old(c.garp.probeTs) + old(c.garp.probeWaitTime) ==> r == ArprOk
  {
    hide Client.Traced, Linked, LinkedGw, Mode, Next;
    var rtts := c.garp.probeTs + c.garp.probeWaitTime;
    if now < rtts {
      c.wakeTs := c.wakeTs[AS_COLLISION_CHECK := rtts];
      return ArprOk;
    }
    CheckParts(c);
    MorePings(c.fp, c.sentGwQuery, c.check, c.garp, Mode(c.arpOpen, c.arpIsDefense), c.trace.gw);
    ghost var g, clock, a := c.garp, c.clock, c.trace.ref;
    StillChecking(c.cs, g, c.dhcpPacket.yiaddr, c.Configured(), a, clock);
    var ok := ArpIpAnonPing(c, c.dhcpPacket.yiaddr);
    if !ok {
      return ArprFail;
    }
    var w := ArpGenProbeWait(c);
    c.garp := c.garp.(probeWaitTime := w);
    c.wakeTs := c.wakeTs[AS_COLLISION_CHECK := c.garp.probeTs + c.garp.probeWaitTime];
    ProbeLinks(c.cs, g, c.dhcpPacket.yiaddr, c.Configured(), a, clock, c.garp, c.clock);
    return ArprOk;
  }

  lemma StillChecking(cs: ClientState, g: ArpData, ch: U32, conf: Option<U32>, a: Ref, clock: nat)
    requires Linked(cs, g, ch, conf, a, clock) && a.phase == Checking
    ensures forall t: nat :: t >= clock ==> Linked(cs, g, ch, conf, a, t)
  {
  }

  lemma ProbeLinks(cs: ClientState, g: ArpData, ch: U32, conf: Option<U32>, a: Ref, clock: nat, h: ArpData, t: nat)
    requires Linked(cs, g, ch, conf, a, clock) && a.phase == Checking && clock <= t
    requires h == g.(probeCount := g.probeCount + 1, probeTs := h.probeTs, probeWaitTime := h.probeWaitTime)
    ensures var r := Next(a, Probe(t, ch)); r == Some(a.(probes := a.probes + 1)) && Linked(cs, h, ch, conf, r.value, t)
  {
  }

  /** What taking an address leaves. */
  ghost predicate NewlyBound(c: Client)
    reads c, c.ifch
  {
    && !c.listening && !c.programInit && !c.settings.quitAfterLease && c.garp.lastConflictTs == 0
    && c.ifch.cfg == c.dhcpPacket && c.cs.routerAddr == Options.OptionRouter(c.dhcpPacket)
  }

  /** The part of `arp_collision_timeout` that takes the address (src/arp.c:512-530). */
  method Lease(c: Client, now: nat) returns (r: Arpr)
    requires c.Inv() && c.trace.ref.phase == Checking && now <= c.clock
    requires Probed(c.garp, c.settings.probeNum, now)
    modifies c`cs, c`programInit, c`garp, c`wakeTs, c`listening, c`trace, c.ifch, c.ifch.daemon
    ensures Grown(c)
    ensures c.cs == old(c.cs).(routerAddr := c.cs.routerAddr)
    ensures r == ArprFree || r == ArprHalt
    ensures r == ArprHalt ==> c.Traced()
    ensures r == ArprFree ==> c.Inv() && c.trace.ref.phase == Bound && NewlyBound(c)
    ensures r == ArprFree ==> c.wakeTs == old(c.wakeTs)[AS_COLLISION_CHECK := -1]
    ensures r == ArprFree ==> c.trace.log == old(c.trace.log) + [Configure(now, c.cs.clientAddr)]
    ensures r == ArprFree ==> Entered(c, 1)
    ensures r == ArprHalt ==> Entered(c, 0) || Entered(c, 1)
    ensures r == ArprFree ==>
              c.ifch.inStep == (old(c.ifch.inStep) && Ifchange.Plain(old(c.ifch.cfg), Ifchange.Give(c.dhcpPacket)))
    ensures old(c.ifch.Kept()) ==> c.ifch.Kept()
  {
    hide Ifchange.Configurator.Kept, Ifchange.Plain, Client.Inv, Client.Traced, Next, Linked, LinkedGw, Mode, Sound,
         Probed, Options.OptionRouter;
    InvParts(c);
    InvLink(c);
    MorePings(c.fp, c.sentGwQuery, c.check, c.garp, Mode(c.arpOpen, c.arpIsDefense), c.trace.gw);
    TracedFacts(c);
    ConfigureLinks(c.cs, c.garp, c.dhcpPacket.yiaddr, c.Configured(), c.trace.ref, c.clock, now,
                   Options.OptionRouter(c.dhcpPacket));
    var ok := TakeAddress(c);
    if !ok {
      return ArprHalt;
    }
    FinishLease(c, now);
    r := if c.settings.quitAfterLease then ArprHalt else ArprFree;
  }

  /** The assignments behind the bind (src/arp.c:525-526). */
  method FinishLease(c: Client, now: nat)
    requires c.Traced() && LinkedGw(c.fp, c.sentGwQuery, c.check, c.garp, Mode(c.arpOpen, c.arpIsDefense), c.trace.gw)
    requires var a := Next(c.trace.ref, Configure(now, c.ifch.cfg.yiaddr));
             && a.Some? && a.value.phase == Bound && a.value.entries == c.trace.ref.entries + 1
             && Linked(c.cs.(routerAddr := Options.OptionRouter(c.dhcpPacket)), c.garp, c.dhcpPacket.yiaddr, c.Configured(),
                       a.value, c.clock)
    modifies c`cs, c`trace, c`listening
    ensures c.Inv() && c.Traced() && Grown(c) && c.trace.ref.phase == Bound && !c.listening && Entered(c, 1)
    ensures c.cs == old(c.cs).(routerAddr := Options.OptionRouter(c.dhcpPacket))
    ensures c.trace.log == old(c.trace.log) + [Configure(now, c.ifch.cfg.yiaddr)]
  {
    hide Client.Inv, Client.Traced, Next, Linked, LinkedGw, Mode, Options.OptionRouter;
    c.Record(Configure(now, c.ifch.cfg.yiaddr));
    c.cs := c.cs.(routerAddr := Options.OptionRouter(c.dhcpPacket));
    c.listening := false;
    InvFrom(c);
  }

  /** The assignments up to the bind (src/arp.c:517-521). */
  method TakeAddress(c: Client) returns (ok: bool)
    modifies c`cs, c`programInit, c`garp, c`wakeTs, c.ifch, c.ifch.daemon
    ensures c.cs == old(c.cs).(clientAddr := c.dhcpPacket.yiaddr) && !c.programInit
    ensures c.garp == old(c.garp).(lastConflictTs := 0)
    ensures c.wakeTs == old(c.wakeTs)[AS_COLLISION_CHECK := -1]
    ensures ok ==> c.ifch.cfg == c.dhcpPacket && c.Configured() == Some(c.dhcpPacket.yiaddr)
    ensures c.ifch.inStep == (ok && old(c.ifch.inStep) && Ifchange.Plain(old(c.ifch.cfg), Ifchange.Give(c.dhcpPacket)))
    ensures old(c.ifch.Kept()) ==> c.ifch.Kept()
  {
    hide Ifchange.Configurator.Kept, Ifchange.Plain;
    c.cs := c.cs.(clientAddr := c.dhcpPacket.yiaddr);
    c.programInit := false;
    c.garp := c.garp.(lastConflictTs := 0);
    c.wakeTs := c.wakeTs[AS_COLLISION_CHECK := -1];
    ok := c.Bind();
  }

  lemma ConfigureLinks(cs: ClientState, g: ArpData, checked: U32, conf: Option<U32>, a: Ref, clock: nat, now: nat, router: U32)
    requires Linked(cs, g, checked, conf, a, clock) && a.phase == Checking && Probed(g, a.probeNum, now)
    ensures cs.clientAddr == checked && Next(a, Configure(now, checked)).Some?
    ensures var r := Next(a, Configure(now, checked)).value;
            && r.phase == Bound && r.entries == a.entries + 1
            && Linked(cs.(routerAddr := router), g.(lastConflictTs := 0), checked, Some(checked), r, clock)
  {
  }

  /** In BOUND the ARP data and the passing of time do not matter. */
  lemma StillBound(cs: ClientState, g: ArpData, ch: U32, conf: Option<U32>, a: Ref, clock: nat)
    requires Linked(cs, g, ch, conf, a, clock) && a.phase == Bound
    ensures SameExchange(cs, a)
    ensures forall h: ArpData, k: nat, to: U32 :: k >= clock ==> Linked(cs, h, to, conf, a, k)
  {
  }

  /** More pings, whatever they are for, do no harm to the count of a check. */
  lemma MorePings(fp: Fingerprint, q: bool, k: Check, g: ArpData, s: Socket, b: Gw)
    requires LinkedGw(fp, q, k, g, s, b)
    ensures forall h: ArpData :: h.gwCheckInitpings == g.gwCheckInitpings && h.pingCount >= g.pingCount ==>
              LinkedGw(fp, q, k, h, s, b)
  {
  }

  // ---------------------------------------------------------------------------
  // The fingerprint of the network
  // ---------------------------------------------------------------------------

  /** The request of `arp_ping`, sent. */
  function PingOf(cs: ClientState, ip: U32): ArpRequest {
    ArpRequest(cs.clientAddr, ip, true)
  }

  /** The requests to the router and to the server, as far as they are wanted. */
  function PingsOf(cs: ClientState, router: bool, server: bool): seq<ArpRequest> {
    (if router then [PingOf(cs, cs.routerAddr)] else []) + (if server then [PingOf(cs, cs.srcAddr)] else [])
  }

  /** `arp_gw_check` */
  method ArpGwCheck(c: Client) returns (ok: bool)
    requires c.Inv() && c.trace.ref.phase == Bound
    modifies c`check, c`arpOpen, c`arpIsDefense, c`usingBpf, c`garp, c`wakeTs, c`clock, c`arps, c`trace
    ensures c.Inv() && Grown(c) && c.trace.log == old(c.trace.log) && c.trace.ref == old(c.trace.ref)
    ensures ok ==> c.check == Check(true, c.cs.routerAddr == 0, false)
    ensures var o, n := Open(Mode(c.arpOpen, c.arpIsDefense)), c.garp.pingCount - old(c.garp.pingCount);
            && 0 <= n <= AllPings(c.cs) && (ok <==> c.arpOpen && n == AllPings(c.cs))
            && (c.arpOpen ==> c.check.running && !c.arpIsDefense)
            && c.trace.gwLog == if c.arpOpen then old(c.trace.gwLog) + [o] + [Begin(n, c.cs.routerAddr != 0)]
                                else old(c.trace.gwLog) + [o]
    ensures ok ==> c.arps == old(c.arps) + [PingOf(c.cs, c.cs.srcAddr)] + PingsOf(c.cs, c.cs.routerAddr != 0, false)
    ensures ok ==> c.wakeTs == old(c.wakeTs)[AS_GW_CHECK := c.garp.pingTs + ARP_RETRANS_DELAY + 250]
    ensures c.wakeTs[AS_COLLISION_CHECK] == old(c.wakeTs[AS_COLLISION_CHECK])
  {
    hide Client.Traced, Client.Inv, Next, GwNext, LinkedGw;
    InvParts(c);
    ok := ArpOpenFd(c, false);
    if !ok {
      StaysBoundTo(c);
      return;
    }
    ghost var b, g, k := c.trace.gw, c.garp, c.check;
    var n := BeginPings(c);
    BeginLinks(c.fp, c.sentGwQuery, k, g, Basic, b, n, c.cs.routerAddr != 0, c.garp);
    c.RecordGw(Begin(n, c.cs.routerAddr != 0));
    ok := n == AllPings(c.cs);
    if ok {
      c.wakeTs := c.wakeTs[AS_GW_CHECK := c.garp.pingTs + ARP_RETRANS_DELAY + 250];
    }
    StaysBoundTo(c);
  }

  /** The server is always asked, and the router if there is one. */
  function AllPings(cs: ClientState): nat {
    if cs.routerAddr != 0 then 2 else 1
  }

  /** Clears the flags and pings both sides (src/arp.c:282-293); n is the number of pings sent. */
  method BeginPings(c: Client) returns (n: nat)
    modifies c`garp, c`check, c`clock, c`arps
    ensures n <= AllPings(c.cs) && Grown(c)
    ensures c.garp == old(c.garp).(gwCheckInitpings := old(c.garp.pingCount), pingCount := old(c.garp.pingCount) + n,
                                   pingTs := c.garp.pingTs)
    ensures c.check == Check(true, if n == 0 then old(c.check.routerReplied) else c.cs.routerAddr == 0, false)
    ensures n == AllPings(c.cs) ==>
              c.arps == old(c.arps) + [PingOf(c.cs, c.cs.srcAddr)] + PingsOf(c.cs, c.cs.routerAddr != 0, false)
    ensures n < AllPings(c.cs) ==> |c.arps| == |old(c.arps)| + n + 1
  {
    c.garp := c.garp.(gwCheckInitpings := c.garp.pingCount);
    c.check := c.check.(serverReplied := false, running := true);
    var ok := ArpPing(c, c.cs.srcAddr);
    if !ok {
      return 0;
    }
    if c.cs.routerAddr == 0 {
      c.check := c.check.(routerReplied := true);
      return 1;
    }
    c.check := c.check.(routerReplied := false);
    ok := ArpPing(c, c.cs.routerAddr);
    return if ok then 2 else 1;
  }

  lemma BeginLinks(fp: Fingerprint, q: bool, k: Check, g: ArpData, s: Socket, b: Gw, n: nat, hasRouter: bool, h: ArpData)
    requires LinkedGw(fp, q, k, g, s, b) && n <= if hasRouter then 2 else 1
    requires h == g.(gwCheckInitpings := g.pingCount, pingCount := g.pingCount + n, pingTs := h.pingTs)
    ensures GwNext(b, Begin(n, hasRouter)).Some?
    ensures var k' := Check(true, if n == 0 then k.routerReplied else !hasRouter, false);
            LinkedGw(fp, q, k', h, s, GwNext(b, Begin(n, hasRouter)).value)
  {
  }

  /** What a query that sent n pings leaves of what was known. */
  function Unlearned(fp: Fingerprint, n: nat, hasRouter: bool): Fingerprint {
    fp.(gotServerArp := false, gotRouterArp := if n == 0 then fp.gotRouterArp else !hasRouter)
  }

  /** `arp_get_gw_hwaddr`; n is the number of pings sent. */
  method ArpGetGwHwaddr(c: Client) returns (ok: bool, ghost n: nat)
    requires c.Traced() && LinkedGw(c.fp, c.sentGwQuery, c.check, c.garp, Mode(c.arpOpen, c.arpIsDefense), c.trace.gw)
    modifies c`arpOpen, c`arpIsDefense, c`usingBpf, c`garp, c`fp, c`wakeTs, c`clock, c`arps, c`trace
    ensures c.Traced() && Grown(c) && Opened(c)
    ensures LinkedGw(old(c.fp), c.sentGwQuery, c.check, c.garp, Mode(c.arpOpen, c.arpIsDefense), c.trace.gw)
    ensures c.garp == old(c.garp).(pingCount := old(c.garp.pingCount) + n, pingTs := c.garp.pingTs)
    ensures c.arpOpen ==> !c.arpIsDefense
    ensures c.fp == if c.arpOpen then Unlearned(old(c.fp), n, c.cs.routerAddr != 0) else old(c.fp)
    ensures ok <==> c.arpOpen && n == if c.cs.routerAddr != 0 then 2 else 1
    ensures n <= (if c.cs.routerAddr != 0 then 2 else 1) && (!c.arpOpen ==> n == 0)
    ensures ok ==> c.arps == old(c.arps) + [PingOf(c.cs, c.cs.srcAddr)] + PingsOf(c.cs, c.cs.routerAddr != 0, false)
    ensures c.wakeTs == if ok then old(c.wakeTs)[AS_GW_QUERY := c.garp.pingTs + ARP_RETRANS_DELAY + 250] else old(c.wakeTs)
  {
    hide Client.Traced, Next, GwNext, LinkedGw, Mode;
    n := 0;
    ok := ArpOpenFd(c, false);
    if ok {
      MorePings(c.fp, c.sentGwQuery, c.check, c.garp, Mode(c.arpOpen, c.arpIsDefense), c.trace.gw);
      ok, n := AskBoth(c);
    }
  }

  /** The part of `arp_get_gw_hwaddr` that sends. */
  method AskBoth(c: Client) returns (ok: bool, ghost n: nat)
    modifies c`garp, c`fp, c`wakeTs, c`clock, c`arps
    ensures Grown(c) && c.garp == old(c.garp).(pingCount := old(c.garp.pingCount) + n, pingTs := c.garp.pingTs)
    ensures c.fp == Unlearned(old(c.fp), n, c.cs.routerAddr != 0)
    ensures n <= (if c.cs.routerAddr != 0 then 2 else 1) && (ok <==> n == if c.cs.routerAddr != 0 then 2 else 1)
    ensures ok ==> c.arps == old(c.arps) + [PingOf(c.cs, c.cs.srcAddr)] + PingsOf(c.cs, c.cs.routerAddr != 0, false)
    ensures c.wakeTs == if ok then old(c.wakeTs)[AS_GW_QUERY := c.garp.pingTs + ARP_RETRANS_DELAY + 250] else old(c.wakeTs)
  {
    n := 0;
    c.fp := c.fp.(gotServerArp := false);
    ok := ArpPing(c, c.cs.srcAddr);
    if !ok {
      return;
    }
    n := 1;
    if c.cs.routerAddr != 0 {
      c.fp := c.fp.(gotRouterArp := false);
      ok := ArpPing(c, c.cs.routerAddr);
      if !ok {
        return;
      }
      n := 2;
    } else {
      c.fp := c.fp.(gotRouterArp := true);
    }
    c.wakeTs := c.wakeTs[AS_GW_QUERY := c.garp.pingTs + ARP_RETRANS_DELAY + 250];
  }

  /** `arp_query_gateway` */
  method ArpQueryGateway(c: Client) returns (r: Arpr)
    requires c.Inv() && c.trace.ref.phase == Bound
    modifies c`initFingerprintInProgress, c`sentGwQuery, c`arpOpen, c`arpIsDefense, c`usingBpf, c`garp, c`fp,
             c`wakeTs, c`clock, c`arps, c`trace
    ensures c.Inv() && Grown(c) && c.trace.log == old(c.trace.log) && c.trace.ref == old(c.trace.ref)
    ensures r == ArprOk || r == ArprFail
    ensures r == ArprOk <==> c.sentGwQuery
    ensures old(c.sentGwQuery) ==> c.fp == old(c.fp) && c.arps == old(c.arps) && c.trace == old(c.trace)
    ensures !old(c.sentGwQuery) ==>
              var o, n := Open(Mode(c.arpOpen, c.arpIsDefense)), c.garp.pingCount - old(c.garp.pingCount);
              && 0 <= n <= AllPings(c.cs) && (r == ArprOk <==> c.arpOpen && n == AllPings(c.cs))
              && c.trace.gwLog == if c.arpOpen then old(c.trace.gwLog) + [o] + [Query(n, c.cs.routerAddr != 0)]
                                  else old(c.trace.gwLog) + [o]
    ensures r == ArprOk && !old(c.sentGwQuery) ==>
              && c.initFingerprintInProgress && c.fp == Unlearned(old(c.fp), 2, c.cs.routerAddr != 0)
              && c.arps == old(c.arps) + [PingOf(c.cs, c.cs.srcAddr)] + PingsOf(c.cs, c.cs.routerAddr != 0, false)
    ensures r == ArprOk ==> c.wakeTs[AS_QUERY_GW_SEND] == -1
    ensures r == ArprFail ==> c.wakeTs[AS_QUERY_GW_SEND] == c.clock + ARP_RETRANS_DELAY
    ensures c.wakeTs[AS_COLLISION_CHECK] == old(c.wakeTs[AS_COLLISION_CHECK])
  {
    hide Client.Inv, Client.Traced, LinkedGw, Mode, GwNext, Next;
    InvParts(c);
    if c.sentGwQuery {
      c.wakeTs := c.wakeTs[AS_QUERY_GW_SEND := -1];
      StaysBoundTo(c);
      return ArprOk;
    }
    var ok := SendQuery(c);
    if !ok {
      var t := c.Curms();
      c.wakeTs := c.wakeTs[AS_QUERY_GW_SEND := t + ARP_RETRANS_DELAY];
      r := ArprFail;
    } else {
      c.initFingerprintInProgress := true;
      c.wakeTs := c.wakeTs[AS_QUERY_GW_SEND := -1];
      r := ArprOk;
    }
    StaysBoundTo(c);
  }

  /** The query itself, which is sent once. */
  method SendQuery(c: Client) returns (ok: bool)
    requires c.Traced() && LinkedGw(c.fp, c.sentGwQuery, c.check, c.garp, Mode(c.arpOpen, c.arpIsDefense), c.trace.gw)
    requires !c.sentGwQuery
    modifies c`sentGwQuery, c`arpOpen, c`arpIsDefense, c`usingBpf, c`garp, c`fp, c`wakeTs, c`clock, c`arps, c`trace
    ensures c.Traced() && LinkedGw(c.fp, c.sentGwQuery, c.check, c.garp, Mode(c.arpOpen, c.arpIsDefense), c.trace.gw)
    ensures Grown(c) && c.trace.log == old(c.trace.log) && c.trace.ref == old(c.trace.ref)
    ensures c.sentGwQuery == ok
    ensures var o, n := Open(Mode(c.arpOpen, c.arpIsDefense)), c.garp.pingCount - old(c.garp.pingCount);
            && 0 <= n <= AllPings(c.cs) && (ok <==> c.arpOpen && n == AllPings(c.cs))
            && c.trace.gwLog == if c.arpOpen then old(c.trace.gwLog) + [o] + [Query(n, c.cs.routerAddr != 0)]
                                else old(c.trace.gwLog) + [o]
    ensures ok ==>
              && c.fp == Unlearned(old(c.fp), 2, c.cs.routerAddr != 0)
              && c.arps == old(c.arps) + [PingOf(c.cs, c.cs.srcAddr)] + PingsOf(c.cs, c.cs.routerAddr != 0, false)
    ensures c.wakeTs[AS_COLLISION_CHECK] == old(c.wakeTs[AS_COLLISION_CHECK])
  {
    hide Client.Traced, LinkedGw, Mode, GwNext, Next;
    ghost var fp := c.fp;
    ghost var n;
    ok, n := ArpGetGwHwaddr(c);
    if c.arpOpen {
      QueryLinks(fp, c.check, c.garp, Mode(c.arpOpen, c.arpIsDefense), c.trace.gw, n, c.cs.routerAddr != 0);
      c.RecordGw(Query(n, c.cs.routerAddr != 0));
    }
    c.sentGwQuery := ok;
  }

  lemma QueryLinks(fp: Fingerprint, k: Check, g: ArpData, s: Socket, b: Gw, n: nat, hasRouter: bool)
    requires LinkedGw(fp, false, k, g, s, b) && n <= if hasRouter then 2 else 1
    ensures GwNext(b, Query(n, hasRouter)).Some?
    ensures var r := GwNext(b, Query(n, hasRouter)).value;
            LinkedGw(Unlearned(fp, n, hasRouter), n == if hasRouter then 2 else 1, k, g, s, r)
  {
  }

  /** `arp_query_gateway_timeout` */
  method ArpQueryGatewayTimeout(c: Client, now: nat)
    requires c.Inv() && c.trace.ref.phase == Bound
    modifies c`initFingerprintInProgress, c`sentGwQuery, c`arpOpen, c`arpIsDefense, c`usingBpf, c`garp, c`fp,
             c`wakeTs, c`clock, c`arps, c`trace
    ensures c.Inv() && Grown(c) && c.trace.log == old(c.trace.log) && c.trace.ref == old(c.trace.ref)
    ensures now < old(c.wakeTs[AS_QUERY_GW_SEND]) || old(c.wakeTs[AS_QUERY_GW_SEND]) == -1 ==> c.fp == old(c.fp)
    ensures -1 < old(c.wakeTs[AS_QUERY_GW_SEND]) <= now ==>
              c.wakeTs[AS_QUERY_GW_SEND] == if c.sentGwQuery then -1 else c.clock + ARP_RETRANS_DELAY
    ensures c.wakeTs[AS_COLLISION_CHECK] == old(c.wakeTs[AS_COLLISION_CHECK])
    ensures now < old(c.wakeTs[AS_QUERY_GW_SEND]) || old(c.wakeTs[AS_QUERY_GW_SEND]) == -1 ==> unchanged(c)
  {
    var rtts := c.wakeTs[AS_QUERY_GW_SEND];
    if rtts == -1 || now < rtts {
      return;
    }
    var _ := ArpQueryGateway(c);
  }

  /** Asks the router and the server, as far as wanted, up to the first request that is not sent; n of them are. */
  method PingSides(c: Client, router: bool, server: bool) returns (ok: bool, ghost n: nat)
    modifies c`garp, c`clock, c`arps
    ensures Grown(c) && n <= (if router then 1 else 0) + (if server then 1 else 0)
    ensures c.garp == old(c.garp).(pingCount := old(c.garp.pingCount) + n, pingTs := c.garp.pingTs)
    ensures ok ==> c.arps == old(c.arps) + PingsOf(c.cs, router, server)
    ensures !ok ==> |c.arps| == |old(c.arps)| + n + 1
  {
    ok, n := true, 0;
    if router {
      ok := ArpPing(c, c.cs.routerAddr);
      if !ok {
        return;
      }
      n := 1;
    }
    if server {
      ok := ArpPing(c, c.cs.srcAddr);
      n := if ok then n + 1 else n;
    }
  }

  /** `arp_gw_query_timeout` */
  method ArpGwQueryTimeout(c: Client, now: nat) returns (r: Arpr)
    requires c.Inv() && c.trace.ref.phase == Bound
    modifies c`garp, c`wakeTs, c`clock, c`arps
    ensures c.Inv() && Grown(c)
    ensures r == ArprOk || r == ArprFail
    ensures r == ArprOk ==> c.wakeTs[AS_GW_QUERY] == c.garp.pingTs + ARP_RETRANS_DELAY
    ensures r == ArprOk ==> c.arps == old(c.arps) + if now < old(c.garp.pingTs) + ARP_RETRANS_DELAY then []
                                                    else PingsOf(c.cs, !c.fp.gotRouterArp, !c.fp.gotServerArp)
    ensures r == ArprFail ==> |c.arps| > |old(c.arps)| && now >= old(c.garp.pingTs) + ARP_RETRANS_DELAY
    ensures c.wakeTs[AS_COLLISION_CHECK] == old(c.wakeTs[AS_COLLISION_CHECK])
  {
    hide Client.Inv, Client.Traced, LinkedGw, Mode;
    InvParts(c);
    MorePings(c.fp, c.sentGwQuery, c.check, c.garp, Mode(c.arpOpen, c.arpIsDefense), c.trace.gw);
    var rtts := c.garp.pingTs + ARP_RETRANS_DELAY;
    if now < rtts {
      c.wakeTs := c.wakeTs[AS_GW_QUERY := rtts];
      StaysBoundTo(c);
      return ArprOk;
    }
    ghost var n;
    var ok;
    ok, n := PingSides(c, !c.fp.gotRouterArp, !c.fp.gotServerArp);
    if !ok {
      StaysBoundTo(c);
      return ArprFail;
    }
    c.wakeTs := c.wakeTs[AS_GW_QUERY := c.garp.pingTs + ARP_RETRANS_DELAY];
    StaysBoundTo(c);
    return ArprOk;
  }

  /** `arp_gw_check_timeout` */
  method ArpGwCheckTimeout(c: Client, now: nat) returns (r: Arpr)
    requires c.Inv() && c.trace.ref.phase == Bound && c.check.running
    modifies c`garp, c`wakeTs, c`clock, c`arps, c`trace
    ensures c.Inv() && Grown(c) && c.trace.log == old(c.trace.log) && c.trace.ref == old(c.trace.ref)
    ensures r == ArprOk || r == ArprFail || r == ArprConflict
    ensures r == ArprConflict <==> old(c.garp.pingCount) >= old(c.garp.gwCheckInitpings) + 6
    ensures r == ArprOk ==> c.wakeTs[AS_GW_CHECK] == c.garp.pingTs + ARP_RETRANS_DELAY
    ensures r == ArprOk ==> c.arps == old(c.arps) + if now < old(c.garp.pingTs) + ARP_RETRANS_DELAY then []
                                                    else PingsOf(c.cs, !c.check.routerReplied, !c.check.serverReplied)
    ensures c.garp.pingCount >= old(c.garp.pingCount)
    ensures c.trace.gwLog == if r == ArprConflict || now < old(c.garp.pingTs) + ARP_RETRANS_DELAY then old(c.trace.gwLog)
                             else old(c.trace.gwLog) + [Round(c.garp.pingCount - old(c.garp.pingCount))]
    ensures c.wakeTs[AS_COLLISION_CHECK] == old(c.wakeTs[AS_COLLISION_CHECK])
    ensures r == ArprFail ==> |c.arps| > |old(c.arps)| && now >= old(c.garp.pingTs) + ARP_RETRANS_DELAY
  {
    hide Client.Inv, Client.Traced, Next, GwNext, LinkedGw, Mode;
    InvParts(c);
    if c.garp.pingCount >= c.garp.gwCheckInitpings + 6 {
      c.wakeTs := c.wakeTs[AS_GW_CHECK := -1];
      r := ArprConflict;
    } else {
      r := NextRound(c, now);
    }
    StaysBoundTo(c);
  }

  /** The part of it about a check that goes on (src/arp.c:431-457). */
  method NextRound(c: Client, now: nat) returns (r: Arpr)
    requires c.Traced() && LinkedGw(c.fp, c.sentGwQuery, c.check, c.garp, Mode(c.arpOpen, c.arpIsDefense), c.trace.gw)
    requires c.check.running && c.garp.pingCount < c.garp.gwCheckInitpings + 6
    modifies c`garp, c`wakeTs, c`clock, c`arps, c`trace
    ensures c.Traced() && LinkedGw(c.fp, c.sentGwQuery, c.check, c.garp, Mode(c.arpOpen, c.arpIsDefense), c.trace.gw)
    ensures Grown(c) && c.trace.log == old(c.trace.log) && c.trace.ref == old(c.trace.ref)
    ensures r == ArprOk || r == ArprFail
    ensures r == ArprOk ==> c.wakeTs[AS_GW_CHECK] == c.garp.pingTs + ARP_RETRANS_DELAY
    ensures r == ArprOk ==> c.arps == old(c.arps) + if now < old(c.garp.pingTs) + ARP_RETRANS_DELAY then []
                                                    else PingsOf(c.cs, !c.check.routerReplied, !c.check.serverReplied)
    ensures c.garp.pingCount >= old(c.garp.pingCount)
    ensures c.trace.gwLog == if now < old(c.garp.pingTs) + ARP_RETRANS_DELAY then old(c.trace.gwLog)
                             else old(c.trace.gwLog) + [Round(c.garp.pingCount - old(c.garp.pingCount))]
    ensures c.wakeTs[AS_COLLISION_CHECK] == old(c.wakeTs[AS_COLLISION_CHECK])
    ensures r == ArprFail ==> |c.arps| > |old(c.arps)| && now >= old(c.garp.pingTs) + ARP_RETRANS_DELAY
  {
    hide Client.Traced, Next, GwNext, LinkedGw, Mode;
    var rtts := c.garp.pingTs + ARP_RETRANS_DELAY;
    if now < rtts {
      c.wakeTs := c.wakeTs[AS_GW_CHECK := rtts];
      return ArprOk;
    }
    ghost var g := c.garp;
    ghost var n;
    var ok;
    ok, n := PingSides(c, !c.check.routerReplied, !c.check.serverReplied);
    RoundLinks(c.fp, c.sentGwQuery, c.check, g, Mode(c.arpOpen, c.arpIsDefense), c.trace.gw, n, c.garp);
    c.RecordGw(Round(n));
    if ok {
      c.wakeTs := c.wakeTs[AS_GW_CHECK := c.garp.pingTs + ARP_RETRANS_DELAY];
    }
    return if ok then ArprOk else ArprFail;
  }

  lemma RoundLinks(fp: Fingerprint, q: bool, k: Check, g: ArpData, s: Socket, b: Gw, n: nat, h: ArpData)
    requires LinkedGw(fp, q, k, g, s, b) && k.running && g.pingCount < g.gwCheckInitpings + 6
    requires n <= (if k.routerReplied then 0 else 1) + (if k.serverReplied then 0 else 1)
    requires h == g.(pingCount := g.pingCount + n, pingTs := h.pingTs)
    ensures GwNext(b, Round(n)).Some? && LinkedGw(fp, q, k, h, s, GwNext(b, Round(n)).value)
  {
  }

  /** `arp_gw_success`: the client defends its address again and announces it. */
  method ArpGwSuccess(c: Client) returns (r: Arpr)
    requires c.Inv() && c.trace.ref.phase == Bound
    modifies c`arpOpen, c`arpIsDefense, c`usingBpf, c`garp, c`wakeTs, c`clock, c`arps, c`trace
    ensures c.Inv() && Grown(c) && c.trace.log == old(c.trace.log) && c.trace.ref == old(c.trace.ref)
    ensures r == ArprFree || r == ArprFail
    ensures r == ArprFree ==> c.arpOpen && c.arpIsDefense && c.wakeTs == old(c.wakeTs)[AS_GW_CHECK := -1]
    ensures r == ArprFree ==> c.arps == old(c.arps) + [PingOf(c.cs, c.cs.clientAddr)]
    ensures c.trace.gwLog == old(c.trace.gwLog) + [Open(Mode(c.arpOpen, c.arpIsDefense))]
    ensures c.wakeTs[AS_COLLISION_CHECK] == old(c.wakeTs[AS_COLLISION_CHECK])
  {
    hide Client.Inv, Client.Traced, LinkedGw, Mode;
    InvParts(c);
    var ok := ArpOpenFd(c, true);
    if !ok {
      StaysBoundTo(c);
      return ArprFail;
    }
    MorePings(c.fp, c.sentGwQuery, c.check, c.garp, Mode(c.arpOpen, c.arpIsDefense), c.trace.gw);
    c.wakeTs := c.wakeTs[AS_GW_CHECK := -1];
    ok := ArpAnnouncement(c);
    StaysBoundTo(c);
    return if ok then ArprFree else ArprFail;
  }

  /** A frame is an answer of the host with this address to us. */
  predicate Answers(arp: Bytes, ip: U32, f: Frame) {
    IsQueryReply(arp, f) && Sip(f) == ip
  }

  /** A frame of the router or of the server comes from another hardware address than the stored one. */
  predicate Differs(arp: Bytes, cs: ClientState, fp: Fingerprint, f: Frame) {
    || (Answers(arp, cs.routerAddr, f) && Smac(f) != fp.routerArp)
    || (Answers(arp, cs.srcAddr, f) && Smac(f) != fp.serverArp)
  }

  /** The last frame is an answer of the router, or of the server; one frame may be both. */
  ghost predicate FromRouter(c: Client)
    reads c`reply, c`cs
  {
    Answers(c.config.arp, c.cs.routerAddr, c.reply)
  }

  ghost predicate FromServer(c: Client)
    reads c`reply, c`cs
  {
    Answers(c.config.arp, c.cs.srcAddr, c.reply)
  }

  ghost predicate Mismatch(c: Client)
    reads c`reply, c`cs, c`fp
  {
    Differs(c.config.arp, c.cs, c.fp, c.reply)
  }

  /** `arp_do_gw_check` */
  method ArpDoGwCheck(c: Client) returns (r: Arpr)
    requires c.Inv() && c.trace.ref.phase == Bound && c.check.running
    modifies c`check, c`arpOpen, c`arpIsDefense, c`usingBpf, c`garp, c`wakeTs, c`clock, c`arps, c`trace
    ensures c.Inv() && Grown(c) && c.trace.log == old(c.trace.log) && c.trace.ref == old(c.trace.ref)
    ensures r == ArprOk || r == ArprFree || r == ArprConflict || r == ArprFail
    ensures r == ArprConflict <==> Mismatch(c)
    ensures r == ArprConflict ==> c.wakeTs == old(c.wakeTs)[AS_GW_CHECK := -1]
    ensures r != ArprConflict ==> c.check == Check(true, old(c.check.routerReplied) || FromRouter(c),
                                                   old(c.check.serverReplied) || FromServer(c))
    ensures r == ArprFree || r == ArprFail <==>
            r != ArprConflict && (FromRouter(c) || FromServer(c)) && c.check.routerReplied && c.check.serverReplied
    ensures var a := if FromRouter(c) && Smac(c.reply) == c.fp.routerArp
                     then old(c.trace.gwLog) + [Reply(Router, Smac(c.reply))] else old(c.trace.gwLog);
            var b := if FromServer(c) && r != ArprConflict then a + [Reply(Server, Smac(c.reply))] else a;
            c.trace.gwLog == if r == ArprFree || r == ArprFail then b + [Open(Mode(c.arpOpen, c.arpIsDefense))] else b
    ensures c.wakeTs[AS_COLLISION_CHECK] == old(c.wakeTs[AS_COLLISION_CHECK])
  {
    hide Client.Inv, Client.Traced, LinkedGw, Mode, Sip, Smac, IsQueryReply;
    if !IsQueryReply(c.config.arp, c.reply) {
      return ArprOk;
    }
    if Sip(c.reply) == c.cs.routerAddr {
      r := RouterReplies(c);
    } else if Sip(c.reply) == c.cs.srcAddr {
      r := ServerReplies(c);
    } else {
      r := ArprOk;
    }
  }

  /** The router's part, which goes on with the server's if they are one (src/arp.c:707-721). */
  method RouterReplies(c: Client) returns (r: Arpr)
    requires c.Inv() && c.trace.ref.phase == Bound && c.check.running
    modifies c`check, c`arpOpen, c`arpIsDefense, c`usingBpf, c`garp, c`wakeTs, c`clock, c`arps, c`trace
    ensures c.Inv() && Grown(c) && c.trace.log == old(c.trace.log) && c.trace.ref == old(c.trace.ref)
    ensures r == ArprOk || r == ArprFree || r == ArprConflict || r == ArprFail
    ensures r == ArprConflict <==>
            Smac(c.reply) != c.fp.routerArp || (c.cs.routerAddr == c.cs.srcAddr && Smac(c.reply) != c.fp.serverArp)
    ensures r == ArprConflict ==> c.wakeTs == old(c.wakeTs)[AS_GW_CHECK := -1]
    ensures r != ArprConflict ==>
              c.check == Check(true, true, old(c.check.serverReplied) || c.cs.routerAddr == c.cs.srcAddr)
    ensures r == ArprFree || r == ArprFail <==> r != ArprConflict && c.check.serverReplied
    ensures var a := if Smac(c.reply) == c.fp.routerArp then old(c.trace.gwLog) + [Reply(Router, Smac(c.reply))]
                     else old(c.trace.gwLog);
            var b := if c.cs.routerAddr == c.cs.srcAddr && r != ArprConflict then a + [Reply(Server, Smac(c.reply))] else a;
            c.trace.gwLog == if r == ArprFree || r == ArprFail then b + [Open(Mode(c.arpOpen, c.arpIsDefense))] else b
    ensures c.wakeTs[AS_COLLISION_CHECK] == old(c.wakeTs[AS_COLLISION_CHECK])
  {
    hide Client.Inv, Client.Traced, LinkedGw, Mode, Smac;
    if c.fp.routerArp != Smac(c.reply) {
      InvParts(c);
      c.wakeTs := c.wakeTs[AS_GW_CHECK := -1];
      StaysBoundTo(c);
      return ArprConflict;
    }
    MarkReply(c, Router);
    if c.cs.routerAddr == c.cs.srcAddr {
      r := ServerReplies(c);
    } else if c.check.serverReplied {
      r := ArpGwSuccess(c);
    } else {
      r := ArprOk;
    }
  }

  /** The code behind the label `server_is_router` (src/arp.c:723-734). */
  method ServerReplies(c: Client) returns (r: Arpr)
    requires c.Inv() && c.trace.ref.phase == Bound && c.check.running
    modifies c`check, c`arpOpen, c`arpIsDefense, c`usingBpf, c`garp, c`wakeTs, c`clock, c`arps, c`trace
    ensures c.Inv() && Grown(c) && c.trace.log == old(c.trace.log) && c.trace.ref == old(c.trace.ref)
    ensures r == ArprOk || r == ArprFree || r == ArprConflict || r == ArprFail
    ensures r == ArprConflict <==> Smac(c.reply) != c.fp.serverArp
    ensures c.check == if r == ArprConflict then old(c.check) else old(c.check).(serverReplied := true)
    ensures r == ArprConflict ==> c.wakeTs == old(c.wakeTs)[AS_GW_CHECK := -1]
    ensures r == ArprFree || r == ArprFail <==> r != ArprConflict && c.check.routerReplied
    ensures var l := old(c.trace.gwLog) + [Reply(Server, Smac(c.reply))];
            c.trace.gwLog == if r == ArprConflict then old(c.trace.gwLog)
                             else if r == ArprOk then l else l + [Open(Mode(c.arpOpen, c.arpIsDefense))]
    ensures c.wakeTs[AS_COLLISION_CHECK] == old(c.wakeTs[AS_COLLISION_CHECK])
  {
    hide Client.Inv, Client.Traced, LinkedGw, Mode, Sip, Smac;
    if c.fp.serverArp != Smac(c.reply) {
      InvParts(c);
      c.wakeTs := c.wakeTs[AS_GW_CHECK := -1];
      StaysBoundTo(c);
      return ArprConflict;
    }
    MarkReply(c, Server);
    if c.check.routerReplied {
      r := ArpGwSuccess(c);
    } else {
      r := ArprOk;
    }
  }

  /** Sets the flag of a side whose address is the stored one. */
  method MarkReply(c: Client, s: Side)
    requires c.Inv() && c.trace.ref.phase == Bound && c.check.running
    requires Smac(c.reply) == if s == Router then c.fp.routerArp else c.fp.serverArp
    modifies c`check, c`trace
    ensures c.Inv() && Grown(c) && c.trace.log == old(c.trace.log) && c.trace.ref == old(c.trace.ref)
    ensures c.trace.gwLog == old(c.trace.gwLog) + [Reply(s, Smac(c.reply))]
    ensures c.check == if s == Router then old(c.check).(routerReplied := true) else old(c.check).(serverReplied := true)
  {
    hide Played, Next, GwNext, LinkedGw, Mode, Smac, Linked;
    ReplyLinks(c.fp, c.sentGwQuery, c.check, c.garp, Mode(c.arpOpen, c.arpIsDefense), c.trace.gw, s, Smac(c.reply));
    c.check := if s == Router then c.check.(routerReplied := true) else c.check.(serverReplied := true);
    c.RecordGw(Reply(s, Smac(c.reply)));
  }

  lemma ReplyLinks(fp: Fingerprint, q: bool, k: Check, g: ArpData, o: Socket, b: Gw, s: Side, mac: Bytes)
    requires LinkedGw(fp, q, k, g, o, b) && k.running && mac == if s == Router then fp.routerArp else fp.serverArp
    ensures GwNext(b, Reply(s, mac)).Some?
    ensures LinkedGw(fp, q, if s == Router then k.(routerReplied := true) else k.(serverReplied := true), g, o,
                     GwNext(b, Reply(s, mac)).value)
  {
  }

  /** `arp_do_gw_query` */
  method ArpDoGwQuery(c: Client) returns (r: Arpr)
    requires c.Inv() && c.trace.ref.phase == Bound && !(c.fp.gotRouterArp && c.fp.gotServerArp)
    modifies c`arpOpen, c`arpIsDefense, c`usingBpf, c`fp, c`wakeTs, c`trace
    ensures Grown(c)
    ensures c.Inv() && c.trace.log == old(c.trace.log) && c.trace.ref == old(c.trace.ref)
    ensures r == ArprOk || r == ArprFree || r == ArprFail
    ensures r != ArprOk <==> c.fp.gotRouterArp && c.fp.gotServerArp
    ensures c.wakeTs == if r == ArprOk then old(c.wakeTs) else old(c.wakeTs)[AS_GW_QUERY := -1]
    ensures r == ArprFree ==> c.arpOpen && c.arpIsDefense
    ensures if FromRouter(c)
            then c.fp.routerArp == Smac(c.reply) && c.fp.gotRouterArp
            else c.fp.routerArp == old(c.fp.routerArp) && c.fp.gotRouterArp == old(c.fp.gotRouterArp)
    ensures if FromServer(c)
            then c.fp.serverArp == Smac(c.reply) && c.fp.gotServerArp
            else c.fp.serverArp == old(c.fp.serverArp) && c.fp.gotServerArp == old(c.fp.gotServerArp)
    ensures !FromRouter(c) && !FromServer(c) ==> c.trace == old(c.trace)
    ensures FromRouter(c) || FromServer(c) ==>
              var l := old(c.trace.gwLog) + [Learn(FromRouter(c), FromServer(c), Smac(c.reply))];
              c.trace.gwLog == if r == ArprOk then l else l + [Open(Mode(c.arpOpen, c.arpIsDefense))]
  {
    hide Client.Inv, Client.Traced, Next, GwNext, LinkedGw, Mode, Sip, Smac, IsQueryReply;
    InvParts(c);
    if !IsQueryReply(c.config.arp, c.reply) || (Sip(c.reply) != c.cs.routerAddr && Sip(c.reply) != c.cs.srcAddr) {
      return ArprOk;
    }
    LearnAnswer(c);
    if !c.fp.gotRouterArp || !c.fp.gotServerArp {
      StaysBoundTo(c);
      return ArprOk;
    }
    c.wakeTs := c.wakeTs[AS_GW_QUERY := -1];
    var ok := ArpOpenFd(c, true);
    StaysBoundTo(c);
    return if ok then ArprFree else ArprFail;
  }

  /** The router's address, or the server's, or both if they are one (src/arp.c:642-650, 659-666). */
  method LearnAnswer(c: Client)
    requires c.Traced() && LinkedGw(c.fp, c.sentGwQuery, c.check, c.garp, Mode(c.arpOpen, c.arpIsDefense), c.trace.gw)
    requires !(c.fp.gotRouterArp && c.fp.gotServerArp)
    requires Sip(c.reply) == c.cs.routerAddr || Sip(c.reply) == c.cs.srcAddr
    modifies c`fp, c`trace
    ensures c.Traced() && LinkedGw(c.fp, c.sentGwQuery, c.check, c.garp, Mode(c.arpOpen, c.arpIsDefense), c.trace.gw)
    ensures Grown(c) && c.trace.log == old(c.trace.log) && c.trace.ref == old(c.trace.ref)
    ensures c.fp == Learned(old(c.fp), Sip(c.reply) == c.cs.routerAddr, Sip(c.reply) == c.cs.srcAddr, Smac(c.reply))
    ensures c.trace.gwLog == old(c.trace.gwLog)
                             + [Learn(Sip(c.reply) == c.cs.routerAddr, Sip(c.reply) == c.cs.srcAddr, Smac(c.reply))]
  {
    hide Client.Traced, Next, GwNext, LinkedGw, Mode, Sip, Smac;
    ghost var was := c.fp;
    var mac := Smac(c.reply);
    if Sip(c.reply) == c.cs.routerAddr {
      c.fp := c.fp.(routerArp := mac, gotRouterArp := true);
      if c.cs.routerAddr == c.cs.srcAddr {
        c.fp := c.fp.(serverArp := mac, gotServerArp := true);
      }
    } else {
      c.fp := c.fp.(serverArp := mac, gotServerArp := true);
    }
    ghost var router, server := Sip(c.reply) == c.cs.routerAddr, Sip(c.reply) == c.cs.srcAddr;
    LearnLinks(was, c.sentGwQuery, c.check, c.garp, Mode(c.arpOpen, c.arpIsDefense), c.trace.gw, router, server, mac);
    c.RecordGw(Learn(router, server, mac));
  }

  /** What the answer of a side adds to what is known. */
  function Learned(fp: Fingerprint, router: bool, server: bool, mac: Bytes): Fingerprint {
    Fingerprint(if router then mac else fp.routerArp, if server then mac else fp.serverArp,
                router || fp.gotRouterArp, server || fp.gotServerArp)
  }

  lemma LearnLinks(fp: Fingerprint, q: bool, k: Check, g: ArpData, s: Socket, b: Gw, router: bool, server: bool, mac: Bytes)
    requires LinkedGw(fp, q, k, g, s, b) && !(fp.gotRouterArp && fp.gotServerArp) && |mac| == 6 && (router || server)
    ensures GwNext(b, Learn(router, server, mac)).Some?
    ensures LinkedGw(Learned(fp, router, server, mac), q, k, g, s, GwNext(b, Learn(router, server, mac)).value)
  {
  }

  // ---------------------------------------------------------------------------
  // Announcement and defence
  // ---------------------------------------------------------------------------

  /** `arp_announce` */
  method ArpAnnounce(c: Client) returns (r: Arpr)
    requires c.Inv() && c.trace.ref.phase == Bound
    modifies c`garp, c`sentFirstAnnounce, c`sentSecondAnnounce, c`wakeTs, c`clock, c`arps
    ensures c.garp == old(c.garp).(announceCount := c.garp.announceCount, announceTs := c.garp.announceTs)
    ensures c.wakeTs == old(c.wakeTs)[AS_ANNOUNCE := c.wakeTs[AS_ANNOUNCE]]
    ensures c.Inv() && Grown(c)
    ensures r == ArprOk || r == ArprFail
    ensures r == ArprFail ==>
              c.sentFirstAnnounce == old(c.sentFirstAnnounce) && c.sentSecondAnnounce == old(c.sentSecondAnnounce)
    ensures r == ArprFail ==> c.wakeTs[AS_ANNOUNCE] == c.clock + ARP_RETRANS_DELAY && |c.arps| > |old(c.arps)|
    ensures r == ArprOk ==> c.sentFirstAnnounce && c.sentSecondAnnounce == old(c.sentFirstAnnounce || c.sentSecondAnnounce)
    ensures r == ArprOk ==> (c.wakeTs[AS_ANNOUNCE] == -1 <==> c.sentFirstAnnounce && c.sentSecondAnnounce)
    ensures r == ArprOk && !old(c.sentFirstAnnounce && c.sentSecondAnnounce) ==>
              c.arps == old(c.arps) + [PingOf(c.cs, c.cs.clientAddr)]
    ensures !old(c.sentFirstAnnounce && c.sentSecondAnnounce) ==>
              && c.arps == old(c.arps) + [ArpRequest(c.cs.clientAddr, c.cs.clientAddr, r == ArprOk)]
              && c.wakeTs[AS_ANNOUNCE] == if r == ArprOk && c.sentSecondAnnounce then -1 else c.clock + ARP_RETRANS_DELAY
  {
    hide Client.Inv, Client.Traced, LinkedGw, Mode;
    InvParts(c);
    MorePings(c.fp, c.sentGwQuery, c.check, c.garp, Mode(c.arpOpen, c.arpIsDefense), c.trace.gw);
    r := ArprOk;
    if c.sentFirstAnnounce && c.sentSecondAnnounce {
      c.wakeTs := c.wakeTs[AS_ANNOUNCE := -1];
    } else {
      r := NextAnnouncement(c);
    }
    StaysBoundTo(c);
  }

  /** The part of `arp_announce` that sends (src/arp.c:582-597). */
  method NextAnnouncement(c: Client) returns (r: Arpr)
    requires !(c.sentFirstAnnounce && c.sentSecondAnnounce)
    modifies c`garp, c`sentFirstAnnounce, c`sentSecondAnnounce, c`wakeTs, c`clock, c`arps
    ensures Grown(c) && (r == ArprOk || r == ArprFail)
    ensures c.garp == old(c.garp).(announceCount := c.garp.announceCount, announceTs := c.garp.announceTs)
    ensures c.arps == old(c.arps) + [ArpRequest(c.cs.clientAddr, c.cs.clientAddr, r == ArprOk)]
    ensures r == ArprFail ==>
              c.sentFirstAnnounce == old(c.sentFirstAnnounce) && c.sentSecondAnnounce == old(c.sentSecondAnnounce)
    ensures r == ArprOk ==> c.sentFirstAnnounce && c.sentSecondAnnounce == old(c.sentFirstAnnounce || c.sentSecondAnnounce)
    ensures c.wakeTs == old(c.wakeTs)[AS_ANNOUNCE := if r == ArprOk && c.sentSecondAnnounce then -1
                                                     else c.clock + ARP_RETRANS_DELAY]
  {
    var ok := ArpAnnouncement(c);
    if !ok {
      var t := c.Curms();
      c.wakeTs := c.wakeTs[AS_ANNOUNCE := t + ARP_RETRANS_DELAY];
      return ArprFail;
    }
    if !c.sentFirstAnnounce {
      c.sentFirstAnnounce := true;
    } else if !c.sentSecondAnnounce {
      c.sentSecondAnnounce := true;
    }
    if !c.sentFirstAnnounce || !c.sentSecondAnnounce {
      var t := c.Curms();
      c.wakeTs := c.wakeTs[AS_ANNOUNCE := t + ARP_RETRANS_DELAY];
    } else {
      c.wakeTs := c.wakeTs[AS_ANNOUNCE := -1];
    }
    return ArprOk;
  }

  /** `arp_announce_timeout` */
  method ArpAnnounceTimeout(c: Client, now: nat)
    requires c.Inv() && c.trace.ref.phase == Bound
    modifies c`garp, c`sentFirstAnnounce, c`sentSecondAnnounce, c`wakeTs, c`clock, c`arps
    ensures c.garp == old(c.garp).(announceCount := c.garp.announceCount, announceTs := c.garp.announceTs)
    ensures c.wakeTs == old(c.wakeTs)[AS_ANNOUNCE := c.wakeTs[AS_ANNOUNCE]]
    ensures c.Inv() && Grown(c)
    ensures old(c.wakeTs[AS_ANNOUNCE]) == -1 || now < old(c.wakeTs[AS_ANNOUNCE]) ==>
              c.arps == old(c.arps) && c.sentSecondAnnounce == old(c.sentSecondAnnounce) && c.wakeTs == old(c.wakeTs)
    ensures -1 < old(c.wakeTs[AS_ANNOUNCE]) <= now && !old(c.sentFirstAnnounce && c.sentSecondAnnounce) ==>
              |c.arps| > |old(c.arps)|
    ensures -1 < old(c.wakeTs[AS_ANNOUNCE]) <= now && !old(c.sentFirstAnnounce && c.sentSecondAnnounce) ==>
              && |c.arps| == |old(c.arps)| + 1
              && var last := c.arps[|old(c.arps)|];
                 && last == ArpRequest(c.cs.clientAddr, c.cs.clientAddr, last.sent)
                 && c.sentFirstAnnounce == (old(c.sentFirstAnnounce) || last.sent)
                 && c.sentSecondAnnounce == (old(c.sentSecondAnnounce) || (last.sent && old(c.sentFirstAnnounce)))
                 && c.wakeTs[AS_ANNOUNCE] == if last.sent && c.sentSecondAnnounce then -1 else c.clock + ARP_RETRANS_DELAY
  {
    var rtts := c.wakeTs[AS_ANNOUNCE];
    if rtts == -1 || now < rtts {
      return;
    }
    var _ := ArpAnnounce(c);
  }

  /** `arp_defense_timeout`, which does not look at the time. */
  method ArpDefenseTimeout(c: Client)
    requires c.Inv() && c.trace.ref.phase == Bound
    modifies c`garp, c`wakeTs, c`clock, c`arps
    ensures c.garp == old(c.garp).(announceCount := c.garp.announceCount, announceTs := c.garp.announceTs)
    ensures c.Inv() && Grown(c)
    ensures c.wakeTs == old(c.wakeTs)[AS_DEFENSE := -1]
    ensures |c.arps| == |old(c.arps)| + if old(c.wakeTs[AS_DEFENSE]) == -1 then 0 else 1
  {
    hide Client.Inv, Client.Traced, LinkedGw, Mode;
    InvParts(c);
    MorePings(c.fp, c.sentGwQuery, c.check, c.garp, Mode(c.arpOpen, c.arpIsDefense), c.trace.gw);
    if c.wakeTs[AS_DEFENSE] != -1 {
      c.wakeTs := c.wakeTs[AS_DEFENSE := -1];
      var _ := ArpAnnouncement(c);
    }
    StaysBoundTo(c);
  }

  /** `send_release`, whose transaction id is a random one. */
  method SendRelease(c: Client) returns (ok: bool)
    requires c.Traced() && c.trace.ref.phase == Bound && SameExchange(c.cs, c.trace.ref)
    modifies c`trace, c`tries
    ensures Grown(c) && c.Traced() && c.tries == old(c.tries) + 1
    ensures c.trace == if ok then old(c.trace).(log := old(c.trace.log) + [Release(c.cs.clientAddr, c.cs.serverAddr)])
                       else old(c.trace)
  {
    hide Played, Messages.Sent, Messages.Asks, Options.Opt, Options.Opt32, Options.OptionServerId, Options.OptionMsgType;
    var x := Random();
    var m := Messages.BuildRelease(c.config, x, c.cs.clientAddr, c.cs.serverAddr);
    ok := *;
    c.tries := c.tries + 1;
    if ok {
      c.Record(EventOf(0, m, false).value);
    }
  }

  /** The test at src/arp.c:619-620, which answers at once in quick succession only. */
  predicate Defends(last: nat, now: nat) {
    last == 0 || now - last < DEFEND_INTERVAL
  }

  /** `arp_do_defense` */
  method ArpDoDefense(c: Client) returns (r: Arpr)
    requires c.Inv() && c.trace.ref.phase == Bound
    modifies c`garp, c`wakeTs, c`clock, c`arps, c`trace, c`tries
    ensures c.Inv() && Grown(c) && c.trace.ref == old(c.trace.ref)
    ensures r == ArprOk || r == ArprConflict || r == ArprFail
    ensures r != ArprOk ==> UsesOurAddress(c.config.arp, c.cs.clientAddr, c.reply)
    ensures r == ArprConflict ==>
              && !c.settings.relentlessDefense && !Defends(old(c.garp.lastConflictTs), c.clock)
              && c.garp == old(c.garp) && c.arps == old(c.arps) && c.tries == old(c.tries) + 1
    ensures r == ArprFail ==>
              && Defends(old(c.garp.lastConflictTs), c.clock) && c.trace == old(c.trace) && c.garp == old(c.garp)
              && c.arps == old(c.arps) + [ArpRequest(c.cs.clientAddr, c.cs.clientAddr, false)]
    ensures r == ArprOk && UsesOurAddress(c.config.arp, c.cs.clientAddr, c.reply) ==>
              && c.garp.totalConflicts == old(c.garp.totalConflicts) + 1 && c.garp.lastConflictTs >= old(c.clock)
              && if Defends(old(c.garp.lastConflictTs), c.garp.lastConflictTs)
                 then c.arps == old(c.arps) + [PingOf(c.cs, c.cs.clientAddr)] && c.wakeTs[AS_DEFENSE] == -1
                 else c.settings.relentlessDefense && c.wakeTs[AS_DEFENSE] == c.garp.announceTs + DEFEND_INTERVAL
    ensures !UsesOurAddress(c.config.arp, c.cs.clientAddr, c.reply) ==>
              c.garp == old(c.garp) && c.wakeTs == old(c.wakeTs) && c.arps == old(c.arps) && c.trace == old(c.trace)
    ensures c.wakeTs[AS_COLLISION_CHECK] == old(c.wakeTs[AS_COLLISION_CHECK])
    ensures r == ArprOk ==> c.trace == old(c.trace) && c.tries == old(c.tries)
    ensures r == ArprOk && UsesOurAddress(c.config.arp, c.cs.clientAddr, c.reply) ==> c.garp.lastConflictTs <= c.clock
    ensures r == ArprOk && c.garp != old(c.garp) && !Defends(old(c.garp.lastConflictTs), c.garp.lastConflictTs) ==>
              c.arps == old(c.arps) && c.garp.announceTs == old(c.garp.announceTs)
    ensures r == ArprFail ==> c.tries == old(c.tries)
    ensures c.garp.pingCount == old(c.garp.pingCount) && c.garp.gwCheckInitpings == old(c.garp.gwCheckInitpings)
    ensures r == ArprOk && !UsesOurAddress(c.config.arp, c.cs.clientAddr, c.reply) ==> c.clock == old(c.clock)
    ensures r == ArprConflict ==>
              || c.trace.log == old(c.trace.log)
              || c.trace.log == old(c.trace.log) + [Release(c.cs.clientAddr, c.cs.serverAddr)]
  {
    hide Client.Inv, Client.Traced, UsesOurAddress, LinkedGw, Mode, Next, Defends;
    InvParts(c);
    MorePings(c.fp, c.sentGwQuery, c.check, c.garp, Mode(c.arpOpen, c.arpIsDefense), c.trace.gw);
    if !UsesOurAddress(c.config.arp, c.cs.clientAddr, c.reply) {
      return ArprOk;
    }
    r := Defend(c);
    StaysBoundTo(c);
  }

  /** What the client does about another user of its address (src/arp.c:617-635). */
  method Defend(c: Client) returns (r: Arpr)
    requires c.Traced() && c.trace.ref.phase == Bound && SameExchange(c.cs, c.trace.ref)
    modifies c`garp, c`wakeTs, c`clock, c`arps, c`trace, c`tries
    ensures c.Traced() && Grown(c) && c.trace.ref == old(c.trace.ref) && c.trace.gw == old(c.trace.gw)
    ensures r == ArprOk || r == ArprConflict || r == ArprFail
    ensures c.garp == old(c.garp).(announceCount := c.garp.announceCount, announceTs := c.garp.announceTs,
                                   totalConflicts := c.garp.totalConflicts, lastConflictTs := c.garp.lastConflictTs)
    ensures r == ArprConflict ==>
              && !c.settings.relentlessDefense && !Defends(old(c.garp.lastConflictTs), c.clock)
              && c.garp == old(c.garp) && c.arps == old(c.arps) && c.tries == old(c.tries) + 1
    ensures r == ArprFail ==>
              && Defends(old(c.garp.lastConflictTs), c.clock) && c.trace == old(c.trace) && c.garp == old(c.garp)
              && c.arps == old(c.arps) + [ArpRequest(c.cs.clientAddr, c.cs.clientAddr, false)]
    ensures r == ArprOk ==>
              && c.garp.totalConflicts == old(c.garp.totalConflicts) + 1 && c.garp.lastConflictTs >= old(c.clock)
              && if Defends(old(c.garp.lastConflictTs), c.garp.lastConflictTs)
                 then c.arps == old(c.arps) + [PingOf(c.cs, c.cs.clientAddr)] && c.wakeTs[AS_DEFENSE] == -1
                 else c.settings.relentlessDefense && c.wakeTs[AS_DEFENSE] == c.garp.announceTs + DEFEND_INTERVAL
    ensures c.wakeTs[AS_COLLISION_CHECK] == old(c.wakeTs[AS_COLLISION_CHECK])
    ensures c.garp.lastConflictTs <= c.clock || r != ArprOk
    ensures r == ArprOk ==> c.trace == old(c.trace) && c.tries == old(c.tries)
    ensures r == ArprOk && !Defends(old(c.garp.lastConflictTs), c.garp.lastConflictTs) ==>
              c.arps == old(c.arps) && c.garp.announceTs == old(c.garp.announceTs)
    ensures r == ArprFail ==> c.tries == old(c.tries)
    ensures r == ArprConflict ==>
              || c.trace.log == old(c.trace.log)
              || c.trace.log == old(c.trace.log) + [Release(c.cs.clientAddr, c.cs.serverAddr)]
  {
    hide Client.Traced, Next;
    var now := c.Curms();
    c.wakeTs := c.wakeTs[AS_DEFENSE := -1];
    if c.garp.lastConflictTs == 0 || now - c.garp.lastConflictTs < 10000 {
      var ok := ArpAnnouncement(c);
      if !ok {
        return ArprFail;
      }
    } else if !c.settings.relentlessDefense {
      var _ := SendRelease(c);
      return ArprConflict;
    } else {
      c.wakeTs := c.wakeTs[AS_DEFENSE := c.garp.announceTs + DEFEND_INTERVAL];
    }
    c.garp := c.garp.(totalConflicts := c.garp.totalConflicts + 1, lastConflictTs := now);
    return ArprOk;
  }

  // ---------------------------------------------------------------------------
  // The event loop's view
  // ---------------------------------------------------------------------------

  /** The earliest deadline of `w` below n, or -1 if none of its timers is armed. */
  ghost predicate Earliest(w: Timers, n: nat, t: Timer)
    requires n <= AS_MAX
  {
    if t == -1 then forall i :: 0 <= i < n ==> w[i] == -1
    else (exists i :: 0 <= i < n && w[i] == t) && forall i :: 0 <= i < n && w[i] != -1 ==> t <= w[i]
  }

  /** `arp_get_wake_ts` */
  method ArpGetWakeTs(c: Client) returns (mt: Timer)
    ensures Earliest(c.wakeTs, AS_MAX, mt)
  {
    mt := -1;
    for i := 0 to AS_MAX
      invariant Earliest(c.wakeTs, i, mt)
    {
      if c.wakeTs[i] < 0 {
        continue;
      }
      if mt < 0 || mt > c.wakeTs[i] {
        mt := c.wakeTs[i];
      }
    }
  }

  /** What reading the ARP socket gives. */
  datatype Reading = NoFrame | Failed | Got(frame: Frame, size: nat)

  /** The frame is long enough; without a filter on the socket it is put to the tests of the filter. */
  predicate Passes(got: Reading, filtered: bool, defense: bool, arp: Bytes, addr: U32) {
    && got.Got? && got.size >= 42
    && (filtered || (Bpf.ValidateArp(got.frame) && (defense ==> UsesOurAddress(arp, addr, got.frame))))
  }

  /** `arp_packet_get`. None is an end of the process: the socket could not be opened again. */
  method ArpPacketGet(c: Client, got: Reading) returns (r: Option<bool>)
    requires c.Inv() && c.arpOpen
    modifies c`arpOpen, c`arpIsDefense, c`usingBpf, c`reply, c`trace
    ensures r.Some? ==> c.Inv()
    ensures c.Traced() && Grown(c) && (!got.Failed? ==> c.trace == old(c.trace))
    ensures c.trace.log == old(c.trace.log) && c.trace.ref == old(c.trace.ref)
    ensures got.Failed? && r.Some? ==> c.trace.gwLog == old(c.trace.gwLog) + [Open(Shut), Open(Basic)]
    ensures r == Some(true) <==> Passes(got, old(c.usingBpf), old(c.arpIsDefense), c.config.arp, c.cs.clientAddr)
    ensures c.reply == if r == Some(true) then got.frame else old(c.reply)
    ensures got.Failed? && r.Some? ==> c.arpOpen && !c.arpIsDefense
    ensures !got.Failed? ==> r.Some? && c.arpOpen == old(c.arpOpen) && c.arpIsDefense == old(c.arpIsDefense)
  {
    hide Bpf.ValidateArp, UsesOurAddress, Played;
    match got
    case NoFrame => return Some(false);
    case Failed =>
      ArpMinCloseFd(c);
      c.RecordGw(Open(Shut));
      var ok := ArpOpenFd(c, c.arpIsDefense);
      return if ok then Some(false) else None;
    case Got(frame, size) =>
      if size < ARP_MSG_SIZE {
        return Some(false);
      }
      if !c.usingBpf && (!Bpf.ValidateArp(frame) ||
                         (c.arpIsDefense && !UsesOurAddress(c.config.arp, c.cs.clientAddr, frame))) {
        return Some(false);
      }
      c.reply := frame;
      return Some(true);
  }
}
