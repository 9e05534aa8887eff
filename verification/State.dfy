/** The DHCP state machine (src/state.c). */
module State {
  import opened Wire
  import opened LeaseTimes
  import opened Protocol
  import opened GatewayCheck
  import opened Machine
  import opened Arp
  import opened Calls
  import Ifchange
  import Messages
  import Options

  /** The `SEL_*`, `REQ_*`, `ANP_*`, `BTO_*` and `IFUP_*` results. */
  datatype Sel = SelSuccess | SelFail | SelHalt
  datatype Req = ReqSuccess | ReqTimeout | ReqFail
  datatype Anp = AnpSuccess | AnpIgnore | AnpRejected | AnpCheckIp
  datatype Bto = BtoWait | BtoExpired | BtoHardfail
  datatype Ifup = IfupRevalidate | IfupNewLease | IfupFail | IfupHalt

  // ---------------------------------------------------------------------------
  // Starting over
  // ---------------------------------------------------------------------------

  /** The client may start over at the label `reinit`. */
  ghost predicate Restartable(c: Client)
    reads c
  {
    && c.Traced() && LinkedGw(c.fp, c.sentGwQuery, c.check, c.garp, Mode(c.arpOpen, c.arpIsDefense), c.trace.gw)
    && Rested(c.cs, c.garp) && c.trace.ref.phase != Selecting
  }

  /** Everything is at rest: nothing can wake the client but a signal. */
  ghost predicate Asleep(c: Client)
    reads c
  {
    !c.listening && !c.arpOpen && c.wakeTs == NoTimers() && c.cs.dhcpWakeTs == -1
  }

  /** Nothing is left of a lease or of what was known about its network. */
  ghost predicate Forgotten(c: Client)
    reads c
  {
    && c.cs.clientAddr == 0 && c.cs.numDhcpRequests == 0
    && c.fp == Fingerprint(NO_MAC, NO_MAC, false, false) && c.check == Check(false, false, false)
    && !c.sentGwQuery && !c.initFingerprintInProgress && !c.sentFirstAnnounce && !c.sentSecondAnnounce
    && !c.arpOpen && c.wakeTs == NoTimers() && c.reply == Zeros(ARP_FRAME)
    && c.garp == ArpData(0, 0, 0, 0, 0, 0, 0, 0, 0, 0, 0)
  }

  /** `delay_timeout` */
  method DelayTimeout(packets: nat) returns (d: nat)
    ensures Pause(packets) <= d < Pause(packets) + 1000
  {
    var to := 64;
    var tot := [4, 8, 16, 32, 64];
    if packets < |tot| {
      to := tot[packets];
    }
    var r := Random();
    d := to * 1000 + r % 1000;
  }

  /** `reinit_shared_deconfig` */
  method ReinitSharedDeconfig(c: Client)
    requires c.Traced()
    modifies c`cs, c`fp, c`check, c`sentGwQuery, c`initFingerprintInProgress, c`sentFirstAnnounce, c`sentSecondAnnounce,
             c`arpOpen, c`arpIsDefense, c`wakeTs, c`reply, c`garp, c`trace
    ensures Grown(c)
    ensures c.Traced() && LinkedGw(c.fp, c.sentGwQuery, c.check, c.garp, Mode(c.arpOpen, c.arpIsDefense), c.trace.gw)
    ensures Rested(c.cs, c.garp)
    ensures c.trace.log == old(c.trace.log) && c.trace.ref == old(c.trace.ref)
    ensures c.trace.gwLog == old(c.trace.gwLog) + [Forget]
    ensures c.cs == old(c.cs).(clientAddr := 0, numDhcpRequests := 0) && Forgotten(c)
  {
    hide Played;
    c.cs := c.cs.(clientAddr := 0, numDhcpRequests := 0);
    c.check := c.check.(running := false);
    c.sentGwQuery, c.sentFirstAnnounce, c.sentSecondAnnounce := false, false, false;
    c.initFingerprintInProgress := false;
    c.fp := Fingerprint(NO_MAC, NO_MAC, false, false);
    ArpResetState(c);
    c.RecordGw(Forget);
  }

  /** `reinit_selecting` */
  method ReinitSelecting(c: Client, timeout: nat)
    requires c.Traced()
    modifies c`cs, c`fp, c`check, c`sentGwQuery, c`initFingerprintInProgress, c`sentFirstAnnounce, c`sentSecondAnnounce,
             c`arpOpen, c`arpIsDefense, c`wakeTs, c`reply, c`garp, c`trace, c`clock, c`listening
    ensures old(c.trace.ref.phase) != Selecting ==> Restartable(c)
    ensures c.trace.log == old(c.trace.log) && c.trace.ref == old(c.trace.ref)
    ensures c.listening && c.cs.dhcpWakeTs == c.clock + timeout && Grown(c) && Forgotten(c)
    ensures Forgets(old(ViewOf(c)), ViewOf(c), timeout)
  {
    hide Played, LinkedGw;
    ReinitSharedDeconfig(c);
    var t := c.Curms();
    c.cs := c.cs.(dhcpWakeTs := t + timeout);
    c.listening := true;
  }

  /** `print_release` */
  method PrintRelease(c: Client)
    requires c.Traced() && c.trace.ref.phase != Boot && c.trace.ref.phase != Idle
    modifies c`cs, c`fp, c`check, c`sentGwQuery, c`initFingerprintInProgress, c`sentFirstAnnounce, c`sentSecondAnnounce,
             c`arpOpen, c`arpIsDefense, c`wakeTs, c`reply, c`garp, c`trace, c`listening
    ensures Grown(c)
    ensures c.Inv() && c.trace.ref.phase == Idle && Asleep(c) && Forgotten(c)
    ensures c.trace.log == old(c.trace.log) + [Sleep]
    ensures Entered(c, 1)
    ensures Grew(old(ViewOf(c)), ViewOf(c)) && FallsAsleep(old(ViewOf(c)), ViewOf(c))
  {
    hide Played, LinkedGw;
    ReinitSharedDeconfig(c);
    c.cs := c.cs.(dhcpWakeTs := -1);
    c.listening := false;
    c.Record(Sleep);
  }

  /** The code at the label `reinit`. */
  method Reinit(c: Client)
    requires Restartable(c)
    modifies c`cs, c`trace
    ensures Grown(c)
    ensures c.Inv() && c.trace.ref.phase == Selecting && c.cs.numDhcpRequests == 0
    ensures c.trace.log == old(c.trace.log) + [Restart(c.cs.xid)] && c.cs == old(c.cs).(xid := c.cs.xid)
    ensures c.trace.ref.early <==> old(c.trace.ref.phase) == Boot
    ensures Entered(c, 1)
    ensures ViewOf(c) == Restarted(old(ViewOf(c)), c.cs.xid)
  {
    hide Played, LinkedGw;
    var x := Random();
    c.cs := c.cs.(xid := x);
    c.Record(Restart(x));
  }

  // ---------------------------------------------------------------------------
  // SELECTING
  // ---------------------------------------------------------------------------

  /** `send_discover` */
  method SendDiscover(c: Client, now: nat) returns (ok: bool)
    requires c.Inv() && c.trace.ref.phase == Selecting
    modifies c`trace, c`tries
    ensures Grown(c)
    ensures c.Traced() && c.trace.gw == old(c.trace.gw)
    ensures c.tries == old(c.tries) + 1 && (!ok ==> c.trace == old(c.trace))
    ensures ok ==> c.trace.log == old(c.trace.log) + [Discover(now, c.cs.xid)]
    ensures ok ==> c.trace.ref == old(c.trace.ref).(discovers := old(c.trace.ref.discovers) + 1, early := false)
  {
    hide Played, LinkedGw, Messages.Sent, Messages.Asks, Options.Opt, Options.Opt32, Options.OptionServerId,
         Options.OptionMsgType;
    var m := Messages.BuildDiscover(c.config, c.cs.xid, c.cs.clientAddr);
    ok := *;
    c.tries := c.tries + 1;
    if ok {
      c.Record(EventOf(now, m, false).value);
    }
  }

  /** `selecting_timeout` */
  method SelectingTimeout(c: Client, now: nat) returns (r: Sel)
    requires c.Inv() && c.trace.ref.phase == Selecting
    modifies c`cs, c`programInit, c`trace, c`tries
    ensures Grown(c)
    ensures r == SelHalt ==> c.trace == old(c.trace) && c.Traced() && c.cs == old(c.cs) && c.tries == old(c.tries)
    ensures r != SelHalt ==> c.Inv() && c.trace.ref.phase == Selecting && !c.trace.ref.early
    ensures r == SelHalt <==> old(c.programInit) && old(c.cs.numDhcpRequests) >= 2
                              && !c.settings.backgroundIfNoLease && c.settings.abortIfNoLease
    ensures old(c.cs.numDhcpRequests) > 0 ==> c.cs.xid == old(c.cs.xid)
    ensures r != SelHalt ==>
              && c.tries == old(c.tries) + 1
              && c.programInit == (old(c.programInit)
                                   && !(old(c.cs.numDhcpRequests) >= 2 && c.settings.backgroundIfNoLease))
              && c.trace.log == old(c.trace.log)
                                + (if old(c.cs.numDhcpRequests) == 0 then [FreshXid(c.cs.xid)] else [])
                                + (if r == SelSuccess then [Discover(now, c.cs.xid)] else [])
    ensures r == SelFail ==> c.cs == old(c.cs).(xid := c.cs.xid)
    ensures r == SelSuccess ==>
              && c.cs.numDhcpRequests == old(c.cs.numDhcpRequests) + 1
              && now + Pause(old(c.cs.numDhcpRequests)) <= c.cs.dhcpWakeTs < now + Pause(old(c.cs.numDhcpRequests)) + 1000
    ensures Entered(c, 0)
    ensures Grew(old(ViewOf(c)), ViewOf(c)) && (r == SelHalt <==> Aborts(old(ViewOf(c))))
    ensures if r == SelHalt then Still(old(ViewOf(c)), ViewOf(c)) else Discovers(old(ViewOf(c)), now, ViewOf(c), r == SelSuccess)
  {
    hide Played, Linked, LinkedGw;
    if c.programInit && c.cs.numDhcpRequests >= 2 {
      if c.settings.backgroundIfNoLease {
        c.programInit := false;
      } else if c.settings.abortIfNoLease {
        return SelHalt;
      }
    }
    var ok := TryDiscover(c, now);
    return if ok then SelSuccess else SelFail;
  }

  /** The part of it that sends (src/state.c:356-365). */
  method TryDiscover(c: Client, now: nat) returns (ok: bool)
    requires c.Inv() && c.trace.ref.phase == Selecting
    modifies c`cs, c`trace, c`tries
    ensures Grown(c) && c.Inv() && c.trace.ref.phase == Selecting && !c.trace.ref.early && Entered(c, 0)
    ensures Grew(old(ViewOf(c)), ViewOf(c)) && Discovers(old(ViewOf(c)), now, ViewOf(c), ok)
  {
    hide Played, LinkedGw;
    if c.cs.numDhcpRequests == 0 {
      var x := Random();
      c.cs := c.cs.(xid := x);
      c.Record(FreshXid(x));
    }
    ok := SendDiscover(c, now);
    if ok {
      var d := DelayTimeout(c.cs.numDhcpRequests);
      c.cs := c.cs.(dhcpWakeTs := now + d, numDhcpRequests := c.cs.numDhcpRequests + 1);
    }
  }

  /** The id that an OFFER must have had to get past `validate_dhcp_packet`. */
  ghost predicate Matches(a: Ref, p: Packet) {
    p.xid == if a.early then 0 else a.xid
  }

  /** `selecting_packet` in SELECTING. */
  method SelectingOffer(c: Client, i: Input) returns (r: Anp)
    requires c.Inv() && c.trace.ref.phase == Selecting && Matches(c.trace.ref, i.packet)
    modifies c`cs, c`clock, c`trace
    ensures r == AnpSuccess || r == AnpIgnore
    ensures r == AnpSuccess <==> i.msgtype == DHCPOFFER && Options.OptionServerId(i.packet).Some?
    ensures c.Inv() && Grown(c)
    ensures r == AnpIgnore ==> c.trace == old(c.trace) && c.cs == old(c.cs)
    ensures r == AnpSuccess ==>
              && c.trace.ref.phase == Requesting && c.cs.numDhcpRequests == 0
              && c.trace.log == old(c.trace.log) + [Offer(i.packet.xid, c.cs.clientAddr, c.cs.serverAddr)]
              && c.cs.clientAddr == i.packet.yiaddr && Options.OptionServerId(i.packet) == Some(c.cs.serverAddr)
              && c.cs == old(c.cs).(clientAddr := i.packet.yiaddr, serverAddr := c.cs.serverAddr, srcAddr := i.srcaddr,
                                    dhcpWakeTs := c.clock, numDhcpRequests := 0)
    ensures Entered(c, if r == AnpSuccess then 1 else 0)
    ensures var s, t := old(ViewOf(c)), ViewOf(c); Grew(s, t) && if r == AnpSuccess then OfferPart(s, i, t) else t == s
  {
    hide Played, LinkedGw, Options.OptionServerId;
    if i.msgtype != DHCPOFFER {
      return AnpIgnore;
    }
    var sid := Options.OptionServerId(i.packet);
    if sid.None? {
      return AnpIgnore;
    }
    var t := c.Curms();
    c.cs := c.cs.(clientAddr := i.packet.yiaddr, serverAddr := sid.value, srcAddr := i.srcaddr, dhcpWakeTs := t,
                  numDhcpRequests := 0);
    c.Record(Offer(i.packet.xid, c.cs.clientAddr, c.cs.serverAddr));
    return AnpSuccess;
  }

  // ---------------------------------------------------------------------------
  // REQUESTING
  // ---------------------------------------------------------------------------

  /** `send_selecting`: the event is what a reader finds in the message. */
  method SendSelecting(c: Client, now: nat) returns (ok: bool)
    requires c.Traced() && SameExchange(c.cs, c.trace.ref)
    requires Next(c.trace.ref, Request(now, c.cs.xid, c.cs.clientAddr, c.cs.serverAddr)).Some?
    modifies c`trace, c`tries
    ensures Grown(c)
    ensures c.Traced() && c.tries == old(c.tries) + 1 && (!ok ==> c.trace == old(c.trace))
    ensures var e := Request(now, c.cs.xid, c.cs.clientAddr, c.cs.serverAddr);
            ok ==> c.trace == old(c.trace).(log := old(c.trace.log) + [e], ref := Next(old(c.trace.ref), e).value)
  {
    hide Played, Next, Messages.Sent, Messages.Asks, Options.Opt, Options.Opt32, Options.OptionServerId,
         Options.OptionMsgType;
    var m := Messages.BuildSelecting(c.config, c.cs.xid, c.cs.clientAddr, c.cs.serverAddr);
    ok := *;
    c.tries := c.tries + 1;
    if ok {
      c.Record(EventOf(now, m, false).value);
    }
  }

  /** `requesting_timeout`, in REQUESTING and during the collision check. */
  method RequestingTimeout(c: Client, now: nat) returns (r: Req)
    requires c.Inv() && MayRequest(c.trace.ref, now) && now <= c.clock
    modifies c`cs, c`fp, c`check, c`sentGwQuery, c`initFingerprintInProgress, c`sentFirstAnnounce, c`sentSecondAnnounce,
             c`arpOpen, c`arpIsDefense, c`wakeTs, c`reply, c`garp, c`trace, c`clock, c`listening, c`tries
    ensures Grown(c)
    ensures r == ReqTimeout <==> old(c.cs.numDhcpRequests) >= 5
    ensures r == ReqTimeout ==> Restartable(c) && c.cs.dhcpWakeTs == c.clock && c.trace.ref.phase == Idle
    ensures r == ReqTimeout ==> c.trace.log == old(c.trace.log) + [GiveUp(now)]
    ensures r != ReqTimeout ==> c.Inv() && c.trace.ref.phase == old(c.trace.ref.phase)
    ensures c.tries == old(c.tries) + if r == ReqTimeout then 0 else 1
    ensures r == ReqSuccess ==>
              && c.cs == old(c.cs).(numDhcpRequests := old(c.cs.numDhcpRequests) + 1, dhcpWakeTs := c.cs.dhcpWakeTs)
              && now + Pause(old(c.cs.numDhcpRequests)) <= c.cs.dhcpWakeTs < now + Pause(old(c.cs.numDhcpRequests)) + 1000
              && c.trace.log == old(c.trace.log) + [Request(now, c.cs.xid, c.cs.clientAddr, c.cs.serverAddr)]
    ensures r == ReqFail ==> c.trace == old(c.trace) && c.cs == old(c.cs)
    ensures Entered(c, 0)
    ensures var s, t := old(ViewOf(c)), ViewOf(c);
            Grew(s, t) && if r == ReqTimeout then GivesUp(s, now, t) else Asks(s, now, t, r == ReqSuccess)
  {
    hide Played, Next, LinkedGw, Linked, Sound;
    TracedFacts(c);
    RequestAllowed(c.cs, c.garp, c.dhcpPacket.yiaddr, c.Configured(), c.trace.ref, c.clock, now);
    if c.cs.numDhcpRequests >= 5 {
      c.Record(GiveUp(now));
      ReinitSelecting(c, 0);
      return ReqTimeout;
    }
    var ok := SendSelecting(c, now);
    if !ok {
      return ReqFail;
    }
    var d := DelayTimeout(c.cs.numDhcpRequests);
    RequestLinks(c.cs, c.garp, c.dhcpPacket.yiaddr, c.Configured(), old(c.trace.ref), c.clock, now, d);
    c.cs := c.cs.(dhcpWakeTs := now + d, numDhcpRequests := c.cs.numDhcpRequests + 1);
    return ReqSuccess;
  }

  /** The client asks again after a pause, and gives up after the fifth. */
  ghost predicate MayRequest(a: Ref, now: nat) {
    && (a.phase == Requesting || a.phase == Checking)
    && (a.requests > 0 || a.phase == Checking ==> a.due <= now)
  }

  lemma RequestAllowed(cs: ClientState, g: ArpData, ch: U32, conf: Option<U32>, a: Ref, clock: nat, now: nat)
    requires Linked(cs, g, ch, conf, a, clock) && Sound(a) && MayRequest(a, now)
    ensures SameExchange(cs, a) && cs.numDhcpRequests == a.requests
    ensures a.requests >= 5 ==> Next(a, GiveUp(now)) == Some(a.(phase := Idle))
    ensures a.requests < 5 ==> Next(a, Request(now, cs.xid, cs.clientAddr, cs.serverAddr)).Some?
  {
  }

  lemma RequestLinks(cs: ClientState, g: ArpData, ch: U32, conf: Option<U32>, a: Ref, clock: nat, now: nat, d: nat)
    requires Linked(cs, g, ch, conf, a, clock) && Sound(a) && a.requests < 5 && MayRequest(a, now) && now <= clock
    requires Pause(a.requests) <= d < Pause(a.requests) + 1000
    ensures var r := Next(a, Request(now, cs.xid, cs.clientAddr, cs.serverAddr));
            && r.Some? && r.value.phase == a.phase && r.value.entries == a.entries
            && Linked(cs.(dhcpWakeTs := now + d, numDhcpRequests := a.requests + 1), g, ch, conf, r.value, clock)
  {
  }

  /** `get_leasetime` */
  method GetLeasetime(c: Client, packet: Packet)
    modifies c`cs, c`clock
    ensures c.clock >= old(c.clock)
    ensures var l := Lease(c.clock, EffectiveSecs(Options.OptionLeaseTime(packet)));
            && HasLease(c.cs, l) && c.cs.dhcpWakeTs == l.T1()
            && c.cs == old(c.cs).(lease := l.secs, leaseStartTime := c.clock, renewTime := c.cs.renewTime,
                                  rebindTime := c.cs.rebindTime, dhcpWakeTs := c.cs.dhcpWakeTs)
  {
    hide Options.OptionLeaseTime;
    var sent := Options.OptionLeaseTime(packet);
    var t := c.Curms();
    c.cs := c.cs.(lease := sent, leaseStartTime := t);
    if c.cs.lease == 0 {
      c.cs := c.cs.(lease := 3600);
    } else if c.cs.lease < 60 {
      c.cs := c.cs.(lease := 60);
    }
    c.cs := c.cs.(renewTime := c.cs.lease / 2, rebindTime := c.cs.lease / 8 * 7);
    c.cs := c.cs.(dhcpWakeTs := c.cs.leaseStartTime + c.cs.renewTime * 1000);
  }

  /** `selecting_packet` in REQUESTING. The server may be another one than before. */
  method SelectingAck(c: Client, i: Input) returns (r: Anp)
    requires c.Inv() && c.trace.ref.phase == Requesting && i.packet.xid == c.cs.xid
    modifies c`cs, c`clock, c`trace
    ensures r == AnpIgnore || r == AnpCheckIp
    ensures r == AnpCheckIp <==> i.msgtype == DHCPACK && i.packet.yiaddr == old(c.cs.clientAddr)
                                 && Options.OptionServerId(i.packet).Some?
    ensures Grown(c)
    ensures r == AnpIgnore ==> c.Inv() && c.trace == old(c.trace) && c.cs == old(c.cs)
    ensures r == AnpCheckIp ==>
              && c.Traced() && LinkedAcked(c.cs, c.trace.ref, c.clock) && c.trace.ref.phase == Checking
              && LinkedGw(c.fp, c.sentGwQuery, c.check, c.garp, Mode(c.arpOpen, c.arpIsDefense), c.trace.gw)
              && c.trace.ref.probes == c.garp.probeCount == 0 && i.packet.yiaddr == c.trace.ref.addr
              && c.trace.log == old(c.trace.log) + [AckOf(c.clock, i.packet)]
              && Options.OptionServerId(i.packet) == Some(c.cs.serverAddr)
              && c.cs.srcAddr == (if c.cs.serverAddr == old(c.cs.serverAddr) then old(c.cs.srcAddr) else i.srcaddr)
    ensures Entered(c, 0)
    ensures r == AnpIgnore ==> c.clock == old(c.clock)
    ensures r == AnpCheckIp ==> c.cs.clientAddr == old(c.cs.clientAddr) && c.cs.leaseStartTime == c.clock
    ensures var s, t := old(ViewOf(c)), ViewOf(c); Grew(s, t) && if r == AnpCheckIp then AckRead(s, i, t) else t == s
  {
    hide Played, LinkedGw, Options.OptionServerId, Options.OptionLeaseTime, Next;
    if i.msgtype != DHCPACK || i.packet.yiaddr != c.cs.clientAddr {
      return AnpIgnore;
    }
    var sid := Options.OptionServerId(i.packet);
    if sid.None? {
      return AnpIgnore;
    }
    ghost var was := c.cs;
    if c.cs.serverAddr != sid.value {
      c.cs := c.cs.(serverAddr := sid.value, srcAddr := i.srcaddr);
    }
    GetLeasetime(c, i.packet);
    AckLinks(was, c.garp, c.trace.ref, c.cs, c.clock, i.packet.yiaddr);
    c.Record(AckOf(c.clock, i.packet));
    return AnpCheckIp;
  }

  lemma AckLinks(cs: ClientState, g: ArpData, a: Ref, to: ClientState, clock: nat, addr: U32)
    requires LinkedRequesting(cs, g, a) && a.phase == Requesting && addr == cs.clientAddr
    requires HasLease(to, Lease(clock, to.lease)) && to.dhcpWakeTs == Lease(clock, to.lease).T1()
    requires to.xid == cs.xid && to.clientAddr == cs.clientAddr && to.numDhcpRequests == cs.numDhcpRequests
    ensures var r := Next(a, Ack(clock, cs.xid, addr, to.serverAddr, to.lease));
            && r.Some? && r.value.phase == Checking && r.value.probes == 0 && r.value.addr == addr
            && LinkedAcked(to, r.value, clock) && r.value.entries == a.entries
  {
    DroppedFromEnd(Lease(clock, to.lease), clock);
  }

  // ---------------------------------------------------------------------------
  // BOUND, RENEWING and REBINDING
  // ---------------------------------------------------------------------------

  /** When the lease timer has fired at `now`, an extension is due or T1 is still to come. */
  ghost predicate Ripe(a: Ref, now: nat, fired: bool) {
    && (a.due == a.lease.T1() || a.lease.T1() <= now)
    && (fired && a.lease.T1() <= now ==> a.due <= now)
  }

  ghost predicate IsBound(c: Client)
    reads c, c.ifch
  {
    c.Inv() && c.trace.ref.phase == Bound
  }

  function ExpiryOf(cs: ClientState): nat {
    cs.leaseStartTime + cs.lease * 1000 % 0x1_0000_0000
  }

  /** `is_renewing` and `is_rebinding` */
  predicate IsRenewing(cs: ClientState, now: nat) {
    now >= cs.leaseStartTime + cs.renewTime * 1000
  }

  predicate IsRebinding(cs: ClientState, now: nat) {
    now >= cs.leaseStartTime + cs.rebindTime * 1000
  }

  lemma LeaseTimesOf(cs: ClientState, l: Lease)
    requires HasLease(cs, l)
    ensures cs.leaseStartTime + cs.renewTime * 1000 == l.T1()
    ensures cs.leaseStartTime + cs.rebindTime * 1000 == l.T2()
    ensures ExpiryOf(cs) == l.Expiry()
    ensures l.secs >= 60 && 0 <= l.T1() < l.T2()
  {
  }

  /** `send_renew`, by the lease timer or by a signal. */
  method SendRenew(c: Client, now: nat, forced: bool) returns (ok: bool)
    requires c.Traced() && SameExchange(c.cs, c.trace.ref)
    requires Next(c.trace.ref, RenewOf(now, c.cs.xid, c.cs.clientAddr, forced)).Some?
    modifies c`trace, c`tries
    ensures Grown(c)
    ensures c.Traced() && c.tries == old(c.tries) + 1 && (!ok ==> c.trace == old(c.trace))
    ensures var e := RenewOf(now, c.cs.xid, c.cs.clientAddr, forced);
            ok ==> c.trace == old(c.trace).(log := old(c.trace.log) + [e], ref := Next(old(c.trace.ref), e).value)
  {
    hide Played, Next, Messages.Sent, Messages.Asks, Options.Opt, Options.Opt32, Options.OptionServerId,
         Options.OptionMsgType;
    var m := Messages.BuildRenew(c.config, c.cs.xid, c.cs.clientAddr);
    ok := *;
    c.tries := c.tries + 1;
    if ok {
      c.Record(EventOf(now, m, forced).value);
    }
  }

  ghost function RenewOf(now: int, xid: U32, addr: U32, forced: bool): Event {
    if forced then ForcedRenew(now, xid, addr) else Renew(now, xid, addr)
  }

  /** `send_rebind` */
  method SendRebind(c: Client, now: nat) returns (ok: bool)
    requires c.Traced() && SameExchange(c.cs, c.trace.ref)
    requires Next(c.trace.ref, Rebind(now, c.cs.xid, c.cs.clientAddr)).Some?
    modifies c`trace, c`tries
    ensures Grown(c)
    ensures c.Traced() && c.tries == old(c.tries) + 1 && (!ok ==> c.trace == old(c.trace))
    ensures var e := Rebind(now, c.cs.xid, c.cs.clientAddr);
            ok ==> c.trace == old(c.trace).(log := old(c.trace.log) + [e], ref := Next(old(c.trace.ref), e).value)
  {
    hide Played, Next, Messages.Sent, Messages.Asks, Options.Opt, Options.Opt32, Options.OptionServerId,
         Options.OptionMsgType;
    var m := Messages.BuildRebind(c.config, c.cs.xid, c.cs.clientAddr);
    ok := *;
    c.tries := c.tries + 1;
    if ok {
      c.Record(EventOf(now, m, false).value);
    }
  }

  /** What a lease timer that fired at `now` has done, in terms of LeaseTimes. */
  twostate predicate TimerServed(c: Client, now: nat, r: Bto)
    reads c, c.ifch
  {
    var l, was := old(c.trace.ref.lease), old(c.trace.log);
    var act := DispatchAction(l, now);
    && Grown(c) && Entered(c, 0)
    && (r == BtoExpired <==> act == Drop)
    && (r == BtoExpired ==>
          && Restartable(c) && c.cs.dhcpWakeTs == c.clock && c.trace.ref.phase == Idle
          && c.trace.log == was + [Expire(now)])
    && (r != BtoExpired ==> IsBound(c) && c.trace.ref.lease == l && c.wakeTs == old(c.wakeTs))
    && (r == BtoWait ==> c.cs == old(c.cs).(dhcpWakeTs := c.cs.dhcpWakeTs))
    && (r == BtoHardfail ==> act != Reschedule && c.trace.log == was && c.cs == old(c.cs))
    && (act != Reschedule ==> c.listening)
    && c.tries == old(c.tries) + (if act == Unicast || act == Broadcast then 1 else 0)
    && (r == BtoWait ==>
          && (exists n: nat {:trigger NextWake(l, now, n)} :: n < 20 && c.cs.dhcpWakeTs == NextWake(l, now, n))
          && c.trace.log == was + match act
                                  case Unicast => [Renew(now, c.cs.xid, c.cs.clientAddr)]
                                  case Broadcast => [Rebind(now, c.cs.xid, c.cs.clientAddr)]
                                  case _ => [])
  }

  /** `rebinding_timeout` */
  method RebindingTimeout(c: Client, now: nat) returns (r: Bto)
    requires IsBound(c) && Ripe(c.trace.ref, now, true) && now <= c.clock && c.trace.ref.lease.T2() <= now
    modifies c`cs, c`fp, c`check, c`sentGwQuery, c`initFingerprintInProgress, c`sentFirstAnnounce, c`sentSecondAnnounce,
             c`arpOpen, c`arpIsDefense, c`wakeTs, c`reply, c`garp, c`trace, c`clock, c`listening, c`tries
    ensures Grown(c)
    ensures TimerServed(c, now, r)
  {
    hide Client.Traced, Next, LinkedGw, Linked, NextWake, Lease.T1, Lease.T2, Lease.Expiry;
    ghost var l, ref := c.trace.ref.lease, c.trace.ref;
    BoundParts(c);
    LeaseTimesOf(c.cs, l);
    var elt := ExpiryOf(c.cs);
    if now >= elt {
      ExpireAllowed(c.trace.ref, now);
      c.Record(Expire(now));
      ReinitSelecting(c, 0);
      return BtoExpired;
    }
    c.listening := true;
    RebindAllowed(c.cs, c.Configured(), ref, c.clock, now);
    var ok := SendRebind(c, now);
    if !ok {
      return BtoHardfail;
    }
    var n := Random();
    var ts0 := now + (50 + n % 20) * 1000;
    var wake := if ts0 < elt then ts0 else elt;
    RebindLinks(c.cs, c.Configured(), ref, c.clock, now, n % 20);
    assert wake == NextWake(l, now, n % 20);
    c.cs := c.cs.(dhcpWakeTs := wake);
    return BtoWait;
  }

  /** The parts of the invariant in BOUND. */
  lemma BoundParts(c: Client)
    requires IsBound(c)
    ensures LinkedBound(c.cs, c.Configured(), c.trace.ref, c.clock)
    ensures forall cs: ClientState, g: ArpData, conf: Option<U32>, a: Ref, clock: nat ::
              a.phase == Bound && LinkedBound(cs, conf, a, clock) ==> Linked(cs, g, c.dhcpPacket.yiaddr, conf, a, clock)
  {
  }

  lemma ExpireAllowed(a: Ref, now: nat)
    requires a.phase == Bound && a.lease.Expiry() <= now
    ensures Next(a, Expire(now)) == Some(a.(phase := Idle))
  {
  }

  lemma RebindAllowed(cs: ClientState, conf: Option<U32>, a: Ref, clock: nat, now: nat)
    requires LinkedBound(cs, conf, a, clock) && a.phase == Bound && a.lease.T2() <= now < a.lease.Expiry()
    requires Ripe(a, now, true)
    ensures Next(a, Rebind(now, cs.xid, cs.clientAddr)).Some?
  {
    LeaseTimesOf(cs, a.lease);
  }

  lemma RebindLinks(cs: ClientState, conf: Option<U32>, a: Ref, clock: nat, now: nat, n: nat)
    requires LinkedBound(cs, conf, a, clock) && a.phase == Bound && a.lease.T2() <= now < a.lease.Expiry()
    requires Ripe(a, now, true) && n < 20 && now <= clock
    ensures var r, wake := Next(a, Rebind(now, cs.xid, cs.clientAddr)), NextWake(a.lease, now, n);
            && r.Some? && r.value.phase == Bound && r.value.lease == a.lease && r.value.entries == a.entries
            && wake == Min(now + (50 + n) * 1000, a.lease.Expiry()) && wake >= 0
            && LinkedBound(cs.(dhcpWakeTs := wake), conf, r.value, clock)
  {
    LeaseTimesOf(cs, a.lease);
  }

  /** `renewing_timeout` */
  method RenewingTimeout(c: Client, now: nat) returns (r: Bto)
    requires IsBound(c) && Ripe(c.trace.ref, now, true) && now <= c.clock && c.trace.ref.lease.T1() <= now
    modifies c`cs, c`fp, c`check, c`sentGwQuery, c`initFingerprintInProgress, c`sentFirstAnnounce, c`sentSecondAnnounce,
             c`arpOpen, c`arpIsDefense, c`wakeTs, c`reply, c`garp, c`trace, c`clock, c`listening, c`tries
    ensures Grown(c)
    ensures TimerServed(c, now, r)
  {
    hide Client.Traced, Next, LinkedGw, Linked, NextWake, Lease.T1, Lease.T2, Lease.Expiry;
    ghost var l, ref := c.trace.ref.lease, c.trace.ref;
    BoundParts(c);
    LeaseTimesOf(c.cs, l);
    var rbt := c.cs.leaseStartTime + c.cs.rebindTime * 1000;
    if now >= rbt {
      r := RebindingTimeout(c, now);
      return;
    }
    c.listening := true;
    RenewAllowed(c.cs, c.Configured(), ref, c.clock, now);
    var ok := SendRenew(c, now, false);
    if !ok {
      return BtoHardfail;
    }
    var n := Random();
    var ts0 := now + (50 + n % 20) * 1000;
    var wake := if ts0 < rbt then ts0 else rbt;
    RenewLinks(c.cs, c.Configured(), ref, c.clock, now, n % 20);
    assert wake == NextWake(l, now, n % 20);
    c.cs := c.cs.(dhcpWakeTs := wake);
    return BtoWait;
  }

  lemma RenewAllowed(cs: ClientState, conf: Option<U32>, a: Ref, clock: nat, now: nat)
    requires LinkedBound(cs, conf, a, clock) && a.phase == Bound && a.lease.T1() <= now < a.lease.T2()
    requires Ripe(a, now, true)
    ensures Next(a, RenewOf(now, cs.xid, cs.clientAddr, false)).Some?
  {
    LeaseTimesOf(cs, a.lease);
  }

  lemma RenewLinks(cs: ClientState, conf: Option<U32>, a: Ref, clock: nat, now: nat, n: nat)
    requires LinkedBound(cs, conf, a, clock) && a.phase == Bound && a.lease.T1() <= now < a.lease.T2()
    requires Ripe(a, now, true) && n < 20 && now <= clock
    ensures var r, wake := Next(a, RenewOf(now, cs.xid, cs.clientAddr, false)), NextWake(a.lease, now, n);
            && r.Some? && r.value.phase == Bound && r.value.lease == a.lease && r.value.entries == a.entries
            && wake == Min(now + (50 + n) * 1000, a.lease.T2()) && wake >= 0
            && LinkedBound(cs.(dhcpWakeTs := wake), conf, r.value, clock)
  {
    LeaseTimesOf(cs, a.lease);
  }

  /** `bound_timeout` */
  method BoundTimeout(c: Client, now: nat) returns (r: Bto)
    requires IsBound(c) && Ripe(c.trace.ref, now, true) && now <= c.clock
    modifies c`cs, c`fp, c`check, c`sentGwQuery, c`initFingerprintInProgress, c`sentFirstAnnounce, c`sentSecondAnnounce,
             c`arpOpen, c`arpIsDefense, c`wakeTs, c`reply, c`garp, c`trace, c`clock, c`listening, c`tries
    ensures Grown(c)
    ensures TimerServed(c, now, r)
  {
    hide Played, Next, LinkedGw, Linked, Lease.T1, Lease.T2, Lease.Expiry;
    BoundParts(c);
    LeaseTimesOf(c.cs, c.trace.ref.lease);
    var rnt := c.cs.leaseStartTime + c.cs.renewTime * 1000;
    if now < rnt {
      assert rnt == NextWake(c.trace.ref.lease, now, 0);
      c.cs := c.cs.(dhcpWakeTs := rnt);
      return BtoWait;
    }
    r := RenewingTimeout(c, now);
  }

  /** The three-way choice that the state machine makes (src/state.c:703-709). */
  method LeaseTimeout(c: Client, now: nat) returns (r: Bto)
    requires IsBound(c) && Ripe(c.trace.ref, now, true) && now <= c.clock
    modifies c`cs, c`fp, c`check, c`sentGwQuery, c`initFingerprintInProgress, c`sentFirstAnnounce, c`sentSecondAnnounce,
             c`arpOpen, c`arpIsDefense, c`wakeTs, c`reply, c`garp, c`trace, c`clock, c`listening, c`tries
    ensures Grown(c)
    ensures TimerServed(c, now, r)
  {
    hide Played, LinkedGw, Linked, Lease.T1, Lease.T2, Lease.Expiry, DispatchAction;
    BoundParts(c);
    LeaseTimesOf(c.cs, c.trace.ref.lease);
    if IsRebinding(c.cs, now) {
      r := RebindingTimeout(c, now);
    } else if IsRenewing(c.cs, now) {
      r := RenewingTimeout(c, now);
    } else {
      r := BoundTimeout(c, now);
    }
  }

  /** What a check of the network rests on has not changed. */
  twostate predicate SameNetwork(c: Client)
    reads c
  {
    && c.fp == old(c.fp) && c.check == old(c.check) && c.reply == old(c.reply) && c.sentGwQuery == old(c.sentGwQuery)
    && c.cs.srcAddr == old(c.cs.srcAddr) && c.cs.routerAddr == old(c.cs.routerAddr)
    && c.cs.serverAddr == old(c.cs.serverAddr) && c.cs.clientAddr == old(c.cs.clientAddr)
    && c.garp.pingCount == old(c.garp.pingCount) && c.garp.gwCheckInitpings == old(c.garp.gwCheckInitpings)
  }

  /** `validate_serverid` */
  predicate FromOurServer(cs: ClientState, p: Packet) {
    Options.OptionServerId(p) == Some(cs.serverAddr)
  }

  /** The client heeds an ACK or a NAK of its own server once it has begun to renew. */
  predicate Heeds(cs: ClientState, i: Input, msgtype: Byte) {
    IsRenewing(cs, i.now) && i.msgtype == msgtype && FromOurServer(cs, i.packet)
  }

  /** `extend_packet` */
  method ExtendPacket(c: Client, i: Input) returns (r: Anp)
    requires IsBound(c) && i.packet.xid == c.cs.xid && IsRenewing(c.cs, i.now) && i.now <= c.clock
    requires Ripe(c.trace.ref, i.now, i.dhcpTimeout)
    modifies c`cs, c`fp, c`check, c`sentGwQuery, c`initFingerprintInProgress, c`sentFirstAnnounce, c`sentSecondAnnounce,
             c`arpOpen, c`arpIsDefense, c`usingBpf, c`wakeTs, c`reply, c`garp, c`trace, c`clock, c`listening
    ensures Grown(c)
    ensures r == AnpRejected <==> Heeds(old(c.cs), i, DHCPNAK)
    ensures r == AnpSuccess <==> Heeds(old(c.cs), i, DHCPACK) && i.packet.yiaddr == old(c.cs.clientAddr)
    ensures r == AnpCheckIp <==> Heeds(old(c.cs), i, DHCPACK) && i.packet.yiaddr != old(c.cs.clientAddr)
    ensures r == AnpRejected ==>
              && Restartable(c) && c.cs.dhcpWakeTs == c.clock + 3000 && c.trace.ref.phase == Idle
              && c.trace.log == old(c.trace.log) + [Nak(old(c.cs.xid), old(c.cs.serverAddr))]
    ensures r == AnpSuccess || r == AnpCheckIp ==> LeaseExtended(c, i)
    ensures r == AnpSuccess ==> !c.listening && (c.arpOpen ==> c.arpIsDefense)
    ensures r == AnpIgnore ==> c.trace == old(c.trace) && c.cs == old(c.cs)
    ensures r != AnpRejected ==> IsBound(c) && Ripe(c.trace.ref, i.now, i.dhcpTimeout) && SameNetwork(c)
    ensures Entered(c, 0)
    ensures r != AnpRejected ==> c.wakeTs == old(c.wakeTs)
    ensures Grew(old(ViewOf(c)), ViewOf(c)) && (r == AnpRejected ==> Rejected(old(ViewOf(c)), ViewOf(c)))
    ensures r == AnpSuccess || r == AnpCheckIp ==> ExtendedBy(old(ViewOf(c)), i, ViewOf(c))
    ensures r == AnpIgnore ==> ViewOf(c) == old(ViewOf(c))
  {
    hide Played, Next, LinkedGw, Linked, Options.OptionServerId, Options.OptionLeaseTime, Lease.T1, AckOf;
    BoundParts(c);
    if i.msgtype == DHCPACK {
      if !FromOurServer(c.cs, i.packet) {
        return AnpIgnore;
      }
      r := TakeAck(c, i);
      return;
    } else if i.msgtype == DHCPNAK {
      if !FromOurServer(c.cs, i.packet) {
        return AnpIgnore;
      }
      TakeRejection(c, i);
      return AnpRejected;
    }
    return AnpIgnore;
  }

  /** The lease is extended, and kept if its address is the one in use (src/state.c:245-262). */
  method TakeAck(c: Client, i: Input) returns (r: Anp)
    requires IsBound(c) && i.packet.xid == c.cs.xid && IsRenewing(c.cs, i.now) && i.now <= c.clock
    requires Ripe(c.trace.ref, i.now, i.dhcpTimeout) && Heeds(c.cs, i, DHCPACK)
    modifies c`cs, c`arpOpen, c`arpIsDefense, c`usingBpf, c`trace, c`clock, c`listening
    ensures Grown(c) && r == if i.packet.yiaddr == old(c.cs.clientAddr) then AnpSuccess else AnpCheckIp
    ensures LeaseExtended(c, i) && IsBound(c) && Ripe(c.trace.ref, i.now, i.dhcpTimeout) && SameNetwork(c)
    ensures r == AnpSuccess ==> !c.listening && (c.arpOpen ==> c.arpIsDefense)
    ensures Entered(c, 0)
    ensures Grew(old(ViewOf(c)), ViewOf(c)) && ExtendedBy(old(ViewOf(c)), i, ViewOf(c))
  {
    hide Client.Inv, Client.Traced, Next, LinkedGw, Linked, Options.OptionServerId, Options.OptionLeaseTime, Lease.T1,
         AckOf, Mode;
    TakeExtension(c, i);
    if i.packet.yiaddr != c.cs.clientAddr {
      return AnpCheckIp;
    }
    KeepLease(c);
    return AnpSuccess;
  }

  /** The client defends its address and waits for T1. */
  method KeepLease(c: Client)
    requires IsBound(c)
    modifies c`arpOpen, c`arpIsDefense, c`usingBpf, c`trace, c`listening
    ensures IsBound(c) && Grown(c) && c.trace.log == old(c.trace.log) && c.trace.ref == old(c.trace.ref)
    ensures !c.listening && (c.arpOpen ==> c.arpIsDefense)
    ensures Grew(old(ViewOf(c)), ViewOf(c)) && Unmoved(old(ViewOf(c)), ViewOf(c))
    ensures c.arps == old(c.arps) && c.tries == old(c.tries)
  {
    hide Client.Inv, Client.Traced, LinkedGw, Mode, Unmoved, Grew;
    InvParts(c);
    SetDefense(c);
    StaysBoundTo(c);
  }

  /** `arp_set_defense_mode` and `stop_dhcp_listen`. */
  method SetDefense(c: Client)
    requires c.Traced() && LinkedGw(c.fp, c.sentGwQuery, c.check, c.garp, Mode(c.arpOpen, c.arpIsDefense), c.trace.gw)
    modifies c`arpOpen, c`arpIsDefense, c`usingBpf, c`trace, c`listening
    ensures c.Traced() && LinkedGw(c.fp, c.sentGwQuery, c.check, c.garp, Mode(c.arpOpen, c.arpIsDefense), c.trace.gw)
    ensures Grown(c) && c.trace.log == old(c.trace.log) && c.trace.ref == old(c.trace.ref)
    ensures !c.listening && (c.arpOpen ==> c.arpIsDefense)
    ensures Grew(old(ViewOf(c)), ViewOf(c)) && Unmoved(old(ViewOf(c)), ViewOf(c))
  {
    hide Client.Traced, LinkedGw, Mode;
    var _ := ArpOpenFd(c, true);
    c.listening := false;
  }

  /** The lease is given up (src/state.c:267-270). */
  method TakeRejection(c: Client, i: Input)
    requires IsBound(c) && i.packet.xid == c.cs.xid && FromOurServer(c.cs, i.packet)
    modifies c`cs, c`fp, c`check, c`sentGwQuery, c`initFingerprintInProgress, c`sentFirstAnnounce, c`sentSecondAnnounce,
             c`arpOpen, c`arpIsDefense, c`wakeTs, c`reply, c`garp, c`trace, c`clock, c`listening
    ensures Grown(c) && Restartable(c) && c.cs.dhcpWakeTs == c.clock + 3000 && c.trace.ref.phase == Idle
    ensures c.trace.log == old(c.trace.log) + [Nak(old(c.cs.xid), old(c.cs.serverAddr))]
    ensures Entered(c, 0)
    ensures Grew(old(ViewOf(c)), ViewOf(c)) && Rejected(old(ViewOf(c)), ViewOf(c))
  {
    hide Played, Next, LinkedGw, Linked;
    BoundParts(c);
    NakAllowed(c.trace.ref);
    c.Record(Nak(i.packet.xid, ServerOf(i.packet)));
    ReinitSelecting(c, 3000);
  }

  /** The lease runs anew from the time at which the ACK was read; nothing else of the client has changed. */
  twostate predicate LeaseExtended(c: Client, i: Input)
    reads c
  {
    && c.trace.log == old(c.trace.log) + [AckOf(c.cs.leaseStartTime, i.packet)]
    && old(c.clock) <= c.cs.leaseStartTime <= c.clock
    && c.cs == old(c.cs).(lease := c.cs.lease, leaseStartTime := c.cs.leaseStartTime, renewTime := c.cs.renewTime,
                          rebindTime := c.cs.rebindTime, dhcpWakeTs := c.cs.dhcpWakeTs)
  }

  /** The lease is extended even if the address is another one. */
  method TakeExtension(c: Client, i: Input)
    requires IsBound(c) && i.packet.xid == c.cs.xid && IsRenewing(c.cs, i.now) && i.now <= c.clock
    requires FromOurServer(c.cs, i.packet)
    modifies c`cs, c`trace, c`clock
    ensures Grown(c) && IsBound(c) && Ripe(c.trace.ref, i.now, true) && LeaseExtended(c, i)
    ensures Entered(c, 0)
    ensures Grew(old(ViewOf(c)), ViewOf(c)) && ExtendedBy(old(ViewOf(c)), i, ViewOf(c))
  {
    hide Played, Next, LinkedGw, Linked, Options.OptionLeaseTime, Lease.T1;
    BoundParts(c);
    ghost var was := c.cs;
    GetLeasetime(c, i.packet);
    ExtendLinks(was, c.Configured(), c.trace.ref, old(c.clock), i.now, c.cs, c.clock, i.packet.yiaddr);
    c.Record(AckOf(c.clock, i.packet));
  }

  lemma ExtendLinks(cs: ClientState, conf: Option<U32>, a: Ref, clock: nat, now: nat, to: ClientState, t: nat, addr: U32)
    requires LinkedBound(cs, conf, a, clock) && a.phase == Bound && IsRenewing(cs, now) && now <= t
    requires HasLease(to, Lease(t, to.lease)) && to.dhcpWakeTs == Lease(t, to.lease).T1()
    requires to.xid == cs.xid && to.clientAddr == cs.clientAddr && to.serverAddr == cs.serverAddr
    ensures var r := Next(a, Ack(t, cs.xid, addr, cs.serverAddr, to.lease));
            && r.Some? && r.value.phase == Bound && LinkedBound(to, conf, r.value, t)
            && Ripe(r.value, now, true) && r.value.entries == a.entries
  {
    hide LeaseTimes.Lease.T2, LeaseTimes.Lease.End;
    LeaseTimesOf(cs, a.lease);
    DroppedFromEnd(Lease(t, to.lease), t);
  }

  lemma NakAllowed(a: Ref)
    requires a.phase == Bound
    ensures Next(a, Nak(a.xid, a.server)) == Some(a.(phase := Idle))
  {
  }

  /** `xmit_release` */
  method XmitRelease(c: Client) returns (ok: bool)
    requires IsBound(c)
    modifies c`cs, c`fp, c`check, c`sentGwQuery, c`initFingerprintInProgress, c`sentFirstAnnounce, c`sentSecondAnnounce,
             c`arpOpen, c`arpIsDefense, c`wakeTs, c`reply, c`garp, c`trace, c`clock, c`listening, c`tries
    ensures Grown(c)
    ensures ok ==> c.Inv() && c.trace.ref.phase == Idle && Asleep(c)
    ensures ok ==> c.trace.log == old(c.trace.log) + [Release(old(c.cs.clientAddr), old(c.cs.serverAddr)), Sleep]
    ensures !ok ==> IsBound(c) && c.trace == old(c.trace)
    ensures c.tries == old(c.tries) + 1
    ensures Entered(c, if ok then 1 else 0)
    ensures !ok ==> c.wakeTs == old(c.wakeTs)
    ensures Grew(old(ViewOf(c)), ViewOf(c)) && Releases(old(ViewOf(c)), ViewOf(c), ok)
  {
    hide Played, LinkedGw, Linked;
    BoundParts(c);
    ok := SendRelease(c);
    if ok {
      PrintRelease(c);
    }
  }

  /** `frenew` in BOUND. */
  method Frenew(c: Client, now: nat) returns (ok: bool)
    requires IsBound(c)
    modifies c`listening, c`trace, c`tries
    ensures Grown(c)
    ensures IsBound(c) && c.trace.ref == old(c.trace.ref)
    ensures c.trace.log == old(c.trace.log) + if ok then [ForcedRenew(now, c.cs.xid, c.cs.clientAddr)] else []
    ensures c.listening && c.tries == old(c.tries) + 1
    ensures Grew(old(ViewOf(c)), ViewOf(c)) && RenewsNow(old(ViewOf(c)), now, ViewOf(c), ok)
  {
    hide Played, LinkedGw, Linked;
    BoundParts(c);
    c.listening := true;
    ok := SendRenew(c, now, true);
  }

  /** `ifup_action` */
  method IfupAction(c: Client) returns (r: Ifup)
    requires IsBound(c)
    modifies c`check, c`arpOpen, c`arpIsDefense, c`usingBpf, c`garp, c`wakeTs, c`clock, c`arps, c`trace
    ensures IsBound(c) && Grown(c) && c.trace.ref == old(c.trace.ref) && c.trace.log == old(c.trace.log)
    ensures r == IfupNewLease <==> c.cs.routerAddr == 0 || c.cs.serverAddr == 0
    ensures r == IfupHalt <==> r != IfupNewLease && c.initFingerprintInProgress
    ensures r == IfupRevalidate ==> c.check.running && c.trace.gwLog == old(c.trace.gwLog) + [Open(Basic), Begin(2, true)]
    ensures r == IfupFail || r == IfupRevalidate ==> !c.initFingerprintInProgress
    ensures c.wakeTs[AS_COLLISION_CHECK] == old(c.wakeTs[AS_COLLISION_CHECK])
    ensures Grew(old(ViewOf(c)), ViewOf(c)) && c.trace.log == old(c.trace.log)
    ensures r == IfupRevalidate ==> BeginsCheck(old(ViewOf(c)), ViewOf(c))
    ensures r == IfupNewLease || r == IfupHalt ==> ViewOf(c) == old(ViewOf(c))
  {
    hide Played, LinkedGw, Linked;
    if c.cs.routerAddr != 0 && c.cs.serverAddr != 0 {
      if c.initFingerprintInProgress {
        return IfupHalt;
      }
      var ok := ArpGwCheck(c);
      return if ok then IfupRevalidate else IfupFail;
    }
    return IfupNewLease;
  }

  // ---------------------------------------------------------------------------
  // The loops of the state machine
  // ---------------------------------------------------------------------------

  // Where the source ends a choice between results with BAD_STATE, the methods below leave those results
  // out of a `match`: the verifier shows that they do not occur.

  /** The client may rest at this label until the next call. */
  ghost predicate Settled(c: Client, at: Label)
    reads c, c.ifch
  {
    && c.Inv() && c.trace.ref.phase == PhaseOf(at)
    && (at == AtReleased ==> Asleep(c))
    && (at == AtSelecting ==> !c.trace.ref.early)
  }

  /** The client may go on with the code of another state. */
  ghost predicate Arrived(c: Client, to: Label)
    reads c, c.ifch
  {
    match to
    case AtSelecting => Restartable(c) && c.trace.ref.phase != Boot && c.cs.dhcpWakeTs >= 0
    case AtRequesting => c.Inv() && c.trace.ref.phase == Requesting && c.cs.numDhcpRequests == 0
    case AtReleased => Settled(c, AtReleased)
    case _ => false
  }

  /** How many events of the log begin a state when the code of `at` is left so; the restart comes later. */
  function Gains(at: Label, f: Flow): (k: nat) {
    match f
    case Goto(to) => if to == AtSelecting then 0 else 1
    case Yield(_, to) => if PhaseOf(to) == PhaseOf(at) then 0 else 1
    case _ => 0
  }

  ghost predicate Left(c: Client, f: Flow)
    reads c, c.ifch
  {
    match f
    case Proceed => true
    case Yield(_, at) => Settled(c, at)
    case Goto(to) => Arrived(c, to)
    case Halt => c.Traced()
  }

  /** The offer of `p` is taken. */
  twostate predicate Chosen(c: Client, p: Packet)
    reads c
  {
    && c.cs.xid == old(c.cs.xid) && c.cs.clientAddr == p.yiaddr && Options.OptionServerId(p) == Some(c.cs.serverAddr)
    && c.trace.log == old(c.trace.log) + [Offer(p.xid, p.yiaddr, c.cs.serverAddr)]
  }

  /** One REQUEST is sent, or nothing happens. */
  twostate predicate Asked(c: Client, now: nat, sent: bool)
    reads c
  {
    && c.cs.xid == old(c.cs.xid) && c.cs.clientAddr == old(c.cs.clientAddr) && c.cs.serverAddr == old(c.cs.serverAddr)
    && c.trace.log == if sent then old(c.trace.log) + [Request(now, c.cs.xid, c.cs.clientAddr, c.cs.serverAddr)]
                      else old(c.trace.log)
  }

  lemma ViewFields(c: Client)
    ensures var v := ViewOf(c);
            && v.cs == c.cs && v.garp == c.garp && v.fp == c.fp && v.check == c.check && v.reply == c.reply
            && v.config == c.config && v.settings == c.settings && v.lease == c.trace.ref.lease && v.log == c.trace.log
            && v.learning == c.initFingerprintInProgress && v.tries == c.tries && v.resume == c.resume
  {
  }

  /** One turn of the loop of SELECTING. */
  method StepSelecting(c: Client, i: Input, dhcp: bool) returns (f: Flow)
    requires c.Inv() && c.trace.ref.phase == Selecting && (dhcp ==> Matches(c.trace.ref, i.packet))
    requires c.trace.ref.early || c.cs.dhcpWakeTs == -1 ==> i.dhcpTimeout
    modifies c
    ensures Left(c, f) && f != Proceed && Grown(c)
    ensures f.Yield? ==> f.at == AtSelecting && (f.ok ==> c.cs.dhcpWakeTs >= 0)
    ensures f == Goto(AtReleased) <==> i.signal == SignalRelease
    ensures f == Goto(AtRequesting) <==> i.signal != SignalRelease && TakesOffer(i, dhcp)
    ensures f.Goto? ==> f.to == AtReleased || f.to == AtRequesting
    ensures f == Goto(AtRequesting) ==> Chosen(c, i.packet)
    ensures !f.Goto? ==> if i.dhcpTimeout then f == Halt || (f.Yield? && TriedOnce(c, f.ok))
                         else f == Yield(true, AtSelecting) && c.trace == old(c.trace)
    ensures f != Halt ==> Entered(c, Gains(AtSelecting, f))
    ensures f == Halt ==> Entered(c, 0)
    ensures SelectingTurn(old(ViewOf(c)), i, dhcp, ViewOf(c), f)
  {
    hide Client.Inv, Client.Traced, Linked, LinkedGw, Next, Matches, Options.OptionServerId, Grew, FallsAsleep, OfferPart,
         Discovers, ViewOf, Aborts, Still;
    InvParts(c);
    if i.signal == SignalRelease {
      PrintRelease(c);
      ReleasedLeft(c);
      return Goto(AtReleased);
    }
    if dhcp {
      var r := SelectingOffer(c, i);
      if r == AnpSuccess {
        return Goto(AtRequesting);
      }
    }
    var ok := true;
    if i.dhcpTimeout {
      var r := SelectingTimeout(c, i.now);
      if r == SelHalt {
        return Halt;
      }
      ok := r == SelSuccess;
    }
    GrewNot(old(ViewOf(c)));
    return Yield(ok, AtSelecting);
  }

  /** One DHCP message was to be sent; it is counted if it was. */
  twostate predicate TriedOnce(c: Client, ok: bool)
    reads c
  {
    c.tries == old(c.tries) + 1 && c.cs.numDhcpRequests == old(c.cs.numDhcpRequests) + if ok then 1 else 0
  }

  /** One turn of the loop of REQUESTING. */
  method StepRequesting(c: Client, i: Input, dhcp: bool) returns (f: Flow)
    requires c.Inv() && c.trace.ref.phase == Requesting && (dhcp ==> i.packet.xid == c.cs.xid) && i.now <= c.clock
    requires i.dhcpTimeout ==> MayRequest(c.trace.ref, i.now)
    modifies c
    ensures Left(c, f) && f != Proceed && f != Halt && Grown(c)
    ensures f == Goto(AtReleased) <==> i.signal == SignalRelease
    ensures i.signal != SignalRelease && TakesAck(old(c.cs), i, dhcp) ==> ToCheck(c, f)
    ensures i.signal != SignalRelease && !TakesAck(old(c.cs), i, dhcp) ==>
              AskedAgain(c, f, AtRequesting, i.dhcpTimeout, old(c.cs.numDhcpRequests))
    ensures f.Yield? && f.at == AtRequesting ==> Asked(c, i.now, i.dhcpTimeout && f.ok)
    ensures Entered(c, Gains(AtRequesting, f))
    ensures RequestingTurn(old(ViewOf(c)), i, dhcp, ViewOf(c), f)
  {
    hide Client.Inv, Client.Traced, Linked, Next, MayRequest, Options.OptionServerId, Grew, FallsAsleep, AckPart, AskPart,
         ViewOf;
    InvParts(c);
    ViewFields(c);
    if i.signal == SignalRelease {
      PrintRelease(c);
      ReleasedLeft(c);
      return Goto(AtReleased);
    }
    f := Proceed;
    if dhcp {
      f := RequestingPacket(c, i);
    }
    if f == Proceed {
      f := RequestTimer(c, i, AtRequesting);
    }
  }

  /** The client goes on to the collision check, or starts over in three seconds if it cannot probe. */
  ghost predicate ToCheck(c: Client, f: Flow)
    reads c
  {
    f == Yield(true, AtChecking) || (f == Goto(AtSelecting) && c.cs.dhcpWakeTs == c.clock + 3000)
  }

  /** Without a timeout nothing happens; with one, the client asks once more, or starts over after five requests. */
  twostate predicate AskedAgain(c: Client, f: Flow, at: Label, fired: bool, requests: nat)
    reads c
  {
    if !fired then f == Yield(true, at) && c.trace == old(c.trace) && c.tries == old(c.tries)
    else if requests >= 5 then f == Goto(AtSelecting) && c.cs.dhcpWakeTs == c.clock
    else f.Yield? && f.at == at && TriedOnce(c, f.ok)
  }

  /** A DHCP packet in REQUESTING (src/state.c:486-500). */
  method RequestingPacket(c: Client, i: Input) returns (f: Flow)
    requires c.Inv() && c.trace.ref.phase == Requesting && i.packet.xid == c.cs.xid
    modifies c
    ensures Left(c, f) && Grown(c)
    ensures if TakesAck(old(c.cs), i, true) then ToCheck(c, f)
            else f == Proceed && c.Inv() && c.trace == old(c.trace) && c.cs == old(c.cs) && c.tries == old(c.tries)
                 && ViewOf(c) == old(ViewOf(c))
    ensures Entered(c, if f == Yield(true, AtChecking) then 1 else 0)
    ensures TakesAck(old(c.cs), i, true) ==> Grew(old(ViewOf(c)), ViewOf(c)) && AckPart(old(ViewOf(c)), i, ViewOf(c), f)
  {
    hide Client.Inv, Client.Traced, LinkedGw, Linked, LinkedAcked, Next, Options.OptionServerId, AckOf, AckRead,
         CheckStart, AckPart, Grew, Mode, ViewOf;
    ViewFields(c);
    var r := SelectingAck(c, i);
    match r {
      case AnpIgnore =>
        return Proceed;
      case AnpCheckIp =>
        ghost var a := ViewOf(c);
        f := BeginCheck(c, i.packet);
        AckStarts(old(ViewOf(c)), i, a, ViewOf(c), f);
    }
  }

  /** `arp_check` behind an ACK in REQUESTING, and what its failure leads to. */
  method BeginCheck(c: Client, packet: Packet) returns (f: Flow)
    requires c.Traced() && LinkedGw(c.fp, c.sentGwQuery, c.check, c.garp, Mode(c.arpOpen, c.arpIsDefense), c.trace.gw)
    requires c.trace.ref.phase == Checking && LinkedAcked(c.cs, c.trace.ref, c.clock)
    requires c.trace.ref.probes == c.garp.probeCount == 0 && packet.yiaddr == c.trace.ref.addr
    modifies c
    ensures Left(c, f) && Grown(c) && ToCheck(c, f) && Entered(c, if f == Yield(true, AtChecking) then 1 else 0)
    ensures Grew(old(ViewOf(c)), ViewOf(c)) && CheckStart(old(ViewOf(c)), packet, ViewOf(c), f)
  {
    hide Client.Traced, Linked, LinkedGw, LinkedAcked, Next, Mode;
    var ok := ArpCheck(c, packet);
    if !ok {
      ReinitSelecting(c, 3000);
      return Goto(AtSelecting);
    }
    return Yield(true, AtChecking);
  }

  /** The request timer, in REQUESTING and during the collision check (src/state.c:501-514, 558-571). */
  method RequestTimer(c: Client, i: Input, at: Label) returns (f: Flow)
    requires c.Inv() && c.trace.ref.phase == PhaseOf(at) && (at == AtRequesting || at == AtChecking) && i.now <= c.clock
    requires i.dhcpTimeout ==> MayRequest(c.trace.ref, i.now)
    modifies c
    ensures Left(c, f) && Grown(c) && AskedAgain(c, f, at, i.dhcpTimeout, old(c.cs.numDhcpRequests))
    ensures f.Yield? ==> f.at == at && Asked(c, i.now, i.dhcpTimeout && f.ok)
    ensures Entered(c, 0)
    ensures AskPart(old(ViewOf(c)), i, at, ViewOf(c), f)
  {
    hide Client.Inv, Client.Traced, Linked, Next, MayRequest, Grew, GivesUp, Asks;
    var ok := true;
    GrewNot(ViewOf(c));
    if i.dhcpTimeout {
      var r := RequestingTimeout(c, i.now);
      if r == ReqTimeout {
        return Goto(AtSelecting);
      }
      ok := r == ReqSuccess;
    }
    return Yield(ok, at);
  }

  /** What every part of the loop of the collision check keeps. */
  ghost predicate StaysChecking(c: Client, i: Input)
    reads c, c.ifch
  {
    && c.Inv() && c.trace.ref.phase == Checking && i.now <= c.clock
    && (i.dhcpTimeout ==> MayRequest(c.trace.ref, i.now))
  }

  /** Somebody else has the address. */
  ghost predicate Taken(c: Client, i: Input)
    reads c`reply, c`cs
  {
    i.arp && Collides(c.config.arp, c.cs.clientAddr, c.reply)
  }

  /** An ARP frame (src/state.c:530-544). */
  method CheckingArp(c: Client, i: Input) returns (f: Flow)
    requires StaysChecking(c, i) && i.arp
    modifies c
    ensures Left(c, f) && Grown(c)
    ensures if old(Taken(c, i)) then f == Goto(AtSelecting) || f == Yield(false, AtChecking)
            else f == Proceed && StaysChecking(c, i) && c.cs == old(c.cs) && c.garp == old(c.garp) && c.tries == old(c.tries)
    ensures Entered(c, 0)
    ensures CollisionPart(old(ViewOf(c)), i, ViewOf(c), f)
  {
    hide Played, LinkedGw, Linked, Next, Collides;
    var r := ArpDoCollisionCheck(c);
    match r {
      case ArprOk =>
        return Proceed;
      case ArprConflict =>
        ReinitSelecting(c, 0);
        return Goto(AtSelecting);
      case ArprFail =>
        return Yield(false, AtChecking);
    }
  }

  /** A client that has just been bound has asked for its network and announced itself, or will try again. */
  ghost predicate Introduced(c: Client)
    reads c
  {
    && (c.sentGwQuery || c.wakeTs[AS_QUERY_GW_SEND] != -1)
    && (c.sentFirstAnnounce || c.wakeTs[AS_ANNOUNCE] != -1)
  }

  /** The first steps of a bound client (src/state.c:548-549). */
  method Introduce(c: Client)
    requires IsBound(c)
    modifies c`initFingerprintInProgress, c`sentGwQuery, c`arpOpen, c`arpIsDefense, c`usingBpf, c`garp, c`fp, c`wakeTs,
             c`clock, c`arps, c`sentFirstAnnounce, c`sentSecondAnnounce, c`trace
    ensures IsBound(c) && Grown(c) && Introduced(c)
    ensures c.trace.ref == old(c.trace.ref) && c.trace.log == old(c.trace.log)
    ensures Grew(old(ViewOf(c)), ViewOf(c)) && Introduces(old(ViewOf(c)), ViewOf(c))
  {
    hide Client.Inv;
    var _ := ArpQueryGateway(c);
    var _ := ArpAnnounce(c);
  }

  /** `arp_collision_timeout`, seen from the state machine. */
  method ProbeTimer(c: Client, now: nat) returns (r: Arpr)
    requires c.Inv() && c.trace.ref.phase == Checking && now <= c.clock
    modifies c, c.ifch, c.ifch.daemon
    ensures Grown(c) && c.cs == old(c.cs).(routerAddr := c.cs.routerAddr) && c.tries == old(c.tries)
    ensures r == ArprFree || r == ArprOk || r == ArprFail || r == ArprHalt
    ensures r == ArprFree || r == ArprHalt <==> ProbingOver(old(ViewOf(c)), now)
    ensures if r == ArprHalt then c.Traced() else c.Inv()
    ensures r == ArprFree ==> IsBound(c) && Takes(old(ViewOf(c)), now, ViewOf(c))
    ensures r == ArprOk || r == ArprFail ==>
              && c.trace.ref == old(c.trace.ref).(probes := c.trace.ref.probes) && c.cs == old(c.cs)
              && ProbesAgain(old(ViewOf(c)), now, ViewOf(c), r == ArprOk)
    ensures Grew(old(ViewOf(c)), ViewOf(c))
    ensures if r == ArprFree then Entered(c, 1) else Entered(c, 0) || (r == ArprHalt && Entered(c, 1))
    ensures old(c.ifch.Kept()) ==> c.ifch.Kept()
  {
    hide Ifchange.Configurator.Kept, Client.Inv, Client.Traced;
    r := ArpCollisionTimeout(c, now);
  }

  /** An ARP timer (src/state.c:545-557). */
  method CheckingArpTimeout(c: Client, i: Input) returns (f: Flow)
    requires StaysChecking(c, i)
    modifies c, c.ifch, c.ifch.daemon
    ensures Left(c, f) && !f.Goto? && Grown(c)
    ensures f == Halt || f == Yield(true, AtBound) <==> Probed(old(c.garp), c.settings.probeNum, i.now)
    ensures f == Yield(true, AtBound) ==> Introduced(c)
    ensures f.Yield? ==> f == Yield(true, AtBound) || f == Yield(false, AtChecking)
    ensures f == Proceed ==> StaysChecking(c, i) && c.cs == old(c.cs)
    ensures c.tries == old(c.tries)
    ensures f != Halt ==> Entered(c, if f == Yield(true, AtBound) then 1 else 0)
    ensures f == Halt ==> Entered(c, 0) || Entered(c, 1)
    ensures old(c.ifch.Kept()) ==> c.ifch.Kept()
    ensures ProbePart(old(ViewOf(c)), i, ViewOf(c), f)
  {
    hide Ifchange.Configurator.Kept, Client.Inv, Client.Traced, Next, ProbesAgain, Takes, Introduces, Grew;
    var r := ProbeTimer(c, i.now);
    match r {
      case ArprHalt =>
        return Halt;
      case ArprFree =>
        ghost var a := ViewOf(c);
        Introduce(c);
        GrewTwice(old(ViewOf(c)), a, ViewOf(c));
        return Yield(true, AtBound);
      case ArprOk =>
        return Proceed;
      case ArprFail =>
        return Yield(false, AtChecking);
    }
  }

  lemma DueAtT1(c: Client, i: Input)
    requires StaysChecking(c, i)
    ensures i.dhcpTimeout ==> c.trace.ref.lease.T1() <= i.now
  {
    hide Played, LinkedGw, HasLease, Lease.T1, Lease.T2, Lease.Expiry;
  }

  /** One turn of the loop of the collision check. */
  method StepChecking(c: Client, i: Input) returns (f: Flow)
    requires StaysChecking(c, i)
    modifies c, c.ifch, c.ifch.daemon
    ensures Left(c, f) && f != Proceed && Grown(c)
    ensures f == Goto(AtReleased) <==> i.signal == SignalRelease
    ensures f.Yield? ==> f.at == AtChecking || f == Yield(true, AtBound)
    ensures f.Goto? ==> f.to == AtReleased || f.to == AtSelecting
    ensures i.signal != SignalRelease && old(Taken(c, i)) ==> f == Goto(AtSelecting) || f == Yield(false, AtChecking)
    ensures f == Halt || f == Yield(true, AtBound) <==>
            i.signal != SignalRelease && !old(Taken(c, i)) && i.arpTimeout
            && Probed(old(c.garp), c.settings.probeNum, i.now)
    ensures f == Yield(true, AtBound) ==> Introduced(c)
    ensures f == Yield(true, AtChecking) && i.dhcpTimeout ==> TriedOnce(c, true)
    ensures f == Goto(AtSelecting) ==> old(Taken(c, i)) || (i.dhcpTimeout && old(c.cs.numDhcpRequests) >= 5)
    ensures f != Halt ==> Entered(c, Gains(AtChecking, f))
    ensures f == Halt ==> Entered(c, 0) || Entered(c, 1)
    ensures old(c.ifch.Kept()) ==> c.ifch.Kept()
    ensures !old(Taken(c, i)) && c.tries > old(c.tries) ==>
              && i.signal != SignalRelease && i.dhcpTimeout && old(c.trace.ref.lease.T1()) <= i.now
              && !(i.arpTimeout && Probed(old(c.garp), c.settings.probeNum, i.now))
    ensures CheckingTurn(old(ViewOf(c)), i, ViewOf(c), f)
  {
    hide Ifchange.Configurator.Kept, Client.Inv, Client.Traced, Linked, Next, MayRequest, Collides, Probed, Lease.T1, Left,
         FallsAsleep, Grew, ViewOf, CollisionPart, ProbeStep, AskStep;
    if i.signal == SignalRelease {
      InvParts(c);
      PrintRelease(c);
      f := Goto(AtReleased);
      ReleasedLeft(c);
    } else {
      f := CheckingParts(c, i);
    }
  }

  lemma ReleasedLeft(c: Client)
    requires c.Inv() && c.trace.ref.phase == Idle && Asleep(c)
    ensures Left(c, Goto(AtReleased))
  {
  }

  /** The part of it without a signal. */
  method CheckingParts(c: Client, i: Input) returns (f: Flow)
    requires StaysChecking(c, i)
    modifies c, c.ifch, c.ifch.daemon
    ensures Left(c, f) && f != Proceed && Grown(c)
    ensures f.Yield? ==> f.at == AtChecking || f == Yield(true, AtBound)
    ensures f.Goto? ==> f.to == AtSelecting
    ensures old(Taken(c, i)) ==> f == Goto(AtSelecting) || f == Yield(false, AtChecking)
    ensures f == Halt || f == Yield(true, AtBound) <==>
            !old(Taken(c, i)) && i.arpTimeout
            && Probed(old(c.garp), c.settings.probeNum, i.now)
    ensures f == Yield(true, AtBound) ==> Introduced(c)
    ensures f == Yield(true, AtChecking) && i.dhcpTimeout ==> TriedOnce(c, true)
    ensures f == Goto(AtSelecting) ==> old(Taken(c, i)) || (i.dhcpTimeout && old(c.cs.numDhcpRequests) >= 5)
    ensures f != Halt ==> Entered(c, Gains(AtChecking, f))
    ensures f == Halt ==> Entered(c, 0) || Entered(c, 1)
    ensures old(c.ifch.Kept()) ==> c.ifch.Kept()
    ensures !old(Taken(c, i)) && c.tries > old(c.tries) ==>
              && i.dhcpTimeout && old(c.trace.ref.lease.T1()) <= i.now
              && !(i.arpTimeout && Probed(old(c.garp), c.settings.probeNum, i.now))
    ensures i.signal != SignalRelease ==> CheckingTurn(old(ViewOf(c)), i, ViewOf(c), f)
  {
    hide Ifchange.Configurator.Kept, Client.Inv, Client.Traced, Linked, Next, MayRequest, Collides, Probed, Lease.T1,
         CollisionPart, ProbePart, AskPart, ViewOf;
    DueAtT1(c, i);
    NoCollision(ViewOf(c), i);
    f := Proceed;
    if i.arp {
      f := CheckingArp(c, i);
    }
    ghost var a, fa := ViewOf(c), f;
    if f == Proceed && i.arpTimeout {
      f := CheckingArpTimeout(c, i);
    }
    ghost var b, fb := ViewOf(c), f;
    if f == Proceed {
      f := RequestTimer(c, i, AtChecking);
    }
    assert CollisionPart(old(ViewOf(c)), i, a, fa) && ProbeStep(a, fa, i, b, fb);
  }

  /** The timer of the collision check, once armed in BOUND, stays so until a restart. */
  twostate predicate KeepsCheckTimer(c: Client, f: Flow)
    reads c
  {
    f == Proceed || f.Yield? ==> old(c.wakeTs[AS_COLLISION_CHECK]) != -1 ==> c.wakeTs[AS_COLLISION_CHECK] != -1
  }

  /** What every part of the loop of BOUND keeps. */
  ghost predicate StaysBound(c: Client, i: Input)
    reads c, c.ifch
  {
    IsBound(c) && i.now <= c.clock && Ripe(c.trace.ref, i.now, i.dhcpTimeout)
  }

  /** A signal (src/state.c:577-595). */
  method BoundSignal(c: Client, i: Input) returns (f: Flow)
    requires StaysBound(c, i)
    modifies c
    ensures Left(c, f) && Grown(c)
    ensures i.signal == SignalRelease ==> f == Goto(AtReleased) || f == Yield(false, AtBound)
    ensures i.signal == SignalRenew ==> f == Proceed || f == Yield(false, AtBound)
    ensures i.signal == NoSignal ==> f == Proceed && c.trace == old(c.trace)
    ensures c.tries == old(c.tries) + if i.signal == NoSignal then 0 else 1
    ensures f == Proceed && i.signal == SignalRenew ==>
              c.listening && c.trace.log == old(c.trace.log) + [ForcedRenew(i.now, c.cs.xid, c.cs.clientAddr)]
    ensures f == Proceed ==>
              StaysBound(c, i) && SameNetwork(c) && c.cs == old(c.cs) && c.trace.ref == old(c.trace.ref)
    ensures Entered(c, if f.Goto? then 1 else 0)
    ensures KeepsCheckTimer(c, f)
    ensures SignalPart(old(ViewOf(c)), i, ViewOf(c), f)
  {
    hide Client.Inv, Client.Traced, Linked, Next, Ripe, Releases, RenewsNow, Grew, ViewOf;
    if i.signal == SignalRelease {
      var ok := XmitRelease(c);
      return if ok then Goto(AtReleased) else Yield(false, AtBound);
    }
    if i.signal == SignalRenew {
      var ok := Frenew(c, i.now);
      if !ok {
        return Yield(false, AtBound);
      }
    }
    GrewNot(old(ViewOf(c)));
    return Proceed;
  }

  lemma TimelyIff(c: Client, i: Input)
    requires IsBound(c)
    ensures Timely(ViewOf(c), i) <==> IsRenewing(c.cs, i.now) && FromOurServer(c.cs, i.packet)
  {
    hide Played, LinkedGw, Options.OptionServerId;
    LeaseTimesOf(c.cs, c.trace.ref.lease);
  }

  /** A DHCP packet (src/state.c:596-611). */
  method BoundPacket(c: Client, i: Input) returns (f: Flow)
    requires StaysBound(c, i) && i.packet.xid == c.cs.xid
    modifies c
    ensures Left(c, f) && Grown(c)
    ensures Heeds(old(c.cs), i, DHCPNAK) ==> f == Goto(AtSelecting) && c.cs.dhcpWakeTs == c.clock + 3000
    ensures Heeds(old(c.cs), i, DHCPACK) ==>
              && |c.trace.log| > |old(c.trace.log)|
              && (f == Proceed || (f == Goto(AtSelecting) && c.cs.dhcpWakeTs == c.clock + 3000))
              && (i.packet.yiaddr == old(c.cs.clientAddr) ==> f == Proceed && !c.listening)
    ensures !Heeds(old(c.cs), i, DHCPNAK) && !Heeds(old(c.cs), i, DHCPACK) ==>
              f == Proceed && c.trace == old(c.trace) && c.cs == old(c.cs)
    ensures f == Proceed ==> StaysBound(c, i) && SameNetwork(c)
    ensures Entered(c, 0)
    ensures KeepsCheckTimer(c, f)
    ensures Heeds(old(c.cs), i, DHCPACK) && i.packet.yiaddr != old(c.cs.clientAddr) && f == Proceed ==>
              c.wakeTs[AS_COLLISION_CHECK] != -1
    ensures PacketPart(old(ViewOf(c)), i, ViewOf(c), f)
  {
    hide Client.Inv, Client.Traced, LinkedGw, Linked, Next, FromOurServer, AckOf, Ripe, IsRenewing, Timely, Grew, Rejected,
         ExtendedBy, ProbesNew, Options.OptionServerId;
    ViewFields(c);
    TimelyIff(c, i);
    GrewNot(ViewOf(c));
    if !IsRenewing(c.cs, i.now) {
      return Proceed;
    }
    var r := ExtendPacket(c, i);
    match r {
      case AnpSuccess =>
      case AnpIgnore =>
      case AnpRejected =>
        return Goto(AtSelecting);
      case AnpCheckIp =>
        ghost var a := ViewOf(c);
        f := CheckNewAddress(c, i);
        ProbesNewGrew(old(ViewOf(c)), a, i, ViewOf(c), f);
        return;
    }
    return Proceed;
  }

  /** The lease goes on under the old address, unless no probe for the new one can be sent (src/state.c:603-609). */
  method CheckNewAddress(c: Client, i: Input) returns (f: Flow)
    requires IsBound(c)
    modifies c
    ensures Left(c, f) && Grown(c)
    ensures f == Proceed || (f == Goto(AtSelecting) && c.cs.dhcpWakeTs == c.clock + 3000)
    ensures f == Proceed ==> IsBound(c) && c.trace.ref == old(c.trace.ref) && c.cs == old(c.cs) && SameNetwork(c)
    ensures Entered(c, 0)
    ensures KeepsCheckTimer(c, f)
    ensures f == Proceed ==> c.wakeTs[AS_COLLISION_CHECK] != -1
    ensures ProbesNew(old(ViewOf(c)), i, ViewOf(c), f)
  {
    hide Client.Inv, Client.Traced, LinkedGw, Linked, Next, Mode, ProbesNew, ProbesBound, Grew, Forgets;
    ViewFields(c);
    var ok := ProbeNewAddress(c, i.packet);
    ghost var a := ViewOf(c);
    if !ok {
      ReinitSelecting(c, 3000);
      NewAddressNotProbed(old(ViewOf(c)), i, a, ViewOf(c));
      return Goto(AtSelecting);
    }
    NewAddressProbed(old(ViewOf(c)), i, a);
    return Proceed;
  }

  /** `arp_check` in BOUND. */
  method ProbeNewAddress(c: Client, packet: Packet) returns (ok: bool)
    requires IsBound(c)
    modifies c`arpOpen, c`arpIsDefense, c`usingBpf, c`dhcpPacket, c`garp, c`wakeTs, c`clock, c`arps, c`trace
    ensures IsBound(c) && Grown(c) && c.Traced() && c.trace.ref == old(c.trace.ref)
    ensures SameNetwork(c) && (ok ==> c.wakeTs[AS_COLLISION_CHECK] != -1) && (!ok ==> c.wakeTs == old(c.wakeTs))
    ensures Grew(old(ViewOf(c)), ViewOf(c))
    ensures if ok then ProbesBound(old(ViewOf(c)), packet, ViewOf(c))
            else c.trace.log == old(c.trace.log) && c.cs == old(c.cs) && c.tries == old(c.tries)
  {
    hide Client.Inv, Client.Traced, LinkedGw, Mode, Next;
    InvParts(c);
    ok := ArpCheck(c, packet);
  }

  /** An ARP frame (src/state.c:612-652). */
  method BoundArp(c: Client, i: Input) returns (f: Flow)
    requires StaysBound(c, i)
    modifies c
    ensures Left(c, f) && f != Halt && Grown(c)
    ensures f == Proceed ==> StaysBound(c, i) && c.cs == old(c.cs) && c.trace.ref == old(c.trace.ref)
    ensures f.Yield? ==> f == Yield(false, AtBound)
    ensures f.Goto? ==> f.to == AtSelecting
                        && (UsesOurAddress(c.config.arp, old(c.cs.clientAddr), old(c.reply)) || old(Mismatch(c)))
    ensures old(Checks(c.fp, c.check) && Mismatch(c)) ==> f != Proceed
    ensures !UsesOurAddress(c.config.arp, old(c.cs.clientAddr), old(c.reply)) && old(Checks(c.fp, c.check)) ==>
              (f == Goto(AtSelecting) <==> old(Mismatch(c)))
    ensures Entered(c, 0)
    ensures KeepsCheckTimer(c, f)
    ensures FramePart(old(ViewOf(c)), ViewOf(c), f)
  {
    hide Client.Inv, Client.Traced, LinkedGw, Linked, Next, Ripe, UsesOurAddress, Answers, Smac, DefensePart,
         FingerprintPart, Differs;
    ViewFields(c);
    f := DefendAddress(c);
    ghost var a, fa := ViewOf(c), f;
    if f == Proceed {
      f := FingerprintArp(c, i);
    }
    assert DefensePart(old(ViewOf(c)), a, fa) && FingerprintStep(a, fa, ViewOf(c), f);
  }

  /** Another user of the address (src/state.c:613-624). */
  method DefendAddress(c: Client) returns (f: Flow)
    requires IsBound(c)
    modifies c
    ensures Left(c, f) && Grown(c) && Entered(c, 0) && KeepsCheckTimer(c, f)
    ensures f == Proceed || f == Yield(false, AtBound) || f == Goto(AtSelecting)
    ensures f != Proceed ==> UsesOurAddress(c.config.arp, old(c.cs.clientAddr), old(c.reply))
    ensures f == Proceed ==> IsBound(c) && SameNetwork(c) && c.cs == old(c.cs) && c.trace.ref == old(c.trace.ref)
    ensures DefensePart(old(ViewOf(c)), ViewOf(c), f)
  {
    hide Client.Traced, LinkedGw, Linked, Next, UsesOurAddress;
    var r := ArpDoDefense(c);
    match r {
      case ArprOk =>
        return Proceed;
      case ArprConflict =>
        ReinitSelecting(c, 0);
        return Goto(AtSelecting);
      case ArprFail =>
        return Yield(false, AtBound);
    }
  }

  /** The part of it that is about the fingerprint (src/state.c:625-651). */
  method FingerprintArp(c: Client, i: Input) returns (f: Flow)
    requires StaysBound(c, i)
    modifies c
    ensures Left(c, f) && f != Halt && Grown(c)
    ensures f == Proceed ==> StaysBound(c, i) && c.cs == old(c.cs) && c.trace.ref == old(c.trace.ref)
    ensures f.Yield? ==> f == Yield(false, AtBound)
    ensures f.Goto? ==> f.to == AtSelecting
    ensures f == Goto(AtSelecting) <==> old(Checks(c.fp, c.check) && Mismatch(c))
    ensures f == Proceed && !old(c.fp.gotRouterArp && c.fp.gotServerArp) ==>
              && (c.fp.gotRouterArp <==> old(c.fp.gotRouterArp || FromRouter(c)))
              && (c.fp.gotServerArp <==> old(c.fp.gotServerArp || FromServer(c)))
              && (c.fp.gotRouterArp && c.fp.gotServerArp ==> !c.initFingerprintInProgress)
    ensures f == Proceed && old(Checks(c.fp, c.check)) ==>
              && (c.check.routerReplied <==> old(c.check.routerReplied || FromRouter(c)))
              && (c.check.serverReplied <==> old(c.check.serverReplied || FromServer(c)))
              && (old(FromRouter(c) || FromServer(c)) && c.check.routerReplied && c.check.serverReplied ==> !c.check.running)
    ensures Entered(c, 0)
    ensures KeepsCheckTimer(c, f)
    ensures FingerprintPart(old(ViewOf(c)), ViewOf(c), f)
  {
    hide Client.Inv, Client.Traced, Next, Ripe, Answers, Smac, Learns, Compares, Grew, ViewOf, Differs;
    ViewFields(c);
    GrewNot(ViewOf(c));
    f := Proceed;
    if !c.fp.gotRouterArp || !c.fp.gotServerArp {
      f := LearnNetwork(c);
    } else if c.check.running {
      f := CheckNetwork(c);
    }
  }

  /** A frame while the addresses are being learned (src/state.c:626-635). */
  method LearnNetwork(c: Client) returns (f: Flow)
    requires IsBound(c) && !(c.fp.gotRouterArp && c.fp.gotServerArp)
    modifies c`arpOpen, c`arpIsDefense, c`usingBpf, c`fp, c`wakeTs, c`trace, c`initFingerprintInProgress
    ensures IsBound(c) && Grown(c) && c.trace.ref == old(c.trace.ref)
    ensures f == Proceed || f == Yield(false, AtBound)
    ensures c.fp.gotRouterArp <==> old(c.fp.gotRouterArp || FromRouter(c))
    ensures c.fp.gotServerArp <==> old(c.fp.gotServerArp || FromServer(c))
    ensures f == Proceed && c.fp.gotRouterArp && c.fp.gotServerArp ==> !c.initFingerprintInProgress
    ensures KeepsCheckTimer(c, f)
    ensures Grew(old(ViewOf(c)), ViewOf(c)) && Learns(old(ViewOf(c)), ViewOf(c), f)
  {
    hide Client.Inv, Client.Traced, LinkedGw, Linked, Mode, Next, Answers, Smac;
    var r := ArpDoGwQuery(c);
    match r {
      case ArprOk =>
      case ArprFree =>
        InvParts(c);
        c.initFingerprintInProgress := false;
        StaysBoundTo(c);
      case ArprFail =>
        return Yield(false, AtBound);
    }
    return Proceed;
  }

  /** A frame during a check (src/state.c:637-650). */
  method CheckNetwork(c: Client) returns (f: Flow)
    requires IsBound(c) && c.check.running
    modifies c
    ensures Left(c, f) && Grown(c)
    ensures f == Proceed ==> IsBound(c) && c.cs == old(c.cs) && c.trace.ref == old(c.trace.ref) && c.clock >= old(c.clock)
    ensures f == Proceed || f == Yield(false, AtBound) || f == Goto(AtSelecting)
    ensures f == Goto(AtSelecting) <==> old(Mismatch(c))
    ensures f == Proceed ==>
              && (c.check.routerReplied <==> old(c.check.routerReplied || FromRouter(c)))
              && (c.check.serverReplied <==> old(c.check.serverReplied || FromServer(c)))
              && (old(FromRouter(c) || FromServer(c)) && c.check.routerReplied && c.check.serverReplied ==> !c.check.running)
    ensures Entered(c, 0)
    ensures KeepsCheckTimer(c, f)
    ensures Grew(old(ViewOf(c)), ViewOf(c)) && Compares(old(ViewOf(c)), ViewOf(c), f)
  {
    hide Client.Inv, Client.Traced, LinkedGw, Linked, Mode, Next, Answers, Smac;
    var r := ArpDoGwCheck(c);
    match r {
      case ArprOk =>
      case ArprFree =>
        ResumeLease(c);
      case ArprConflict =>
        InvParts(c);
        ReinitSelecting(c, 0);
        return Goto(AtSelecting);
      case ArprFail =>
        return Yield(false, AtBound);
    }
    return Proceed;
  }

  /** The check has succeeded. */
  method ResumeLease(c: Client)
    requires IsBound(c) && c.check.running && c.check.routerReplied && c.check.serverReplied
    modifies c`check, c`trace
    ensures Grown(c)
    ensures IsBound(c) && c.trace.ref == old(c.trace.ref) && c.trace.log == old(c.trace.log)
    ensures c.check == old(c.check).(running := false) && c.trace.gwLog == old(c.trace.gwLog) + [GwEvent.Resume]
  {
    hide Played, Linked, Next;
    c.check := c.check.(running := false);
    c.RecordGw(GwEvent.Resume);
  }

  /** An ARP timer (src/state.c:653-682). */
  method BoundArpTimeout(c: Client, i: Input) returns (f: Flow)
    requires StaysBound(c, i)
    modifies c
    ensures Left(c, f) && f != Halt && Grown(c)
    ensures f == Proceed ==> StaysBound(c, i) && c.cs == old(c.cs) && c.trace.ref == old(c.trace.ref)
    ensures f.Yield? ==> f == Yield(false, AtBound)
    ensures f.Goto? ==> f.to == AtSelecting
    ensures f == Goto(AtSelecting) <==> old(OutOfPings(c.sentGwQuery, c.fp, c.check, c.garp))
    ensures old(c.sentFirstAnnounce && c.sentSecondAnnounce) && old(c.wakeTs[AS_DEFENSE]) != -1 ==>
              |c.arps| > |old(c.arps)|
    ensures !old(c.sentFirstAnnounce && c.sentSecondAnnounce) && -1 < old(c.wakeTs[AS_ANNOUNCE]) <= i.now ==>
              |c.arps| > |old(c.arps)|
    ensures f == Proceed && !old(c.sentGwQuery) && -1 < old(c.wakeTs[AS_QUERY_GW_SEND]) <= i.now ==>
              c.wakeTs[AS_QUERY_GW_SEND] == if c.sentGwQuery then -1 else c.clock + ARP_RETRANS_DELAY
    ensures old(c.sentGwQuery && !(c.fp.gotRouterArp && c.fp.gotServerArp)) ==>
              i.now >= old(c.garp.pingTs) + ARP_RETRANS_DELAY ==> |c.arps| > |old(c.arps)|
    ensures Entered(c, 0)
    ensures KeepsCheckTimer(c, f)
    ensures DuePart(old(ViewOf(c)), i, ViewOf(c), f)
  {
    hide Client.Inv, Client.Traced, LinkedGw, Linked, Next, Ripe, AnnounceDue, FingerprintDue;
    AnnounceTimer(c, i.now);
    ghost var a := ViewOf(c);
    f := FingerprintTimeout(c, i);
    assert AnnounceDue(old(ViewOf(c)), i.now, a);
  }

  /** The timers of announcement and defence (src/state.c:654-657). */
  method AnnounceTimer(c: Client, now: nat)
    requires IsBound(c)
    modifies c`garp, c`sentFirstAnnounce, c`sentSecondAnnounce, c`wakeTs, c`clock, c`arps
    ensures IsBound(c) && Grown(c) && c.wakeTs[AS_QUERY_GW_SEND] == old(c.wakeTs[AS_QUERY_GW_SEND])
    ensures c.wakeTs[AS_COLLISION_CHECK] == old(c.wakeTs[AS_COLLISION_CHECK])
    ensures c.garp == old(c.garp).(announceCount := c.garp.announceCount, announceTs := c.garp.announceTs)
    ensures old(c.sentFirstAnnounce && c.sentSecondAnnounce) && old(c.wakeTs[AS_DEFENSE]) != -1 ==>
              |c.arps| > |old(c.arps)|
    ensures !old(c.sentFirstAnnounce && c.sentSecondAnnounce) && -1 < old(c.wakeTs[AS_ANNOUNCE]) <= now ==>
              |c.arps| > |old(c.arps)|
    ensures AnnounceDue(old(ViewOf(c)), now, ViewOf(c))
  {
    hide Client.Inv, Client.Traced;
    if c.sentFirstAnnounce && c.sentSecondAnnounce {
      ArpDefenseTimeout(c);
    } else {
      ArpAnnounceTimeout(c, now);
    }
  }

  /** The part of it that is about the fingerprint (src/state.c:658-681). */
  method FingerprintTimeout(c: Client, i: Input) returns (f: Flow)
    requires StaysBound(c, i)
    modifies c
    ensures Left(c, f) && f != Halt && Grown(c)
    ensures f == Proceed ==> StaysBound(c, i) && c.cs == old(c.cs) && c.trace.ref == old(c.trace.ref)
    ensures f.Yield? ==> f == Yield(false, AtBound)
    ensures f.Goto? ==> f.to == AtSelecting
    ensures f == Goto(AtSelecting) <==> old(OutOfPings(c.sentGwQuery, c.fp, c.check, c.garp))
    ensures f == Proceed && !old(c.sentGwQuery) && -1 < old(c.wakeTs[AS_QUERY_GW_SEND]) <= i.now ==>
              c.wakeTs[AS_QUERY_GW_SEND] == if c.sentGwQuery then -1 else c.clock + ARP_RETRANS_DELAY
    ensures old(c.sentGwQuery && !(c.fp.gotRouterArp && c.fp.gotServerArp)) ==>
              i.now >= old(c.garp.pingTs) + ARP_RETRANS_DELAY ==> |c.arps| > |old(c.arps)|
    ensures Entered(c, 0)
    ensures KeepsCheckTimer(c, f)
    ensures FingerprintDue(old(ViewOf(c)), i.now, ViewOf(c), f)
  {
    hide Client.Inv, Client.Traced, LinkedGw, Mode, Linked, Next, Ripe, AsksAgain;
    if !c.sentGwQuery {
      ArpQueryGatewayTimeout(c, i.now);
    } else if !c.fp.gotRouterArp || !c.fp.gotServerArp {
      f := QueryTimer(c, i);
      return;
    } else if c.check.running {
      f := CheckTimer(c, i);
      return;
    }
    return Proceed;
  }

  /** The part of it about the query (src/state.c:660-667). */
  method QueryTimer(c: Client, i: Input) returns (f: Flow)
    requires StaysBound(c, i) && !(c.fp.gotRouterArp && c.fp.gotServerArp)
    modifies c`garp, c`wakeTs, c`clock, c`arps
    ensures StaysBound(c, i) && Grown(c) && Entered(c, 0) && KeepsCheckTimer(c, f)
    ensures f == Proceed || f == Yield(false, AtBound)
    ensures i.now >= old(c.garp.pingTs) + ARP_RETRANS_DELAY ==> |c.arps| > |old(c.arps)|
    ensures Grew(old(ViewOf(c)), ViewOf(c))
    ensures AsksAgain(old(ViewOf(c)), i.now, ViewOf(c), f == Proceed, !c.fp.gotRouterArp, !c.fp.gotServerArp)
  {
    hide Client.Inv, Client.Traced, LinkedGw, Mode, Linked, Next, Ripe;
    var r := ArpGwQueryTimeout(c, i.now);
    f := if r == ArprOk then Proceed else Yield(false, AtBound);
  }

  /** The part of it about a check (src/state.c:668-680). */
  method CheckTimer(c: Client, i: Input) returns (f: Flow)
    requires StaysBound(c, i) && c.check.running
    modifies c
    ensures Left(c, f) && Grown(c) && Entered(c, 0) && KeepsCheckTimer(c, f)
    ensures f == Proceed ==> StaysBound(c, i) && c.cs == old(c.cs) && c.trace.ref == old(c.trace.ref)
    ensures f == Proceed || f == Yield(false, AtBound) || f == Goto(AtSelecting)
    ensures f == Goto(AtSelecting) <==> old(c.garp.pingCount) >= old(c.garp.gwCheckInitpings) + 6
    ensures Grew(old(ViewOf(c)), ViewOf(c))
    ensures var s, t := old(ViewOf(c)), ViewOf(c);
            if f == Goto(AtSelecting) then t.log == s.log && t.tries == s.tries && StartsOver(t, 0)
            else AsksAgain(s, i.now, t, f == Proceed, !s.check.routerReplied, !s.check.serverReplied)
  {
    hide Client.Inv, Client.Traced, LinkedGw, Mode, Linked, Next, Ripe, AsksAgain, Grew, Forgets, ViewOf;
    ViewFields(c);
    var r := CheckRound(c, i.now);
    ViewFields(c);
    match r {
      case ArprOk =>
      case ArprConflict =>
        InvParts(c);
        ghost var a := ViewOf(c);
        ReinitSelecting(c, 0);
        ForgetsGrew(old(ViewOf(c)), a, ViewOf(c));
        return Goto(AtSelecting);
      case ArprFail =>
        return Yield(false, AtBound);
    }
    return Proceed;
  }

  /** `arp_gw_check_timeout`, seen from the state machine. */
  method CheckRound(c: Client, now: nat) returns (r: Arpr)
    requires IsBound(c) && c.check.running
    modifies c`garp, c`wakeTs, c`clock, c`arps, c`trace
    ensures IsBound(c) && Grown(c) && c.trace.log == old(c.trace.log) && c.trace.ref == old(c.trace.ref)
    ensures r == ArprOk || r == ArprFail || r == ArprConflict
    ensures r == ArprConflict <==> old(c.garp.pingCount) >= old(c.garp.gwCheckInitpings) + 6
    ensures c.wakeTs[AS_COLLISION_CHECK] == old(c.wakeTs[AS_COLLISION_CHECK])
    ensures Grew(old(ViewOf(c)), ViewOf(c))
    ensures r != ArprConflict ==>
              AsksAgain(old(ViewOf(c)), now, ViewOf(c), r == ArprOk, !c.check.routerReplied, !c.check.serverReplied)
  {
    hide Client.Inv, Client.Traced, LinkedGw, Mode;
    r := ArpGwCheckTimeout(c, now);
  }

  /** The carrier is back (src/state.c:683-700). A failed deconfiguration is the one place where the
      machine resumes in the middle of a loop. */
  method BoundCarrier(c: Client, i: Input) returns (f: Flow)
    requires StaysBound(c, i)
    modifies c, c.ifch, c.ifch.daemon
    ensures Left(c, f) && Grown(c)
    ensures if old(NoGateway(c.cs))
            then f == Yield(false, AtDeconfigFailed) || (f == Goto(AtSelecting) && c.Configured() == None)
            else if old(c.initFingerprintInProgress) then f == Halt
            else f == Yield(false, AtBound) || (f == Proceed && c.check.running)
    ensures f == Proceed ==> StaysBound(c, i) && c.cs == old(c.cs) && c.trace.ref == old(c.trace.ref)
    ensures Entered(c, 0)
    ensures KeepsCheckTimer(c, f)
    ensures old(c.ifch.Kept()) ==> c.ifch.Kept()
    ensures CarrierPart(old(ViewOf(c)), i, ViewOf(c), f)
  {
    hide Ifchange.Configurator.Kept, Client.Inv, Client.Traced, LinkedGw, Linked, Mode, Next, Ripe, BeginsCheck, Forgets,
         Grew, ViewOf;
    ViewFields(c);
    GrewNot(ViewOf(c));
    var r := IfupAction(c);
    ViewFields(c);
    match r
    case IfupHalt =>
      InvParts(c);
      return Halt;
    case IfupRevalidate => return Proceed;
    case IfupFail => return Yield(false, AtBound);
    case IfupNewLease =>
      f := DropLease(c);
      if f.Goto? {
        ForgetsGrew(old(ViewOf(c)), old(ViewOf(c)), ViewOf(c));
      }
  }

  /** The interface is deconfigured and the client starts over, or stays where it is (src/state.c:687-694). */
  method DropLease(c: Client) returns (f: Flow)
    requires IsBound(c)
    modifies c, c.ifch, c.ifch.daemon
    ensures Left(c, f) && Grown(c) && Entered(c, 0) && KeepsCheckTimer(c, f)
    ensures f == Yield(false, AtDeconfigFailed) || (f == Goto(AtSelecting) && c.Configured() == None)
    ensures old(c.ifch.Kept()) ==> c.ifch.Kept()
    ensures if f == Goto(AtSelecting) then Forgets(old(ViewOf(c)), ViewOf(c), 0) else ViewOf(c) == old(ViewOf(c))
  {
    hide Ifchange.Configurator.Kept, Client.Traced, LinkedGw, Linked, Mode, Next;
    var ok := c.Deconfig();
    if !ok {
      return Yield(false, AtDeconfigFailed);
    }
    ReinitSelecting(c, 0);
    return Goto(AtSelecting);
  }

  /** The lease timer (src/state.c:701-719). */
  method BoundTimer(c: Client, i: Input) returns (f: Flow)
    requires StaysBound(c, i)
    modifies c
    ensures Left(c, f) && Grown(c)
    ensures f == Goto(AtSelecting) <==> i.dhcpTimeout && DispatchAction(old(c.trace.ref.lease), i.now) == Drop
    ensures f.Goto? || (f.Yield? && f.at == AtBound)
    ensures f.Goto? ==> f.to == AtSelecting
    ensures !i.dhcpTimeout ==> f == Yield(true, AtBound) && c.trace == old(c.trace)
    ensures f == Yield(true, AtBound) && i.dhcpTimeout ==> c.cs.dhcpWakeTs > i.now
    ensures f == Yield(false, AtBound) ==> c.trace.log == old(c.trace.log) && c.tries == old(c.tries) + 1
    ensures Entered(c, 0)
    ensures KeepsCheckTimer(c, f)
    ensures TimerPart(old(ViewOf(c)), i, ViewOf(c), f)
  {
    hide Played, LinkedGw, Linked, Next, NextWake, DispatchAction;
    var ok := true;
    if i.dhcpTimeout {
      var r := LeaseTimeout(c, i.now);
      if r == BtoExpired {
        return Goto(AtSelecting);
      }
      if r == BtoWait {
        ghost var l, was := old(c.trace.ref.lease), old(c.trace.log);
        ghost var n: nat :| n < 20 && c.cs.dhcpWakeTs == NextWake(l, i.now, n);
        WaitLiesAhead(l, i.now, n);
      }
      ok := r == BtoWait;
    }
    return Yield(ok, AtBound);
  }

  lemma WaitLiesAhead(l: Lease, now: int, n: nat)
    requires n < 20 && DispatchAction(l, now) != Drop
    ensures NextWake(l, now, n) > now
  {
    hide Lease.T1, Lease.T2, Lease.Expiry;
  }

  /** Something is the matter that a bound client must not pass over: its server rejects the lease, the
      network has changed or does not answer, there is no gateway to check, or the lease has run out. */
  ghost predicate Doomed(c: Client, i: Input, dhcp: bool)
    reads c
  {
    || (dhcp && Heeds(c.cs, i, DHCPNAK))
    || (i.arp && Checks(c.fp, c.check) && Mismatch(c))
    || (i.arpTimeout && !i.arp && OutOfPings(c.sentGwQuery, c.fp, c.check, c.garp))
    || (i.forceFingerprint && NoGateway(c.cs))
    || (i.dhcpTimeout && !dhcp && DispatchAction(c.trace.ref.lease, i.now) == Drop)
  }

  /** One turn of the loop of BOUND. */
  method StepBound(c: Client, i: Input, dhcp: bool) returns (f: Flow)
    requires StaysBound(c, i) && (dhcp ==> i.packet.xid == c.cs.xid)
    modifies c, c.ifch, c.ifch.daemon
    ensures Left(c, f) && f != Proceed && Grown(c)
    ensures f.Yield? ==> f.at == AtBound || f == Yield(false, AtDeconfigFailed)
    ensures i.signal == SignalRelease ==> f == Goto(AtReleased) || f == Yield(false, AtBound)
    ensures f.Goto? ==> f.to == if i.signal == SignalRelease then AtReleased else AtSelecting
    ensures old(Doomed(c, i, dhcp)) ==> f != Yield(true, AtBound)
    ensures i.signal == SignalRenew ==> c.tries > old(c.tries)
    ensures f != Halt ==> Entered(c, Gains(AtBound, f))
    ensures f == Halt ==> Entered(c, 0)
    ensures KeepsCheckTimer(c, f)
    ensures old(c.ifch.Kept()) ==> c.ifch.Kept()
    ensures BoundTurn(old(ViewOf(c)), i, dhcp, ViewOf(c), f)
  {
    hide Ifchange.Configurator.Kept, StaysBound, Left, Heeds, Mismatch, DispatchAction, Checks, EventsTurn, TimersTurn,
         ViewOf;
    f := BoundEvents(c, i, dhcp);
    ghost var a, fa := ViewOf(c), f;
    if f == Proceed {
      f := BoundTimers(c, i);
    }
    assert EventsTurn(old(ViewOf(c)), i, dhcp, a, fa) && TimersStep(a, fa, i, ViewOf(c), f);
  }

  /** What has come in (src/state.c:577-652). */
  method BoundEvents(c: Client, i: Input, dhcp: bool) returns (f: Flow)
    requires StaysBound(c, i) && (dhcp ==> i.packet.xid == c.cs.xid)
    modifies c
    ensures Left(c, f) && f != Halt && Grown(c)
    ensures f.Yield? ==> f == Yield(false, AtBound)
    ensures i.signal == SignalRelease ==> f == Goto(AtReleased) || f == Yield(false, AtBound)
    ensures f.Goto? ==> f.to == if i.signal == SignalRelease then AtReleased else AtSelecting
    ensures i.signal == SignalRenew ==> c.tries > old(c.tries)
    ensures (dhcp && Heeds(old(c.cs), i, DHCPNAK)) || (i.arp && old(Checks(c.fp, c.check) && Mismatch(c))) ==> f != Proceed
    ensures f == Proceed ==>
              && StaysBound(c, i) && NoGateway(c.cs) == old(NoGateway(c.cs))
              && (!dhcp ==> c.trace.ref == old(c.trace.ref)) && (!i.arp ==> SameNetwork(c))
    ensures Entered(c, if f == Goto(AtReleased) then 1 else 0)
    ensures KeepsCheckTimer(c, f)
    ensures EventsTurn(old(ViewOf(c)), i, dhcp, ViewOf(c), f)
  {
    hide StaysBound, Left, Heeds, Checks, SignalPart, PacketPart, FramePart, ViewOf;
    f := BoundSignal(c, i);
    ghost var a, fa := ViewOf(c), f;
    if f == Proceed && dhcp {
      f := BoundPacket(c, i);
    }
    ghost var b, fb := ViewOf(c), f;
    if f == Proceed && i.arp {
      f := BoundArp(c, i);
    }
    assert SignalPart(old(ViewOf(c)), i, a, fa) && PacketStep(a, fa, i, dhcp, b, fb) && FrameStep(b, fb, i, ViewOf(c), f);
  }

  /** What has become due (src/state.c:653-719). */
  method BoundTimers(c: Client, i: Input) returns (f: Flow)
    requires StaysBound(c, i)
    modifies c, c.ifch, c.ifch.daemon
    ensures Left(c, f) && f != Proceed && Grown(c)
    ensures f.Yield? ==> f.at == AtBound || f == Yield(false, AtDeconfigFailed)
    ensures f.Goto? ==> f.to == AtSelecting
    ensures (i.arpTimeout && old(OutOfPings(c.sentGwQuery, c.fp, c.check, c.garp)))
            || (i.forceFingerprint && old(NoGateway(c.cs)))
            || (i.dhcpTimeout && DispatchAction(old(c.trace.ref.lease), i.now) == Drop) ==>
              f != Yield(true, AtBound)
    ensures Entered(c, 0)
    ensures KeepsCheckTimer(c, f)
    ensures old(c.ifch.Kept()) ==> c.ifch.Kept()
    ensures TimersTurn(old(ViewOf(c)), i, ViewOf(c), f)
  {
    hide Ifchange.Configurator.Kept, StaysBound, Left, DispatchAction, Checks, OutOfPings, DuePart, CarrierPart, TimerPart,
         ViewOf;
    f := Proceed;
    if i.arpTimeout {
      f := BoundArpTimeout(c, i);
    }
    ghost var a, fa := ViewOf(c), f;
    if f == Proceed && i.forceFingerprint {
      f := BoundCarrier(c, i);
    }
    ghost var b, fb := ViewOf(c), f;
    if f == Proceed {
      f := BoundTimer(c, i);
    }
    assert DueStep(old(ViewOf(c)), i, a, fa) && CarrierStep(a, fa, i, b, fb) && TimerStep(b, fb, i, ViewOf(c), f);
  }

  /** One turn of the loop of RELEASED. */
  method StepReleased(c: Client, i: Input) returns (f: Flow)
    requires Settled(c, AtReleased)
    modifies c
    ensures Left(c, f) && Grown(c)
    ensures if i.signal == SignalRenew then f == Goto(AtSelecting)
            else f == Yield(true, AtReleased) && c.arps == old(c.arps) && c.tries == old(c.tries) && c.trace == old(c.trace)
    ensures Entered(c, 0)
    ensures ReleasedTurn(old(ViewOf(c)), i, ViewOf(c), f)
  {
    hide Played, LinkedGw, Linked, Next;
    if i.signal == SignalRenew {
      ReinitSelecting(c, 0);
      return Goto(AtSelecting);
    }
    return Yield(true, AtReleased);
  }

  // ---------------------------------------------------------------------------
  // dhcp_handle
  // ---------------------------------------------------------------------------

  /** How often the code of a state can still go to that of another one in the same call. */
  function Rank(at: Label, dhcp: bool, requests: nat, s: Signal): nat {
    match at
    case AtStart => if s == SignalRelease || dhcp then 1 else 0
    case AtSelecting => if s == SignalRelease || dhcp then 1 else 0
    case AtRequesting => if s == SignalRelease || dhcp || requests >= 5 then 1 else 0
    case AtChecking => 1
    case AtBound => 1
    case AtDeconfigFailed => if s == SignalRelease then 2 else 1
    case AtReleased => if s == SignalRenew then 1 else 0
  }

  /** The client is about to run the code of this state. */
  ghost predicate Ready(c: Client, i: Input, at: Label, dhcp: bool)
    reads c, c.ifch
  {
    && c.Inv() && c.trace.ref.phase == PhaseOf(at) && i.now <= c.clock
    && match at
       case AtSelecting =>
         && (dhcp ==> Matches(c.trace.ref, i.packet))
         && (c.trace.ref.early || c.cs.dhcpWakeTs == -1 ==> i.dhcpTimeout)
       case AtRequesting => (dhcp ==> i.packet.xid == c.cs.xid) && (i.dhcpTimeout ==> MayRequest(c.trace.ref, i.now))
       case AtChecking => StaysChecking(c, i)
       case AtBound => (dhcp ==> i.packet.xid == c.cs.xid) && StaysBound(c, i)
       case AtReleased => Settled(c, AtReleased)
       case _ => false
  }

  /** A release signal is carried out, or the call fails. */
  predicate Obeys(f: Flow) {
    (f.Goto? ==> f.to == AtReleased) && (f.Yield? && f.ok ==> f.at == AtReleased)
  }

  /** Goes on with the code of the state whose loop the client is in. */
  method Step(c: Client, i: Input, at: Label, dhcp: bool) returns (f: Flow)
    requires Ready(c, i, at, dhcp)
    modifies c, c.ifch, c.ifch.daemon
    ensures Left(c, f) && f != Proceed && Grown(c)
    ensures f.Yield? ==> f.at != AtStart
    ensures f.Yield? && f.ok && f.at == AtSelecting ==> c.cs.dhcpWakeTs >= 0
    ensures f.Yield? && PhaseOf(f.at) == Bound ==> PhaseOf(at) == Bound || at == AtChecking
    ensures i.signal == SignalRelease ==> Obeys(f)
    ensures f.Goto? ==> f.to == AtSelecting || f.to == AtReleased || (f.to == AtRequesting && dhcp)
    ensures at == AtSelecting && i.signal != SignalRelease && TakesOffer(i, dhcp) ==>
              f == Goto(AtRequesting) && Chosen(c, i.packet)
    ensures at == AtRequesting && !dhcp && i.signal != SignalRelease && old(c.cs.numDhcpRequests) < 5 ==>
              f.Yield? && Asked(c, i.now, i.dhcpTimeout && f.ok)
    ensures !dhcp && f.Yield? && at != AtChecking && at != AtBound ==> f.at == at
    ensures at == AtSelecting ==> f != Goto(AtSelecting) && (f.Yield? ==> f.at == AtSelecting)
    ensures at == AtBound && old(Doomed(c, i, dhcp)) ==> !(f.Yield? && f.ok)
    ensures at == AtChecking && i.signal != SignalRelease && old(Taken(c, i)) ==>
              f == Goto(AtSelecting) || f == Yield(false, AtChecking)
    ensures f.Goto? ==> Rank(at, dhcp, old(c.cs.numDhcpRequests), i.signal) > Rank(f.to, false, 0, i.signal)
    ensures at == AtReleased && i.signal != SignalRenew ==>
              f == Yield(true, AtReleased) && c.arps == old(c.arps) && c.tries == old(c.tries) && c.trace == old(c.trace)
    ensures f != Halt ==> Entered(c, Gains(at, f))
    ensures f == Halt ==> Entered(c, 0) || (at == AtChecking && Entered(c, 1))
    ensures f == Goto(AtReleased) ==> i.signal == SignalRelease
    ensures old(c.ifch.Kept()) ==> c.ifch.Kept()
    ensures at == AtBound ==> KeepsCheckTimer(c, f)
    ensures Turn(at, old(ViewOf(c)), i, dhcp, ViewOf(c), f)
  {
    hide Ifchange.Configurator.Kept, Client.Inv, Left, Ripe, MayRequest, Matches, Settled, Doomed, Collides, Chosen, Asked,
         KeepsCheckTimer, Introduced, Probed, SelectingTurn, RequestingTurn, CheckingTurn, BoundTurn, ReleasedTurn, ViewOf;
    match at
    case AtSelecting => f := StepSelecting(c, i, dhcp);
    case AtRequesting => f := StepRequesting(c, i, dhcp);
    case AtChecking => f := StepChecking(c, i);
    case AtBound => f := StepBound(c, i, dhcp);
    case AtReleased => f := StepReleased(c, i);
  }

  /** A call that resumes in a loop finds its timers as the event loop has read them. */
  lemma ResumedReady(c: Client, i: Input, dhcp: bool)
    requires Settled(c, c.resume) && c.resume != AtStart && c.resume != AtDeconfigFailed
    requires i.now == c.clock && (i.dhcpTimeout <==> c.cs.dhcpWakeTs <= i.now) && (dhcp ==> i.packet.xid == c.cs.xid)
    ensures Ready(c, i, c.resume, dhcp)
  {
    hide Played, LinkedGw, HasLease, Lease.T1;
  }

  /** A call that goes to another state without a packet. */
  lemma ArrivedReady(c: Client, i: Input, to: Label)
    requires Arrived(c, to) && to != AtSelecting && i.now <= c.clock
    ensures Ready(c, i, to, false)
  {
    hide Played, LinkedGw;
  }

  /** Jumps to where the machine resumes, and runs up to the code of a state. */
  method Enter(c: Client, i: Input, sevDhcp: bool) returns (at: Label, dhcp: bool)
    requires Settled(c, c.resume) && i.now == c.clock && (i.dhcpTimeout <==> c.cs.dhcpWakeTs <= i.now)
    requires sevDhcp ==> i.packet.xid == c.cs.xid
    modifies c
    ensures Ready(c, i, at, dhcp) && Grown(c)
    ensures if old(c.resume) == AtStart || old(c.resume) == AtDeconfigFailed then at == AtSelecting
            else at == old(c.resume) && dhcp == sevDhcp && unchanged(c)
    ensures old(c.resume) == AtStart ==>
              dhcp == sevDhcp && c.trace.log == old(c.trace.log) + [Restart(c.cs.xid)] && old(c.cs.xid) == 0
    ensures old(c.resume) == AtDeconfigFailed ==> !dhcp
    ensures Entered(c, if old(c.resume) == AtStart || old(c.resume) == AtDeconfigFailed then 1 else 0)
    ensures Resumes(old(ViewOf(c)), sevDhcp, ViewOf(c), at, dhcp)
  {
    hide Played, LinkedGw, LinkedRequesting, LinkedChecking, LinkedBound, Next;
    if c.resume == AtStart {
      Reinit(c);
      return AtSelecting, sevDhcp;
    } else if c.resume == AtDeconfigFailed {
      ReinitSelecting(c, 0);
      Reinit(c);
      return AtSelecting, false;
    }
    ResumedReady(c, i, sevDhcp);
    return c.resume, sevDhcp;
  }

  /** Goes to the code of another state; no packet is left by then. */
  method Follow(c: Client, i: Input, to: Label)
    requires Arrived(c, to) && i.now <= c.clock
    modifies c
    ensures Ready(c, i, to, false) && Grown(c) && c.cs.numDhcpRequests == 0
    ensures to != AtSelecting ==> unchanged(c)
    ensures Entered(c, if to == AtSelecting then 1 else 0)
    ensures Arrives(old(ViewOf(c)), to, ViewOf(c))
  {
    hide Played, LinkedGw, LinkedRequesting, LinkedChecking, LinkedBound, Next;
    if to == AtSelecting {
      Reinit(c);
    } else {
      ArrivedReady(c, i, to);
    }
  }

  /** Once the client has something to lose, its DHCP timer is always armed. */
  lemma ArmedUnlessReleased(c: Client, at: Label)
    requires Settled(c, at) && at != AtStart
    ensures at != AtSelecting ==> (c.cs.dhcpWakeTs == -1 <==> at == AtReleased)
  {
    hide Played, LinkedGw, HasLease, Lease.T1;
  }

  /** `scrReturn` stores where to resume. */
  method Suspend(c: Client, at: Label)
    requires Settled(c, at)
    modifies c`resume
    ensures Settled(c, at) && c.resume == at
    ensures at != AtSelecting && at != AtStart ==> (c.cs.dhcpWakeTs == -1 <==> at == AtReleased)
    ensures ViewOf(c) == old(ViewOf(c)).(resume := at)
  {
    if at != AtStart {
      ArmedUnlessReleased(c, at);
    }
    hide Played, LinkedGw, Linked;
    c.resume := at;
  }

  /** Resumes, and runs the code of one state. */
  method FirstStep(c: Client, i: Input, sevDhcp: bool) returns (f: Flow)
    requires Settled(c, c.resume) && i.now == c.clock && (i.dhcpTimeout <==> c.cs.dhcpWakeTs <= i.now)
    requires sevDhcp ==> i.packet.xid == c.cs.xid
    modifies c, c.ifch, c.ifch.daemon
    ensures Left(c, f) && f != Proceed && Grown(c) && (f.Yield? ==> f.at != AtStart)
    ensures f.Yield? && f.ok && f.at == AtSelecting ==> c.cs.dhcpWakeTs >= 0
    ensures i.signal == SignalRelease ==> Obeys(f)
    ensures f.Goto? ==> f.to == AtSelecting || f.to == AtReleased || f.to == AtRequesting
    ensures f == Goto(AtReleased) ==> i.signal == SignalRelease
    ensures old(c.resume) == AtReleased && i.signal != SignalRenew ==>
              f == Yield(true, AtReleased) && c.arps == old(c.arps) && c.tries == old(c.tries) && c.trace == old(c.trace)
    ensures old(c.resume) == AtBound && old(Doomed(c, i, sevDhcp)) ==> !(f.Yield? && f.ok)
    ensures old(c.resume) == AtBound ==> KeepsCheckTimer(c, f)
    ensures old(c.resume) == AtChecking && i.signal != SignalRelease && old(Taken(c, i)) ==>
              f == Goto(AtSelecting) || f == Yield(false, AtChecking)
    ensures (old(c.resume) == AtStart || old(c.resume) == AtSelecting) && i.signal != SignalRelease && TakesOffer(i, sevDhcp) ==>
              && f == Goto(AtRequesting)
              && c.cs.clientAddr == i.packet.yiaddr && Options.OptionServerId(i.packet) == Some(c.cs.serverAddr)
              && var l := if old(c.resume) == AtStart then old(c.trace.log) + [Restart(c.cs.xid)] else old(c.trace.log);
                 c.trace.log == l + [Offer(old(c.cs.xid), i.packet.yiaddr, c.cs.serverAddr)]
    ensures old(c.resume) == AtStart ==> old(c.cs.xid) == 0
    ensures if old(c.resume) == AtStart || old(c.resume) == AtDeconfigFailed
            then Entered(c, 1 + Gains(AtSelecting, f)) && f != Goto(AtSelecting)
            else if f == Halt then Entered(c, 0) || Entered(c, 1)
            else Entered(c, Gains(old(c.resume), f))
    ensures old(c.resume) == AtDeconfigFailed && i.signal != SignalRelease ==> Entered(c, 1)
    ensures old(c.ifch.Kept()) ==> c.ifch.Kept()
    ensures FirstTurn(old(ViewOf(c)), i, sevDhcp, ViewOf(c), f)
  {
    hide Ifchange.Configurator.Kept, Ready, Settled, Arrived, Client.Traced, Doomed, Taken, Resumes, Turn, ViewOf;
    var at, dhcp := Enter(c, i, sevDhcp);
    ghost var a := ViewOf(c);
    f := Step(c, i, at, dhcp);
    assert Resumes(old(ViewOf(c)), sevDhcp, a, at, dhcp);
  }

  /** The call up to its return. */
  method RunCall(c: Client, i: Input, sevDhcp: bool) returns (f: Flow)
    requires Settled(c, c.resume) && i.now == c.clock && (i.dhcpTimeout <==> c.cs.dhcpWakeTs <= i.now)
    requires sevDhcp ==> i.packet.xid == c.cs.xid
    modifies c, c.ifch, c.ifch.daemon
    ensures Grown(c) && Left(c, f) && (f == Halt || f.Yield?) && (f.Yield? ==> f.at != AtStart)
    ensures f.Yield? && f.ok && f.at == AtSelecting ==> c.cs.dhcpWakeTs >= 0
    ensures old(c.trace.ref.entries) <= c.trace.ref.entries <= old(c.trace.ref.entries) +
              if old(c.resume) == AtStart || (old(c.resume) == AtDeconfigFailed && i.signal == SignalRelease) then 2 else 1
    ensures f.Yield? && PhaseOf(f.at) != PhaseOf(old(c.resume)) ==> c.trace.ref.entries > old(c.trace.ref.entries)
    ensures old(c.resume) == AtReleased && i.signal != SignalRenew ==>
              && f == Yield(true, AtReleased)
              && c.arps == old(c.arps) && c.tries == old(c.tries) && c.trace == old(c.trace)
    ensures f.Yield? && f.ok && i.signal == SignalRelease ==> f.at == AtReleased
    ensures f.Yield? && f.ok && old(c.resume) == AtBound && old(Doomed(c, i, sevDhcp)) ==> PhaseOf(f.at) != Bound
    ensures f.Yield? && f.ok && old(c.resume) == AtChecking && old(Taken(c, i)) ==>
              f.at == AtSelecting || f.at == AtReleased
    ensures (old(c.resume) == AtStart || old(c.resume) == AtSelecting) && i.signal != SignalRelease && TakesOffer(i, sevDhcp) ==>
              && f.Yield? && f.at == AtRequesting && Options.OptionServerId(i.packet) == Some(c.cs.serverAddr)
              && var l := if old(c.resume) == AtStart then old(c.trace.log) + [Restart(c.cs.xid)] else old(c.trace.log);
                 var taken := l + [Offer(old(c.cs.xid), i.packet.yiaddr, c.cs.serverAddr)];
                 c.trace.log == if i.dhcpTimeout && f.ok
                                then taken + [Request(i.now, c.cs.xid, i.packet.yiaddr, c.cs.serverAddr)] else taken
    ensures old(c.resume) == AtStart ==> old(c.cs.xid) == 0
    ensures old(c.ifch.Kept()) ==> c.ifch.Kept()
    ensures old(c.resume) == AtBound && f.Yield? && f.at == AtBound && old(c.wakeTs[AS_COLLISION_CHECK]) != -1 ==>
              c.wakeTs[AS_COLLISION_CHECK] != -1
    ensures Runs(old(ViewOf(c)), i, sevDhcp, ViewOf(c), f)
  {
    hide Ifchange.Configurator.Kept, Ready, Settled, Arrived, Client.Traced, Doomed, Taken, FirstTurn, ViewOf, Turn,
         Arrives, NextTurn;
    f := FirstStep(c, i, sevDhcp);
    ghost var a, fa := ViewOf(c), f;
    NoNextTurn(a, f, i);
    if f.Goto? {
      f := Chase(c, i, f.to);
    }
    assert FirstTurn(old(ViewOf(c)), i, sevDhcp, a, fa);
  }

  /** `dhcp_handle`. `sevDhcp` says that `i` holds a packet that `validate_dhcp_packet` let pass. */
  method Handle(c: Client, i: Input, sevDhcp: bool) returns (r: Outcome)
    requires Settled(c, c.resume) && i.now == c.clock && (i.dhcpTimeout <==> c.cs.dhcpWakeTs <= i.now)
    requires sevDhcp ==> i.packet.xid == c.cs.xid
    modifies c, c.ifch, c.ifch.daemon
    ensures Grown(c) && if r.Returned? then Settled(c, c.resume) && c.resume != AtStart else c.Traced()
    ensures old(c.trace.ref.entries) <= c.trace.ref.entries <= old(c.trace.ref.entries) +
              if old(c.resume) == AtStart || (old(c.resume) == AtDeconfigFailed && i.signal == SignalRelease) then 2 else 1
    ensures r.Returned? && PhaseOf(c.resume) != PhaseOf(old(c.resume)) ==> c.trace.ref.entries > old(c.trace.ref.entries)
    ensures r == Returned(true) ==> (c.cs.dhcpWakeTs == -1 <==> c.resume == AtReleased)
    ensures old(c.resume) == AtReleased && i.signal != SignalRenew ==>
              && r == Returned(true) && c.resume == AtReleased
              && c.arps == old(c.arps) && c.tries == old(c.tries) && c.trace == old(c.trace)
    ensures r == Returned(true) && i.signal == SignalRelease ==> c.resume == AtReleased
    ensures r == Returned(true) && old(c.resume) == AtBound && old(Doomed(c, i, sevDhcp)) ==> PhaseOf(c.resume) != Bound
    ensures r == Returned(true) && old(c.resume) == AtChecking && old(Taken(c, i)) ==>
              c.resume == AtSelecting || c.resume == AtReleased
    ensures (old(c.resume) == AtStart || old(c.resume) == AtSelecting) && i.signal != SignalRelease && TakesOffer(i, sevDhcp) ==>
              && r.Returned? && c.resume == AtRequesting && Options.OptionServerId(i.packet) == Some(c.cs.serverAddr)
              && var l := if old(c.resume) == AtStart then old(c.trace.log) + [Restart(c.cs.xid)] else old(c.trace.log);
                 var taken := l + [Offer(old(c.cs.xid), i.packet.yiaddr, c.cs.serverAddr)];
                 c.trace.log == if i.dhcpTimeout && r.ok
                                then taken + [Request(i.now, c.cs.xid, i.packet.yiaddr, c.cs.serverAddr)] else taken
    ensures old(c.resume) == AtStart ==> old(c.cs.xid) == 0
    ensures old(c.ifch.Kept()) ==> c.ifch.Kept()
    ensures old(c.resume) == AtBound && r.Returned? && c.resume == AtBound && old(c.wakeTs[AS_COLLISION_CHECK]) != -1 ==>
              c.wakeTs[AS_COLLISION_CHECK] != -1
    ensures Called(old(ViewOf(c)), i, sevDhcp, ViewOf(c), r)
    ensures Heeded(old(ViewOf(c)), i, sevDhcp, ViewOf(c), r)
  {
    hide Ifchange.Configurator.Kept, Settled, Client.Traced, Doomed, Taken, Runs, ViewOf, Heeded;
    var f := RunCall(c, i, sevDhcp);
    ghost var a := ViewOf(c);
    if f == Halt {
      assert Runs(old(ViewOf(c)), i, sevDhcp, a, f) && Ends(a, f, ViewOf(c), Halted);
      CallHeeds(old(ViewOf(c)), i, sevDhcp, ViewOf(c), Halted);
      return Halted;
    }
    Suspend(c, f.at);
    r := Returned(f.ok);
    assert Runs(old(ViewOf(c)), i, sevDhcp, a, f) && Ends(a, f, ViewOf(c), r);
    CallHeeds(old(ViewOf(c)), i, sevDhcp, ViewOf(c), r);
  }

  /** Runs the code of further states until the call returns. */
  method Chase(c: Client, i: Input, to: Label) returns (f: Flow)
    requires Arrived(c, to) && i.now <= c.clock && (to == AtSelecting || to == AtReleased || to == AtRequesting)
    requires to == AtReleased <==> i.signal == SignalRelease
    modifies c, c.ifch, c.ifch.daemon
    ensures Left(c, f) && Grown(c) && (f == Halt || (f.Yield? && f.at == to))
    ensures f.Yield? && f.ok && f.at == AtSelecting ==> c.cs.dhcpWakeTs >= 0
    ensures Entered(c, if to == AtSelecting then 1 else 0)
    ensures to == AtRequesting ==> f.Yield? && Asked(c, i.now, i.dhcpTimeout && f.ok)
    ensures old(c.ifch.Kept()) ==> c.ifch.Kept()
    ensures NextTurn(old(ViewOf(c)), Goto(to), i, ViewOf(c), f)
  {
    hide Ifchange.Configurator.Kept, Ready, Settled, Arrived, Client.Traced, Doomed, Taken, Arrives, Turn, ViewOf;
    f := Goto(to);
    while f.Goto?
      invariant if f.Goto? then f.to == to && unchanged(c) && Arrived(c, to)
                else Left(c, f) && (f == Halt || (f.Yield? && f.at == to))
      invariant Grown(c) && (f.Yield? && f.ok && f.at == AtSelecting ==> c.cs.dhcpWakeTs >= 0)
      invariant !f.Goto? ==> Entered(c, if to == AtSelecting then 1 else 0)
      invariant !f.Goto? && to == AtRequesting ==> f.Yield? && Asked(c, i.now, i.dhcpTimeout && f.ok)
      invariant old(c.ifch.Kept()) ==> c.ifch.Kept()
      invariant !f.Goto? ==> NextTurn(old(ViewOf(c)), Goto(to), i, ViewOf(c), f)
      decreases if f.Goto? then 1 + Rank(f.to, false, 0, i.signal) else 0
    {
      Follow(c, i, f.to);
      ghost var a := ViewOf(c);
      f := Step(c, i, f.to, false);
      assert Arrives(old(ViewOf(c)), to, a);
    }
  }
}
