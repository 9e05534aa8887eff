/** The state of the client (src/ndhc.h:36-52, src/arp.h:82-101), and what links it to the reference
machines that its logs are played on. */
module Machine {
  import opened Wire
  import opened LeaseTimes
  import opened Protocol
  import opened GatewayCheck
  import opened Ifchange
  import opened IfchCommands
  import Messages
  import Options

  /** A deadline in milliseconds, or -1 if the timer is not armed. */
  type Timer = t: int | -1 <= t

  /** The indexes of `wake_ts`. */
  const AS_ANNOUNCE: nat := 1
  const AS_COLLISION_CHECK: nat := 2
  const AS_QUERY_GW_SEND: nat := 3
  const AS_GW_CHECK: nat := 4
  const AS_GW_QUERY: nat := 5
  const AS_DEFENSE: nat := 6
  const AS_MAX: nat := 7

  /** Every use of the timers has its own. */
  lemma TimersDistinct(i: nat, j: nat)
    requires i < j < 6
    ensures var l := [AS_ANNOUNCE, AS_COLLISION_CHECK, AS_QUERY_GW_SEND, AS_GW_CHECK, AS_GW_QUERY, AS_DEFENSE];
            l[i] != l[j] && l[i] < AS_MAX && l[j] < AS_MAX
  {
  }

  function NoTimers(): (s: seq<Timer>)
    ensures |s| == AS_MAX && forall i :: 0 <= i < AS_MAX ==> s[i] == -1
  {
    [-1, -1, -1, -1, -1, -1, -1]
  }

  type Timers = s: seq<Timer> | |s| == AS_MAX witness NoTimers()

  const ARP_FRAME: nat := 60

  type Frame = b: Bytes | |b| == ARP_FRAME witness Zeros(ARP_FRAME)

  /** The rest of the configuration, which the client only reads. */
  datatype Settings = Settings(
    quitAfterLease: bool, abortIfNoLease: bool, backgroundIfNoLease: bool, relentlessDefense: bool,
    probeWait: int, probeNum: int, probeMin: int, probeMax: int)

  /** Where `dhcp_handle` resumes. */
  datatype Label = AtStart | AtSelecting | AtRequesting | AtChecking | AtBound | AtDeconfigFailed | AtReleased

  function PhaseOf(l: Label): Phase {
    match l
    case AtStart => Boot
    case AtSelecting => Selecting
    case AtRequesting => Requesting
    case AtChecking => Checking
    case AtBound => Bound
    case AtDeconfigFailed => Bound
    case AtReleased => Idle
  }

  /** The numbers of `struct client_state_t`. */
  datatype ClientState = ClientState(
    xid: U32, clientAddr: U32, serverAddr: U32, srcAddr: U32, routerAddr: U32,
    numDhcpRequests: nat, dhcpWakeTs: Timer,
    lease: U32, leaseStartTime: nat, renewTime: nat, rebindTime: nat)

  /** The numbers of `struct arp_data`. */
  datatype ArpData = ArpData(
    probeTs: nat, probeCount: nat, pingTs: nat, pingCount: nat, announceTs: nat, announceCount: nat,
    lastConflictTs: nat, arpCheckStartTs: nat, totalConflicts: nat, gwCheckInitpings: nat, probeWaitTime: U16)

  /** What the client knows about its network. */
  datatype Fingerprint = Fingerprint(routerArp: Bytes, serverArp: Bytes, gotRouterArp: bool, gotServerArp: bool)

  /** How far a check of it has come. */
  datatype Check = Check(running: bool, routerReplied: bool, serverReplied: bool)

  /** The sender's and the target's address in an ARP request, and whether it was sent. */
  datatype ArpRequest = ArpRequest(sip: U32, dip: U32, sent: bool)

  /** The logs of a client, and the states of the reference machines behind them. */
  datatype Trace = Trace(log: seq<Event>, ref: Ref, gwLog: seq<GwEvent>, gw: Gw)

  // ---------------------------------------------------------------------------
  // The link to the reference machines
  // ---------------------------------------------------------------------------

  ghost predicate Played(probeNum: int, t: Trace) {
    Play(probeNum, t.log) == Some(t.ref) && GwPlay(t.gwLog) == Some(t.gw)
  }

  /** The times of `cs` are those of the lease `l`. */
  predicate HasLease(cs: ClientState, l: Lease) {
    && l == Lease(cs.leaseStartTime, cs.lease) && cs.lease >= 60
    && cs.renewTime == cs.lease / 2 && cs.rebindTime == cs.lease / 8 * 7
  }

  /** No exchange has begun. */
  predicate Rested(cs: ClientState, g: ArpData) {
    cs.numDhcpRequests == 0 && g.probeCount == 0
  }

  /** `cs` holds the parties of the exchange that `a` is in. */
  predicate SameExchange(cs: ClientState, a: Ref) {
    cs.xid == a.xid && cs.clientAddr == a.addr && cs.serverAddr == a.server
  }

  predicate LinkedRequesting(cs: ClientState, g: ArpData, a: Ref) {
    && SameExchange(cs, a) && cs.numDhcpRequests == a.requests && g.probeCount == a.probes == 0
    && 0 <= cs.dhcpWakeTs && (a.requests > 0 ==> a.due <= cs.dhcpWakeTs)
  }

  /** The lease timer is armed and does not run early. It does not outlast the lease, unless it waits for
      the answer to a REQUEST. */
  predicate TimedLease(a: Ref, wake: Timer, clock: nat) {
    && 0 <= wake && a.lease.T1() <= a.due <= wake && (a.due == a.lease.T1() || a.lease.T1() <= clock)
    && if Late(a) then wake < a.due + 1000 else wake <= a.lease.End()
  }

  /** An ACK was accepted. */
  predicate LinkedAcked(cs: ClientState, a: Ref, clock: nat) {
    && SameExchange(cs, a) && cs.numDhcpRequests == a.requests
    && HasLease(cs, a.lease) && TimedLease(a, cs.dhcpWakeTs, clock)
  }

  /** The collision check is under way. */
  predicate LinkedChecking(cs: ClientState, g: ArpData, checked: U32, a: Ref, clock: nat) {
    && LinkedAcked(cs, a, clock) && checked == cs.clientAddr
    && g.probeCount == a.probes >= 1 && g.arpCheckStartTs == a.probing
  }

  /** The interface has the client's address. */
  predicate LinkedBound(cs: ClientState, configured: Option<U32>, a: Ref, clock: nat) {
    && SameExchange(cs, a) && configured == Some(cs.clientAddr)
    && HasLease(cs, a.lease) && TimedLease(a, cs.dhcpWakeTs, clock)
  }

  /** What links the client to the state of the reference machine, phase by phase. `checked` is the
      address of the packet of the collision check; `configured` is that of the interface. */
  predicate Linked(cs: ClientState, g: ArpData, checked: U32, configured: Option<U32>, a: Ref, clock: nat) {
    match a.phase
    case Boot => Rested(cs, g) && cs.xid == 0 && cs.dhcpWakeTs == -1
    case Idle => Rested(cs, g)
    case Selecting =>
      && cs.xid == a.xid && (cs.numDhcpRequests > 0 <==> a.discovers > 0) && g.probeCount == 0
      && (a.early ==> a.discovers == 0)
    case Requesting => LinkedRequesting(cs, g, a)
    case Checking => LinkedChecking(cs, g, checked, a, clock)
    case Bound => LinkedBound(cs, configured, a, clock)
  }

  function Mode(open: bool, defense: bool): Socket {
    if !open then Shut else if defense then Defence else Basic
  }

  /** The same for the fingerprint and the check of it. */
  predicate LinkedGw(fp: Fingerprint, queried: bool, k: Check, g: ArpData, s: Socket, b: Gw) {
    && b.routerMac == fp.routerArp && b.serverMac == fp.serverArp
    && b.gotRouter == fp.gotRouterArp && b.gotServer == fp.gotServerArp && b.queried == queried
    && b.checking == k.running && b.socket == s
    && b.routerReply.Some? == k.routerReplied && b.serverReply.Some? == k.serverReplied
    && (b.checking ==> b.pings <= g.pingCount - g.gwCheckInitpings)
  }

  // ---------------------------------------------------------------------------
  // The client
  // ---------------------------------------------------------------------------

  class Client {
    const config: Messages.Config
    const settings: Settings
    const ifch: Configurator

    /** Where `dhcp_handle` resumes. */
    var resume: Label
    /** The last reading of the clock. */
    var clock: nat
    var cs: ClientState
    var garp: ArpData
    var fp: Fingerprint
    var check: Check
    var wakeTs: Timers
    /** The packet of the collision check, and the last ARP frame. */
    var dhcpPacket: Packet
    var reply: Frame
    /** Whether the sockets are open, and what kind of ARP socket it is. */
    var listening: bool
    var arpOpen: bool
    var arpIsDefense: bool
    var usingBpf: bool
    var programInit: bool
    var sentGwQuery: bool
    var initFingerprintInProgress: bool
    var sentFirstAnnounce: bool
    var sentSecondAnnounce: bool

    ghost var trace: Trace
    /** The ARP requests so far, and the number of DHCP messages that were to be sent. */
    ghost var arps: seq<ArpRequest>
    ghost var tries: nat

    ghost predicate Traced()
      reads `trace
    {
      Played(settings.probeNum, trace)
    }

    /** The address of the interface, unless it was deconfigured. */
    ghost function Configured(): Option<U32>
      reads ifch
    {
      if ifch.ifDeconfig then None else Some(ifch.cfg.yiaddr)
    }

    ghost predicate Inv()
      reads this, ifch
    {
      && Traced()
      && Linked(cs, garp, dhcpPacket.yiaddr, Configured(), trace.ref, clock)
      && LinkedGw(fp, sentGwQuery, check, garp, Mode(arpOpen, arpIsDefense), trace.gw)
    }

    constructor (config: Messages.Config, settings: Settings, ifch: Configurator)
      ensures this.config == config && this.settings == settings && this.ifch == ifch
      ensures Inv() && resume == AtStart && trace.ref.phase == Boot && trace.log == [] && trace.gwLog == []
      ensures cs.dhcpWakeTs == -1 && wakeTs == NoTimers()
    {
      this.config, this.settings, this.ifch := config, settings, ifch;
      resume, clock, arps, tries := AtStart, 0, [], 0;
      cs := ClientState(0, 0, 0, 0, 0, 0, -1, 0, 0, 0, 0);
      garp := ArpData(0, 0, 0, 0, 0, 0, 0, 0, 0, 0, 0);
      fp, check := Fingerprint(NO_MAC, NO_MAC, false, false), Check(false, false, false);
      wakeTs, dhcpPacket, reply := NoTimers(), ZeroPacket(), Zeros(ARP_FRAME);
      listening, arpOpen, arpIsDefense, usingBpf := false, false, false, false;
      programInit, sentGwQuery, initFingerprintInProgress := true, false, false;
      sentFirstAnnounce, sentSecondAnnounce := false, false;
      trace := Trace([], Initial(settings.probeNum), [], INITIAL);
    }

    /** `curms` */
    method Curms() returns (t: nat)
      modifies this`clock
      ensures old(clock) <= clock == t
    {
      var reading: int := *;
      if reading > clock {
        clock := reading;
      }
      t := clock;
    }

    /** `ifchange_bind` on the packet of the collision check. */
    method Bind() returns (ok: bool)
      modifies ifch, ifch.daemon
      ensures ok ==> ifch.cfg == dhcpPacket && Configured() == Some(dhcpPacket.yiaddr)
      ensures ifch.inStep == (ok && old(ifch.inStep) && Plain(old(ifch.cfg), Give(dhcpPacket)))
      ensures old(ifch.Kept()) ==> ifch.Kept()
    {
      hide Intended, NoTerminator, NothingDropped, OptionsImplied, AddressImplied;
      ok := ifch.Bind(dhcpPacket);
    }

    /** `ifchange_deconfig`, which forgets the address only if it succeeds. */
    method Deconfig() returns (ok: bool)
      modifies ifch, ifch.daemon
      ensures if ok then Configured() == None else Configured() == old(Configured())
      ensures ifch.inStep == (ok && (old(ifch.ifDeconfig) ==> old(ifch.inStep)))
      ensures old(ifch.Kept()) ==> ifch.Kept()
    {
      hide OptionsImplied, AddressImplied;
      ok := ifch.Deconfig();
    }

    ghost method Record(e: Event)
      requires Traced() && Next(trace.ref, e).Some?
      modifies this`trace
      ensures Traced()
      ensures trace == old(trace).(log := old(trace.log) + [e], ref := Next(old(trace.ref), e).value)
    {
      hide Next;
      PlayAppend(settings.probeNum, trace.log, e);
      trace := trace.(log := trace.log + [e], ref := Next(trace.ref, e).value);
    }

    ghost method RecordGw(e: GwEvent)
      requires Traced() && GwNext(trace.gw, e).Some?
      modifies this`trace
      ensures Traced()
      ensures trace == old(trace).(gwLog := old(trace.gwLog) + [e], gw := GwNext(old(trace.gw), e).value)
    {
      hide Next, GwNext;
      GwAppend(trace.gwLog, e);
      trace := trace.(gwLog := trace.gwLog + [e], gw := GwNext(trace.gw, e).value);
    }
  }

  /** `nk_random_u32` */
  method Random() returns (r: U32) {
    var n: int := *;
    r := n % 0x1_0000_0000;
  }

  lemma TracedFacts(c: Client)
    requires c.Traced()
    ensures Sound(c.trace.ref) && c.trace.ref.probeNum == c.settings.probeNum
  {
    hide Sound;
    SoundPlay(c.settings.probeNum, c.trace.log);
    ProbeNumKept(c.settings.probeNum, c.trace.log);
  }

  /** Nothing that the client did is forgotten, and time does not run backwards. */
  twostate predicate Grown(c: Client)
    reads c
  {
    && old(c.clock) <= c.clock && old(c.arps) <= c.arps && old(c.tries) <= c.tries
    && old(c.trace.log) <= c.trace.log && old(c.trace.gwLog) <= c.trace.gwLog
  }

  /** The event that a reader finds in a message of the client (sections 4.3.2, 4.4.4 and 4.4.6 of RFC 2131).
      A REQUEST that names a server selects it; one without a requested address renews. */
  ghost function EventOf(now: int, m: Packet, forced: bool): (e: Option<Event>) {
    var typ, addr, server := Options.OptionMsgType(m), Options.Opt32(m, REQIP), Options.OptionServerId(m);
    if typ == DHCPDISCOVER then Some(Discover(now, m.xid))
    else if typ == DHCPREQUEST && server.Some? && addr.Some? then Some(Request(now, m.xid, addr.value, server.value))
    else if typ == DHCPREQUEST && server.None? && addr.None? then
      Some(if forced then ForcedRenew(now, m.xid, m.ciaddr) else Renew(now, m.xid, m.ciaddr))
    else if typ == DHCPREQUEST && server.None? && addr == Some(m.ciaddr) then Some(Rebind(now, m.xid, m.ciaddr))
    else if typ == DHCPDECLINE && server.Some? && addr.Some? then Some(Decline(m.xid, addr.value, server.value))
    else if typ == DHCPRELEASE && server.Some? && addr == Some(m.ciaddr) then Some(Release(m.ciaddr, server.value))
    else None
  }

  /** So many events of the log have begun a state. */
  twostate predicate Entered(c: Client, k: nat)
    reads c
  {
    c.trace.ref.entries == old(c.trace.ref.entries) + k
  }

  /** Their number is that of the log. */
  lemma EntriesOf(c: Client)
    requires c.Traced()
    ensures c.trace.ref.entries == Entries(c.settings.probeNum, c.trace.log)
  {
    EntriesCounted(c.settings.probeNum, c.trace.log);
  }

  lemma InvParts(c: Client)
    requires c.Inv()
    ensures c.Traced() && LinkedGw(c.fp, c.sentGwQuery, c.check, c.garp, Mode(c.arpOpen, c.arpIsDefense), c.trace.gw)
    ensures c.trace.ref.phase == Bound ==> SameExchange(c.cs, c.trace.ref)
  {
    hide Played, LinkedGw, HasLease, TimedLease;
  }

  lemma InvLink(c: Client)
    requires c.Inv()
    ensures Linked(c.cs, c.garp, c.dhcpPacket.yiaddr, c.Configured(), c.trace.ref, c.clock)
  {
  }

  lemma InvFrom(c: Client)
    requires c.Traced() && Linked(c.cs, c.garp, c.dhcpPacket.yiaddr, c.Configured(), c.trace.ref, c.clock)
    requires LinkedGw(c.fp, c.sentGwQuery, c.check, c.garp, Mode(c.arpOpen, c.arpIsDefense), c.trace.gw)
    ensures c.Inv()
  {
  }

  /** A bound client stays one if its lease is left alone. */
  twostate lemma StaysBoundTo(c: Client)
    requires old(c.Inv()) && old(c.trace.ref.phase) == Bound
    requires c.Traced() && c.trace.ref == old(c.trace.ref) && c.cs == old(c.cs) && c.clock >= old(c.clock)
    requires unchanged(c.ifch)
    requires LinkedGw(c.fp, c.sentGwQuery, c.check, c.garp, Mode(c.arpOpen, c.arpIsDefense), c.trace.gw)
    ensures c.Inv()
  {
    hide Played, LinkedGw, HasLease, Mode;
  }

  /** A client that checks its address goes on if neither the check nor the lease is touched. */
  twostate lemma StaysAtCheck(c: Client)
    requires old(c.Inv()) && old(c.trace.ref.phase) == Checking
    requires c.Traced() && c.trace.ref == old(c.trace.ref) && c.trace.gw == old(c.trace.gw)
    requires c.cs == old(c.cs) && c.dhcpPacket == old(c.dhcpPacket) && c.clock >= old(c.clock)
    requires c.fp == old(c.fp) && c.check == old(c.check) && c.sentGwQuery == old(c.sentGwQuery)
    requires c.arpOpen == old(c.arpOpen) && c.arpIsDefense == old(c.arpIsDefense)
    requires c.garp == old(c.garp).(totalConflicts := c.garp.totalConflicts, probeWaitTime := c.garp.probeWaitTime)
    ensures c.Inv()
  {
    hide Played, HasLease, Mode;
  }
}
