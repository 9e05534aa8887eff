/** What a call of the DHCP state machine does, as a relation between the client before and after it.

The loop of each state is a sequence of parts, for a signal, a packet, an ARP frame and the timers
(src/state.c:448-742). A part falls through to the next one, returns, or goes to another state. The
predicates here say of every part what it leaves, and put the parts together; they know nothing of
how the machine is resumed. The methods of the state machine are proved to do exactly this.
 */
module Calls {
  import opened Wire
  import opened LeaseTimes
  import opened Protocol
  import opened GatewayCheck
  import opened Machine
  import opened Arp
  import Messages
  import Options

  datatype Signal = NoSignal | SignalRenew | SignalRelease

  /** What one call of `dhcp_handle` is told, apart from whether there is a DHCP packet. */
  datatype Input = Input(
    now: nat, packet: Packet, msgtype: Byte, srcaddr: U32, arp: bool, forceFingerprint: bool,
    dhcpTimeout: bool, arpTimeout: bool, signal: Signal)

  /** How a part of `dhcp_handle` is left: it falls through, returns and will resume at a label, goes to
      the code of another state, or ends the process. */
  datatype Flow = Proceed | Yield(ok: bool, at: Label) | Goto(to: Label) | Halt

  datatype Outcome = Returned(ok: bool) | Halted

  /** The client at one moment. */
  datatype View = View(
    config: Messages.Config, settings: Settings, resume: Label, clock: nat, cs: ClientState, lease: Lease,
    garp: ArpData, fp: Fingerprint, check: Check, wakeTs: Timers, reply: Frame,
    log: seq<Event>, gwLog: seq<GwEvent>, arps: seq<ArpRequest>, tries: nat,
    programInit: bool, listening: bool, queried: bool, learning: bool, first: bool, second: bool)

  ghost function ViewOf(c: Client): View
    reads c
  {
    View(c.config, c.settings, c.resume, c.clock, c.cs, c.trace.ref.lease, c.garp, c.fp, c.check, c.wakeTs, c.reply,
         c.trace.log, c.trace.gwLog, c.arps, c.tries, c.programInit, c.listening, c.sentGwQuery,
         c.initFingerprintInProgress, c.sentFirstAnnounce, c.sentSecondAnnounce)
  }

  /** Nothing that was done is undone. */
  ghost predicate Grew(s: View, t: View) {
    && s.clock <= t.clock && s.log <= t.log && s.gwLog <= t.gwLog && s.arps <= t.arps && s.tries <= t.tries
    && s.config == t.config && s.settings == t.settings
  }

  lemma GrewNot(s: View)
    ensures Grew(s, s)
  {
  }

  lemma GrewTwice(s: View, a: View, t: View)
    requires Grew(s, a) && Grew(a, t)
    ensures Grew(s, t)
  {
  }

  /** Nothing was sent or received. */
  ghost predicate Still(s: View, t: View) {
    t.log == s.log && t.gwLog == s.gwLog && t.arps == s.arps && t.tries == s.tries && t.cs == s.cs && t.lease == s.lease
  }

  /** What is known about the network is as before. */
  ghost predicate SameNet(s: View, t: View) {
    && t.fp == s.fp && t.check == s.check && t.reply == s.reply && t.queried == s.queried
    && t.garp.pingCount == s.garp.pingCount && t.garp.gwCheckInitpings == s.garp.gwCheckInitpings
  }

  // ---------------------------------------------------------------------------
  // Packets
  // ---------------------------------------------------------------------------

  /** The server that a packet names. */
  ghost function ServerOf(p: Packet): U32 {
    var sid := Options.OptionServerId(p);
    if sid.Some? then sid.value else 0
  }

  /** The ACK that a packet makes, at the time at which its lease starts. */
  ghost function AckOf(t: int, p: Packet): Event {
    Ack(t, p.xid, p.yiaddr, ServerOf(p), EffectiveSecs(Options.OptionLeaseTime(p)))
  }

  // The message types are those of section 9.6 of RFC 2132: 2 is an OFFER, 5 an ACK and 6 a NAK.

  /** SELECTING takes an OFFER with a server id. */
  predicate TakesOffer(i: Input, dhcp: bool) {
    dhcp && i.msgtype == 2 && Options.OptionServerId(i.packet).Some?
  }

  /** REQUESTING takes an ACK of the address that was asked for. */
  predicate TakesAck(cs: ClientState, i: Input, dhcp: bool) {
    dhcp && i.msgtype == 5 && i.packet.yiaddr == cs.clientAddr && Options.OptionServerId(i.packet).Some?
  }

  /** A bound client heeds its own server, once it has begun to renew. */
  ghost predicate Timely(s: View, i: Input) {
    s.lease.T1() <= i.now && Options.OptionServerId(i.packet) == Some(s.cs.serverAddr)
  }

  // ---------------------------------------------------------------------------
  // SELECTING and REQUESTING
  // ---------------------------------------------------------------------------

  /** RELEASED is entered. */
  ghost predicate FallsAsleep(s: View, t: View) {
    && t.log == s.log + [Sleep] && t.tries == s.tries && t.arps == s.arps
    && t.cs.dhcpWakeTs == -1 && t.wakeTs == NoTimers() && !t.listening
  }

  /** The process is to end without a lease. */
  predicate Aborts(s: View) {
    s.programInit && s.cs.numDhcpRequests >= 2 && !s.settings.backgroundIfNoLease && s.settings.abortIfNoLease
  }

  /** One DISCOVER is tried, under a new id if none was sent yet. */
  ghost predicate Discovers(s: View, now: nat, t: View, ok: bool) {
    var k := s.cs.numDhcpRequests;
    var l := if k == 0 then s.log + [FreshXid(t.cs.xid)] else s.log;
    && t.tries == s.tries + 1 && t.arps == s.arps && (k > 0 ==> t.cs.xid == s.cs.xid)
    && t.log == (if ok then l + [Discover(now, t.cs.xid)] else l)
    && (if ok then t.cs.numDhcpRequests == k + 1 && now + Pause(k) <= t.cs.dhcpWakeTs < now + Pause(k) + 1000
        else t.cs == s.cs.(xid := t.cs.xid))
  }

  /** The OFFER is taken. */
  ghost predicate OfferPart(s: View, i: Input, t: View) {
    && t.tries == s.tries && t.arps == s.arps
    && t.log == s.log + [Offer(i.packet.xid, i.packet.yiaddr, ServerOf(i.packet))]
    && t.cs == s.cs.(clientAddr := i.packet.yiaddr, serverAddr := ServerOf(i.packet), srcAddr := i.srcaddr,
                     dhcpWakeTs := t.clock, numDhcpRequests := 0)
  }

  ghost predicate SelectingTurn(s: View, i: Input, dhcp: bool, t: View, f: Flow) {
    && Grew(s, t)
    && if i.signal == SignalRelease then f == Goto(AtReleased) && FallsAsleep(s, t)
       else if TakesOffer(i, dhcp) then f == Goto(AtRequesting) && OfferPart(s, i, t)
       else if !i.dhcpTimeout then f == Yield(true, AtSelecting) && t == s
       else if Aborts(s) then f == Halt && Still(s, t)
       else f.Yield? && f.at == AtSelecting && Discovers(s, i.now, t, f.ok)
  }

  /** The lease and all that belongs to it is forgotten, and the client starts over at the given time from now. */
  ghost predicate Forgets(s: View, t: View, timeout: nat) {
    && Grew(s, t) && t.log == s.log && t.arps == s.arps && t.tries == s.tries && t.listening && t.wakeTs == NoTimers()
    && t.cs == s.cs.(clientAddr := 0, numDhcpRequests := 0, dhcpWakeTs := t.clock + timeout)
    && t.resume == s.resume && t.programInit == s.programInit
  }

  lemma ForgetsGrew(s: View, a: View, t: View)
    requires Grew(s, a) && Forgets(a, t, 0)
    ensures Grew(s, t) && t.log == a.log && t.tries == a.tries && StartsOver(t, 0)
  {
  }

  /** SELECTING is to begin again, with the timer set. */
  ghost predicate StartsOver(t: View, timeout: nat) {
    t.cs.numDhcpRequests == 0 && t.cs.dhcpWakeTs == t.clock + timeout
  }

  /** One REQUEST is tried. */
  ghost predicate Asks(s: View, now: nat, t: View, ok: bool) {
    var k := s.cs.numDhcpRequests;
    && t.tries == s.tries + 1 && t.arps == s.arps
    && t.log == (if ok then s.log + [Request(now, s.cs.xid, s.cs.clientAddr, s.cs.serverAddr)] else s.log)
    && t.cs == (if ok then s.cs.(numDhcpRequests := k + 1, dhcpWakeTs := t.cs.dhcpWakeTs) else s.cs)
    && (ok ==> now + Pause(k) <= t.cs.dhcpWakeTs < now + Pause(k) + 1000)
  }

  /** No answer came, and the client starts over at once. */
  ghost predicate GivesUp(s: View, now: nat, t: View) {
    t.log == s.log + [GiveUp(now)] && t.tries == s.tries && t.arps == s.arps && StartsOver(t, 0)
  }

  /** The request timer: one REQUEST is tried, or the client starts over after five. */
  ghost predicate AskPart(s: View, i: Input, at: Label, t: View, f: Flow) {
    && Grew(s, t)
    && if !i.dhcpTimeout then f == Yield(true, at) && t == s
       else if s.cs.numDhcpRequests >= 5 then f == Goto(AtSelecting) && GivesUp(s, i.now, t)
       else f.Yield? && f.at == at && Asks(s, i.now, t, f.ok)
  }

  /** The ACK is read. */
  ghost predicate AckRead(s: View, i: Input, t: View) {
    && s.clock <= t.cs.leaseStartTime <= t.clock && t.tries == s.tries && t.arps == s.arps
    && t.log == s.log + [AckOf(t.cs.leaseStartTime, i.packet)]
    && t.cs.serverAddr == ServerOf(i.packet) && t.cs.clientAddr == s.cs.clientAddr
  }

  /** A probe for the address of the packet is sent. */
  ghost predicate SendsProbe(s: View, p: Packet, t: View) {
    && t.log == s.log + [Probe(t.garp.probeTs, p.yiaddr)] && t.tries == s.tries && t.cs == s.cs
    && t.arps == s.arps + [ArpRequest(0, p.yiaddr, true)]
    && t.wakeTs[AS_COLLISION_CHECK] == t.garp.probeTs + t.garp.probeWaitTime
  }

  /** `arp_check`: a probe is sent, or the client starts over in three seconds. */
  ghost predicate CheckStart(s: View, p: Packet, t: View, f: Flow) {
    if f == Goto(AtSelecting) then
      && t.log == s.log && t.tries == s.tries && StartsOver(t, 3000)
      && t.cs.leaseStartTime == s.cs.leaseStartTime && t.cs.serverAddr == s.cs.serverAddr
    else SendsProbe(s, p, t)
  }

  /** The ACK is taken, and the collision check begins with a probe; or the client starts over in three seconds. */
  ghost predicate AckPart(s: View, i: Input, t: View, f: Flow) {
    var a := AckOf(t.cs.leaseStartTime, i.packet);
    && s.clock <= t.cs.leaseStartTime <= t.clock && t.tries == s.tries && t.cs.serverAddr == ServerOf(i.packet)
    && if f == Yield(true, AtChecking) then
         && t.log == s.log + [a] + [Probe(t.garp.probeTs, i.packet.yiaddr)] && t.cs.clientAddr == i.packet.yiaddr
         && t.arps == s.arps + [ArpRequest(0, i.packet.yiaddr, true)]
         && t.wakeTs[AS_COLLISION_CHECK] == t.garp.probeTs + t.garp.probeWaitTime
       else f == Goto(AtSelecting) && t.log == s.log + [a] && StartsOver(t, 3000)
  }

  lemma AckStarts(s: View, i: Input, a: View, t: View, f: Flow)
    requires Grew(s, a) && AckRead(s, i, a) && Grew(a, t) && CheckStart(a, i.packet, t, f)
    requires i.packet.yiaddr == s.cs.clientAddr && (f == Goto(AtSelecting) || f == Yield(true, AtChecking))
    ensures Grew(s, t) && AckPart(s, i, t, f)
  {
  }

  ghost predicate RequestingTurn(s: View, i: Input, dhcp: bool, t: View, f: Flow) {
    if i.signal == SignalRelease then Grew(s, t) && f == Goto(AtReleased) && FallsAsleep(s, t)
    else if TakesAck(s.cs, i, dhcp) then Grew(s, t) && AckPart(s, i, t, f)
    else AskPart(s, i, AtRequesting, t, f)
  }

  // ---------------------------------------------------------------------------
  // The collision check
  // ---------------------------------------------------------------------------

  /** An ARP frame: another user of the address is declined. */
  ghost predicate CollisionPart(s: View, i: Input, t: View, f: Flow) {
    && Grew(s, t)
    && if i.arp && Collides(s.config.arp, s.cs.clientAddr, s.reply) then
         && t.tries == s.tries + 1 && t.arps == s.arps
         && if f == Goto(AtSelecting) then
              && t.log == s.log + [Decline(s.cs.xid, s.cs.clientAddr, s.cs.clientAddr)] && StartsOver(t, 0)
            else f == Yield(false, AtChecking) && t.log == s.log && t.cs == s.cs
       else f == Proceed && Still(s, t) && t.garp == s.garp && t.wakeTs == s.wakeTs
  }

  /** The address was taken. */
  ghost predicate Takes(s: View, now: nat, t: View) {
    && t.log == s.log + [Configure(now, s.cs.clientAddr)] && t.cs == s.cs.(routerAddr := t.cs.routerAddr)
    && t.tries == s.tries && !t.listening
  }

  /** The new client has asked for its network and announced itself, or will try again. */
  ghost predicate Introduces(s: View, t: View) {
    && t.log == s.log && t.cs == s.cs && t.tries == s.tries && t.listening == s.listening
    && (t.queried || t.wakeTs[AS_QUERY_GW_SEND] != -1) && (t.first || t.wakeTs[AS_ANNOUNCE] != -1)
  }

  /** Probing is over: two seconds have passed, or the number of probes was sent. */
  ghost predicate ProbingOver(s: View, now: nat) {
    s.garp.arpCheckStartTs + 2000 <= now || s.garp.probeCount >= s.settings.probeNum
  }

  /** The next probe is sent if its time has come. */
  ghost predicate ProbesAgain(s: View, now: nat, t: View, ok: bool) {
    && t.cs == s.cs && t.lease == s.lease && t.tries == s.tries
    && if now < s.garp.probeTs + s.garp.probeWaitTime then ok && Still(s, t)
       else
         && t.arps == s.arps + [ArpRequest(0, s.cs.clientAddr, ok)]
         && t.log == if ok then s.log + [Probe(t.garp.probeTs, s.cs.clientAddr)] else s.log
  }

  /** The probe timer. */
  ghost predicate ProbePart(s: View, i: Input, t: View, f: Flow) {
    && Grew(s, t)
    && if ProbingOver(s, i.now) then
         f == Halt || (f == Yield(true, AtBound) && exists a :: Grew(s, a) && Takes(s, i.now, a) && Introduces(a, t))
       else (f == Proceed || f == Yield(false, AtChecking)) && ProbesAgain(s, i.now, t, f == Proceed)
  }

  ghost predicate ProbeStep(s: View, f: Flow, i: Input, t: View, g: Flow) {
    if f == Proceed && i.arpTimeout then ProbePart(s, i, t, g) else t == s && g == f
  }

  ghost predicate AskStep(s: View, f: Flow, i: Input, at: Label, t: View, g: Flow) {
    if f == Proceed then AskPart(s, i, at, t, g) else t == s && g == f
  }

  lemma NoCollision(s: View, i: Input)
    ensures !i.arp ==> CollisionPart(s, i, s, Proceed)
  {
  }

  ghost predicate CheckingTurn(s: View, i: Input, t: View, f: Flow) {
    if i.signal == SignalRelease then Grew(s, t) && f == Goto(AtReleased) && FallsAsleep(s, t)
    else exists a, fa, b, fb :: CollisionPart(s, i, a, fa) && ProbeStep(a, fa, i, b, fb) && AskStep(b, fb, i, AtChecking, t, f)
  }

  // ---------------------------------------------------------------------------
  // BOUND
  // ---------------------------------------------------------------------------

  /** All but the logs and the sockets is as before. */
  ghost predicate Unmoved(s: View, t: View) {
    && SameNet(s, t) && t.cs == s.cs && t.lease == s.lease && t.garp == s.garp && t.wakeTs == s.wakeTs
    && t.learning == s.learning && t.first == s.first && t.second == s.second
  }

  /** A RELEASE is tried; the client sleeps if it was sent. */
  ghost predicate Releases(s: View, t: View, ok: bool) {
    && t.tries == s.tries + 1 && t.arps == s.arps
    && t.log == if ok then s.log + [Release(s.cs.clientAddr, s.cs.serverAddr)] + [Sleep] else s.log
  }

  /** A renewal is tried at once. */
  ghost predicate RenewsNow(s: View, now: nat, t: View, ok: bool) {
    && t.tries == s.tries + 1 && t.arps == s.arps && Unmoved(s, t) && t.listening
    && t.log == if ok then s.log + [ForcedRenew(now, s.cs.xid, s.cs.clientAddr)] else s.log
  }

  ghost predicate SignalPart(s: View, i: Input, t: View, f: Flow) {
    && Grew(s, t)
    && match i.signal
       case NoSignal => f == Proceed && t == s
       case SignalRenew => (f == Proceed || f == Yield(false, AtBound)) && RenewsNow(s, i.now, t, f == Proceed)
       case SignalRelease => (f == Goto(AtReleased) || f == Yield(false, AtBound)) && Releases(s, t, f == Goto(AtReleased))
  }

  /** The server rejects the lease; the client starts over in three seconds. */
  ghost predicate Rejected(s: View, t: View) {
    && t.log == s.log + [Nak(s.cs.xid, s.cs.serverAddr)] && t.tries == s.tries && t.arps == s.arps
    && StartsOver(t, 3000)
  }

  /** The lease runs anew from the time at which the ACK was read. */
  ghost predicate ExtendedBy(s: View, i: Input, t: View) {
    && s.clock <= t.cs.leaseStartTime <= t.clock && t.tries == s.tries && t.arps == s.arps
    && t.log == s.log + [AckOf(t.cs.leaseStartTime, i.packet)]
    && t.cs == s.cs.(lease := t.cs.lease, leaseStartTime := t.cs.leaseStartTime, renewTime := t.cs.renewTime,
                     rebindTime := t.cs.rebindTime, dhcpWakeTs := t.cs.dhcpWakeTs)
    && SameNet(s, t) && t.wakeTs == s.wakeTs && t.learning == s.learning && t.first == s.first && t.second == s.second
  }

  /** A new address is probed for, under the old one. */
  ghost predicate ProbesNew(s: View, i: Input, t: View, f: Flow) {
    && Grew(s, t) && (f == Proceed || f == Goto(AtSelecting)) && CheckStart(s, i.packet, t, f)
    && (f == Proceed ==> SameNet(s, t) && t.lease == s.lease && t.learning == s.learning
                         && t.first == s.first && t.second == s.second && t.wakeTs[AS_COLLISION_CHECK] != -1)
  }

  /** The probe is sent, and nothing else of the client changes. */
  ghost predicate ProbesBound(s: View, p: Packet, t: View) {
    && SendsProbe(s, p, t) && SameNet(s, t) && t.lease == s.lease && t.learning == s.learning
    && t.first == s.first && t.second == s.second && t.wakeTs[AS_COLLISION_CHECK] != -1
  }

  lemma NewAddressProbed(s: View, i: Input, t: View)
    requires Grew(s, t) && ProbesBound(s, i.packet, t)
    ensures ProbesNew(s, i, t, Proceed)
  {
  }

  lemma NewAddressNotProbed(s: View, i: Input, a: View, t: View)
    requires Grew(s, a) && a.log == s.log && a.cs == s.cs && a.tries == s.tries && Forgets(a, t, 3000)
    ensures ProbesNew(s, i, t, Goto(AtSelecting))
  {
  }

  lemma ProbesNewGrew(s: View, a: View, i: Input, t: View, f: Flow)
    requires Grew(s, a) && ProbesNew(a, i, t, f)
    ensures Grew(s, t)
  {
  }

  /** A packet: a NAK ends the lease, and an ACK extends it. An ACK of another address is probed for. */
  ghost predicate PacketPart(s: View, i: Input, t: View, f: Flow) {
    && Grew(s, t)
    && if Timely(s, i) && i.msgtype == 6 then f == Goto(AtSelecting) && Rejected(s, t)
       else if Timely(s, i) && i.msgtype == 5 then
         if i.packet.yiaddr == s.cs.clientAddr then f == Proceed && ExtendedBy(s, i, t) && !t.listening
         else exists a :: Grew(s, a) && ExtendedBy(s, i, a) && ProbesNew(a, i, t, f)
       else f == Proceed && t == s
  }

  ghost predicate PacketStep(s: View, f: Flow, i: Input, dhcp: bool, t: View, g: Flow) {
    if f == Proceed && dhcp then PacketPart(s, i, t, g) else t == s && g == f
  }

  /** Both addresses are known and are being checked. */
  predicate Checks(fp: Fingerprint, k: Check) {
    fp.gotRouterArp && fp.gotServerArp && k.running
  }

  /** Another host uses our address. Within ten seconds of the last time, and the first time, it is answered with an
      announcement. Otherwise the client gives up with a RELEASE, unless it is told not to. */
  ghost predicate Defended(s: View, t: View, f: Flow) {
    var last, now := s.garp.lastConflictTs, t.garp.lastConflictTs;
    match f
    case Proceed =>
      && s.clock <= now <= t.clock && t.garp.totalConflicts == s.garp.totalConflicts + 1
      && SameNet(s, t) && t.cs == s.cs && t.lease == s.lease && t.log == s.log && t.tries == s.tries
      && t.learning == s.learning
      && if last == 0 || now - last < 10000
         then t.arps == s.arps + [ArpRequest(s.cs.clientAddr, s.cs.clientAddr, true)] && t.wakeTs[AS_DEFENSE] == -1
         else s.settings.relentlessDefense && t.arps == s.arps && t.wakeTs[AS_DEFENSE] == s.garp.announceTs + 10000
    case Yield(ok, at) =>
      && f == Yield(false, AtBound) && (last == 0 || t.clock - last < 10000) && t.log == s.log && t.tries == s.tries
      && t.arps == s.arps + [ArpRequest(s.cs.clientAddr, s.cs.clientAddr, false)]
    case Goto(to) =>
      && to == AtSelecting && last != 0 && t.clock - last >= 10000 && !s.settings.relentlessDefense
      && t.tries == s.tries + 1 && t.arps == s.arps && StartsOver(t, 0)
      && (t.log == s.log || t.log == s.log + [Release(s.cs.clientAddr, s.cs.serverAddr)])
    case Halt => false
  }

  ghost predicate DefensePart(s: View, t: View, f: Flow) {
    && Grew(s, t)
    && if UsesOurAddress(s.config.arp, s.cs.clientAddr, s.reply) then Defended(s, t, f) else f == Proceed && t == s
  }

  /** An answer of the router or of the server is learned. */
  ghost predicate Learns(s: View, t: View, f: Flow) {
    var router, server := Answers(s.config.arp, s.cs.routerAddr, s.reply), Answers(s.config.arp, s.cs.srcAddr, s.reply);
    && (f == Proceed || f == Yield(false, AtBound))
    && t.fp == Learned(s.fp, router, server, Smac(s.reply))
    && (f == Proceed && t.fp.gotRouterArp && t.fp.gotServerArp ==> !t.learning)
    && t.log == s.log && t.arps == s.arps && t.tries == s.tries && t.cs == s.cs && t.lease == s.lease
  }

  /** It is compared with what is known; another address ends the lease. */
  ghost predicate Compares(s: View, t: View, f: Flow) {
    var router, server := Answers(s.config.arp, s.cs.routerAddr, s.reply), Answers(s.config.arp, s.cs.srcAddr, s.reply);
    && (f == Proceed || f == Yield(false, AtBound) || f == Goto(AtSelecting)) && t.log == s.log && t.tries == s.tries
    && (f == Goto(AtSelecting) <==> Differs(s.config.arp, s.cs, s.fp, s.reply))
    && (f == Goto(AtSelecting) ==> StartsOver(t, 0))
    && (f == Proceed ==>
          && t.cs == s.cs && t.lease == s.lease && t.fp == s.fp
          && t.check.routerReplied == (s.check.routerReplied || router)
          && t.check.serverReplied == (s.check.serverReplied || server)
          && t.check.running == !((router || server) && t.check.routerReplied && t.check.serverReplied))
  }

  ghost predicate FingerprintPart(s: View, t: View, f: Flow) {
    && Grew(s, t)
    && if !(s.fp.gotRouterArp && s.fp.gotServerArp) then Learns(s, t, f)
       else if s.check.running then Compares(s, t, f)
       else f == Proceed && t == s
  }

  ghost predicate FingerprintStep(s: View, f: Flow, t: View, g: Flow) {
    if f == Proceed then FingerprintPart(s, t, g) else t == s && g == f
  }

  /** An ARP frame: the address is defended, and the network learned or compared with the one that is known. */
  ghost predicate FramePart(s: View, t: View, f: Flow) {
    exists a, fa :: DefensePart(s, a, fa) && FingerprintStep(a, fa, t, f)
  }

  ghost predicate FrameStep(s: View, f: Flow, i: Input, t: View, g: Flow) {
    if f == Proceed && i.arp then FramePart(s, t, g) else t == s && g == f
  }

  ghost predicate EventsTurn(s: View, i: Input, dhcp: bool, t: View, f: Flow) {
    exists a, fa, b, fb :: SignalPart(s, i, a, fa) && PacketStep(a, fa, i, dhcp, b, fb) && FrameStep(b, fb, i, t, f)
  }

  /** A check has used up its pings. */
  predicate OutOfPings(queried: bool, fp: Fingerprint, k: Check, g: ArpData) {
    queried && Checks(fp, k) && g.pingCount >= g.gwCheckInitpings + 6
  }

  /** The timers of announcement and defence. */
  ghost predicate AnnounceDue(s: View, now: nat, t: View) {
    && Grew(s, t) && SameNet(s, t) && t.cs == s.cs && t.lease == s.lease && t.log == s.log && t.gwLog == s.gwLog
    && t.tries == s.tries && t.garp.pingTs == s.garp.pingTs && t.learning == s.learning
    && t.wakeTs[AS_QUERY_GW_SEND] == s.wakeTs[AS_QUERY_GW_SEND]
    && if s.first && s.second then
         && t.wakeTs == s.wakeTs[AS_DEFENSE := -1]
         && |t.arps| == |s.arps| + (if s.wakeTs[AS_DEFENSE] == -1 then 0 else 1)
       else if s.wakeTs[AS_ANNOUNCE] == -1 || now < s.wakeTs[AS_ANNOUNCE] then t.arps == s.arps && t.wakeTs == s.wakeTs
       else
         && |t.arps| == |s.arps| + 1 && t.wakeTs == s.wakeTs[AS_ANNOUNCE := t.wakeTs[AS_ANNOUNCE]]
         && t.arps[|s.arps|].sip == t.arps[|s.arps|].dip == s.cs.clientAddr
         && t.first == (s.first || t.arps[|s.arps|].sent)
         && t.second == (if t.arps[|s.arps|].sent then s.first || s.second else s.second)
         && t.wakeTs[AS_ANNOUNCE] == if t.arps[|s.arps|].sent && t.second then -1 else t.clock + 5000
  }

  /** Whom the timer of the query or of the check asks again, five seconds after the last time. */
  ghost predicate AsksAgain(s: View, now: nat, t: View, ok: bool, router: bool, server: bool) {
    && t.log == s.log && t.tries == s.tries && t.cs == s.cs && t.lease == s.lease && t.fp == s.fp && t.check == s.check
    && (ok ==> t.arps == s.arps + if now < s.garp.pingTs + 5000 then [] else PingsOf(s.cs, router, server))
    && (!ok ==> now >= s.garp.pingTs + 5000 && |t.arps| > |s.arps|)
  }

  /** The timers of the query for the network and of the check of it; a check without an answer is given up. */
  ghost predicate FingerprintDue(s: View, now: nat, t: View, f: Flow) {
    && Grew(s, t)
    && if !s.queried then
         && f == Proceed && t.log == s.log && t.tries == s.tries && t.cs == s.cs && t.lease == s.lease
         && if s.wakeTs[AS_QUERY_GW_SEND] == -1 || now < s.wakeTs[AS_QUERY_GW_SEND] then t == s
            else t.wakeTs[AS_QUERY_GW_SEND] == if t.queried then -1 else t.clock + 5000
       else if !(s.fp.gotRouterArp && s.fp.gotServerArp) then
         && (f == Proceed || f == Yield(false, AtBound))
         && AsksAgain(s, now, t, f == Proceed, !s.fp.gotRouterArp, !s.fp.gotServerArp)
       else if !s.check.running then f == Proceed && t == s
       else if s.garp.pingCount >= s.garp.gwCheckInitpings + 6 then
         f == Goto(AtSelecting) && t.log == s.log && t.tries == s.tries && StartsOver(t, 0)
       else
         && (f == Proceed || f == Yield(false, AtBound))
         && AsksAgain(s, now, t, f == Proceed, !s.check.routerReplied, !s.check.serverReplied)
  }

  /** An ARP timer. */
  ghost predicate DuePart(s: View, i: Input, t: View, f: Flow) {
    exists a :: AnnounceDue(s, i.now, a) && FingerprintDue(a, i.now, t, f)
  }

  ghost predicate DueStep(s: View, i: Input, t: View, f: Flow) {
    if i.arpTimeout then DuePart(s, i, t, f) else t == s && f == Proceed
  }

  /** There is no gateway to check a lease against. */
  predicate NoGateway(cs: ClientState) {
    cs.routerAddr == 0 || cs.serverAddr == 0
  }

  /** A check begins with a ping to the server and one to the router. */
  ghost predicate BeginsCheck(s: View, t: View) {
    && t.log == s.log && t.tries == s.tries && t.cs == s.cs && t.lease == s.lease
    && t.check == Check(true, false, false) && t.gwLog == s.gwLog + [Open(Basic)] + [Begin(2, true)]
    && t.arps == s.arps + [PingOf(s.cs, s.cs.srcAddr)] + [PingOf(s.cs, s.cs.routerAddr)]
  }

  /** The carrier is back: the network is checked, or the lease given up if there is nothing to check. */
  ghost predicate CarrierPart(s: View, i: Input, t: View, f: Flow) {
    && Grew(s, t) && t.tries == s.tries && t.log == s.log
    && if NoGateway(s.cs) then
         || (f == Yield(false, AtDeconfigFailed) && t == s)
         || (f == Goto(AtSelecting) && Forgets(s, t, 0))
       else if s.learning then f == Halt && t == s
       else if f == Proceed then BeginsCheck(s, t)
       else f == Yield(false, AtBound) && t.cs == s.cs
  }

  ghost predicate CarrierStep(s: View, f: Flow, i: Input, t: View, g: Flow) {
    if f == Proceed && i.forceFingerprint then CarrierPart(s, i, t, g) else t == s && g == f
  }

  /** The lease timer. */
  ghost predicate TimerPart(s: View, i: Input, t: View, f: Flow) {
    var act := DispatchAction(s.lease, i.now);
    && Grew(s, t) && t.arps == s.arps
    && if !i.dhcpTimeout then f == Yield(true, AtBound) && Still(s, t)
       else if act == Drop then
         && f == Goto(AtSelecting) && t.log == s.log + [Expire(i.now)] && t.tries == s.tries && StartsOver(t, 0)
       else
         && f.Yield? && f.at == AtBound && (act == Reschedule ==> f.ok)
         && t.tries == s.tries + (if act == Reschedule then 0 else 1)
         && t.cs == (if f.ok then s.cs.(dhcpWakeTs := t.cs.dhcpWakeTs) else s.cs)
         && t.log == (if !f.ok || act == Reschedule then s.log
                      else if act == Unicast then s.log + [Renew(i.now, s.cs.xid, s.cs.clientAddr)]
                      else s.log + [Rebind(i.now, s.cs.xid, s.cs.clientAddr)])
         && (f.ok ==> exists n: nat {:trigger NextWake(s.lease, i.now, n)} ::
                        n < 20 && t.cs.dhcpWakeTs == NextWake(s.lease, i.now, n))
  }

  ghost predicate TimerStep(s: View, f: Flow, i: Input, t: View, g: Flow) {
    if f == Proceed then TimerPart(s, i, t, g) else t == s && g == f
  }

  ghost predicate TimersTurn(s: View, i: Input, t: View, f: Flow) {
    exists a, fa, b, fb :: DueStep(s, i, a, fa) && CarrierStep(a, fa, i, b, fb) && TimerStep(b, fb, i, t, f)
  }

  ghost predicate TimersStep(s: View, f: Flow, i: Input, t: View, g: Flow) {
    if f == Proceed then TimersTurn(s, i, t, g) else t == s && g == f
  }

  ghost predicate BoundTurn(s: View, i: Input, dhcp: bool, t: View, f: Flow) {
    exists a, fa :: EventsTurn(s, i, dhcp, a, fa) && TimersStep(a, fa, i, t, f)
  }

  // ---------------------------------------------------------------------------
  // RELEASED, and the whole call
  // ---------------------------------------------------------------------------

  ghost predicate ReleasedTurn(s: View, i: Input, t: View, f: Flow) {
    && Grew(s, t) && t.log == s.log && t.arps == s.arps && t.tries == s.tries
    && if i.signal == SignalRenew then f == Goto(AtSelecting) && t.listening && StartsOver(t, 0)
       else f == Yield(true, AtReleased) && t == s
  }

  /** One turn of the loop of a state. */
  ghost predicate Turn(at: Label, s: View, i: Input, dhcp: bool, t: View, f: Flow) {
    match at
    case AtSelecting => SelectingTurn(s, i, dhcp, t, f)
    case AtRequesting => RequestingTurn(s, i, dhcp, t, f)
    case AtChecking => CheckingTurn(s, i, t, f)
    case AtBound => BoundTurn(s, i, dhcp, t, f)
    case AtReleased => ReleasedTurn(s, i, t, f)
    case _ => false
  }

  /** The label `reinit` is passed. */
  ghost function Restarted(s: View, x: U32): View {
    s.(cs := s.cs.(xid := x), log := s.log + [Restart(x)])
  }

  /** The call resumes with the client `t` in the code of `at`. A failed deconfiguration is followed by a restart,
      for which no packet is left. */
  ghost predicate Resumes(s: View, sevDhcp: bool, t: View, at: Label, dhcp: bool) {
    match s.resume
    case AtStart => at == AtSelecting && dhcp == sevDhcp && t == Restarted(s, t.cs.xid)
    case AtDeconfigFailed => at == AtSelecting && !dhcp && exists a :: Forgets(s, a, 0) && t == Restarted(a, t.cs.xid)
    case _ => at == s.resume && dhcp == sevDhcp && t == s
  }

  ghost predicate FirstTurn(s: View, i: Input, sevDhcp: bool, t: View, f: Flow) {
    exists a, at, dhcp :: Resumes(s, sevDhcp, a, at, dhcp) && Turn(at, a, i, dhcp, t, f)
  }

  /** A goto arrives at the code of `to`. */
  ghost predicate Arrives(s: View, to: Label, t: View) {
    if to == AtSelecting then t == Restarted(s, t.cs.xid) else t == s
  }

  /** The code that is run behind a goto; no packet is left for it. */
  ghost predicate NextTurn(s: View, f: Flow, i: Input, t: View, g: Flow) {
    match f
    case Goto(to) => exists a :: Arrives(s, to, a) && Turn(to, a, i, false, t, g)
    case _ => t == s && g == f
  }

  lemma NoNextTurn(s: View, f: Flow, i: Input)
    ensures !f.Goto? ==> NextTurn(s, f, i, s, f)
  {
  }

  /** The call returns, and stores where to resume. */
  ghost predicate Ends(s: View, f: Flow, t: View, r: Outcome) {
    match f
    case Yield(ok, at) => r == Returned(ok) && t == s.(resume := at)
    case Halt => r == Halted && t == s
    case _ => false
  }

  /** One turn of the loop that is resumed, and another one behind a goto. */
  ghost predicate Runs(s: View, i: Input, dhcp: bool, t: View, f: Flow) {
    exists a, fa :: FirstTurn(s, i, dhcp, a, fa) && NextTurn(a, fa, i, t, f)
  }

  /** A call of `dhcp_handle`. */
  ghost predicate Called(s: View, i: Input, dhcp: bool, t: View, r: Outcome) {
    exists a, f :: Runs(s, i, dhcp, a, f) && Ends(a, f, t, r)
  }

  // ---------------------------------------------------------------------------
  // What a caller sees
  // ---------------------------------------------------------------------------

  /** The log goes on with the ACK that the packet makes. */
  ghost predicate LogsAck(s: View, i: Input, t: View) {
    var k := |s.log|;
    k < |t.log| && s.log <= t.log && t.log[k].Ack? && t.log[k] == AckOf(t.log[k].t, i.packet) && s.clock <= t.log[k].t <= t.clock
  }

  lemma LogsAckLater(s: View, i: Input, a: View, t: View)
    requires LogsAck(s, i, a) && Grew(a, t)
    ensures LogsAck(s, i, t)
  {
    hide AckOf;
    assert t.log[|s.log|] == a.log[|s.log|];
  }

  lemma PacketLogs(s: View, i: Input, t: View, f: Flow)
    requires PacketPart(s, i, t, f) && Timely(s, i) && i.msgtype == 5
    ensures LogsAck(s, i, t)
  {
    hide Options.OptionServerId, Options.OptionLeaseTime, Timely, SameNet, CheckStart;
    if i.packet.yiaddr != s.cs.clientAddr {
      var a :| Grew(s, a) && ExtendedBy(s, i, a) && ProbesNew(a, i, t, f);
      LogsAckLater(s, i, a, t);
    }
  }

  lemma AckPartLogs(s: View, i: Input, t: View, f: Flow)
    requires Grew(s, t) && AckPart(s, i, t, f)
    ensures LogsAck(s, i, t)
    ensures f == Yield(true, AtChecking) ==>
              |t.log| == |s.log| + 2 && t.log[|s.log| + 1] == Probe(t.garp.probeTs, i.packet.yiaddr)
    ensures f != Yield(true, AtChecking) ==> f == Goto(AtSelecting) && |t.log| == |s.log| + 1 && t.cs.numDhcpRequests == 0
  {
    hide Options.OptionServerId, Options.OptionLeaseTime;
  }

  lemma RequestingFirst(s: View, i: Input, dhcp: bool, t: View, f: Flow)
    requires FirstTurn(s, i, dhcp, t, f) && s.resume == AtRequesting
    ensures RequestingTurn(s, i, dhcp, t, f)
  {
    hide SelectingTurn, RequestingTurn, CheckingTurn, BoundTurn, ReleasedTurn;
  }

  lemma BoundFirst(s: View, i: Input, dhcp: bool, t: View, f: Flow)
    requires FirstTurn(s, i, dhcp, t, f) && s.resume == AtBound
    ensures BoundTurn(s, i, dhcp, t, f)
  {
    hide SelectingTurn, RequestingTurn, CheckingTurn, BoundTurn, ReleasedTurn;
  }

  lemma FrameGrew(s: View, f: Flow, i: Input, t: View, g: Flow)
    requires FrameStep(s, f, i, t, g)
    ensures Grew(s, t)
  {
    hide Defended, Learns, Compares;
    if f == Proceed && i.arp {
      var a, fa :| DefensePart(s, a, fa) && FingerprintStep(a, fa, t, g);
    }
  }

  lemma EventsGrew(s: View, i: Input, dhcp: bool, t: View, f: Flow)
    requires EventsTurn(s, i, dhcp, t, f)
    ensures Grew(s, t)
  {
    hide FrameStep, Timely, Rejected, ExtendedBy, ProbesNew, RenewsNow, Releases;
    var a, fa, b, fb :| SignalPart(s, i, a, fa) && PacketStep(a, fa, i, dhcp, b, fb) && FrameStep(b, fb, i, t, f);
    FrameGrew(b, fb, i, t, f);
  }

  lemma DueGrew(s: View, i: Input, a: View, fa: Flow, t: View, f: Flow)
    requires DueStep(s, i, a, fa) && CarrierStep(a, fa, i, t, f)
    ensures Grew(s, t)
  {
    hide AsksAgain, Forgets, BeginsCheck;
    if i.arpTimeout {
      var d :| AnnounceDue(s, i.now, d) && FingerprintDue(d, i.now, a, fa);
    }
  }

  lemma TimersGrew(s: View, f: Flow, i: Input, t: View, g: Flow)
    requires TimersStep(s, f, i, t, g)
    ensures Grew(s, t)
  {
    hide DueStep, CarrierStep, DispatchAction;
    if f == Proceed {
      var a, fa, b, fb :| DueStep(s, i, a, fa) && CarrierStep(a, fa, i, b, fb) && TimerStep(b, fb, i, t, g);
      DueGrew(s, i, a, fa, b, fb);
    }
  }

  lemma TurnGrew(at: Label, s: View, i: Input, dhcp: bool, t: View, f: Flow)
    requires Turn(at, s, i, dhcp, t, f)
    ensures Grew(s, t)
  {
    hide FallsAsleep, OfferPart, Discovers, AckPart, Asks, GivesUp, EventsTurn, TimersStep, Still;
    if at == AtChecking && i.signal != SignalRelease {
      var a, fa, b, fb :| CollisionPart(s, i, a, fa) && ProbeStep(a, fa, i, b, fb) && AskStep(b, fb, i, AtChecking, t, f);
    } else if at == AtBound {
      var a, fa :| EventsTurn(s, i, dhcp, a, fa) && TimersStep(a, fa, i, t, f);
      EventsGrew(s, i, dhcp, a, fa);
      TimersGrew(a, fa, i, t, f);
    }
  }

  lemma NextGrew(s: View, f: Flow, i: Input, t: View, g: Flow)
    requires NextTurn(s, f, i, t, g)
    ensures Grew(s, t)
  {
    hide Turn;
    if f.Goto? {
      var a :| Arrives(s, f.to, a) && Turn(f.to, a, i, false, t, g);
      TurnGrew(f.to, a, i, false, t, g);
    }
  }

  /** What a restart writes. */
  lemma RestartLogs(s: View, i: Input, t: View, f: Flow)
    requires NextTurn(s, Goto(AtSelecting), i, t, f)
    ensures Grew(s, t) && |t.log| > |s.log| && t.log[|s.log|].Restart?
    ensures i.signal != SignalRelease && s.cs.numDhcpRequests == 0 ==> f.Yield? && f.at == AtSelecting
  {
    hide FallsAsleep, OfferPart, Discovers;
    var a :| Arrives(s, AtSelecting, a) && Turn(AtSelecting, a, i, false, t, f);
    assert a.log[|s.log|].Restart?;
  }

  /** In REQUESTING an ACK of the address is logged, and then a probe for it as the collision check begins, or
      a restart if no probe can be sent. */
  lemma AckTaken(s: View, i: Input, dhcp: bool, t: View, r: Outcome)
    requires Called(s, i, dhcp, t, r) && s.resume == AtRequesting && i.signal != SignalRelease && TakesAck(s.cs, i, dhcp)
    ensures LogsAck(s, i, t) && |t.log| >= |s.log| + 2
    ensures if t.resume == AtChecking
            then r == Returned(true) && |t.log| == |s.log| + 2 && t.log[|s.log| + 1] == Probe(t.garp.probeTs, i.packet.yiaddr)
            else r.Returned? && t.resume == AtSelecting && t.log[|s.log| + 1].Restart?
  {
    hide AskPart, AckPart, TakesAck, LogsAck, Grew, FirstTurn, NextTurn, Turn, Arrives;
    var b, fb :| Runs(s, i, dhcp, b, fb) && Ends(b, fb, t, r);
    var a, fa :| FirstTurn(s, i, dhcp, a, fa) && NextTurn(a, fa, i, b, fb);
    RequestingFirst(s, i, dhcp, a, fa);
    AckPartLogs(s, i, a, fa);
    if fa == Goto(AtSelecting) {
      RestartLogs(a, i, b, fb);
      LogsAckLater(s, i, a, b);
    } else {
      StaysPut(a, fa, i, b, fb);
    }
    SameLog(s, i, b, fb, t, r);
  }

  lemma StaysPut(s: View, f: Flow, i: Input, t: View, g: Flow)
    requires NextTurn(s, f, i, t, g) && !f.Goto?
    ensures t == s && g == f
  {
  }

  lemma SameLog(s: View, i: Input, b: View, f: Flow, t: View, r: Outcome)
    requires Ends(b, f, t, r) && LogsAck(s, i, b)
    ensures LogsAck(s, i, t) && t.log == b.log && t.garp == b.garp
  {
    hide AckOf;
  }

  /** In BOUND an ACK of the own server is logged, once the client has begun to renew. */
  lemma AckExtends(s: View, i: Input, t: View, r: Outcome)
    requires Called(s, i, true, t, r) && s.resume == AtBound && i.signal == NoSignal
    requires Timely(s, i) && i.msgtype == 5
    ensures LogsAck(s, i, t)
  {
    hide Timely, LogsAck, FrameStep, TimersStep, PacketPart, FirstTurn, NextTurn, Grew, Turn;
    var b, fb :| Runs(s, i, true, b, fb) && Ends(b, fb, t, r);
    var a, fa :| FirstTurn(s, i, true, a, fa) && NextTurn(a, fa, i, b, fb);
    BoundFirst(s, i, true, a, fa);
    var e, fe :| EventsTurn(s, i, true, e, fe) && TimersStep(e, fe, i, a, fa);
    var d, fd, p, fp :| SignalPart(s, i, d, fd) && PacketStep(d, fd, i, true, p, fp) && FrameStep(p, fp, i, e, fe);
    PacketLogs(s, i, p, fp);
    FrameGrew(p, fp, i, e, fe);
    LogsAckLater(s, i, p, e);
    TimersGrew(e, fe, i, a, fa);
    LogsAckLater(s, i, e, a);
    NextGrew(a, fa, i, b, fb);
    LogsAckLater(s, i, a, b);
    SameLog(s, i, b, fb, t, r);
  }

  /** A NAK of it ends the lease. */
  lemma NakEnds(s: View, i: Input, t: View, r: Outcome)
    requires Called(s, i, true, t, r) && s.resume == AtBound && i.signal == NoSignal
    requires Timely(s, i) && i.msgtype == 6
    ensures r.Returned? && t.resume == AtSelecting
    ensures |t.log| >= |s.log| + 2 && s.log <= t.log && t.log[|s.log|] == Nak(s.cs.xid, s.cs.serverAddr)
    ensures t.log[|s.log| + 1].Restart?
  {
    hide Timely, FirstTurn, NextTurn, Turn, Arrives, FramePart, TimersTurn;
    var b, fb :| Runs(s, i, true, b, fb) && Ends(b, fb, t, r);
    var a, fa :| FirstTurn(s, i, true, a, fa) && NextTurn(a, fa, i, b, fb);
    BoundFirst(s, i, true, a, fa);
    var e, fe :| EventsTurn(s, i, true, e, fe) && TimersStep(e, fe, i, a, fa);
    var d, fd, p, fp :| SignalPart(s, i, d, fd) && PacketStep(d, fd, i, true, p, fp) && FrameStep(p, fp, i, e, fe);
    RestartLogs(a, i, b, fb);
  }

  /** The events leave the lease alone unless there is a packet. */
  lemma EventsKeepLease(s: View, i: Input, t: View)
    requires EventsTurn(s, i, false, t, Proceed)
    ensures t.lease == s.lease && t.cs == s.cs
  {
    var a, fa, b, fb :| SignalPart(s, i, a, fa) && PacketStep(a, fa, i, false, b, fb) && FrameStep(b, fb, i, t, Proceed);
    hide Grew, SameNet, SignalPart, PacketStep;
    if i.arp {
      var d, fd :| DefensePart(b, d, fd) && FingerprintStep(d, fd, t, Proceed);
    }
  }

  lemma TimersKeepLease(s: View, i: Input, t: View)
    requires exists a, fa :: DueStep(s, i, a, fa) && CarrierStep(a, fa, i, t, Proceed)
    ensures t.lease == s.lease && t.cs == s.cs
  {
    hide Grew;
    var a, fa :| DueStep(s, i, a, fa) && CarrierStep(a, fa, i, t, Proceed);
    if i.arpTimeout {
      var d :| AnnounceDue(s, i.now, d) && FingerprintDue(d, i.now, a, fa);
    }
  }

  /** The events of a turn never return with success. */
  lemma EventsProceed(s: View, i: Input, dhcp: bool, t: View, at: Label)
    requires EventsTurn(s, i, dhcp, t, Yield(true, at))
    ensures false
  {
    hide Grew, SameNet, Timely, Rejected, ExtendedBy, Answers, Learned, Differs;
    var f := Yield(true, at);
    var a, fa, b, fb :| SignalPart(s, i, a, fa) && PacketStep(a, fa, i, dhcp, b, fb) && FrameStep(b, fb, i, t, f);
    if i.arp && fb == Proceed {
      var d, fd :| DefensePart(b, d, fd) && FingerprintStep(d, fd, t, f);
    }
  }

  /** A call that ends in BOUND has not gone to another state. */
  lemma BoundToBound(s: View, i: Input, dhcp: bool, b: View, ok: bool)
    requires Runs(s, i, dhcp, b, Yield(ok, AtBound)) && s.resume == AtBound
    ensures BoundTurn(s, i, dhcp, b, Yield(ok, AtBound))
  {
    hide FirstTurn, EventsTurn, TimersTurn, Arrives, Grew, FallsAsleep, OfferPart, Discovers, AckPart, Asks, GivesUp;
    var f := Yield(ok, AtBound);
    var a, fa :| FirstTurn(s, i, dhcp, a, fa) && NextTurn(a, fa, i, b, f);
    BoundFirst(s, i, dhcp, a, fa);
    if fa.Goto? {
      BoundGoto(s, i, dhcp, a, fa);
    }
  }

  lemma EventsGoto(s: View, i: Input, dhcp: bool, t: View, to: Label)
    requires EventsTurn(s, i, dhcp, t, Goto(to))
    ensures to == AtSelecting || to == AtReleased
  {
    hide Grew, SameNet, Timely, Rejected, ExtendedBy, Answers, Learned, Differs, CheckStart;
    var f := Goto(to);
    var a, fa, b, fb :| SignalPart(s, i, a, fa) && PacketStep(a, fa, i, dhcp, b, fb) && FrameStep(b, fb, i, t, f);
    if i.arp && fb == Proceed {
      var d, fd :| DefensePart(b, d, fd) && FingerprintStep(d, fd, t, f);
    }
  }

  lemma TimersGoto(s: View, i: Input, t: View, to: Label)
    requires TimersTurn(s, i, t, Goto(to))
    ensures to == AtSelecting
  {
    hide Grew, Still, DispatchAction, AsksAgain, Forgets, BeginsCheck;
    var a, fa, b, fb :| DueStep(s, i, a, fa) && CarrierStep(a, fa, i, b, fb) && TimerStep(b, fb, i, t, Goto(to));
  }

  lemma BoundGoto(s: View, i: Input, dhcp: bool, t: View, f: Flow)
    requires BoundTurn(s, i, dhcp, t, f) && f.Goto?
    ensures f.to == AtSelecting || f.to == AtReleased
  {
    hide EventsTurn, TimersTurn;
    var a, fa :| EventsTurn(s, i, dhcp, a, fa) && TimersStep(a, fa, i, t, f);
    if fa == Proceed {
      TimersGoto(a, i, t, f.to);
    } else {
      EventsGoto(s, i, dhcp, a, f.to);
    }
  }

  /** If a call in BOUND without a packet succeeds there after the lease timer has fired, that was not the end of the
      lease, and between T1 and T2 a renewal was sent last, and between T2 and expiry a rebinding. */
  lemma TimerSends(s: View, i: Input, t: View)
    requires Called(s, i, false, t, Returned(true)) && s.resume == AtBound && t.resume == AtBound && i.dhcpTimeout
    ensures var act, k := DispatchAction(s.lease, i.now), |t.log| - 1;
            && act != Drop
            && (act == Unicast ==> k >= 0 && t.log[k] == Renew(i.now, s.cs.xid, s.cs.clientAddr))
            && (act == Broadcast ==> k >= 0 && t.log[k] == Rebind(i.now, s.cs.xid, s.cs.clientAddr))
            && (act != Reschedule ==> t.tries > s.tries)
  {
    hide Runs, EventsTurn, DueStep, CarrierStep, DispatchAction;
    var b, f :| Runs(s, i, false, b, f) && Ends(b, f, t, Returned(true));
    BoundToBound(s, i, false, b, true);
    var e, fe :| EventsTurn(s, i, false, e, fe) && TimersStep(e, fe, i, b, f);
    if fe != Proceed {
      EventsProceed(s, i, false, e, AtBound);
      assert false;
    }
    EventsGrew(s, i, false, e, fe);
    EventsKeepLease(s, i, e);
    var a, fa, d, fd :| DueStep(e, i, a, fa) && CarrierStep(a, fa, i, d, fd) && TimerStep(d, fd, i, b, f);
    if fd != Proceed {
      TimersProceed(e, i, a, fa, d);
      assert false;
    }
    TimersKeepLease(e, i, d);
    DueGrew(e, i, a, fa, d, fd);
  }

  lemma TimersProceed(s: View, i: Input, a: View, fa: Flow, t: View)
    requires DueStep(s, i, a, fa) && CarrierStep(a, fa, i, t, Yield(true, AtBound))
    ensures false
  {
    hide Grew, AsksAgain, Forgets, BeginsCheck;
  }

  /** A lease timer that fires alone, exactly. */
  lemma LoneTimer(s: View, i: Input, t: View, r: Outcome)
    requires Called(s, i, false, t, r) && s.resume == AtBound && i.dhcpTimeout
    requires i.signal == NoSignal && !i.arp && !i.arpTimeout && !i.forceFingerprint
    ensures DispatchAction(s.lease, i.now) == Drop ==>
              && t.resume == AtSelecting && |t.log| >= |s.log| + 2 && s.log <= t.log
              && t.log[|s.log|] == Expire(i.now) && t.log[|s.log| + 1].Restart?
    ensures DispatchAction(s.lease, i.now) != Drop ==>
              r.Returned? && t.resume == AtBound && TimerPart(s, i, t, Yield(r.ok, AtBound))
  {
    hide FirstTurn, NextTurn, TimerPart, Arrives, Turn;
    var b, fb :| Runs(s, i, false, b, fb) && Ends(b, fb, t, r);
    var a, fa :| FirstTurn(s, i, false, a, fa) && NextTurn(a, fa, i, b, fb);
    BoundFirst(s, i, false, a, fa);
    LoneTurn(s, i, a, fa);
    TimerFlow(s, i, a, fa);
    if fa.Goto? {
      RestartLogs(a, i, b, fb);
    } else {
      StaysPut(a, fa, i, b, fb);
      TimerResume(s, i, a, fa);
    }
  }

  lemma TimerResume(s: View, i: Input, t: View, f: Flow)
    requires TimerPart(s, i, t, f)
    ensures TimerPart(s, i, t.(resume := AtBound), f)
  {
    hide DispatchAction;
  }

  lemma LoneTurn(s: View, i: Input, t: View, f: Flow)
    requires BoundTurn(s, i, false, t, f)
    requires i.signal == NoSignal && !i.arp && !i.arpTimeout && !i.forceFingerprint
    ensures TimerPart(s, i, t, f)
  {
    hide TimerPart, Grew;
    var a, fa :| EventsTurn(s, i, false, a, fa) && TimersStep(a, fa, i, t, f);
  }

  lemma TimerFlow(s: View, i: Input, t: View, f: Flow)
    requires TimerPart(s, i, t, f) && i.dhcpTimeout
    ensures DispatchAction(s.lease, i.now) == Drop ==>
              f == Goto(AtSelecting) && t.log == s.log + [Expire(i.now)] && t.cs.numDhcpRequests == 0
    ensures DispatchAction(s.lease, i.now) != Drop ==> f.Yield? && f.at == AtBound
  {
    hide DispatchAction;
  }

  /** What must follow from packets and from the lease timer, whatever else a call is told. */
  ghost predicate Heeded(s: View, i: Input, dhcp: bool, t: View, r: Outcome) {
    var k, act := |s.log|, DispatchAction(s.lease, i.now);
    && s.log <= t.log
    // An ACK in REQUESTING is logged with the packet's address, server and lease, and then probed for or given up.
    && (s.resume == AtRequesting && i.signal != SignalRelease && TakesAck(s.cs, i, dhcp) ==>
          && LogsAck(s, i, t) && |t.log| >= k + 2
          && if t.resume == AtChecking
             then r == Returned(true) && t.log[k + 1..] == [Probe(t.garp.probeTs, i.packet.yiaddr)]
             else r.Returned? && t.resume == AtSelecting && t.log[k + 1].Restart?)
    // In BOUND an ACK of the own server extends the lease, and a NAK ends it.
    && (s.resume == AtBound && i.signal == NoSignal && dhcp && i.msgtype == 5 && Timely(s, i) ==> LogsAck(s, i, t))
    && (s.resume == AtBound && i.signal == NoSignal && dhcp && i.msgtype == 6 && Timely(s, i) ==>
          && r.Returned? && t.resume == AtSelecting && |t.log| >= k + 2
          && t.log[k] == Nak(s.cs.xid, s.cs.serverAddr) && t.log[k + 1].Restart?)
    // A lease timer that has fired was served last if the client is still bound.
    && (s.resume == AtBound && t.resume == AtBound && r == Returned(true) && i.dhcpTimeout && !dhcp ==>
          && act != Drop && (act != Reschedule ==> t.tries > s.tries && t.log != [])
          && (act == Unicast ==> t.log[|t.log| - 1] == Renew(i.now, s.cs.xid, s.cs.clientAddr))
          && (act == Broadcast ==> t.log[|t.log| - 1] == Rebind(i.now, s.cs.xid, s.cs.clientAddr)))
  }

  lemma CallGrew(s: View, i: Input, dhcp: bool, t: View, r: Outcome)
    requires Called(s, i, dhcp, t, r)
    ensures s.log <= t.log
  {
    hide FirstTurn, NextTurn, Turn;
    var b, fb :| Runs(s, i, dhcp, b, fb) && Ends(b, fb, t, r);
    var a, fa :| FirstTurn(s, i, dhcp, a, fa) && NextTurn(a, fa, i, b, fb);
    FirstGrew(s, i, dhcp, a, fa);
    NextGrew(a, fa, i, b, fb);
  }

  lemma FirstGrew(s: View, i: Input, dhcp: bool, t: View, f: Flow)
    requires FirstTurn(s, i, dhcp, t, f)
    ensures Grew(s, t)
  {
    hide Turn;
    var a, at, d :| Resumes(s, dhcp, a, at, d) && Turn(at, a, i, d, t, f);
    TurnGrew(at, a, i, d, t, f);
  }

  /** Every call heeds them. */
  lemma CallHeeds(s: View, i: Input, dhcp: bool, t: View, r: Outcome)
    requires Called(s, i, dhcp, t, r)
    ensures Heeded(s, i, dhcp, t, r)
  {
    hide Called, Timely, TakesAck, LogsAck, DispatchAction;
    CallGrew(s, i, dhcp, t, r);
    if s.resume == AtRequesting && i.signal != SignalRelease && TakesAck(s.cs, i, dhcp) {
      AckTaken(s, i, dhcp, t, r);
    }
    if s.resume == AtBound && i.signal == NoSignal && dhcp && Timely(s, i) {
      if i.msgtype == 5 {
        AckExtends(s, i, t, r);
      } else if i.msgtype == 6 {
        NakEnds(s, i, t, r);
      }
    }
    if s.resume == AtBound && t.resume == AtBound && r == Returned(true) && i.dhcpTimeout && !dhcp {
      TimerSends(s, i, t);
    }
  }
}
