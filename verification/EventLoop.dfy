/** The loop that feeds the state machine (src/ndhc.c:256-393, src/dhcp.c:342-416). */
module EventLoop {
  import opened Wire
  import opened LeaseTimes
  import opened Protocol
  import opened GatewayCheck
  import opened Machine
  import opened Arp
  import opened Calls
  import opened State
  import Bpf
  import Messages
  import Ifchange
  import Options

  // ---------------------------------------------------------------------------
  // Which packets get through
  // ---------------------------------------------------------------------------

  /** The size of a message without its options. */
  const HEADER_SIZE: nat := 240

  /** `validate_dhcp_packet`, which gives the type of a message for this client. The client id of a reply may
      be cut short or go on, but it may not differ. */
  function ValidateDhcpPacket(cfg: Messages.Config, xid: U32, len: nat, p: Packet): (r: Option<Byte>)
    ensures var id := Options.Opt(p, CLIENT_ID, MAX_DOPT_SIZE);
            r.Some? <==>
            && len >= 240 && p.cookie == 0x6382_5363 && p.xid == xid && p.chaddr[..6] == cfg.arp
            && Options.EndIdx(p.options, 0) != -1 && Options.OptionMsgType(p) != 0
            && (id <= cfg.clientid || cfg.clientid <= id)
    ensures r.Some? ==> r.value == Options.OptionMsgType(p) != 0
  {
    if len < HEADER_SIZE || p.cookie != DHCP_MAGIC || p.xid != xid || p.chaddr[..6] != cfg.arp then None
    else if Options.EndIdx(p.options, 0) < 0 || Options.OptionMsgType(p) == 0 then None
    else
      var id := Options.Opt(p, CLIENT_ID, MAX_DOPT_SIZE);
      var n := if |id| < |cfg.clientid| then |id| else |cfg.clientid|;
      PrefixOfEither(id, cfg.clientid);
      if id[..n] == cfg.clientid[..n] then Some(Options.OptionMsgType(p)) else None
  }

  lemma PrefixOfEither(a: Bytes, b: Bytes)
    ensures var n := if |a| < |b| then |a| else |b|;
            a[..n] == b[..n] <==> a <= b || b <= a
  {
    assert a[..|a|] == a && b[..|b|] == b;
  }

  /** What reading the listening socket gives. */
  datatype Datagram = Nothing | ReadError | Datagram(len: nat, packet: Packet, srcaddr: U32)

  /** `dhcp_packet_get`. A broken socket is closed and opened again; the process ends if it cannot be opened. */
  method DhcpPacketGet(c: Client, d: Datagram) returns (alive: bool, msgtype: Option<Byte>)
    modifies c`listening
    ensures alive ==> c.listening == old(c.listening)
    ensures !alive ==> old(c.listening) && d.ReadError? && !c.listening
    ensures msgtype == if old(c.listening) && d.Datagram?
                       then ValidateDhcpPacket(c.config, c.cs.xid, d.len, d.packet) else None
  {
    if !c.listening || d.Nothing? {
      return true, None;
    }
    if d.ReadError? {
      c.listening := false;
      alive := *;
      c.listening := alive;
      return alive, None;
    }
    return true, ValidateDhcpPacket(c.config, c.cs.xid, d.len, d.packet);
  }

  // ---------------------------------------------------------------------------
  // How long to sleep
  // ---------------------------------------------------------------------------

  const INT_MAX: nat := 0x7fff_ffff
  const FAILSAFE: nat := 10000

  /** Every deadline of an armed timer. */
  ghost function Deadlines(dhcp: Timer, w: Timers): (s: set<int>) {
    (set i | 0 <= i < AS_MAX && w[i] != -1 :: w[i]) + if dhcp == -1 then {} else {dhcp}
  }

  /** The loop sleeps without end exactly if no timer is armed. Otherwise it sleeps until the earliest
      deadline, or for ten seconds if that has passed and the loop would spin. */
  ghost predicate SleepsWell(timeout: int, prev: int, hadEvent: bool, now: nat, deadlines: set<int>) {
    && (timeout == -1 <==> deadlines == {})
    && (deadlines != {} ==>
          || (timeout == 10000 && prev == 0 && !hadEvent && exists d :: d in deadlines && d <= now)
          || (&& 0 <= timeout <= 0x7fff_ffff
              && (forall d :: d in deadlines ==> timeout == 0 || now + timeout <= d)
              && (timeout < 0x7fff_ffff ==> exists d :: d in deadlines && timeout == if d > now then d - now else 0)))
  }

  /** The computation behind a successful call (src/ndhc.c:366-392). */
  method SleepFor(c: Client, now: nat, prev: int, hadEvent: bool) returns (timeout: int)
    ensures SleepsWell(timeout, prev, hadEvent, now, Deadlines(c.cs.dhcpWakeTs, c.wakeTs))
  {
    var arpWake := ArpGetWakeTs(c);
    var dhcpWake := c.cs.dhcpWakeTs;
    var tt;
    EarliestOf(dhcpWake, c.wakeTs, arpWake);
    if arpWake < 0 && dhcpWake < 0 {
      return -1;
    } else if arpWake < 0 {
      tt := dhcpWake - now;
    } else if dhcpWake < 0 {
      tt := arpWake - now;
    } else {
      tt := (if arpWake < dhcpWake then arpWake else dhcpWake) - now;
    }
    assert tt + now in Deadlines(dhcpWake, c.wakeTs);
    if tt > INT_MAX {
      tt := INT_MAX;
    }
    timeout := tt;
    if timeout < 0 {
      timeout := 0;
    }
    if timeout == 0 && prev == 0 && !hadEvent {
      timeout := FAILSAFE;
    }
  }

  lemma EarliestOf(dhcp: Timer, w: Timers, arp: Timer)
    requires Earliest(w, AS_MAX, arp)
    ensures var s := Deadlines(dhcp, w);
            && (s == {} <==> arp == -1 && dhcp == -1)
            && (arp != -1 ==> arp in s) && (dhcp != -1 ==> dhcp in s)
            && forall d :: d in s ==> (arp != -1 && arp <= d) || (dhcp != -1 && dhcp <= d)
  {
    var s := Deadlines(dhcp, w);
    if arp != -1 {
      assert arp in s;
    }
    if dhcp != -1 {
      assert dhcp in s;
    }
  }

  // ---------------------------------------------------------------------------
  // The loop
  // ---------------------------------------------------------------------------

  datatype Radio = Unchanged | Blocked | Unblocked

  /** What `epoll_wait` returns: nothing, or one readable descriptor. */
  datatype Wakeup =
    | TimedOut
    | Signalled(signal: Signal)
    | Listened(datagram: Datagram)
    | Heard(reading: Reading)
    | Netlink(wentUp: bool)
    | Rfkill(radio: Radio)
    | HungUp

  /** What one iteration has gathered for the state machine. */
  datatype Gathered = Gathered(
    signal: Signal, msgtype: Option<Byte>, packet: Packet, srcaddr: U32, arp: bool, wentUp: bool, radio: Radio)

  ghost function Validated(c: Client, d: Datagram): Option<Byte>
    requires d.Datagram?
    reads c`cs
  {
    ValidateDhcpPacket(c.config, c.cs.xid, d.len, d.packet)
  }

  ghost predicate Audible(c: Client, got: Reading)
    reads c
  {
    Passes(got, c.usingBpf, c.arpIsDefense, c.config.arp, c.cs.clientAddr)
  }

  /** What one iteration gathers from an event. `filtered` and `defense` are the state of the ARP socket. */
  ghost function GatheredFrom(s: View, filtered: bool, defense: bool, ev: Wakeup): Gathered {
    var msgtype := if ev.Listened? && ev.datagram.Datagram?
                   then ValidateDhcpPacket(s.config, s.cs.xid, ev.datagram.len, ev.datagram.packet) else None;
    Gathered(
      if ev.Signalled? then ev.signal else NoSignal,
      msgtype,
      if msgtype.Some? then ev.datagram.packet else ZeroPacket(),
      if msgtype.Some? then ev.datagram.srcaddr else 0,
      ev.Heard? && Passes(ev.reading, filtered, defense, s.config.arp, s.cs.clientAddr),
      ev.Netlink? && ev.wentUp,
      if ev.Rfkill? then ev.radio else Unchanged)
  }

  /** The client after its ARP socket was read: the frame is new, or the socket, which is opened again after an error. */
  ghost function Hears(s: View, taken: bool, got: Reading): View {
    s.(reply := if taken && got.Got? then got.frame else s.reply,
       gwLog := if got.Failed? then s.gwLog + [Open(Shut), Open(Basic)] else s.gwLog)
  }

  /** The client after that event. */
  ghost function After(s: View, g: Gathered, ev: Wakeup): View {
    if ev.Heard? then Hears(s, g.arp, ev.reading) else s
  }

  /** The call that is made for an event, and what it does. */
  ghost predicate Serves(s: View, filtered: bool, defense: bool, ev: Wakeup, forced: bool, i: Input, t: View, r: Outcome) {
    var g := GatheredFrom(s, filtered, defense, ev);
    var a := After(s, g, ev).(clock := i.now);
    && Told(i, g, s) && (i.forceFingerprint <==> g.wentUp || (g.radio == Unblocked && forced))
    && Called(a, i, g.msgtype.Some?, t, r) && Heeded(a, i, g.msgtype.Some?, t, r)
  }

  /** What the state machine is told about an event. */
  ghost predicate Told(i: Input, g: Gathered, s: View) {
    && i.packet == g.packet && i.srcaddr == g.srcaddr && (g.msgtype.Some? ==> i.msgtype == g.msgtype.value)
    && i.arp == g.arp && i.signal == g.signal && (i.dhcpTimeout <==> s.cs.dhcpWakeTs <= i.now)
    && (i.arpTimeout <==> s.wakeTs == NoTimers() || exists k :: 0 <= k < AS_MAX && -1 < s.wakeTs[k] <= i.now)
  }

  /** A call that an iteration has made, and its outcome. */
  datatype Exchange = Exchange(i: Input, r: Outcome)

  predicate Succeeded(called: Option<Exchange>) {
    called.Some? && called.value.r == Returned(true)
  }

  lemma ServesBy(s: View, filtered: bool, defense: bool, ev: Wakeup, forced: bool, i: Input, t: View, r: Outcome)
    requires var g := GatheredFrom(s, filtered, defense, ev);
             var a := After(s, g, ev);
             && Told(i, g, a) && (i.forceFingerprint <==> g.wentUp || (g.radio == Unblocked && forced))
             && Called(a.(clock := i.now), i, g.msgtype.Some?, t, r) && Heeded(a.(clock := i.now), i, g.msgtype.Some?, t, r)
    ensures Serves(s, filtered, defense, ev, forced, i, t, r)
  {
    hide Called, Heeded, GatheredFrom;
  }

  lemma ReleasedShut(c: Client)
    requires Settled(c, c.resume)
    ensures c.resume == AtReleased ==> !c.arpOpen
  {
    hide Client.Inv;
  }

  lemma ConfigOf(c: Client)
    ensures ViewOf(c).config == c.config && ViewOf(c).cs == c.cs
  {
  }

  /** A released client sleeps until it gets a signal. */
  lemma NoDeadlineInReleased(c: Client)
    requires Settled(c, AtReleased)
    ensures Deadlines(c.cs.dhcpWakeTs, c.wakeTs) == {}
  {
    hide Played, LinkedGw, Linked;
  }

  lemma SleepsWithoutEnd(timeout: int, prev: int, hadEvent: bool, now: nat, dhcp: Timer, w: Timers)
    requires SleepsWell(timeout, prev, hadEvent, now, Deadlines(dhcp, w))
    ensures timeout == -1 <==> Deadlines(dhcp, w) == {}
    ensures dhcp != -1 ==> timeout != -1
  {
    if dhcp != -1 {
      assert dhcp in Deadlines(dhcp, w);
    }
  }

  /** `do_ndhc_work`, with its static variables. */
  class Loop {
    const c: Client
    var timeout: int
    var rfkillSet: bool
    var wentUpDuringRfkill: bool

    constructor (c: Client)
      requires Settled(c, AtStart) && c.resume == AtStart
      modifies c`listening
      ensures this.c == c && Settled(c, AtStart) && c.resume == AtStart && timeout == 0 && c.trace == old(c.trace)
    {
      this.c, timeout, rfkillSet, wentUpDuringRfkill := c, 0, false, false;
      new;
      hide Played, LinkedGw, Linked;
      c.listening := true;
    }

    /** Reads the ARP socket. */
    method ReadArp(got: Reading) returns (r: Option<bool>)
      requires Settled(c, c.resume) && c.arpOpen
      modifies c`arpOpen, c`arpIsDefense, c`usingBpf, c`reply, c`trace
      ensures c.Traced() && Grown(c) && c.trace.log == old(c.trace.log) && c.trace.ref == old(c.trace.ref)
      ensures r.None? ==> got.Failed?
      ensures r.Some? ==>
                && Settled(c, c.resume) && (r.value <==> old(Audible(c, got))) && (r.value ==> got.Got? && c.reply == got.frame)
                && ViewOf(c) == Hears(old(ViewOf(c)), r.value, got)
    {
      hide Client.Inv, Client.Traced, Bpf.ValidateArp, UsesOurAddress;
      r := ArpPacketGet(c, got);
    }

    /** Reads the descriptor that is ready. None is an end of the process. */
    method Gather(ev: Wakeup) returns (r: Option<Gathered>)
      requires Settled(c, c.resume)
      modifies c`arpOpen, c`arpIsDefense, c`usingBpf, c`reply, c`trace, c`listening
      ensures c.Traced() && Grown(c) && (r.Some? ==> Settled(c, c.resume))
      ensures c.trace.log == old(c.trace.log) && c.trace.ref == old(c.trace.ref)
      ensures r.Some? && c.resume == AtReleased ==> c.trace == old(c.trace)
      ensures r.Some? && r.value.msgtype.Some? ==> r.value.packet.xid == c.cs.xid
      ensures r.Some? ==>
                && r.value.signal == (if ev.Signalled? then ev.signal else NoSignal)
                && (r.value.msgtype.Some? <==> ev.Listened? && ev.datagram.Datagram?
                                               && Validated(c, ev.datagram).Some?)
                && (r.value.msgtype.Some? ==>
                      && r.value.msgtype == Validated(c, ev.datagram)
                      && r.value.packet == ev.datagram.packet && r.value.srcaddr == ev.datagram.srcaddr)
                && (r.value.arp <==> ev.Heard? && old(Audible(c, ev.reading)))
                && (r.value.arp ==> c.reply == ev.reading.frame)
                && r.value.wentUp == (ev.Netlink? && ev.wentUp) && r.value.radio == if ev.Rfkill? then ev.radio else Unchanged
      ensures r.None? ==>
                || ev.HungUp? || (ev.Listened? && (!old(c.listening) || ev.datagram.ReadError?))
                || (ev.Heard? && (!old(c.arpOpen) || ev.reading.Failed?))
      ensures r.Some? ==>
                && r.value == GatheredFrom(old(ViewOf(c)), old(c.usingBpf), old(c.arpIsDefense), ev)
                && ViewOf(c) == After(old(ViewOf(c)), r.value, ev)
    {
      hide Settled, Client.Traced, ValidateDhcpPacket, Passes, Hears, ViewOf;
      SettledTraced(c);
      ReleasedShut(c);
      ConfigOf(c);
      var none := Gathered(NoSignal, None, ZeroPacket(), 0, false, false, Unchanged);
      match ev
      case TimedOut => return Some(none);
      case Signalled(s) => return Some(none.(signal := s));
      case Listened(d) =>
        if !c.listening {
          return None;
        }
        var alive, msgtype := DhcpPacketGet(c, d);
        return if !alive then None
               else if msgtype.None? then Some(none)
               else Some(none.(msgtype := msgtype, packet := d.packet, srcaddr := d.srcaddr));
      case Heard(got) =>
        if !c.arpOpen {
          return None;
        }
        var arp := ReadArp(got);
        return if arp.None? then None else Some(none.(arp := arp.value));
      case Netlink(up) => return Some(none.(wentUp := up));
      case Rfkill(radio) => return Some(none.(radio := radio));
      case HungUp => return None;
    }

    /** The radio switch and the carrier (src/ndhc.c:323-344); `upThen` and `upNow` are what `carrier_isup` says. */
    method Carrier(g: Gathered, upThen: bool, upNow: bool) returns (forceFingerprint: bool, up: bool)
      modifies `rfkillSet, `wentUpDuringRfkill
      ensures up <==> !rfkillSet && upNow
      ensures rfkillSet == (g.radio == Blocked || (old(rfkillSet) && g.radio != Unblocked))
      ensures g.wentUp ==> if rfkillSet then wentUpDuringRfkill else forceFingerprint
      ensures forceFingerprint <==>
              (g.wentUp && !rfkillSet) || (g.radio == Unblocked && old(wentUpDuringRfkill) && upThen)
      ensures wentUpDuringRfkill == (if g.wentUp && rfkillSet then true else g.radio != Blocked && old(wentUpDuringRfkill))
    {
      forceFingerprint := false;
      if g.radio == Blocked {
        rfkillSet, wentUpDuringRfkill := true, false;
      } else if g.radio == Unblocked {
        rfkillSet := false;
        forceFingerprint := wentUpDuringRfkill && upThen;
      }
      if g.wentUp {
        if !rfkillSet {
          forceFingerprint := true;
        } else {
          wentUpDuringRfkill := true;
        }
      }
      up := !rfkillSet && upNow;
    }

    method ReadClock() returns (now: nat)
      requires Settled(c, c.resume)
      modifies c`clock
      ensures Settled(c, c.resume) && old(c.clock) <= c.clock == now
    {
      hide Played, LinkedGw, LinkedRequesting, SameExchange, HasLease, Lease.T1;
      now := c.Curms();
    }

    /** What the state machine is told. Its ARP timeout is one if a timer is due, but also if none is armed. */
    method Prepare(g: Gathered, now: nat, force: bool) returns (i: Input)
      ensures i.now == now && i.packet == g.packet && i.srcaddr == g.srcaddr
      ensures g.msgtype.Some? ==> i.msgtype == g.msgtype.value
      ensures i.arp == g.arp && i.forceFingerprint == force && i.signal == g.signal
      ensures i.dhcpTimeout <==> c.cs.dhcpWakeTs <= now
      ensures i.arpTimeout <==> c.wakeTs == NoTimers() || exists k :: 0 <= k < AS_MAX && -1 < c.wakeTs[k] <= now
    {
      var arpWake := ArpGetWakeTs(c);
      var msgtype := if g.msgtype.Some? then g.msgtype.value else 0;
      i := Input(now, g.packet, msgtype, g.srcaddr, g.arp, force, c.cs.dhcpWakeTs <= now, arpWake <= now, g.signal);
    }

    /** The call of the state machine (src/ndhc.c:357-364). */
    method Call(g: Gathered, force: bool) returns (r: Outcome, i: Input)
      requires Settled(c, c.resume) && (g.msgtype.Some? ==> g.packet.xid == c.cs.xid)
      modifies c, c.ifch, c.ifch.daemon
      ensures Grown(c) && old(c.clock) <= i.now <= c.clock && Told(i, g, old(ViewOf(c))) && i.forceFingerprint == force
      ensures if r.Returned? then Settled(c, c.resume) && c.resume != AtStart else c.Traced()
      ensures r == Returned(true) ==> (c.cs.dhcpWakeTs == -1 <==> c.resume == AtReleased)
      ensures old(c.resume) == AtReleased && g.signal != SignalRenew ==>
                && r == Returned(true) && c.resume == AtReleased
                && c.arps == old(c.arps) && c.tries == old(c.tries) && c.trace == old(c.trace)
      ensures r == Returned(true) && g.signal == SignalRelease ==> c.resume == AtReleased
      ensures r == Returned(true) && force && old(c.resume == AtBound && NoGateway(c.cs)) ==>
                PhaseOf(c.resume) != Bound
      ensures old(c.ifch.Kept()) ==> c.ifch.Kept()
      ensures var s := old(ViewOf(c)).(clock := i.now);
              Called(s, i, g.msgtype.Some?, ViewOf(c), r) && Heeded(s, i, g.msgtype.Some?, ViewOf(c), r)
    {
      hide Ifchange.Configurator.Kept, Settled, Client.Traced, TakesOffer, Called, Heeded;
      var now := ReadClock();
      i := Prepare(g, now, force);
      r := Handle(c, i, g.msgtype.Some?);
    }

    /** Everything of an iteration but the sleep. */
    method Act(ev: Wakeup, upThen: bool, upNow: bool)
      returns (halted: bool, ok: bool, now: nat, ghost called: Option<Exchange>)
      requires Settled(c, c.resume)
      modifies `rfkillSet, `wentUpDuringRfkill, c, c.ifch, c.ifch.daemon
      ensures Grown(c) && (if halted then c.Traced() else Settled(c, c.resume)) && (called.Some? ==> now == called.value.i.now)
      ensures ok <==> Succeeded(called)
      ensures ok ==> (c.cs.dhcpWakeTs == -1 <==> c.resume == AtReleased)
      ensures called.None? && !halted ==> rfkillSet || !upNow
      ensures called.None? && halted ==>
                || ev.HungUp? || (ev.Listened? && (!old(c.listening) || ev.datagram.ReadError?))
                || (ev.Heard? && (!old(c.arpOpen) || ev.reading.Failed?))
      ensures called.Some? ==>
                var Exchange(i, r) := called.value;
                && !rfkillSet && upNow && (halted <==> r == Halted) && old(c.clock) <= i.now <= c.clock
                && Serves(old(ViewOf(c)), old(c.usingBpf), old(c.arpIsDefense), ev, old(wentUpDuringRfkill) && upThen, i,
                          ViewOf(c), r)
      ensures old(c.resume) == AtReleased && ev != Signalled(SignalRenew) && !halted ==>
                && c.resume == AtReleased
                && c.arps == old(c.arps) && c.tries == old(c.tries) && c.trace == old(c.trace)
      ensures Succeeded(called) && ev == Signalled(SignalRelease) ==> c.resume == AtReleased
      ensures Succeeded(called) && ev == Netlink(true) && old(c.resume == AtBound && NoGateway(c.cs)) ==>
                PhaseOf(c.resume) != Bound
      ensures old(c.ifch.Kept()) ==> c.ifch.Kept()
    {
      hide Ifchange.Configurator.Kept, Settled, Client.Traced, Called, Heeded, GatheredFrom, After, ViewOf, Told, Serves,
           ValidateDhcpPacket, Passes, NoGateway;
      ok, now := false, 0;
      var g := Gather(ev);
      if g.None? {
        return true, false, 0, None;
      }
      var force, up := Carrier(g.value, upThen, upNow);
      if !up {
        return false, false, 0, None;
      }
      var r, i := Call(g.value, force);
      ServesBy(old(ViewOf(c)), old(c.usingBpf), old(c.arpIsDefense), ev, old(wentUpDuringRfkill) && upThen, i, ViewOf(c), r);
      return r == Halted, r == Returned(true), i.now, Some(Exchange(i, r));
    }

    /** One iteration. `called` is the call of the state machine, which is made unless the process ends, the radio is
        blocked or the carrier is down. */
    method Iterate(ev: Wakeup, upThen: bool, upNow: bool) returns (halted: bool, ghost called: Option<Exchange>)
      requires Settled(c, c.resume)
      modifies this, c, c.ifch, c.ifch.daemon
      ensures Grown(c) && if halted then c.Traced() else Settled(c, c.resume)
      ensures called.None? && !halted ==> rfkillSet || !upNow
      ensures called.None? && halted ==>
                || ev.HungUp? || (ev.Listened? && (!old(c.listening) || ev.datagram.ReadError?))
                || (ev.Heard? && (!old(c.arpOpen) || ev.reading.Failed?))
      ensures called.Some? ==>
                var Exchange(i, r) := called.value;
                && !rfkillSet && upNow && (halted <==> r == Halted) && old(c.clock) <= i.now <= c.clock
                && Serves(old(ViewOf(c)), old(c.usingBpf), old(c.arpIsDefense), ev, old(wentUpDuringRfkill) && upThen, i,
                          ViewOf(c), r)
      ensures Succeeded(called) ==>
                && !halted
                && SleepsWell(timeout, old(timeout), ev != TimedOut, called.value.i.now, Deadlines(c.cs.dhcpWakeTs, c.wakeTs))
      ensures !halted && !Succeeded(called) ==> 2000 <= timeout < 5000
      ensures old(c.resume) == AtReleased && ev != Signalled(SignalRenew) && !halted ==>
                && c.resume == AtReleased
                && c.arps == old(c.arps) && c.tries == old(c.tries) && c.trace == old(c.trace)
      ensures Succeeded(called) && ev == Signalled(SignalRelease) ==> c.resume == AtReleased
      ensures Succeeded(called) && ev == Netlink(true) && old(c.resume == AtBound && NoGateway(c.cs)) ==>
                PhaseOf(c.resume) != Bound
      ensures Succeeded(called) ==> (timeout == -1 <==> c.resume == AtReleased)
      ensures old(c.ifch.Kept()) ==> c.ifch.Kept()
    {
      hide Ifchange.Configurator.Kept, Settled, Client.Traced, SleepsWell, Deadlines, Serves, ViewOf;
      var ok, now;
      halted, ok, now, called := Act(ev, upThen, upNow);
      if halted {
        return;
      }
      if !ok {
        var n := Random();
        timeout := 2000 + n % 3000;
        return;
      }
      Plan(now, ev != TimedOut);
    }

    /** How long to sleep after a successful call (src/ndhc.c:366-392). */
    method Plan(now: nat, hadEvent: bool)
      requires Settled(c, c.resume) && (c.cs.dhcpWakeTs == -1 <==> c.resume == AtReleased)
      modifies `timeout
      ensures SleepsWell(timeout, old(timeout), hadEvent, now, Deadlines(c.cs.dhcpWakeTs, c.wakeTs))
      ensures timeout == -1 <==> c.resume == AtReleased
    {
      hide Settled, SleepsWell, Deadlines;
      var prev := timeout;
      timeout := SleepFor(c, now, prev, hadEvent);
      if c.resume == AtReleased {
        NoDeadlineInReleased(c);
      }
      SleepsWithoutEnd(timeout, prev, hadEvent, now, c.cs.dhcpWakeTs, c.wakeTs);
    }

    /** Any number of iterations from the start of the program. At every point of every run the log is
        one that the reference machine plays, and a bound client has an address that was offered to it,
        then acknowledged, and then given to the interface. */
    method Run(evs: seq<(Wakeup, bool, bool)>) returns (halted: bool)
      requires Settled(c, c.resume)
      modifies this, c, c.ifch, c.ifch.daemon
      ensures Grown(c) && c.Traced()
      ensures !halted ==> Settled(c, c.resume)
      ensures !halted && PhaseOf(c.resume) == Bound ==> BoundAsLeased(c)
      ensures !halted && c.resume == AtChecking ==> c.dhcpPacket.yiaddr == c.cs.clientAddr
      ensures old(c.ifch.Kept()) ==> c.ifch.Kept()
    {
      hide Ifchange.Configurator.Kept, Settled, Client.Traced, BoundAsLeased, SleepsWell, Deadlines;
      SettledTraced(c);
      for n := 0 to |evs|
        invariant Settled(c, c.resume) && c.Traced() && Grown(c)
        invariant old(c.ifch.Kept()) ==> c.ifch.Kept()
      {
        ghost var called;
        halted, called := Iterate(evs[n].0, evs[n].1, evs[n].2);
        if halted {
          return;
        }
        SettledTraced(c);
      }
      halted := false;
      SettledFacts(c);
    }
  }

  /** The first property of a bound client: its address is the configured one, and has its history. */
  ghost predicate BoundAsLeased(c: Client)
    reads c, c.ifch
  {
    && c.cs.clientAddr == c.ifch.cfg.yiaddr && !c.ifch.ifDeconfig
    && exists i, j, k ::
         && Leased(c.trace.log, c.trace.ref, i, j) && j < k && ConfiguredIn(c.trace.log, c.trace.ref, k)
         && c.trace.ref.addr == c.cs.clientAddr
  }

  lemma SettledTraced(c: Client)
    requires Settled(c, c.resume)
    ensures c.Traced()
  {
    hide Played, LinkedGw, Linked;
  }

  /** In BOUND the lease timer fires before the lease ends, except that it may wait for the answer to a REQUEST
      that was sent during the collision check; then it fires at most 65 seconds behind that. */
  lemma LeaseTimerInTime(c: Client, i: nat) returns (r: nat)
    requires Settled(c, c.resume) && PhaseOf(c.resume) == Bound
    requires i < |c.trace.log| && c.trace.log[i].Ack? && NoAck(Behind(c.trace.log, i)) && NoRestart(Behind(c.trace.log, i))
    ensures var l, b := Lease(c.trace.log[i].t, c.trace.log[i].secs), Behind(c.trace.log, i);
            if Count(Requests, b) == 0 || Count(Renews, b) + Count(Rebinds, b) > 0 then c.cs.dhcpWakeTs <= l.End()
            else LastRequest(c.trace.log, i, r) && c.cs.dhcpWakeTs < c.trace.log[r].t + 65000
  {
    hide LinkedGw, Next, Lease.T1, Lease.T2, Lease.Expiry;
    TriesSinceAck(c.settings.probeNum, c.trace.log, i);
    r := LateSinceAck(c.settings.probeNum, c.trace.log, i);
  }

  lemma SettledFacts(c: Client)
    requires Settled(c, c.resume)
    ensures PhaseOf(c.resume) == Bound ==> BoundAsLeased(c)
    ensures c.resume == AtChecking ==> c.dhcpPacket.yiaddr == c.cs.clientAddr
  {
    hide LinkedGw, Next, Leased, ConfiguredIn;
    if PhaseOf(c.resume) == Bound {
      BoundAddressWasLeased(c.settings.probeNum, c.trace.log);
    }
  }
}
