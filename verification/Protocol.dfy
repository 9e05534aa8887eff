/** What the client may do, as a language of event logs.

`Next` is a small reference machine for the client's side of DHCP (sections 3.1, 4.1, 4.4.1 and
4.4.5 of RFC 2131). It knows messages, addresses and the clock, but no sockets, resume points or
ARP. The state machine of the client is proved to produce only logs that this machine plays; the
lemmas here say what holds of every such log.
 */
module Protocol {
  import opened Wire
  import opened LeaseTimes

  datatype Event =
    | Restart(xid: U32)                                   // back to SELECTING, with a new transaction id
    | FreshXid(xid: U32)                                  // another id, before any DISCOVER was sent
    | Discover(t: int, xid: U32)                          // sent
    | Offer(xid: U32, addr: U32, server: U32)             // accepted
    | Request(t: int, xid: U32, addr: U32, server: U32)   // sent
    | Ack(t: int, xid: U32, addr: U32, server: U32, secs: U32)  // accepted
    | Probe(t: int, addr: U32)                            // ARP probe sent
    | Configure(t: int, addr: U32)                        // the interface has this address now
    | Renew(t: int, xid: U32, addr: U32)                  // unicast by the lease timer
    | ForcedRenew(t: int, xid: U32, addr: U32)            // unicast by a signal
    | Rebind(t: int, xid: U32, addr: U32)                 // broadcast by the lease timer
    | Nak(xid: U32, server: U32)                          // accepted
    | Decline(xid: U32, addr: U32, server: U32)           // sent
    | Release(addr: U32, server: U32)                     // sent
    | GiveUp(t: int)                                      // no answer to the last REQUEST
    | Expire(t: int)                                      // the lease ran out
    | Sleep                                               // RELEASED

  datatype Phase = Boot | Idle | Selecting | Requesting | Checking | Bound

  datatype Ref = Ref(
    phase: Phase, xid: U32, early: bool, discovers: nat,
    addr: U32, server: U32, requests: nat, first: int, due: int,
    probes: nat, probing: int, probeNum: int,
    lease: Lease, renews: nat, lastRenew: int, rebinds: nat, lastRebind: int, entries: nat)

  /** The client that waits for its first start. */
  function Initial(probeNum: int): Ref {
    Ref(Boot, 0, false, 0, 0, 0, 0, 0, 0, 0, 0, probeNum, Lease(0, 60), 0, 0, 0, 0, 0)
  }

  /** The pause behind the k-th REQUEST, without its random part (section 4.1 of RFC 2131). */
  function Pause(k: nat): int {
    if k == 0 then 4000 else if k == 1 then 8000 else if k == 2 then 16000 else if k == 3 then 32000 else 64000
  }

  const ANNOUNCE_WAIT: int := 2000

  /** The least time between two tries to extend a lease. */
  const RETRY: int := 50000

  const MAX_REQUESTS: nat := 5

  function Min(a: int, b: int): int {
    if a < b then a else b
  }

  function Extended(a: Ref, t: int, secs: U32): Ref {
    var l := Lease(t, secs);
    a.(lease := l, due := l.T1(), renews := 0, rebinds := 0)
  }

  /** One event; None if it is not allowed. */
  function Next(a: Ref, e: Event): (r: Option<Ref>) {
    match e
    case Restart(x) =>
      if a.phase == Selecting then None
      else Some(a.(phase := Selecting, xid := x, early := a.phase == Boot, discovers := 0, entries := a.entries + 1))
    case FreshXid(x) =>
      if a.phase == Selecting && a.discovers == 0 then Some(a.(xid := x, early := false)) else None
    case Discover(t, x) =>
      if a.phase == Selecting && x == a.xid then Some(a.(discovers := a.discovers + 1, early := false)) else None
    case Offer(x, addr, server) =>
      // The first call may bring an OFFER that was matched against the id 0, before any id was drawn.
      if a.phase == Selecting && (if a.early then x == 0 else x == a.xid)
      then Some(a.(phase := Requesting, addr := addr, server := server, requests := 0, probes := 0,
                   entries := a.entries + 1))
      else None
    case Request(t, x, addr, server) =>
      if && (a.phase == Requesting || a.phase == Checking)
         && x == a.xid && addr == a.addr && server == a.server
         && a.requests < MAX_REQUESTS && (a.requests > 0 || a.phase == Checking ==> a.due <= t)
      then Some(a.(requests := a.requests + 1, first := if a.requests == 0 then t else a.first,
                   due := t + Pause(a.requests)))
      else None
    case Ack(t, x, addr, server, secs) =>
      if x != a.xid || secs < 60 then None
      else if a.phase == Requesting && addr == a.addr
      then Some(Extended(a.(phase := Checking, server := server), t, secs))
      else if a.phase == Bound && server == a.server && a.lease.T1() <= t
      then Some(Extended(a, t, secs))
      else None
    case Probe(t, addr) =>
      if a.phase == Checking && addr == a.addr
      then Some(a.(probes := a.probes + 1, probing := if a.probes == 0 then t else a.probing,
                   entries := if a.probes == 0 then a.entries + 1 else a.entries))
      else if a.phase == Bound then Some(a)
      else None
    case Configure(t, addr) =>
      if && a.phase == Checking && addr == a.addr && a.probes >= 1
         && (t >= a.probing + ANNOUNCE_WAIT || a.probes >= a.probeNum)
      then Some(a.(phase := Bound, entries := a.entries + 1)) else None
    case Renew(t, x, addr) =>
      if && a.phase == Bound && x == a.xid && addr == a.addr
         && a.lease.T1() <= t < a.lease.T2() && a.due <= t
      then Some(a.(renews := a.renews + 1, lastRenew := t, due := Min(t + RETRY, a.lease.T2()))) else None
    case ForcedRenew(t, x, addr) =>
      if a.phase == Bound && x == a.xid && addr == a.addr then Some(a) else None
    case Rebind(t, x, addr) =>
      if && a.phase == Bound && x == a.xid && addr == a.addr
         && a.lease.T2() <= t < a.lease.Expiry() && a.due <= t
      then Some(a.(rebinds := a.rebinds + 1, lastRebind := t, due := Min(t + RETRY, a.lease.Expiry()))) else None
    case Nak(x, server) =>
      if a.phase == Bound && x == a.xid && server == a.server then Some(a.(phase := Idle)) else None
    case Decline(x, addr, server) =>
      // The code names the address itself as the server (src/arp.c:692).
      if a.phase == Checking && x == a.xid && addr == a.addr && server == a.addr then Some(a) else None
    case Release(addr, server) =>
      if a.phase == Bound && addr == a.addr && server == a.server then Some(a) else None
    case GiveUp(t) =>
      if (a.phase == Requesting || a.phase == Checking) && a.requests == MAX_REQUESTS && a.due <= t
      then Some(a.(phase := Idle)) else None
    case Expire(t) =>
      if a.phase == Bound && a.lease.Expiry() <= t then Some(a.(phase := Idle)) else None
    case Sleep =>
      if a.phase != Boot && a.phase != Idle then Some(a.(phase := Idle, entries := a.entries + 1)) else None
  }

  /** The next event of the lease is due later than its T1, because of a REQUEST that went out after its ACK. */
  predicate Late(a: Ref) {
    a.renews == 0 && a.rebinds == 0 && a.due != a.lease.T1()
  }

  /** The state behind a log, if the machine plays it. */
  function Play(probeNum: int, log: seq<Event>): (r: Option<Ref>) {
    if log == [] then Some(Initial(probeNum))
    else
      var a := Play(probeNum, log[..|log| - 1]);
      if a.None? then None else Next(a.value, log[|log| - 1])
  }

  lemma PlayAppend(n: int, log: seq<Event>, e: Event)
    requires Play(n, log).Some?
    ensures Play(n, log + [e]) == Next(Play(n, log).value, e)
  {
    hide Next;
    assert (log + [e])[..|log|] == log;
  }

  lemma PlayStep(n: int, log: seq<Event>)
    requires Play(n, log).Some? && log != []
    ensures var before := Play(n, log[..|log| - 1]);
            before.Some? && Next(before.value, log[|log| - 1]) == Play(n, log)
  {
    hide Next;
  }

  lemma {:induction false} PlayPrefix(n: int, log: seq<Event>, k: nat)
    requires Play(n, log).Some? && k <= |log|
    ensures Play(n, log[..k]).Some?
    ensures k < |log| ==> Next(Play(n, log[..k]).value, log[k]) == Play(n, log[..k + 1])
    decreases |log|
  {
    if k == |log| {
      assert log[..k] == log;
    } else {
      PlayPrefix(n, log[..|log| - 1], k);
      assert log[..|log| - 1][..k] == log[..k];
      if k + 1 == |log| {
        assert log[..k + 1] == log;
      } else {
        assert log[..|log| - 1][..k + 1] == log[..k + 1];
      }
    }
  }

  // ---------------------------------------------------------------------------
  // What holds in every state
  // ---------------------------------------------------------------------------

  /** The pauses behind the first k REQUESTs together. */
  function Patience(k: nat): int {
    if k == 0 then 0 else Patience(k - 1) + Pause(k - 1)
  }

  ghost predicate Sound(a: Ref) {
    && a.requests <= MAX_REQUESTS
    && a.lease.secs >= 60
    && (a.phase == Checking ==> a.renews == 0 && a.rebinds == 0)
    && (a.phase == Requesting && a.requests > 0 ==> a.due >= a.first + Patience(a.requests))
    && (a.phase == Bound && a.renews > 0 ==>
          a.lease.T1() + (a.renews - 1) * RETRY <= a.lastRenew < a.lease.T2())
    && (a.phase == Bound && a.renews > 0 ==> a.due >= Min(a.lastRenew + RETRY, a.lease.T2()))
    && (a.phase == Bound && a.rebinds > 0 ==>
          && a.lease.T2() + (a.rebinds - 1) * RETRY <= a.lastRebind < a.lease.Expiry()
          && a.due >= Min(a.lastRebind + RETRY, a.lease.Expiry()))
  }

  lemma SoundNext(a: Ref, e: Event)
    requires Sound(a) && Next(a, e).Some?
    ensures Sound(Next(a, e).value)
  {
    hide Lease.T1, Lease.T2, Lease.Expiry;
    RenewBeforeRebind(a.lease);
    if e.Ack? {
      RenewBeforeRebind(Lease(e.t, e.secs));
    } else if e.Request? {
      assert Patience(a.requests + 1) == Patience(a.requests) + Pause(a.requests);
    } else if e.Renew? {
      assert a.renews > 0 ==> (a.renews + 1 - 1) * RETRY == (a.renews - 1) * RETRY + RETRY;
    } else if e.Rebind? {
      assert a.rebinds > 0 ==> (a.rebinds + 1 - 1) * RETRY == (a.rebinds - 1) * RETRY + RETRY;
    }
  }

  lemma {:induction false} SoundPlay(n: int, log: seq<Event>)
    requires Play(n, log).Some?
    ensures Sound(Play(n, log).value)
  {
    hide Next, Sound;
    if log == [] {
      SoundInitially(n);
    } else {
      SoundPlay(n, log[..|log| - 1]);
      SoundNext(Play(n, log[..|log| - 1]).value, log[|log| - 1]);
    }
  }

  lemma SoundInitially(n: int)
    ensures Sound(Initial(n))
  {
  }

  // ---------------------------------------------------------------------------
  // Changes of state
  // ---------------------------------------------------------------------------

  /** The event begins SELECTING, REQUESTING, the collision check, BOUND or RELEASED. */
  predicate Enters(a: Ref, e: Event) {
    e.Restart? || e.Offer? || (e.Probe? && a.phase == Checking && a.probes == 0) || e.Configure? || e.Sleep?
  }

  /** How many events of a log begin a state. */
  function Entries(n: int, log: seq<Event>): (k: nat)
    requires Play(n, log).Some?
  {
    if log == [] then 0
    else
      var l, last := log[..|log| - 1], log[|log| - 1];
      Entries(n, l) + if Enters(Play(n, l).value, last) then 1 else 0
  }

  /** The state of the client; between an ACK and the first probe it is still in REQUESTING. */
  function Place(a: Ref): Phase {
    if a.phase == Checking && a.probes == 0 then Requesting else a.phase
  }

  /** Every such event changes the state, and no other does, except for the loss of an address or of a lease. */
  lemma EntersNext(a: Ref, e: Event)
    requires Next(a, e).Some?
    ensures var r := Next(a, e).value;
            && r.entries == a.entries + (if Enters(a, e) then 1 else 0)
            && ((a.phase == Requesting ==> a.probes == 0) ==>
                  if Enters(a, e) then Place(r) != Place(a)
                  else Place(r) == Place(a) || e.GiveUp? || e.Nak? || e.Expire?)
  {
  }

  lemma {:induction false} EntriesCounted(n: int, log: seq<Event>)
    requires Play(n, log).Some?
    ensures Play(n, log).value.entries == Entries(n, log)
  {
    hide Next, Enters;
    if log != [] {
      EntriesCounted(n, log[..|log| - 1]);
      EntersNext(Play(n, log[..|log| - 1]).value, log[|log| - 1]);
    }
  }

  /** A log that goes on without such an event is in the same state as before, or has lost its address. */
  lemma {:induction false} NoEntryNoChange(n: int, log: seq<Event>, k: nat)
    requires Play(n, log).Some? && k <= |log| && Play(n, log[..k]).Some? && Entries(n, log) <= Entries(n, log[..k])
    ensures Entries(n, log) == Entries(n, log[..k])
    ensures var a, b := Play(n, log[..k]).value, Play(n, log).value; Place(b) == Place(a) || b.phase == Idle
    decreases |log|
  {
    hide Next, Enters;
    if k == |log| {
      assert log[..k] == log;
    } else {
      var l := log[..|log| - 1];
      assert l[..k] == log[..k];
      EntriesGrow(n, l, k);
      NoEntryNoChange(n, l, k);
      var _ := ProbeHistory(n, l);
      EntersNext(Play(n, l).value, log[|log| - 1]);
      LostNext(Play(n, l).value, log[|log| - 1]);
    }
  }

  lemma {:induction false} EntriesGrow(n: int, log: seq<Event>, k: nat)
    requires Play(n, log).Some? && k <= |log| && Play(n, log[..k]).Some?
    ensures Entries(n, log[..k]) <= Entries(n, log)
    decreases |log|
  {
    hide Next, Enters;
    if k == |log| {
      assert log[..k] == log;
    } else {
      assert log[..|log| - 1][..k] == log[..k];
      EntriesGrow(n, log[..|log| - 1], k);
    }
  }

  lemma LostNext(a: Ref, e: Event)
    requires Next(a, e).Some?
    ensures e.GiveUp? || e.Nak? || e.Expire? ==> Next(a, e).value.phase == Idle
    ensures a.phase == Idle && !e.Restart? ==> false
  {
  }

  // ---------------------------------------------------------------------------
  // What holds of every log
  // ---------------------------------------------------------------------------

  datatype Kind = Requests | Probes | Renews | Rebinds

  predicate Is(k: Kind, e: Event) {
    match k
    case Requests => e.Request?
    case Probes => e.Probe?
    case Renews => e.Renew?
    case Rebinds => e.Rebind?
  }

  function Count(k: Kind, log: seq<Event>): (c: nat) {
    if log == [] then 0 else Count(k, log[..|log| - 1]) + if Is(k, log[|log| - 1]) then 1 else 0
  }

  /** What the log says behind event i. */
  function Behind(log: seq<Event>, i: nat): (l: seq<Event>)
    requires i < |log|
  {
    log[i + 1..]
  }

  ghost predicate NoOffer(log: seq<Event>) {
    forall e :: e in log ==> !e.Offer?
  }

  ghost predicate NoRestart(log: seq<Event>) {
    forall e :: e in log ==> !e.Restart?
  }

  ghost predicate NoAck(log: seq<Event>) {
    forall e :: e in log ==> !e.Ack?
  }

  /** The log without its last event, for proofs that follow it event by event. */
  lemma Shorter(log: seq<Event>, i: nat)
    requires i + 1 < |log|
    ensures var l := log[..|log| - 1];
            && i < |l| && l[i] == log[i]
            && Behind(log, i) == Behind(l, i) + [log[|log| - 1]]
            && Behind(log, i)[..|Behind(log, i)| - 1] == Behind(l, i)
            && log[|log| - 1] in Behind(log, i)
  {
    var b := Behind(log, i);
    assert b[|b| - 1] == log[|log| - 1];
  }

  lemma {:induction false} RequestsSinceOffer(n: int, log: seq<Event>, i: nat)
    requires Play(n, log).Some? && i < |log| && log[i].Offer? && NoOffer(Behind(log, i))
    ensures var a, c := Play(n, log).value, Count(Requests, Behind(log, i));
            && c <= MAX_REQUESTS
            && (a.phase == Requesting || a.phase == Checking ==> c == a.requests)
    decreases |log|
  {
    hide Next;
    var e := log[|log| - 1];
    var before := Play(n, log[..|log| - 1]).value;
    if i == |log| - 1 {
      assert Behind(log, i) == [];
      OfferNext(before, e);
    } else {
      Shorter(log, i);
      RequestsSinceOffer(n, log[..|log| - 1], i);
      RequestNext(before, e);
    }
  }

  lemma OfferNext(a: Ref, e: Event)
    requires e.Offer? && Next(a, e).Some?
    ensures var r := Next(a, e).value; r.phase == Requesting && r.requests == 0 && r.addr == e.addr
  {
  }

  /** How one event changes the number of REQUESTs. */
  lemma RequestNext(a: Ref, e: Event)
    requires Next(a, e).Some? && !e.Offer?
    ensures var r := Next(a, e).value;
            && (r.phase == Requesting || r.phase == Checking ==>
                  (a.phase == Requesting || a.phase == Checking)
                  && r.requests == a.requests + if e.Request? then 1 else 0)
            && (e.Request? ==> (a.phase == Requesting || a.phase == Checking) && a.requests < MAX_REQUESTS)
  {
  }

  /** At most five DHCPREQUESTs follow an accepted DHCPOFFER before the next one. */
  lemma AtMostFiveRequests(n: int, log: seq<Event>, i: nat)
    requires Play(n, log).Some? && i < |log| && log[i].Offer? && NoOffer(Behind(log, i))
    ensures Count(Requests, Behind(log, i)) <= 5
  {
    RequestsSinceOffer(n, log, i);
  }

  /** Event f is the first DHCPREQUEST behind the DHCPOFFER i. */
  ghost predicate FirstRequest(log: seq<Event>, i: nat, f: int) {
    i < f < |log| && log[f].Request? && forall k :: i < k < f ==> !log[k].Request?
  }

  lemma {:induction false} FirstRequestTime(n: int, log: seq<Event>, i: nat)
    requires Play(n, log).Some? && i < |log| && log[i].Offer? && NoOffer(Behind(log, i)) && NoAck(Behind(log, i))
    ensures var a := Play(n, log).value;
            && a.phase != Checking && a.phase != Bound
            && (a.phase == Requesting && a.requests == 0 ==> forall k :: i < k < |log| ==> !log[k].Request?)
            && (a.phase == Requesting && a.requests > 0 ==> exists f :: FirstRequest(log, i, f) && log[f].t == a.first)
    decreases |log|
  {
    hide Next;
    var last := |log| - 1;
    var e, l := log[last], log[..last];
    var before := Play(n, l).value;
    if i == last {
      OfferNext(before, e);
    } else {
      Shorter(log, i);
      FirstRequestTime(n, l, i);
      UnackedNext(before, e);
      var a := Play(n, log).value;
      if a.phase == Requesting && a.requests > 0 {
        if before.requests == 0 {
          assert FirstRequest(log, i, last);
        } else {
          var f :| FirstRequest(l, i, f) && l[f].t == before.first;
          assert FirstRequest(log, i, f);
        }
      }
    }
  }

  lemma UnackedNext(a: Ref, e: Event)
    requires Next(a, e).Some? && !e.Offer? && !e.Ack? && a.phase != Checking && a.phase != Bound
    ensures var r := Next(a, e).value;
            && r.phase != Checking && r.phase != Bound
            && (r.phase == Requesting ==> a.phase == Requesting)
            && (r.phase == Requesting && !e.Request? ==> r.requests == a.requests && r.first == a.first)
            && (r.phase == Requesting && e.Request? ==>
                  r.requests == a.requests + 1 && r.first == if a.requests == 0 then e.t else a.first)
  {
  }

  /** A client that gives up without an answer has sent five DHCPREQUESTs, the first of them at least
      124 seconds ago. */
  lemma GivesUpNoEarlier(n: int, log: seq<Event>, i: nat)
    requires Play(n, log).Some? && i < |log| - 1 && log[i].Offer? && log[|log| - 1].GiveUp?
    requires NoOffer(Behind(log, i)) && NoAck(Behind(log, i))
    ensures Count(Requests, Behind(log, i)) == 5
    ensures exists f :: FirstRequest(log, i, f) && log[|log| - 1].t >= log[f].t + 124000
  {
    hide Next;
    var l := log[..|log| - 1];
    var before := Play(n, l).value;
    Shorter(log, i);
    FirstRequestTime(n, l, i);
    RequestsSinceOffer(n, l, i);
    SoundPlay(n, l);
    GiveUpNext(before, log[|log| - 1]);
    var f :| FirstRequest(l, i, f) && l[f].t == before.first;
    assert FirstRequest(log, i, f);
    assert Patience(2) == 12000 && Patience(4) == 60000 && Patience(5) == 124000;
  }

  lemma GiveUpNext(a: Ref, e: Event)
    requires e.GiveUp? && Next(a, e).Some?
    ensures (a.phase == Requesting || a.phase == Checking) && a.requests == 5 && a.due <= e.t
  {
  }

  // ---------------------------------------------------------------------------
  // The transaction id
  // ---------------------------------------------------------------------------

  /** The id of a message of the current exchange. */
  function XidOf(e: Event): (x: Option<U32>) {
    match e
    case Discover(_, x) => Some(x)
    case Offer(x, _, _) => Some(x)
    case Request(_, x, _, _) => Some(x)
    case Ack(_, x, _, _, _) => Some(x)
    case Renew(_, x, _) => Some(x)
    case ForcedRenew(_, x, _) => Some(x)
    case Rebind(_, x, _) => Some(x)
    case Nak(x, _) => Some(x)
    case Decline(x, _, _) => Some(x)
    case _ => None
  }

  /** The machine's id does not change from event i on, and later messages carry it. */
  lemma {:induction false} XidSince(n: int, log: seq<Event>, i: nat)
    requires Play(n, log).Some? && i < |log| && (log[i].Discover? || log[i].Offer?) && NoRestart(Behind(log, i))
    ensures Play(n, log[..i + 1]).Some?
    ensures var a := Play(n, log).value;
            a.xid == Play(n, log[..i + 1]).value.xid && (a.phase == Selecting ==> a.discovers > 0 && !a.early)
    ensures forall e :: e in Behind(log, i) && XidOf(e).Some? ==> XidOf(e).value == Play(n, log).value.xid
    decreases |log|
  {
    hide Play, Next, XidOf;
    var last := |log| - 1;
    PlayStep(n, log);
    XidNext(Play(n, log[..last]).value, log[last]);
    if i < last {
      Shorter(log, i);
      XidSince(n, log[..last], i);
      assert log[..last][..i + 1] == log[..i + 1];
    } else {
      assert log[..i + 1] == log;
    }
  }

  lemma XidNext(a: Ref, e: Event)
    requires Next(a, e).Some?
    ensures var r := Next(a, e).value;
            && (XidOf(e).Some? && !e.Offer? ==> XidOf(e).value == a.xid == r.xid)
            && (!e.Restart? && (a.phase == Selecting ==> a.discovers > 0 && !a.early) ==>
                  r.xid == a.xid && (r.phase == Selecting ==> r.discovers > 0 && !r.early))
            && (e.Discover? || e.Offer? ==> r.phase == Selecting ==> r.discovers > 0 && !r.early)
            && (e.Offer? ==> a.phase == Selecting && r.xid == a.xid && XidOf(e) == Some(e.xid)
                             && e.xid == if a.early then 0 else a.xid)
            && (e.Discover? ==> r.xid == e.xid)
  {
  }

  /** Only behind the first event can the client take an OFFER with an id that it did not draw. */
  lemma {:induction false} EarlyIsFirst(n: int, log: seq<Event>)
    requires Play(n, log).Some?
    ensures var a := Play(n, log).value;
            && (a.phase == Boot <==> log == [])
            && (a.phase == Selecting && a.early <==> |log| == 1)
            && (|log| == 1 ==> log[0] == Restart(a.xid))
            && (a.early && a.phase == Selecting ==> a.discovers == 0)
  {
    hide Next;
    if log != [] {
      EarlyIsFirst(n, log[..|log| - 1]);
      EarlyNext(Play(n, log[..|log| - 1]).value, log[|log| - 1]);
    }
  }

  lemma EarlyNext(a: Ref, e: Event)
    requires Next(a, e).Some? && (a.early && a.phase == Selecting ==> a.discovers == 0)
    ensures var r := Next(a, e).value;
            && r.phase != Boot
            && (r.phase == Selecting && r.early <==> a.phase == Boot)
            && (a.phase == Boot ==> e == Restart(r.xid))
            && (r.early && r.phase == Selecting ==> r.discovers == 0)
  {
  }

  /** An accepted OFFER carries the id of the exchange that it opens, except on the client's very
      first step: then it carries 0, whatever id was drawn. */
  lemma OfferXidIff(n: int, log: seq<Event>, i: nat)
    requires Play(n, log).Some? && i < |log| && log[i].Offer?
    ensures i >= 1 && Play(n, log[..i + 1]).Some?
    ensures log[i].xid == Play(n, log[..i + 1]).value.xid <==> i > 1 || log[0] == Restart(0)
  {
    hide Next;
    PlayPrefix(n, log, i);
    PlayPrefix(n, log, i + 1);
    var before := Play(n, log[..i]).value;
    EarlyIsFirst(n, log[..i]);
    XidNext(before, log[i]);
  }

  /** From a sent DHCPDISCOVER or an accepted DHCPOFFER until the next restart, every message that the
      client sends or accepts carries the same transaction id. */
  lemma XidConstant(n: int, log: seq<Event>, i: nat, j: nat)
    requires Play(n, log).Some? && i <= j < |log| && NoRestart(Behind(log, i)) && XidOf(log[j]).Some?
    requires log[i].Discover? || (log[i].Offer? && (i > 1 || log[0] == Restart(0)))
    ensures XidOf(log[j]).value == log[i].xid
  {
    hide Next, Play;
    if j > i {
      XidSince(n, log, i);
      assert log[j] == Behind(log, i)[j - i - 1];
      if log[i].Offer? {
        OfferXidIff(n, log, i);
      } else {
        PlayPrefix(n, log, i);
        XidNext(Play(n, log[..i]).value, log[i]);
      }
    }
  }

  /** A run in which the condition on the OFFER fails: the server answers a REQUEST with an id that
      its OFFER did not have. */
  lemma OfferOnFirstStep(n: int)
    ensures Play(n, [Restart(5), Offer(0, 1, 2), Request(0, 5, 1, 2)]).Some?
  {
    var l := [Restart(5), Offer(0, 1, 2), Request(0, 5, 1, 2)];
    assert l[..2] == [Restart(5), Offer(0, 1, 2)];
    assert l[..2][..1] == [Restart(5)];
    assert [Restart(5)][..0] == [];
    var a := Initial(n);
    var b := Next(a, Restart(5)).value;
    assert Play(n, []) == Some(a);
    assert Play(n, [Restart(5)]) == Some(b);
    assert Play(n, l[..2]) == Next(b, Offer(0, 1, 2));
  }

  // ---------------------------------------------------------------------------
  // Extending a lease
  // ---------------------------------------------------------------------------

  function CeilDiv(a: int, b: int): (c: int)
    requires b > 0
  {
    if a <= 0 then 0 else (a + b - 1) / b
  }

  /** The tries of a log stay within the phases of the lease `l`. */
  ghost predicate InPhase(log: seq<Event>, l: Lease) {
    forall e :: e in log ==>
      && (e.Renew? ==> l.T1() <= e.t < l.T2())
      && (e.Rebind? ==> l.T2() <= e.t < l.Expiry())
  }

  ghost predicate WithinBounds(renews: nat, rebinds: nat, l: Lease) {
    && renews <= CeilDiv(l.T2() - l.T1(), RETRY)
    && rebinds <= CeilDiv(l.Expiry() - l.T2(), RETRY)
  }

  lemma {:induction false} TriesSinceAck(n: int, log: seq<Event>, i: nat)
    requires Play(n, log).Some? && i < |log| && log[i].Ack? && NoAck(Behind(log, i)) && NoRestart(Behind(log, i))
    ensures var a, l, b := Play(n, log).value, Lease(log[i].t, log[i].secs), Behind(log, i);
            && a.lease == l && a.phase != Selecting && a.phase != Requesting
            && (a.phase != Idle ==> Count(Renews, b) == a.renews && Count(Rebinds, b) == a.rebinds)
            && WithinBounds(Count(Renews, b), Count(Rebinds, b), l)
            && InPhase(b, l)
    decreases |log|
  {
    hide Next, Sound, CeilDiv, Lease.T1, Lease.T2, Lease.Expiry, WithinBounds;
    var last := |log| - 1;
    var before := Play(n, log[..last]).value;
    if i == last {
      assert Behind(log, i) == [];
      AckNext(before, log[last]);
      NoTries(Lease(log[i].t, log[i].secs));
    } else {
      Shorter(log, i);
      TriesSinceAck(n, log[..last], i);
      TryNext(before, log[last]);
      SoundPlay(n, log);
      if Play(n, log).value.phase == Bound {
        SoundBounds(Play(n, log).value);
      }
    }
  }

  lemma AckNext(a: Ref, e: Event)
    requires e.Ack? && Next(a, e).Some?
    ensures var r := Next(a, e).value;
            && r.lease == Lease(e.t, e.secs) && r.renews == 0 && r.rebinds == 0
            && (r.phase == Checking || r.phase == Bound)
  {
  }

  lemma NoTries(l: Lease)
    ensures WithinBounds(0, 0, l)
  {
  }

  lemma TryNext(a: Ref, e: Event)
    requires Next(a, e).Some? && !e.Ack? && !e.Restart? && a.phase != Selecting && a.phase != Requesting
    ensures var r := Next(a, e).value;
            && r.lease == a.lease && r.phase != Selecting && r.phase != Requesting
            && r.renews == a.renews + (if e.Renew? then 1 else 0)
            && r.rebinds == a.rebinds + (if e.Rebind? then 1 else 0)
            && (e.Renew? || e.Rebind? ==> a.phase == r.phase == Bound)
            && (e.Renew? ==> a.lease.T1() <= e.t < a.lease.T2())
            && (e.Rebind? ==> a.lease.T2() <= e.t < a.lease.Expiry())
            && (r.phase != Idle ==> a.phase != Idle)
  {
  }

  lemma SoundBounds(a: Ref)
    requires Sound(a) && a.phase == Bound
    ensures WithinBounds(a.renews, a.rebinds, a.lease)
  {
    hide Lease.T1, Lease.T2, Lease.Expiry;
  }

  /** From an accepted ACK until the next one or a restart, the lease timer sends at most
      ceil((T2-T1)/50000) unicast and ceil((expiry-T2)/50000) broadcast requests, the former only
      between T1 and T2 and the latter only between T2 and expiry. */
  lemma ExtensionTriesBounded(n: int, log: seq<Event>, i: nat)
    requires Play(n, log).Some? && i < |log| && log[i].Ack? && NoAck(Behind(log, i)) && NoRestart(Behind(log, i))
    ensures var l, b := Lease(log[i].t, log[i].secs), Behind(log, i);
            && Count(Renews, b) <= CeilDiv(l.T2() - l.T1(), 50000)
            && Count(Rebinds, b) <= CeilDiv(l.Expiry() - l.T2(), 50000)
            && InPhase(b, l)
  {
    hide Lease.T1, Lease.T2, Lease.Expiry, Play;
    TriesSinceAck(n, log, i);
  }

  /** Since an ACK, the timer of the lease waits for the answer to a REQUEST if one was sent and the lease
      has not been extended or tried to be; `r` is the last such REQUEST. */
  lemma {:induction false} LateSinceAck(n: int, log: seq<Event>, i: nat) returns (r: nat)
    requires Play(n, log).Some? && i < |log| && log[i].Ack? && NoAck(Behind(log, i)) && NoRestart(Behind(log, i))
    requires Play(n, log).value.phase != Idle
    ensures var a, b := Play(n, log).value, Behind(log, i);
            && (a.renews + a.rebinds == 0 && Count(Requests, b) == 0 ==> a.due == a.lease.T1())
            && (Late(a) <==> Count(Requests, b) > 0 && a.renews + a.rebinds == 0)
            && (Count(Requests, b) > 0 ==> LastRequest(log, i, r))
            && (Late(a) ==> a.lease.T1() < a.due <= log[r].t + 64000)
    decreases |log|
  {
    hide Play, Next, Lease.T1, Lease.T2, Lease.Expiry;
    r := 0;
    var last := |log| - 1;
    PlayStep(n, log);
    var before := Play(n, log[..last]).value;
    if i == last {
      assert Behind(log, i) == [];
      AckDue(before, log[last]);
    } else {
      Shorter(log, i);
      TriesSinceAck(n, log[..last], i);
      DueNext(before, log[last]);
      r := LateSinceAck(n, log[..last], i);
      if log[last].Request? {
        r := last;
      }
    }
  }

  ghost predicate LastRequest(log: seq<Event>, i: nat, r: nat) {
    i < r < |log| && log[r].Request? && forall k :: r < k < |log| ==> !log[k].Request?
  }

  lemma AckDue(a: Ref, e: Event)
    requires e.Ack? && Next(a, e).Some?
    ensures var r := Next(a, e).value; r.due == r.lease.T1() && r.renews == 0 && r.rebinds == 0
  {
  }

  lemma DueNext(a: Ref, e: Event)
    requires Next(a, e).Some? && !e.Ack? && !e.Restart? && a.phase != Selecting && a.phase != Requesting
    requires Next(a, e).value.phase != Idle
    ensures var r := Next(a, e).value;
            && a.phase != Idle && r.lease == a.lease
            && (e.Request? ==> r.phase == Checking && a.due <= e.t && e.t < r.due <= e.t + 64000)
            && (e.Renew? || e.Rebind? ==> r.renews + r.rebinds > 0)
            && (!e.Renew? && !e.Rebind? ==> r.renews == a.renews && r.rebinds == a.rebinds)
            && (!e.Request? && !e.Renew? && !e.Rebind? ==> r.due == a.due)
  {
  }

  /** A lease of a minute that is acknowledged after the fourth REQUEST, and the first probe for its address. */
  const SLOW_ACK: seq<Event> :=
    [Restart(5), Discover(0, 5), Offer(5, 1, 2),
     Request(0, 5, 1, 2), Request(4000, 5, 1, 2), Request(12000, 5, 1, 2), Request(28000, 5, 1, 2),
     Ack(30000, 5, 1, 2, 60), Probe(30000, 1)]

  /** The wait behind that probe is 40 seconds, so that T1 of the lease comes before the end of the check. */
  const SLOW_CHECK: seq<Event> := [Request(60000, 5, 1, 2), Configure(70000, 1)]

  /** A REQUEST during the collision check may put off the end of the lease: here the lease ends at 90000,
      and nothing is due before 124000. It takes a collision timer that is later than T1. */
  lemma RequestOutlastsLease(n: int)
    ensures var a := Play(n, SLOW_ACK + SLOW_CHECK);
            a.Some? && a.value.phase == Bound && a.value.due == 124000 && a.value.lease.End() == 90000
  {
    hide Play, Next;
    var l := SLOW_ACK;
    var a := SlowAckPlays(n);
    var b := Next(a, SLOW_CHECK[0]);
    LastRequestPlays(a);
    PlayAppend(n, l, SLOW_CHECK[0]);
    PlayAppend(n, l + [SLOW_CHECK[0]], SLOW_CHECK[1]);
    assert l + SLOW_CHECK == l + [SLOW_CHECK[0]] + [SLOW_CHECK[1]];
  }

  lemma LastRequestPlays(a: Ref)
    requires Acked(a)
    ensures var b := Next(a, SLOW_CHECK[0]);
            && b.Some?
            && var c := Next(b.value, SLOW_CHECK[1]);
               c.Some? && c.value.phase == Bound && c.value.due == 124000 && c.value.lease == Lease(30000, 60)
  {
  }

  /** The collision check, with four REQUESTs sent and a lease from 30000 to 90000. */
  ghost predicate Acked(a: Ref) {
    && a.phase == Checking && a.xid == 5 && a.addr == 1 && a.server == 2 && a.requests == 4 && a.due == 60000
    && a.lease == Lease(30000, 60) && a.probes == 1 && a.probing == 30000
  }

  lemma SlowAckPlays(n: int) returns (a: Ref)
    ensures Play(n, SLOW_ACK) == Some(a) && Acked(a)
  {
    hide Play, Next;
    var l := SLOW_ACK;
    var b := SlowOfferPlays(n);
    var m := l[..3];
    b := AnotherRequest(n, m, b, 0);
    b := AnotherRequest(n, m + [l[3]], b, 4000);
    b := AnotherRequest(n, m + [l[3]] + [l[4]], b, 12000);
    b := AnotherRequest(n, m + [l[3]] + [l[4]] + [l[5]], b, 28000);
    var k := m + [l[3]] + [l[4]] + [l[5]] + [l[6]];
    PlayAppend(n, k, l[7]);
    a := AckAndProbe(b);
    PlayAppend(n, k + [l[7]], l[8]);
    assert l == k + [l[7]] + [l[8]];
  }

  lemma AckAndProbe(b: Ref) returns (a: Ref)
    requires Asking(b) && b.requests == 4
    ensures Next(b, SLOW_ACK[7]).Some? && Next(Next(b, SLOW_ACK[7]).value, SLOW_ACK[8]) == Some(a) && Acked(a)
  {
    a := Next(Next(b, SLOW_ACK[7]).value, SLOW_ACK[8]).value;
  }

  /** The address was offered, and is being asked for. */
  ghost predicate Asking(a: Ref) {
    a.phase == Requesting && a.xid == 5 && a.addr == 1 && a.server == 2 && a.probes == 0
  }

  lemma SlowOfferPlays(n: int) returns (a: Ref)
    ensures Play(n, SLOW_ACK[..3]) == Some(a) && Asking(a) && a.requests == 0
  {
    hide Play;
    var l := SLOW_ACK;
    var b := Next(Initial(n), l[0]).value;
    var c := Next(b, l[1]).value;
    a := Next(c, l[2]).value;
    NothingPlayed(n);
    PlayAppend(n, [], l[0]);
    PlayAppend(n, [] + [l[0]], l[1]);
    PlayAppend(n, [] + [l[0]] + [l[1]], l[2]);
    assert l[..3] == [] + [l[0]] + [l[1]] + [l[2]];
  }

  lemma AnotherRequest(n: int, log: seq<Event>, a: Ref, t: int) returns (r: Ref)
    requires Play(n, log) == Some(a) && Asking(a) && a.requests < 5 && (a.requests > 0 ==> a.due <= t)
    ensures Play(n, log + [Request(t, 5, 1, 2)]) == Some(r) && Asking(r)
    ensures r.requests == a.requests + 1 && r.due == t + Pause(a.requests)
  {
    hide Play;
    PlayAppend(n, log, Request(t, 5, 1, 2));
    r := Next(a, Request(t, 5, 1, 2)).value;
  }

  lemma NothingPlayed(n: int)
    ensures Play(n, []) == Some(Initial(n))
  {
  }

  // ---------------------------------------------------------------------------
  // Where an address comes from
  // ---------------------------------------------------------------------------

  /** The address of `a` was offered in event i. */
  ghost predicate OfferedIn(log: seq<Event>, a: Ref, i: nat) {
    && 1 <= i < |log| && log[i].Offer? && log[i].addr == a.addr && NoRestart(Behind(log, i))
    && (log[i].xid == a.xid || i == 1)
  }

  /** It was confirmed in event j. */
  ghost predicate AckedIn(log: seq<Event>, a: Ref, j: nat) {
    j < |log| && log[j].Ack? && log[j].addr == a.addr && log[j].xid == a.xid
  }

  /** It was configured in event k. */
  ghost predicate ConfiguredIn(log: seq<Event>, a: Ref, k: nat) {
    k < |log| && log[k].Configure? && log[k].addr == a.addr
  }

  ghost predicate Leased(log: seq<Event>, a: Ref, i: nat, j: nat) {
    OfferedIn(log, a, i) && i < j && AckedIn(log, a, j)
  }

  lemma {:induction false} AddressHistory(n: int, log: seq<Event>) returns (i: nat, j: nat, k: nat)
    requires Play(n, log).Some?
    ensures var a := Play(n, log).value;
            && (a.phase == Requesting ==> OfferedIn(log, a, i))
            && (a.phase == Checking ==> Leased(log, a, i, j))
            && (a.phase == Bound ==> Leased(log, a, i, j) && j < k && ConfiguredIn(log, a, k))
    decreases |log|
  {
    hide Next;
    i, j, k := 0, 0, 0;
    if log != [] {
      var last := |log| - 1;
      var e, l := log[last], log[..last];
      i, j, k := AddressHistory(n, l);
      AddressNext(Play(n, l).value, e);
      if e.Offer? {
        i := last;
        EarlyIsFirst(n, l);
        assert Behind(log, i) == [];
      } else if i < last {
        assert forall x :: x in Behind(log, i) ==> x in Behind(l, i) || x == e;
      }
      if Play(n, l).value.phase == Requesting {
        j := last;
      } else if Play(n, l).value.phase == Checking {
        k := last;
      }
    }
  }

  lemma AddressNext(a: Ref, e: Event)
    requires Next(a, e).Some?
    ensures var r := Next(a, e).value;
            && (r.phase == Requesting ==> a.phase == Requesting || e.Offer?)
            && (r.phase == Checking ==> a.phase == Checking || (a.phase == Requesting && e.Ack?))
            && (r.phase == Bound ==> a.phase == Bound || (a.phase == Checking && e.Configure?))
            && (e.Offer? ==> a.phase == Selecting && r.phase == Requesting && e.addr == r.addr && (a.early || e.xid == r.xid))
            && (!e.Offer? ==> r.addr == a.addr)
            && (r.phase != Selecting ==> r.xid == a.xid && !e.Restart?)
            && (a.phase == Requesting && e.Ack? ==> e.addr == r.addr && e.xid == r.xid)
            && (e.Configure? ==> e.addr == r.addr)
  {
  }

  /** The address of a bound client was accepted in an OFFER, confirmed in a later ACK with the same
      transaction id (see OfferXidIff), and configured after that, all since the last restart. */
  lemma BoundAddressWasLeased(n: int, log: seq<Event>)
    requires Play(n, log).Some? && Play(n, log).value.phase == Bound
    ensures var a := Play(n, log).value;
            exists i, j, k :: Leased(log, a, i, j) && j < k && ConfiguredIn(log, a, k)
  {
    var i, j, k := AddressHistory(n, log);
  }

  ghost predicate ProbesFor(log: seq<Event>, addr: U32) {
    forall e :: e in log && e.Probe? ==> e.addr == addr
  }

  lemma {:induction false} ProbeHistory(n: int, log: seq<Event>) returns (p: nat)
    requires Play(n, log).Some?
    ensures var a := Play(n, log).value;
            (a.phase == Requesting ==> a.probes == 0) &&
            (a.phase == Checking && a.probes > 0 ==>
               && p < |log| && log[p] == Probe(a.probing, a.addr) && NoRestart(Behind(log, p))
               && a.probes == 1 + Count(Probes, Behind(log, p)) && ProbesFor(Behind(log, p), a.addr))
    decreases |log|
  {
    hide Next;
    p := 0;
    if log != [] {
      var last := |log| - 1;
      var l := log[..last];
      p := ProbeHistory(n, l);
      ProbeNext(Play(n, l).value, log[last]);
      if log[last].Probe? && Play(n, l).value.probes == 0 {
        p := last;
        assert Behind(log, p) == [];
      } else if p < last {
        Shorter(log, p);
      }
    }
  }

  lemma ProbeNext(a: Ref, e: Event)
    requires Next(a, e).Some?
    ensures var r := Next(a, e).value;
            && (r.phase == Requesting ==> if e.Offer? then r.probes == 0 else a.phase == Requesting && r.probes == a.probes)
            && (r.phase == Checking ==> a.phase == Requesting || a.phase == Checking)
            && (r.phase == Checking ==> r.addr == a.addr && !e.Restart?)
            && (r.phase == Checking && !e.Probe? ==> r.probes == a.probes && r.probing == a.probing)
            && (r.phase == Checking && e.Probe? ==>
                  e.addr == a.addr && a.phase == Checking && r.probes == a.probes + 1
                  && r.probing == if a.probes == 0 then e.t else a.probing)
  {
  }

  /** No address is configured before an ARP probe for it was sent; unless the full number of probes for it
      is in the log from there on, two seconds lie between the first of them and the configuration
      (section 2.1.1 of RFC 5227). */
  lemma ConfiguredOnlyAfterProbing(n: int, log: seq<Event>)
    requires Play(n, log).Some? && log != [] && log[|log| - 1].Configure?
    ensures var e := log[|log| - 1];
            exists p :: 0 <= p < |log| - 1 && log[p].Probe? && log[p].addr == e.addr
                        && NoRestart(Behind(log, p)) && ProbesFor(Behind(log, p), e.addr)
                        && (e.t >= log[p].t + 2000 || 1 + Count(Probes, Behind(log, p)) >= n)
  {
    hide Next;
    var last := |log| - 1;
    var l := log[..last];
    var p := ProbeHistory(n, l);
    ConfigureNext(Play(n, l).value, log[last]);
    ProbeNumKept(n, l);
    Shorter(log, p);
  }

  lemma ConfigureNext(a: Ref, e: Event)
    requires e.Configure? && Next(a, e).Some?
    ensures a.phase == Checking && a.probes >= 1 && e.addr == a.addr
    ensures e.t >= a.probing + 2000 || a.probes >= a.probeNum
  {
  }

  lemma ProbeNumNext(a: Ref, e: Event)
    requires Next(a, e).Some?
    ensures Next(a, e).value.probeNum == a.probeNum
  {
  }

  lemma {:induction false} ProbeNumKept(n: int, log: seq<Event>)
    requires Play(n, log).Some?
    ensures Play(n, log).value.probeNum == n
  {
    hide Next;
    if log != [] {
      ProbeNumKept(n, log[..|log| - 1]);
      ProbeNumNext(Play(n, log[..|log| - 1]).value, log[|log| - 1]);
    }
  }

  // ---------------------------------------------------------------------------
  // Rest
  // ---------------------------------------------------------------------------

  /** Behind a release, a NAK, an expired lease or the last unanswered REQUEST, nothing happens before
      the next restart. */
  lemma QuietUntilRestart(n: int, log: seq<Event>, i: nat)
    requires Play(n, log).Some? && i + 1 < |log|
    requires log[i].Sleep? || log[i].Nak? || log[i].Expire? || log[i].GiveUp?
    ensures log[i + 1].Restart?
  {
    hide Next;
    PlayPrefix(n, log, i);
    PlayPrefix(n, log, i + 1);
    PlayPrefix(n, log, i + 2);
    RestNext(Play(n, log[..i]).value, log[i]);
    IdleNext(Play(n, log[..i + 1]).value, log[i + 1]);
  }

  lemma RestNext(a: Ref, e: Event)
    requires Next(a, e).Some? && (e.Sleep? || e.Nak? || e.Expire? || e.GiveUp?)
    ensures Next(a, e).value.phase == Idle
  {
  }

  lemma IdleNext(a: Ref, e: Event)
    requires Next(a, e).Some? && a.phase == Idle
    ensures e.Restart?
  {
  }
}
