/** Lease times and what a lease timer does (src/state.c:120-190, 214-235 and 701-718; section
    4.4.5 of RFC 2131). Times are in milliseconds. */
module LeaseTimes {
  import opened Wire

  /** A lease as `get_leasetime` records it. */
  datatype Lease = Lease(start: int, secs: U32) {

    /** When the client starts to ask its server for an extension. */
    function T1(): int {
      start + secs / 2 * 1000
    }

    /** When it starts to ask every server. */
    function T2(): int {
      start + secs / 8 * 7 * 1000
    }

    /** When the client gives the lease up; the product is a 32-bit one. */
    function Expiry(): int {
      start + secs * 1000 % 0x1_0000_0000
    }

    /** When a lease timer that fires drops the lease. */
    function End(): int {
      if T2() < Expiry() then Expiry() else T2()
    }

    /** When the server takes the lease to end. */
    function TrueExpiry(): int {
      start + secs * 1000
    }
  }

  /** The longest lease whose length in milliseconds has 32 bits. */
  const LONGEST: U32 := 4294967

  /** The length that the client works with: an hour if none was sent, and at least a minute. */
  function EffectiveSecs(sent: U32): (secs: U32)
    ensures secs >= 60
    ensures sent == 0 ==> secs == 3600
    ensures 0 < sent < 60 ==> secs == 60
    ensures sent >= 60 ==> secs == sent
  {
    if sent == 0 then 3600 else if sent < 60 then 60 else sent
  }

  /** What a lease timer that fires does. */
  datatype Action = Reschedule | Unicast | Broadcast | Drop

  /** `bound_timeout`, which falls through to `renewing_timeout` and `rebinding_timeout`. */
  function BoundAction(l: Lease, now: int): Action {
    if now < l.T1() then Reschedule
    else if now < l.T2() then Unicast
    else if now < l.Expiry() then Broadcast
    else Drop
  }

  /** The three-way choice that the state machine makes between those functions. */
  function DispatchAction(l: Lease, now: int): Action {
    if now >= l.T2() then if now < l.Expiry() then Broadcast else Drop
    else if now >= l.T1() then Unicast
    else Reschedule
  }

  /** The next wakeup, for a random number r below 20. */
  function NextWake(l: Lease, now: int, r: nat): int
    requires r < 20
  {
    var t := now + (50 + r) * 1000;
    match DispatchAction(l, now)
    case Reschedule => l.T1()
    case Unicast => if t < l.T2() then t else l.T2()
    case Broadcast => if t < l.Expiry() then t else l.Expiry()
    case Drop => now
  }

  lemma RenewBeforeRebind(l: Lease)
    requires l.secs >= 60
    ensures l.start + 30000 <= l.T1() < l.T2() < l.TrueExpiry()
  {
  }

  /** From its end on a lease is dropped, and never before; nor is it ever kept for longer than it was given. */
  lemma DroppedFromEnd(l: Lease, now: int)
    requires l.secs >= 60
    ensures DispatchAction(l, now) == Drop <==> now >= l.End()
    ensures l.T1() < l.T2() <= l.End() <= l.TrueExpiry()
  {
    RenewBeforeRebind(l);
  }

  /** The client's expiry is the server's exactly for leases of up to 4294967 seconds. */
  lemma ExpiryIsTrueIff(l: Lease)
    ensures l.Expiry() == l.TrueExpiry() <==> l.secs <= LONGEST
  {
  }

  /** Rebinding comes before expiry exactly for leases of up to 4294967 seconds. */
  lemma RebindBeforeExpiryIff(l: Lease)
    requires l.secs >= 60
    ensures l.T2() < l.Expiry() <==> l.secs <= LONGEST
  {
    if l.secs > LONGEST {
      var e := l.secs * 1000 % 0x1_0000_0000;
      if l.secs >= 4908536 {
        assert l.secs / 8 >= 613567;
      } else {
        assert e == l.secs * 1000 - 0x1_0000_0000;
        assert l.secs / 8 >= 536871;
      }
    }
  }

  /** A client with a longer lease never rebinds: it drops the lease as soon as rebinding is due. */
  lemma SomeTimeToRebindIff(l: Lease)
    requires l.secs >= 60
    ensures (exists now :: DispatchAction(l, now) == Broadcast) <==> l.secs <= LONGEST
    ensures l.secs > LONGEST ==> forall now :: DispatchAction(l, now) == Drop <==> now >= l.T2()
  {
    RebindBeforeExpiryIff(l);
    if l.secs <= LONGEST {
      assert DispatchAction(l, l.T2()) == Broadcast;
    }
  }

  /** The infinite lease of section 3.3 of RFC 2131 is dropped, although it never ends. */
  lemma InfiniteLeaseIsDropped(start: int)
    ensures var l := Lease(start, 0xffff_ffff); DispatchAction(l, l.T2()) == Drop
  {
    SomeTimeToRebindIff(Lease(start, 0xffff_ffff));
  }

  /** The phases of a lease, for every time at which a timer may fire. */
  lemma Phases(l: Lease, now: int)
    requires 60 <= l.secs <= LONGEST
    ensures l.T1() <= l.T2() < l.Expiry() == l.TrueExpiry()
    ensures DispatchAction(l, now) == Reschedule <==> now < l.T1()
    ensures DispatchAction(l, now) == Unicast <==> l.T1() <= now < l.T2()
    ensures DispatchAction(l, now) == Broadcast <==> l.T2() <= now < l.Expiry()
    ensures DispatchAction(l, now) == Drop <==> l.Expiry() <= now
  {
    RenewBeforeRebind(l);
    RebindBeforeExpiryIff(l);
    ExpiryIsTrueIff(l);
  }

  /** The three-way choice is `bound_timeout` alone, for every lease and at every time. */
  lemma DispatchIsBoundTimeout(l: Lease, now: int)
    requires l.secs >= 60
    ensures DispatchAction(l, now) == BoundAction(l, now)
  {
    RenewBeforeRebind(l);
  }

  /** A timer that does not end the lease is set again, strictly later and by expiry at the latest. */
  lemma WaitIsBounded(l: Lease, now: int, r: nat)
    requires 60 <= l.secs <= LONGEST && r < 20 && DispatchAction(l, now) != Drop
    ensures now < NextWake(l, now, r) <= l.Expiry()
  {
    Phases(l, now);
  }
}
