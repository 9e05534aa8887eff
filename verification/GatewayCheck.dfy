/** The check that the client is still on the network that it took its lease from, as a language of
event logs (src/arp.c:278-297, 329-339, 416-457 and 703-737; src/state.c:625-682).

The client stores the hardware addresses of its router and of its DHCP server, the fingerprint of
the network. When the carrier comes back it pings both and resumes its lease once both have
answered with the stored addresses.
 */
module GatewayCheck {
  import opened Wire

  datatype Side = Router | Server

  /** The ARP socket takes any frame, or only those that matter to the defence of the address. */
  datatype Socket = Shut | Basic | Defence

  /** A query asks the server and then the router, if there is one, for their addresses. A check begins
      with pings to the server and then to the router, if there is one, and a round repeats the ping to every side that
      has not answered. Fewer pings than that mean that a send failed. */
  datatype GwEvent =
    | Forget                                                // the lease is given up
    | Open(socket: Socket)                                  // the ARP socket from now on
    | Query(pings: nat, hasRouter: bool)
    | Learn(router: bool, server: bool, mac: Bytes)         // whose address this is
    | Begin(pings: nat, hasRouter: bool)
    | Round(pings: nat)
    | Reply(side: Side, mac: Bytes)                         // an answer with the stored address
    | Resume

  datatype Gw = Gw(
    routerMac: Bytes, serverMac: Bytes, gotRouter: bool, gotServer: bool, queried: bool, socket: Socket,
    checking: bool, routerReply: Option<Bytes>, serverReply: Option<Bytes>, pings: nat, failed: bool)
  {
    /** The query was sent and both addresses have been learned since. */
    predicate Known() {
      queried && gotRouter && gotServer
    }

    function Stored(s: Side): Bytes {
      if s == Router then routerMac else serverMac
    }

    /** The address in the answer of a side since its flag was cleared. */
    function Replied(s: Side): Option<Bytes> {
      if s == Router then routerReply else serverReply
    }

    function Missing(): nat {
      (if routerReply.None? then 1 else 0) + (if serverReply.None? then 1 else 0)
    }
  }

  const NO_MAC: Bytes := [0, 0, 0, 0, 0, 0]

  const INITIAL: Gw := Gw(NO_MAC, NO_MAC, false, false, false, Shut, false, None, None, 0, false)

  /** The pings that a check may have sent when it starts another round. */
  const MAX_PINGS: nat := 6

  function GwNext(a: Gw, e: GwEvent): (r: Option<Gw>) {
    match e
    case Forget => Some(a.(routerMac := NO_MAC, serverMac := NO_MAC, gotRouter := false, gotServer := false,
                           queried := false, socket := Shut, checking := false,
                           routerReply := None, serverReply := None))
    case Open(s) => Some(a.(socket := s))
    case Query(n, hasRouter) =>
      var all := if hasRouter then 2 else 1;
      if a.queried || n > all then None
      else Some(a.(gotServer := false, gotRouter := if n == 0 then a.gotRouter else !hasRouter, queried := n == all))
    case Learn(r, s, mac) =>
      // One answer is that of one side, or of a router that is the server.
      if (a.gotRouter && a.gotServer) || !(r || s) || |mac| != 6 then None
      else Some(a.(routerMac := if r then mac else a.routerMac, gotRouter := r || a.gotRouter,
                   serverMac := if s then mac else a.serverMac, gotServer := s || a.gotServer))
    case Begin(n, hasRouter) =>
      // Without a router, the flag of the router is set as if it had answered.
      var all := if hasRouter then 2 else 1;
      if n > all then None
      else Some(a.(checking := true, serverReply := None, pings := n, failed := n < all,
                   routerReply := if n == 0 then a.routerReply else if hasRouter then None else Some(a.routerMac)))
    case Round(n) =>
      if a.checking && a.pings < MAX_PINGS && n <= a.Missing()
      then Some(a.(pings := a.pings + n, failed := a.failed || n < a.Missing())) else None
    case Reply(s, mac) =>
      if !a.checking || mac != a.Stored(s) then None
      else if s == Router then Some(a.(routerReply := Some(mac)))
      else Some(a.(serverReply := Some(mac)))
    case Resume =>
      if a.checking && a.routerReply.Some? && a.serverReply.Some? then Some(a.(checking := false)) else None
  }

  function GwPlay(log: seq<GwEvent>): (r: Option<Gw>) {
    if log == [] then Some(INITIAL)
    else
      var a := GwPlay(log[..|log| - 1]);
      if a.None? then None else GwNext(a.value, log[|log| - 1])
  }

  lemma GwAppend(log: seq<GwEvent>, e: GwEvent)
    requires GwPlay(log).Some?
    ensures GwPlay(log + [e]) == GwNext(GwPlay(log).value, e)
  {
    assert (log + [e])[..|log|] == log;
  }

  lemma {:induction false} GwPlayPrefix(log: seq<GwEvent>, k: nat)
    requires GwPlay(log).Some? && k <= |log|
    ensures GwPlay(log[..k]).Some?
    decreases |log|
  {
    if k == |log| {
      assert log[..k] == log;
    } else {
      GwPlayPrefix(log[..|log| - 1], k);
      assert log[..|log| - 1][..k] == log[..k];
    }
  }

  // ---------------------------------------------------------------------------
  // What a resumed lease rests on
  // ---------------------------------------------------------------------------

  /** The event clears the flag that says that the side has answered. */
  predicate Clears(e: GwEvent, s: Side) {
    e.Forget? || (e.Begin? && (s == Server || (e.pings > 0 && e.hasRouter)))
  }

  /** The event sets the flag of a router that is not there. */
  predicate Waives(e: GwEvent) {
    e.Begin? && e.pings > 0 && !e.hasRouter
  }

  /** Event j is an answer of the side, with the address that was stored then, and its flag was not
      cleared since. If the network was known by then, that address is still the stored one. */
  ghost predicate AnsweredIn(log: seq<GwEvent>, s: Side, j: int) {
    && 0 <= j < |log| && log[j].Reply? && log[j].side == s
    && (forall k :: j < k < |log| ==> !Clears(log[k], s))
    && GwPlay(log).Some? && GwPlay(log[..j]).Some?
    && log[j].mac == GwPlay(log[..j]).value.Stored(s)
    && (GwPlay(log[..j]).value.Known() ==> log[j].mac == GwPlay(log).value.Stored(s))
  }

  /** Event j waives the answer of the router, and the router's flag was not cleared since. */
  ghost predicate WaivedIn(log: seq<GwEvent>, j: int) {
    && 0 <= j < |log| && Waives(log[j]) && GwPlay(log).Some?
    && forall k :: j < k < |log| ==> !Clears(log[k], Router)
  }

  lemma {:induction false} AnswerOf(log: seq<GwEvent>, s: Side) returns (j: int)
    requires GwPlay(log).Some? && GwPlay(log).value.Replied(s).Some?
    ensures AnsweredIn(log, s, j) || (s == Router && WaivedIn(log, j))
    ensures AnsweredIn(log, s, j) && GwPlay(log[..j]).value.Known() ==> GwPlay(log).value.Known()
    decreases |log|
  {
    hide GwNext;
    var last := |log| - 1;
    var l := log[..last];
    FlagNext(GwPlay(l).value, log[last], s);
    if (log[last].Reply? && log[last].side == s) || (s == Router && Waives(log[last])) {
      j := last;
    } else {
      j := AnswerOf(l, s);
      assert l[..j] == log[..j];
    }
  }

  lemma FlagNext(a: Gw, e: GwEvent, s: Side)
    requires GwNext(a, e).Some?
    ensures var r := GwNext(a, e).value;
            && (Clears(e, s) ==> r.Replied(s).None?)
            && (!Clears(e, s) && !(e.Reply? && e.side == s) && !(s == Router && Waives(e)) ==> r.Replied(s) == a.Replied(s))
            && (Waives(e) ==> r.Replied(Router).Some?)
            && (e.Reply? && e.side == s ==> e.mac == a.Stored(s) == r.Stored(s) && r.Replied(s).Some?)
            && (a.Known() && !e.Forget? ==> r.Known() && r.Stored(s) == a.Stored(s))
            && (e.Forget? ==> Clears(e, s))
            && (e.Reply? ==> r.Known() == a.Known())
  {
  }

  /** A lease is resumed only after the router, unless there is none, and the server have both answered, each
      since its flag was last cleared and with the address that was stored for it then. */
  lemma ResumeNeedsBothReplies(log: seq<GwEvent>)
    requires GwPlay(log).Some? && log != [] && log[|log| - 1].Resume?
    ensures exists r :: AnsweredIn(log, Router, r) || WaivedIn(log, r)
    ensures exists s :: AnsweredIn(log, Server, s)
  {
    var r := AnswerOf(log, Router);
    var s := AnswerOf(log, Server);
  }

  /** Nothing in the log from event i on restarts or ends the check that i begins. */
  ghost predicate OneCheck(log: seq<GwEvent>, i: nat) {
    && i < |log| && log[i].Begin?
    && forall k :: i < k < |log| ==> !log[k].Begin? && !log[k].Forget?
  }

  /** The side answered during the check that i begins, with the address that is stored now. */
  ghost predicate ConfirmedIn(log: seq<GwEvent>, i: nat, s: Side)
    requires GwPlay(log).Some?
  {
    exists j :: i < j < |log| && log[j] == Reply(s, GwPlay(log).value.Stored(s))
  }

  /** A check that began on a known network is resumed only after both sides have answered during the
      check with the addresses that are stored now. The one exception, if there is a router, is a check whose
      first ping could not be sent: it leaves the router's flag as it was, and an old answer will do. */
  lemma KnownNetworkIsConfirmed(log: seq<GwEvent>, i: nat)
    requires GwPlay(log).Some? && OneCheck(log, i) && log[|log| - 1].Resume?
    requires GwPlay(log[..i]).Some? && GwPlay(log[..i]).value.Known()
    ensures ConfirmedIn(log, i, Server)
    ensures log[i].hasRouter ==>
              ConfirmedIn(log, i, Router) || (log[i].pings == 0 && GwPlay(log[..i]).value.routerReply.Some?)
  {
    hide GwPlay, GwNext;
    ResumeNeedsBothReplies(log);
    var r :| AnsweredIn(log, Router, r) || WaivedIn(log, r);
    var s :| AnsweredIn(log, Server, s);
    assert Clears(log[i], Server);
    KnownStays(log, i, s);
    if !log[i].hasRouter {
      return;
    }
    if r > i {
      KnownStays(log, i, r);
    } else {
      assert !Clears(log[i], Router) && r != i;
      FlagKept(log, Router, r, i);
    }
  }

  /** A flag that was set and not cleared is set. */
  lemma {:induction false} FlagKept(log: seq<GwEvent>, s: Side, j: nat, i: nat)
    requires (AnsweredIn(log, s, j) || (s == Router && WaivedIn(log, j))) && j < i <= |log|
    ensures GwPlay(log[..i]).Some? && GwPlay(log[..i]).value.Replied(s).Some?
    decreases i
  {
    hide GwNext;
    GwPlayPrefix(log, i);
    GwPlayPrefix(log, i - 1);
    assert log[..i][..i - 1] == log[..i - 1];
    FlagNext(GwPlay(log[..i - 1]).value, log[i - 1], s);
    if j < i - 1 {
      FlagKept(log, s, j, i - 1);
    }
  }

  lemma {:induction false} KnownStays(log: seq<GwEvent>, i: nat, j: nat)
    requires GwPlay(log).Some? && OneCheck(log, i) && i <= j <= |log|
    requires GwPlay(log[..i]).Some? && GwPlay(log[..i]).value.Known()
    ensures GwPlay(log[..j]).Some? && GwPlay(log[..j]).value.Known()
    decreases j
  {
    hide GwNext;
    GwPlayPrefix(log, j);
    if j > i {
      KnownStays(log, i, j - 1);
      assert log[..j][..j - 1] == log[..j - 1];
      FlagNext(GwPlay(log[..j - 1]).value, log[j - 1], Router);
    }
  }

  // Two runs that show that the conditions are needed. The socket is opened for the collision check and
  // again for the query, as the contracts of Arp.ArpCheck and Arp.ArpQueryGateway say. The first query
  // reaches the server but not the router, so it will be sent again; both sides answer all the same (the
  // router unasked), and their addresses are stored. A check begins, and the router answers it. Then the
  // query is sent again, and by now the router has another address.

  const SERVER_MAC: Bytes := [2, 0, 0, 0, 0, 1]
  const OLD_ROUTER: Bytes := [2, 0, 0, 0, 0, 2]
  const NEW_ROUTER: Bytes := [2, 0, 0, 0, 0, 3]

  /** Both addresses are learned, though the query was not sent. */
  const UNSENT: seq<GwEvent> :=
    [Open(Basic), Open(Basic), Query(1, true), Learn(false, true, SERVER_MAC), Learn(true, false, OLD_ROUTER), Open(Defence)]

  /** A check is answered by the router. */
  const HALF_CHECK: seq<GwEvent> := [Open(Basic), Begin(2, true), Reply(Router, OLD_ROUTER)]

  /** The addresses are learned anew. */
  const RELEARNED: seq<GwEvent> :=
    [Open(Basic), Query(2, true), Learn(true, false, NEW_ROUTER), Learn(false, true, SERVER_MAC), Open(Defence)]

  /** A read error on the socket makes it a basic one again (src/arp.c:749-757), and the server answers. */
  const ANSWERED: seq<GwEvent> := [Open(Shut), Open(Basic), Reply(Server, SERVER_MAC), Open(Defence), Resume]

  /** Another check cannot send its first ping; the server is pinged again later, and answers. */
  const NO_PING: seq<GwEvent> := [Open(Basic), Begin(0, true), Round(1), Reply(Server, SERVER_MAC), Open(Defence), Resume]

  /** The states between these parts. */
  const LEARNED: Gw := Gw(OLD_ROUTER, SERVER_MAC, true, true, false, Defence, false, None, None, 0, false)
  const HALFWAY: Gw := Gw(OLD_ROUTER, SERVER_MAC, true, true, false, Basic, true, Some(OLD_ROUTER), None, 2, false)
  const ANEW: Gw := Gw(NEW_ROUTER, SERVER_MAC, true, true, true, Defence, true, Some(OLD_ROUTER), None, 2, false)

  /** Without a known network at its beginning, a check may be resumed although the stored router never
      answered it. The last answer comes in on the basic socket. */
  lemma UnknownNetworkMayDiffer()
    ensures var log := UNSENT + HALF_CHECK + RELEARNED + ANSWERED;
            && GwPlay(log).Some? && log[|log| - 1].Resume? && OneCheck(log, 7) && log[7].pings == 2
            && GwPlay(log[..7]).Some? && !GwPlay(log[..7]).value.Known()
            && !ConfirmedIn(log, 7, Router)
            && log[16].Reply? && GwPlay(log[..16]).Some? && GwPlay(log[..16]).value.socket == Basic
  {
    hide GwPlay, GwNext;
    UnsentPlays();
    HalfCheckPlays(UNSENT);
    RelearnedPlays(UNSENT + HALF_CHECK);
    var l := UNSENT + HALF_CHECK + RELEARNED;
    var log := l + ANSWERED;
    AnsweredPlays(l);
    assert log[..7] == UNSENT + [Open(Basic)] && log[..16] == l + [Open(Shut)] + [Open(Basic)];
    GwAppend(UNSENT, Open(Basic));
    Opens(LEARNED, Basic);
    GwAppend(l, Open(Shut));
    Opens(ANEW, Shut);
    GwAppend(l + [Open(Shut)], Open(Basic));
    Opens(ANEW.(socket := Shut), Basic);
    assert OLD_ROUTER[5] != NEW_ROUTER[5];
    assert forall k :: 7 < k < |log| && log[k].Reply? && log[k].side == Router ==> log[k].mac == OLD_ROUTER;
  }

  /** On a known network, a check whose first ping fails may be resumed on an old answer of the router,
      although the stored router never answered at all. */
  lemma StaleRouterFlag()
    ensures var log := UNSENT + HALF_CHECK + RELEARNED + NO_PING;
            && GwPlay(log).Some? && log[|log| - 1].Resume? && OneCheck(log, 15) && log[15].pings == 0
            && GwPlay(log[..15]).Some? && GwPlay(log[..15]).value.Known()
            && forall k :: 0 <= k < |log| ==> log[k] != Reply(Router, GwPlay(log).value.routerMac)
  {
    hide GwPlay, GwNext;
    UnsentPlays();
    HalfCheckPlays(UNSENT);
    RelearnedPlays(UNSENT + HALF_CHECK);
    var l := UNSENT + HALF_CHECK + RELEARNED;
    var log := l + NO_PING;
    NoPingPlays(l);
    assert log[..15] == l + [Open(Basic)];
    GwAppend(l, Open(Basic));
    Opens(ANEW, Basic);
    assert OLD_ROUTER[5] != NEW_ROUTER[5];
    assert forall k :: 0 <= k < |log| && log[k].Reply? && log[k].side == Router ==> log[k].mac == OLD_ROUTER;
  }

  /** The machine goes from state to state. */
  ghost predicate Trajectory(st: seq<Gw>, log: seq<GwEvent>) {
    |st| == |log| + 1 && forall k :: 0 <= k < |log| ==> GwNext(st[k], log[k]) == Some(st[k + 1])
  }

  lemma {:induction false} TrajectoryPlays(before: seq<GwEvent>, st: seq<Gw>, log: seq<GwEvent>)
    requires Trajectory(st, log) && GwPlay(before) == Some(st[0])
    ensures GwPlay(before + log) == Some(st[|log|])
    decreases |log|
  {
    hide GwNext;
    if log == [] {
      assert before + log == before;
    } else {
      GwAppend(before, log[0]);
      TrajectoryPlays(before + [log[0]], st[1..], log[1..]);
      assert before + [log[0]] + log[1..] == before + log;
    }
  }

  lemma Opens(a: Gw, s: Socket)
    ensures GwNext(a, Open(s)) == Some(a.(socket := s))
  {
  }

  /** The state behind an event that is allowed. */
  function Then(a: Gw, e: GwEvent): (r: Gw)
    requires GwNext(a, e).Some?
  {
    GwNext(a, e).value
  }

  lemma UnsentPlays()
    ensures GwPlay(UNSENT) == Some(LEARNED)
  {
    hide GwPlay;
    var l := UNSENT;
    var a := Then(INITIAL, l[0]);
    var b := Then(a, l[1]);
    var c := Then(b, l[2]);
    var d := Then(c, l[3]);
    var e := Then(d, l[4]);
    assert Then(e, l[5]) == LEARNED;
    NothingPlays();
    TrajectoryPlays([], [INITIAL, a, b, c, d, e, LEARNED], l);
    assert [] + l == l;
  }

  lemma NothingPlays()
    ensures GwPlay([]) == Some(INITIAL)
  {
  }

  lemma HalfCheckPlays(before: seq<GwEvent>)
    requires GwPlay(before) == Some(LEARNED)
    ensures GwPlay(before + HALF_CHECK) == Some(HALFWAY)
  {
    hide GwPlay;
    var l := HALF_CHECK;
    var a := Then(LEARNED, l[0]);
    var b := Then(a, l[1]);
    assert Then(b, l[2]) == HALFWAY;
    TrajectoryPlays(before, [LEARNED, a, b, HALFWAY], l);
  }

  lemma RelearnedPlays(before: seq<GwEvent>)
    requires GwPlay(before) == Some(HALFWAY)
    ensures GwPlay(before + RELEARNED) == Some(ANEW)
  {
    hide GwPlay;
    var l := RELEARNED;
    var a := Then(HALFWAY, l[0]);
    var b := Then(a, l[1]);
    var c := Then(b, l[2]);
    var d := Then(c, l[3]);
    assert Then(d, l[4]) == ANEW;
    TrajectoryPlays(before, [HALFWAY, a, b, c, d, ANEW], l);
  }

  lemma AnsweredPlays(before: seq<GwEvent>)
    requires GwPlay(before) == Some(ANEW)
    ensures GwPlay(before + ANSWERED).Some? && GwPlay(before + ANSWERED).value.routerMac == NEW_ROUTER
  {
    hide GwPlay;
    var l := ANSWERED;
    var a := Then(ANEW, l[0]);
    var b := Then(a, l[1]);
    var c := Then(b, l[2]);
    var d := Then(c, l[3]);
    var e := Then(d, l[4]);
    TrajectoryPlays(before, [ANEW, a, b, c, d, e], l);
  }

  lemma NoPingPlays(before: seq<GwEvent>)
    requires GwPlay(before) == Some(ANEW)
    ensures GwPlay(before + NO_PING).Some? && GwPlay(before + NO_PING).value.routerMac == NEW_ROUTER
  {
    hide GwPlay;
    var l := NO_PING;
    var a := Then(ANEW, l[0]);
    var b := Then(a, l[1]);
    var c := Then(b, l[2]);
    var d := Then(c, l[3]);
    var e := Then(d, l[4]);
    var f := Then(e, l[5]);
    TrajectoryPlays(before, [ANEW, a, b, c, d, e, f], l);
  }

  // ---------------------------------------------------------------------------
  // How many pings a check sends
  // ---------------------------------------------------------------------------

  function PingsIn(log: seq<GwEvent>): (n: nat) {
    if log == [] then 0
    else PingsIn(log[..|log| - 1]) +
         var e := log[|log| - 1]; if e.Begin? || e.Round? then e.pings else 0
  }

  lemma {:induction false} PingsOfCheck(log: seq<GwEvent>, i: nat)
    requires GwPlay(log).Some? && OneCheck(log, i)
    ensures var a := GwPlay(log).value;
            && PingsIn(log[i..]) == a.pings <= 7
            && (!a.failed ==> a.pings <= 6 && (a.pings % 2 == 1 ==> a.Missing() < 2))
    decreases |log|
  {
    hide GwNext;
    var last := |log| - 1;
    var l := log[..last];
    PingNext(GwPlay(l).value, log[last]);
    assert log[i..][..|log[i..]| - 1] == l[i..];
    if i == last {
      assert l[i..] == [];
    } else {
      PingsOfCheck(l, i);
    }
  }

  lemma PingNext(a: Gw, e: GwEvent)
    requires GwNext(a, e).Some?
    ensures var r := GwNext(a, e).value;
            && (e.Begin? ==> r.pings == e.pings <= 2 && (!r.failed ==> r.pings == 2 || r.Missing() < 2))
            && (e.Round? ==> a.pings < 6 && r.pings == a.pings + e.pings && e.pings <= a.Missing() == r.Missing() <= 2)
            && (e.Round? && !r.failed ==> !a.failed && e.pings == a.Missing())
            && (!e.Begin? && !e.Round? ==> r.pings == a.pings && r.failed == a.failed)
            && (!e.Begin? && !e.Forget? ==> r.Missing() <= a.Missing())
  {
  }

  /** One check sends at most seven pings, and at most six if all of them are sent. */
  lemma AtMostSixPings(log: seq<GwEvent>, i: nat)
    requires GwPlay(log).Some? && OneCheck(log, i)
    ensures PingsIn(log[i..]) <= 7
    ensures !GwPlay(log).value.failed ==> PingsIn(log[i..]) <= 6
  {
    PingsOfCheck(log, i);
  }
}
