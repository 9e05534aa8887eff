# ndhc, modelled in Dafny

ndhc is a DHCPv4 client (RFC 2131). It probes the address it is given with ARP and announces it
(RFC 5227), remembers which network it is on, and leaves the configuration of the interface to a
second process, ifchd, which it sends text commands. This project models the parts of ndhc that
decide what it does, as they are in the C source, and proves what holds of them on every input and
over every run.

`dafny verify dfyconfig.toml` checks everything. There are four parts.

**The client.** `Machine` holds the client's fields, `Arp` and `State` are `src/arp.c` and
`src/state.c` as methods on them, and `EventLoop` is the loop of `src/ndhc.c`. The clock, random
numbers, the success of a send and of opening a socket, and everything that is received are
nondeterministic. `State.Handle` is `dhcp_handle`: an explicit resume label takes the place of the
coroutine's hidden line number, and a loop over labels takes the place of its gotos.

`Calls` says what a call does, as a relation between the client before and after it: every part of the
loop of every state, for a signal, a packet, an ARP frame and each timer, then how the parts follow
each other, how the machine is resumed and where a goto leads. `State.Handle` is proved to be such a
call, and `EventLoop.Loop.Iterate` to make exactly the call that its event asks for.

The client writes two ghost logs, of its DHCP events and of its network checks, and counts what it
tries to send, so that a contract can say what must be tried and not only what may not happen. `Protocol` and
`GatewayCheck` define small reference machines over such logs, without sockets, timers or resume
points, and prove what holds of every log that they play. The invariant of the client,
`Machine.Client.Inv`, says that its logs are played by these machines and that its fields agree with
the states behind them, phase by phase. Every method keeps it and only ever extends the logs, so each
lemma about logs is a fact about every run of `EventLoop.Loop.Run`.

**The option codec.** `Options` relates the three TLV scanners and the in-place appender of
`src/options.c` to lists of options, and `Messages` the `send_*` builders of `src/dhcp.c` to the
options they intend.

**The channel to ifchd.** `IfchdParse` is the grammar of `src/ifchd-parse.rl` as a character-driven
machine, `IfchCommands` what is printed for it, and `Ifchange` the differential update.

**Fast forms.** `Bpf` interprets the socket filters of `src/sockd.c`, `Ifset` the mod-37 table of
`src/ifset.c`, `Netlink` the attribute list of `src/nl.c`, and `LeaseTimes` the lease timer.

## Where the code and its documentation differ

The model follows the code. What it then proves is the exact extent of the promise.

- `lease * 1000` is a 32-bit product (src/state.c:139). Rebinding comes before expiry if and only if
  the lease has at most 4294967 seconds; a client with a longer one drops it when rebinding is due.
- An OFFER that arrives before the first step was matched against the id 0 and is taken, although a
  new id is drawn first (src/state.c:450-460). Every other message of an exchange has the same id.
- A network check that began on a known network resumes the lease only after the server, and the router
  if there is one, have answered during the check from the addresses that are stored. The exception is
  a check whose first ping cannot be sent: it does not clear the router's flag (src/arp.c:283-289), so an old answer
  of the router will do. If the query for the addresses is still to be sent when the check begins, they may be learned anew
  during the check, and then it may resume on one that is no longer stored.
- One check sends at most six pings if every send succeeds, and seven if one fails.
- The collision test takes a reply from our own hardware address as a collision (src/arp.c:682-686),
  and the defence test answers at once only in quick succession (src/arp.c:619-620).
- A REQUEST that is sent during the collision check sets the timer of the lease that was just acknowledged
  (src/state.c:115-116 and 558-571), which then may fire after the lease has ended. Otherwise it fires in time. It
  takes a collision check that lasts beyond T1, after a long wait for the probes or a stall of the process.
- An ACK with another address in BOUND arms the timer of the collision check (src/state.c:603-609), which nothing
  in BOUND serves or disarms: it stays armed until a restart, and once it is due every call has an ARP timeout.
- An unchanged address is not sent again, even if the new packet lacks the subnet or the broadcast address that
  the old one had; then these stay as they were.
- ndhc does not look for the terminator of a command in a name that it passes on. A bind is understood as it was
  meant if and only if it is not empty and every command is acceptable, and one of these conditions is that no
  name holds it.
- Binding fails if nothing has changed (src/ifchange.c:336-349), and the process ends then.
- ifchd accepts an MTU of exactly two characters, but ndhc prints it in decimal: a bind that carries
  an MTU is accepted only if that number has two digits.
- The default broadcast address is `ip | ~mask` for every address if and only if the mask is contiguous.
- A netlink attribute is read back as it was appended if and only if its type and length fit 16 bits. The walk
  over the attributes stays inside the message, whatever it holds, if and only if their length is a multiple
  of four or less than four.

## Model

| member | source | states |
|---|---|---|
| EventLoop.Loop.Run | src/ndhc.c:279-393 | At every point of every run the log is one that the reference machine plays; a bound client has exactly the configured address, the interface is not deconfigured, and the address was offered, then acknowledged and then configured since the last restart; during the collision check the checked address is the client's; ifchd stays in step with what the client has cached as long as every bind is plain and no change fails, and again from the next deconfiguration on. |
| EventLoop.Loop.Iterate | src/ndhc.c:279-393 | The state machine is called exactly unless the process ends, the radio is blocked or the carrier is down, with what the event says and the timers that are due, and the call is one of `Calls`. After a successful call the loop sleeps without end exactly in RELEASED, and otherwise until the earliest armed deadline or for the failsafe; it sleeps two to five seconds after an error; in RELEASED nothing is sent and nothing changes without a renew signal; a release signal leads there; a carrier that comes up without a gateway to check ends the lease. |
| EventLoop.Loop.Act | src/ndhc.c:279-364 | The same for everything but the sleep. |
| EventLoop.Loop.Plan | src/ndhc.c:366-392 | The loop sleeps without end exactly in RELEASED, and otherwise as EventLoop.SleepFor says. |
| EventLoop.Loop.Prepare | src/ndhc.c:357-364 | What the state machine is told; its ARP timeout holds exactly if a timer is due or none is armed. |
| EventLoop.Loop.Call | src/ndhc.c:357-364 | The clock is read once, and the call is one of `Calls` on the client as it is then; what it promises, in terms of what was gathered. |
| EventLoop.SleepFor | src/ndhc.c:366-392 | The timeout is -1 exactly if no timer is armed; otherwise it does not pass any deadline, is 0 if one is due, and is the distance to one of them, except for the ten seconds that stop a spin. |
| EventLoop.Loop.Gather | src/ndhc.c:297-321 | What is gathered is a function of the event and the client, and nothing else of the client changes; a packet has the current id; a client at rest stays at rest. |
| EventLoop.Loop.ReadArp | src/ndhc.c:307-310 | Reading the ARP socket changes nothing but the last frame, or the socket after an error. |
| EventLoop.Loop.Carrier | src/ndhc.c:323-348 | A check is forced exactly if the carrier came up with the radio unblocked, or the radio was unblocked after the carrier had come up and it is up then; otherwise that is remembered. The loop goes on exactly if the radio is not blocked and the carrier is up. |
| EventLoop.Loop.constructor | src/ndhc.c:257-277 | The loop starts with an open listening socket and nothing logged. |
| EventLoop.NoDeadlineInReleased | src/state.c:369-376 | No timer is armed in RELEASED. |
| EventLoop.LeaseTimerInTime | src/state.c:103-190 | In every bound state of every run the lease timer fires by the end of the lease, unless a REQUEST was sent since its ACK and the lease timer has not sent anything; then it fires less than 65 seconds after the last such REQUEST. |
| EventLoop.ValidateDhcpPacket | src/dhcp.c:342-393 | Exactly which packets pass: long enough, with the cookie, the client's id and hardware address, an END and a message type; the client id may be cut short or go on, but may not differ. |
| EventLoop.DhcpPacketGet | src/dhcp.c:395-416 | A packet is passed on exactly if the socket is open, a datagram was read and it validates; a broken socket is opened again, or the process ends with it closed. |
| State.Handle | src/state.c:442-742 | The call does exactly what `Calls` says, part by part. From every resume point and for all inputs the call ends; its log begins at most one state, or two at the very start and after a failed deconfiguration with a release signal, and at least one if the call leaves the client in another state; no BAD_STATE is reached; the invariant holds again; after success the DHCP timer is disarmed exactly in RELEASED, where nothing happens without a renew signal; a release signal is obeyed; a bound client whose server rejects it, whose network differs or does not answer, or whose lease has run out, and a client whose address is taken, do not carry on; a collision timer that is armed in BOUND stays so. An OFFER that SELECTING takes, also on the very first step, where its id is 0, is logged behind the restart, and then at most one REQUEST, with the new id. An ACK of the requested address is logged with its server and lease and then probed for, or followed by a restart; in BOUND an ACK of the own server is logged from T1 on, and a NAK ends the lease; a lease timer that has fired sends a renewal or a rebinding last. |
| State.RunCall | src/state.c:448-742 | The same up to the return. |
| State.Chase | src/state.c:449-742 | The goto behind the first state ends in the state that it leads to, or ends the process; no packet is left for it, so no lease is taken on the way, and the log begins a state exactly for a restart. |
| State.Step | src/state.c:448-742 | Each goto leads to a state from which strictly fewer gotos can follow. |
| State.Enter | src/coroutine.h:135-143 | Resuming runs into the code of a state with its precondition met; the log begins SELECTING exactly at the start and after a failed deconfiguration. |
| State.FirstStep | src/state.c:448-742 | What one state does after resuming: how often the log begins a state, and everything that the call promises about packets, frames and signals. |
| State.Follow | src/state.c:449-451 | A goto meets the precondition of the code it leads to, with no packet and no request counted. |
| State.Suspend | src/coroutine.h:139-143 | Only the resume label changes. |
| State.ResumedReady | src/ndhc.c:357-364 | The timers that the loop reads are those each state relies on: no request or extension before it is due. |
| State.ArmedUnlessReleased | src/state.c:477-740 | From REQUESTING on, the DHCP timer is armed in every state but RELEASED. |
| State.StepSelecting | src/state.c:452-475 | SELECTING goes to RELEASED exactly on a release signal and to REQUESTING exactly on an OFFER with a server id, which is logged; otherwise it sends exactly one DISCOVER on a timeout and does nothing without one. |
| State.StepRequesting | src/state.c:478-515 | Exactly an ACK of the requested address leads to the collision check, or to a restart in three seconds if no probe can be sent; otherwise a timeout sends one request, or restarts after five. |
| State.RequestingPacket | src/state.c:486-500 | The part of it about the packet. |
| State.BeginCheck | src/state.c:489-498 | A probe is sent and the collision check begins, or the client starts over in three seconds. |
| State.RequestTimer | src/state.c:501-514 | The part of it about the timer, which the collision check shares. |
| State.StepChecking | src/state.c:519-572 | A taken address leads to a restart or an error; the address is taken exactly if it is not in use, the ARP timer fired and probing is over; the client restarts for no other reason than a taken address or five requests; a REQUEST is tried only if T1 has come and the check is not over. |
| State.CheckingParts | src/state.c:530-571 | The part of it without a signal: a frame, the probe timer and the request timer, in that order. |
| State.CheckingArp | src/state.c:530-544 | The check goes on exactly if the frame is no collision. |
| State.CheckingArpTimeout | src/state.c:545-557 | The client is bound, or ends, exactly if probing is over. |
| State.ProbeTimer | src/arp.c:507-547 | The address is taken exactly if probing is over; otherwise the next probe is sent exactly if its time has come. |
| State.Introduce | src/state.c:548-549 | A newly bound client has asked for its network and announced itself, or has a timer set to try again. |
| State.StepBound | src/state.c:575-720 | BOUND is left only for RELEASED on a signal or for a restart; only a failed deconfiguration resumes elsewhere; a client with a reason to give up its lease does not carry on; an armed collision timer stays armed. |
| State.BoundEvents | src/state.c:577-652 | The part of it about signals, packets and frames. |
| State.BoundTimers | src/state.c:653-719 | The part of it about timers and the carrier. |
| State.BoundSignal | src/state.c:577-595 | A release signal never falls through; each signal is worth one message; nothing happens without one. |
| State.BoundPacket | src/state.c:596-611 | Exactly a NAK of the own server after T1 restarts in three seconds; exactly an ACK of it extends the lease, and the client keeps its address even if the ACK has another one. |
| State.TimelyIff | src/state.c:120-134 | The test of the code is that T1 of the lease has come and that the packet names the own server. |
| State.CheckNewAddress | src/state.c:603-609 | An ACK with another address changes nothing but the probe timer, which is then armed, unless the probe cannot be sent. |
| State.ProbeNewAddress | src/arp.c:262-275 | The probe in BOUND, which leaves the lease and the network alone. |
| State.BoundArp | src/state.c:612-652 | A client whose network differs does not go on; it restarts only for that or for another user of its address. |
| State.DefendAddress | src/state.c:613-624 | The part of it about another user of the address: it is answered, put off, or makes the client give up. |
| State.FingerprintArp | src/state.c:625-651 | The client restarts exactly if a checked side answers from another hardware address; otherwise exactly the side that answered is learned or confirmed. |
| State.LearnNetwork | src/state.c:626-635 | The part of it about learning. |
| State.CheckNetwork | src/state.c:637-650 | The part of it about checking; a check with both answers is over. |
| State.ResumeLease | src/state.c:639-640 | A check ends in success only with both flags set, and the log says so. |
| State.BoundArpTimeout | src/state.c:653-682 | The client restarts exactly if a check has used up its pings; a due announcement, defence or query is tried. |
| State.AnnounceTimer | src/state.c:654-657 | The part of it about announcement and defence, exactly. |
| State.FingerprintTimeout | src/state.c:658-681 | The same for the part about the fingerprint. |
| State.QueryTimer | src/state.c:660-667 | The part of it about the query. |
| State.CheckTimer | src/state.c:668-680 | The part of it about a check. |
| State.CheckRound | src/arp.c:416-457 | Exactly the sides without a reply are asked again, five seconds after the last time. |
| State.BoundCarrier | src/state.c:683-700 | Without a gateway the client restarts with the interface deconfigured, or waits to try that again; with one it begins a check, fails, or ends the process if the first fingerprint is not taken yet. |
| State.DropLease | src/state.c:687-694 | The part of it without a gateway. |
| State.BoundTimer | src/state.c:701-719 | The client restarts exactly if the timer fired and the lease is to be dropped; a successful wait ends later than now. |
| State.StepReleased | src/state.c:724-738 | RELEASED is left exactly on a renew signal; otherwise nothing is sent or logged. |
| State.LeaseTimeout | src/state.c:701-709 | The three-way choice does what LeaseTimes says: it waits until T1, sends a renew between T1 and T2 or a rebind between T2 and expiry and sleeps until the next wakeup, or drops the lease. |
| State.BoundTimeout | src/state.c:182-190 | The same for this function alone, so the two agree at every time. |
| State.RenewingTimeout | src/state.c:163-178 | The same from T1 on. |
| State.RebindingTimeout | src/state.c:136-155 | The same from T2 on, with the 32-bit expiry. |
| State.ExtendPacket | src/state.c:237-273 | Exactly an ACK or NAK of the own server counts, both ways; the lease, the sockets and the network data afterwards. |
| State.TakeAck | src/state.c:245-262 | The part of it about an ACK. |
| State.KeepLease | src/state.c:258-261 | The socket for defence is opened and the listening socket closed. |
| State.SetDefense | src/state.c:258-261 | The same; nothing else changes. |
| State.TakeExtension | src/state.c:242-255 | The lease runs anew from the time at which the ACK is read, and nothing else of the client changes. |
| State.TakeRejection | src/state.c:264-271 | A NAK restarts the client after three seconds. |
| State.GetLeasetime | src/state.c:214-235 | The lease is that of the packet, an hour if none, at least a minute, and the timer is set to T1. |
| State.SelectingOffer | src/state.c:279-303 | Exactly an OFFER with a server id is taken; the client then asks for its address from its server, with no request counted. |
| State.SelectingAck | src/state.c:304-337 | Exactly an ACK of the requested address with a server id is taken, from whatever server. |
| State.RequestingTimeout | src/state.c:103-118 | The client gives up exactly after five requests; otherwise one request is tried, and a sent one is counted and followed by the pause of its number. |
| State.SelectingTimeout | src/state.c:344-366 | The id changes exactly before the first DISCOVER was sent; the log, the pause and the background flag afterwards; the process ends exactly if told to after two. |
| State.TryDiscover | src/state.c:356-365 | The part of it that sends. |
| State.DelayTimeout | src/state.c:66-74 | The pause of section 4.1 of RFC 2131 plus less than a second. |
| State.ReinitSharedDeconfig | src/state.c:76-90 | Everything about the lease, the fingerprint and the ARP timers is forgotten. |
| State.ReinitSelecting | src/state.c:92-97 | The same, with the socket open and the DHCP timer set. |
| State.Reinit | src/state.c:449-451 | A restart draws an id and changes nothing else. |
| State.PrintRelease | src/state.c:369-376 | Both sockets are closed and every timer is disarmed. |
| State.XmitRelease | src/state.c:379-396 | A sent release puts the client to sleep; a failed one leaves it bound. |
| State.Frenew | src/state.c:399-413 | A forced renew changes neither the lease nor its timer. |
| State.IfupAction | src/state.c:417-437 | Exactly when a new lease is sought, when the process ends, and that a check has pinged both sides otherwise. |
| State.SendDiscover | src/dhcp.c:443-454 | What a reader of the sent message finds is a DISCOVER with the client's id. |
| State.SendSelecting | src/dhcp.c:456-471 | What a reader finds is the request that the reference machine allows: its type, id, address and server. |
| State.SendRenew | src/dhcp.c:473-483 | What a reader finds is a REQUEST without requested address and server. |
| State.SendRebind | src/dhcp.c:485-496 | What a reader finds is a REQUEST for its own address without a server. |
| Calls.CallHeeds | src/state.c:442-742 | Every call heeds packets and the lease timer: what must be in the log after it. |
| Calls.AckTaken | src/state.c:486-500 | In REQUESTING an ACK of the requested address is logged, and next is a probe for it with the collision check resumed, or a restart. |
| Calls.AckExtends | src/state.c:596-611 | In BOUND an ACK of the own server is logged once T1 has come, whatever else the call is told. |
| Calls.NakEnds | src/state.c:596-611 | A NAK is logged, and next is a restart. |
| Calls.TimerSends | src/state.c:701-719 | A call without a packet that succeeds in BOUND after the lease timer fired has sent a renewal between T1 and T2 or a rebinding between T2 and expiry as its last event. |
| Calls.LoneTimer | src/state.c:701-719 | What the lease timer does if nothing else has happened, exactly: expiry and a restart, or one message and the next wakeup. |
| Arp.SendDecline | src/dhcp.c:498-506 | What a reader of the sent message finds is a decline of the address. |
| Arp.SendRelease | src/dhcp.c:508-517 | What a reader finds is a release of the address, whatever its id. |
| Arp.ArpCheck | src/arp.c:262-275 | A probe for the acknowledged address was sent and its timer set, which begins the collision check; in BOUND the client keeps its address; the opened socket is in the log. |
| Arp.StartProbing | src/arp.c:262-275 | Its effects: the socket, the probe, its log and its timer. |
| Arp.ArpDoCollisionCheck | src/arp.c:678-701 | Exactly a reply that passes the collision test is a conflict or a failure; a decline was tried, with the address itself as its server. |
| Arp.ArpCollisionTimeout | src/arp.c:507-547 | The address is taken, or the process ends, exactly after two seconds or all probes; otherwise a probe is sent exactly if its time has come, and the timer of the next one set. |
| Arp.NextProbe | src/arp.c:532-546 | The part of it about a check that goes on. |
| Arp.Lease | src/arp.c:512-530 | Binding makes the acknowledged address the configured one, takes its router and closes the listening socket; ifchd stays in step if the bind is plain. |
| Arp.TakeAddress | src/arp.c:517-521 | The assignments up to the bind, all of them. |
| Arp.FinishLease | src/arp.c:525-526 | The assignments behind the bind; the log begins BOUND. |
| Arp.ArpGwCheck | src/arp.c:278-297 | A check pinged the server and then the router, if there is one, up to the first ping that could not be sent, and the log has their number; it succeeds exactly if all were sent, and then its timer is set; without a router the router's flag is set. |
| Arp.BeginPings | src/arp.c:282-293 | The server's flag is cleared first, and the router's only once the first ping was sent. |
| Arp.ArpGwCheckTimeout | src/arp.c:416-457 | Exactly after six counted pings the client gives up; otherwise exactly the sides without a reply are pinged again, five seconds after the last ping; the log has the number of pings. |
| Arp.NextRound | src/arp.c:431-457 | The part of it about a check that goes on. |
| Arp.ArpDoGwCheck | src/arp.c:703-737 | A conflict is exactly an answer from another hardware address than the stored one; otherwise exactly the flags of the answering side are set, and the check succeeds or fails exactly if both are; the log has exactly these answers. |
| Arp.MarkReply | src/arp.c:709-726 | A flag is set and logged only for the stored address. |
| Arp.RouterReplies | src/arp.c:707-721 | The router's part of the check, which goes on with the server's if they are one. |
| Arp.ServerReplies | src/arp.c:722-735 | The same for the server, and for a router that is the server. |
| Arp.ArpGwSuccess | src/arp.c:329-339 | The client defends and announces its address again. |
| Arp.ArpGetGwHwaddr | src/arp.c:300-322 | Server and router are pinged, and their addresses wanted again. |
| Arp.AskBoth | src/arp.c:310-320 | The part of it that sends; the router's address is wanted again only once the server was pinged. |
| Arp.ArpQueryGateway | src/arp.c:549-565 | The query is sent once; a failed one is tried again five seconds later; the log has the number of pings, and the query counts as sent exactly if that is all of them. |
| Arp.SendQuery | src/arp.c:549-565 | The part of it that sends. |
| Arp.ArpQueryGatewayTimeout | src/arp.c:568-574 | Nothing is learned or forgotten before it is time; then the query is sent or set for five seconds later. |
| Arp.ArpGwQueryTimeout | src/arp.c:459-487 | Exactly the sides whose address is missing are pinged again. |
| Arp.PingSides | src/arp.c:436-453 | The wanted sides are pinged in order, up to the first ping that cannot be sent. |
| Arp.ArpDoGwQuery | src/arp.c:638-676 | Exactly a reply of the router or of the server is learned as its address; a single reply serves both if they are one; the log has exactly that. |
| Arp.LearnAnswer | src/arp.c:642-666 | The address is stored for the router, for the server, or for both if they are one, and logged so. |
| Arp.ArpAnnounce | src/arp.c:576-597 | Two announcements are sent, and the timer is disarmed exactly after the second. |
| Arp.NextAnnouncement | src/arp.c:582-597 | The part of it that sends. |
| Arp.ArpAnnounceTimeout | src/arp.c:600-606 | Nothing is announced before it is time. |
| Arp.ArpDefenseTimeout | src/arp.c:404-414 | The timer is disarmed, and exactly one announcement tried if it was armed. |
| Arp.ArpDoDefense | src/arp.c:608-636 | When a use of our address by another host is answered, put off, or makes the client give up, as the code decides it at the time that it reads; it fails only for an answer that could not be sent. |
| Arp.Defend | src/arp.c:617-635 | The part of it behind the test. |
| Arp.ArpResetState | src/arp.c:98-113 | Every timer, counter and reply flag is reset. |
| Arp.ArpCloseFd | src/arp.c:91-96 | The socket is closed and every timer disarmed. |
| Arp.ArpMinCloseFd | src/arp.c:81-89 | The socket is closed. |
| Arp.ArpOpenFd | src/arp.c:151-165 | A socket of the wanted kind is kept; otherwise a new one is opened or none is left; the log has the kind. |
| Arp.ArpSend | src/arp.c:167-203 | Every frame is logged with the addresses that a receiver finds in it and with its success; none is sent without a socket. |
| Arp.SendRequest | src/arp.c:205-215 | A request carries the addresses that were meant. |
| Arp.RequestReads | src/arp.c:205-215 | What a receiver finds in the client's frames: a broadcast request from its own hardware address, and never a reply. |
| Arp.FrameReads | src/arp.h:37-54 | The client reads from a frame exactly what its sender wrote: sender, target, and whether it is a reply to us; and the frame passes the filter. |
| Arp.ReplyMeans | src/arp.c:375-394 | What the tests for router, server, collision and use of our address say of a reply, in terms of who sent it to whom. |
| Arp.ArpPing | src/arp.c:218-229 | A sent ping comes from our address and is counted. |
| Arp.ArpIpAnonPing | src/arp.c:232-245 | A sent probe has no sender address, is counted and logged. |
| Arp.ArpAnnouncement | src/arp.c:247-258 | A sent announcement is for our own address. |
| Arp.ArpGetWakeTs | src/arp.c:777-787 | The earliest armed deadline, or -1 exactly if there is none. |
| Arp.ArpPacketGet | src/arp.c:739-774 | A frame is taken exactly if it is long enough and, without a filter on the socket, passes the tests of the filter; a broken socket is closed and opened again, no longer for defence, and the log says so. |
| Machine.Client.constructor | src/ndhc.c:75-87 | The initial client satisfies the invariant. |
| Machine.EntriesOf | src/state.c:448-742 | The number of states that a client has begun is that of its log. |
| Machine.Client.Bind | src/arp.c:521-524 | A bind that succeeds makes the packet's address the configured one; it keeps ifchd in step if no name of the packet holds the terminator and no command of what has changed is dropped. |
| Machine.Client.Deconfig | src/ifchange.c:234-251 | The configured address is forgotten exactly if deconfiguring succeeds, and then ifchd is in step. |
| Protocol.AtMostFiveRequests | src/state.c:103-118 | At most five DHCPREQUESTs per accepted OFFER, across REQUESTING and the collision check. |
| Protocol.GivesUpNoEarlier | src/state.c:66-118 | A client that gives up without an ACK has sent five requests, the first at least 124000 ms ago. |
| Protocol.XidConstant | src/state.c:356-365 | From a sent DISCOVER or an accepted OFFER until the next restart, every message sent or accepted has the same id. |
| Protocol.OfferXidIff | src/state.c:450-460 | An accepted OFFER has the id of its exchange if and only if it is not taken on the very first step, or the id drawn then is 0. |
| Protocol.OfferOnFirstStep | src/state.c:450-460 | A log in which the OFFER has another id than the REQUEST; State.Handle writes such logs. |
| Protocol.ExtensionTriesBounded | src/state.c:136-190 | After an ACK the lease timer sends at most ceil((T2-T1)/50000) renews, all between T1 and T2, and at most ceil((expiry-T2)/50000) rebinds, all between T2 and expiry. |
| Protocol.LateSinceAck | src/state.c:103-118 | Between an ACK and the next, the lease waits past its T1 exactly if a REQUEST was sent and no renew or rebind, and then for at most 64 seconds behind the last REQUEST. |
| Protocol.RequestOutlastsLease | src/state.c:558-571 | A log in which such a REQUEST puts off the next event of a lease to 34 seconds behind its end; the wait behind the first probe is 40 seconds, which takes the check beyond T1. |
| Protocol.BoundAddressWasLeased | src/state.c:275-338 | The address of a bound client was accepted in an OFFER, then in an ACK, then configured, since the last restart. |
| Protocol.ConfiguredOnlyAfterProbing | src/arp.c:507-531 | No address is configured before a probe for it was sent; from the first such probe on, two seconds have passed or the log has the full number of probes, all for that address. |
| Protocol.QuietUntilRestart | src/state.c:724-740 | Behind a release, a NAK, an expiry or a given-up request, nothing happens before a restart. |
| Protocol.SoundPlay | src/state.c:103-190 | In every state of every run the counters and deadlines keep the spacing that the bounds rest on. |
| Protocol.EntersNext | src/state.c:448-742 | An event that begins a state changes the state, and no other event does, except for the loss of an address or a lease. |
| Protocol.EntriesCounted | src/state.c:448-742 | The reference machine counts the events of a log that begin a state. |
| Protocol.NoEntryNoChange | src/state.c:448-742 | A log that goes on without such an event is in the same state as before, or has lost its address. |
| GatewayCheck.ResumeNeedsBothReplies | src/arp.c:703-737 | A lease is resumed only after the router, unless there is none, and the server have both answered since their flags were cleared, with the addresses stored then. |
| GatewayCheck.KnownNetworkIsConfirmed | src/arp.c:278-297 | A check that began on a known network is resumed only after the server answered during it with the address stored now, and the router too if there is one, except if the first ping was not sent and the router's flag was already set. |
| GatewayCheck.StaleRouterFlag | src/arp.c:283-289 | A log in which that exception happens: the lease is resumed although the stored router never answered. The contracts of Arp give each of its parts. |
| GatewayCheck.UnknownNetworkMayDiffer | src/state.c:625-682 | A log in which that fails because the network was not known at the beginning; the addresses are learned one by one, as six bytes each, and the last answer comes in on the basic socket after a read error. The contracts of Arp give each of its parts. |
| GatewayCheck.AtMostSixPings | src/arp.c:416-457 | One check sends at most six pings, or seven if a send failed. |
| LeaseTimes.EffectiveSecs | src/state.c:217-229 | A lease is what the server says, at least a minute, and an hour if the server says nothing. |
| LeaseTimes.RenewBeforeRebind | src/state.c:230-234 | T1 < T2 < the end of the lease. |
| LeaseTimes.DroppedFromEnd | src/state.c:136-145 | A lease timer drops the lease if and only if it fires at or after the end of the lease, which is no later than the server's. |
| LeaseTimes.ExpiryIsTrueIff | src/state.c:139 | The client's expiry is the server's if and only if the lease has at most 4294967 seconds. |
| LeaseTimes.RebindBeforeExpiryIff | src/state.c:136-145 | Rebinding comes before expiry if and only if the same holds. |
| LeaseTimes.SomeTimeToRebindIff | src/state.c:136-145 | There is a time to rebind if and only if the same holds; a longer lease is dropped from T2 on. |
| LeaseTimes.InfiniteLeaseIsDropped | src/state.c:139 | The infinite lease of section 3.3 of RFC 2131 is dropped at T2. |
| LeaseTimes.Phases | src/state.c:120-190 | What a timer does at each time of a lease of up to 4294967 seconds, both ways. |
| LeaseTimes.DispatchIsBoundTimeout | src/state.c:701-718 | The three-way choice equals bound_timeout alone, for every lease and time. |
| LeaseTimes.WaitIsBounded | src/state.c:152-187 | Every wait ends strictly later than now and by expiry. |
| Options.OptIsConcatenationIffFits | src/options.c:104-118 | The value of an option is the concatenation of all its parts in options, file and sname, as overloading selects, if and only if that fits the room. |
| Options.AlwaysFits | src/options.c:104-118 | It always fits the buffers of the client, in every packet. |
| Options.SelectedIff | src/options.c:62-76 | Exactly which fields are selected: bit 1 is file and bit 2 is sname, from options, and from the one of them that is selected alone. |
| Options.OverloadMeans | src/options.c:104-118 | With the values 1, 2 and 3 of RFC 2132 the options are followed by those of file, of sname, or of both. |
| Options.TypedReaders | src/options.c:306-349 | Router, lease time, message type and server id are the values of the options 3, 51, 53 and 54, and count as missing if their length is another. |
| Options.EqualThroughEndEqualOptions | src/options.c:38-134 | Packets that agree through END give equal results for every code. |
| Options.ShorteningPreservesMeaning | src/dhcp.c:247-264 | What stands behind END does not matter, so cutting it off preserves the meaning. |
| Options.AddAppendsOneOption | src/options.c:146-169 | An add leaves the buffer unchanged or moves END by its own length and appends one option to what is parsed. |
| Options.AddSeenThroughGet | src/options.c:78-169 | An add puts its data behind what options has under its code, before what is in overloaded fields, and changes no other code; for every packet with room. |
| Options.AddLeavesOthersAlone | src/options.c:78-169 | The part about other codes, for every buffer size. |
| Options.AddAppendsToGet | src/options.c:78-169 | Without overloading, an add appends its data to what is found under its code. |
| Options.RenderedReads | src/options.c:38-134 | An encoded list of options is parsed back as that list. |
| Options.RenderedAdd | src/options.c:146-232 | Adding to an encoded list encodes the longer list. |
| Options.BuilderRefinesList | src/options.c:146-232 | Any sequence of adds leaves the encoding of the options that had room, an END and zeros. |
| Options.DoOverloadValue | src/options.c:38-60 | The scanner finds the overload bits of the parsed options, on all bytes. |
| Options.GetOverloadValue | src/options.c:62-76 | The same over the fields that the bits themselves select. |
| Options.DoGetDhcpOpt | src/options.c:78-102 | The scanner gathers what the parsed options hold, and writes nothing else of the buffer. |
| Options.GetDhcpOpt | src/options.c:104-118 | The same over all selected fields. |
| Options.GetEndOptionIdx | src/options.c:121-134 | The index of END as the walk over the options finds it. |
| Options.AddOptionString | src/options.c:146-169 | The whole new buffer, for every code and length. |
| Options.AddFixedOption | src/options.c:171-232 | The same for the adders of one, two and four bytes. |
| Messages.RenderedDecodes | src/options.c:104-169 | Every option of a list with distinct codes is read back with its value, and no other code is found. |
| Messages.InitPacket | src/dhcp.c:430-441 | A message starts with its type and the client id. |
| Messages.BuildDiscover | src/dhcp.c:443-454 | No option is dropped: END is at 223 of 308 at most. A reader finds type 1, the client and what it wants, the requested address if there is one, no server and no client address. |
| Messages.BuildSelecting | src/dhcp.c:456-471 | The same with type 3, the requested address and the server. |
| Messages.BuildRenew | src/dhcp.c:473-483 | The same with type 3 and the client address, without a requested address or server. |
| Messages.BuildRebind | src/dhcp.c:485-496 | The same with type 3, the client address as client and as requested address, and no server. |
| Messages.BuildDecline | src/dhcp.c:498-506 | The same with type 4, the requested address and the server, and without wishes. |
| Messages.BuildRelease | src/dhcp.c:508-517 | The same with type 7, the client address as client and as requested address, and the server. |
| Messages.HeaderReads | src/dhcp.c:430-441 | What a reader finds in the header of every message, and its type and client id. |
| Messages.SubjectReads | src/dhcp.c:443-517 | The requested address and the server that a reader finds, or that there is none. |
| Messages.WishesRead | src/dhcp.c:418-427 | The size, the parameter list, the vendor and the host name that a reader finds. |
| IfchdParse.AcceptsExactlyRendered | src/ifchd-parse.rl:115-184 | The parser dispatches a list of commands and accepts if and only if the buffer is the rendering of that list, not empty and well-formed. |
| IfchdParse.RenderScans | src/ifchd-parse.rl:115-184 | A rendered list is dispatched in order, whatever follows. |
| IfchdParse.ScanSound | src/ifchd-parse.rl:115-184 | What was accepted is the rendering of what was dispatched. |
| IfchdParse.TextWellFormedIff | src/ifchd-parse.rl:156-176 | Host and domain names are well-formed if and only if not empty and without ';' and NUL. |
| IfchdParse.MtuWellFormedIff | src/ifchd-parse.rl:156-178 | An MTU is well-formed if and only if it has two characters. |
| IfchdParse.AddressesWellFormedIff | src/ifchd-parse.rl:158-174 | The argument of an address command is well-formed if and only if it is a list of dotted quads, each of four numbers of one to three digits: two or three for an address, one for a router, at least one for the others. |
| IfchdParse.RawWellFormedIff | src/ifchd-parse.rl:163-180 | The other arguments are well-formed if and only if they have four, one or no character. |
| IfchdParse.Ifchd.ExecuteBuffer | src/ifchd-parse.rl:193-244 | Exactly the scanned commands are run, up to the first fatal one, and the result is as documented. |
| IfchdParse.Ifchd.ProcessClientSocket | src/ifchd.c:316-340 | A positive reply means that the whole datagram was accepted. |
| IfchCommands.Ip4ArgWellFormed | src/ifchange.c:253-313 | Every printed address command is one that the parser takes. |
| IfchCommands.DottedReads | src/ifchange.c:134-143 | A printed address splits at its dots into numbers with the values of its bytes, in order. |
| IfchCommands.IpListReads | src/ifchange.c:145-172 | A printed list splits at its commas into the addresses of the option, in order. |
| IfchCommands.Ip4ArgReads | src/ifchange.c:253-313 | A printed address command splits into address, mask and broadcast address. |
| IfchCommands.UpdateWellFormedIff | src/ifchange.c:174-193 | Exactly which printed option commands the parser takes. |
| IfchCommands.AddressesIntendedIff | src/ifchange.c:174-193 | A bind means to send a router, DNS or WINS command if and only if option 3, 6 or 44 is new and long enough, with exactly its addresses. |
| IfchCommands.NamesIntendedIff | src/ifchange.c:174-193 | The same for host name, domain and MTU, from the options 12, 15 and 26. |
| IfchCommands.AddressIntendedIff | src/ifchange.c:253-313 | The same for the address command, from the address and the options 1 and 28; there is no other command. |
| IfchCommands.SentIsRendered | src/ifchange.c:315-349 | With room for everything, what is printed is the rendering of the intended commands. |
| IfchCommands.BindAcceptedIff | src/ifchange.c:331-356 | Unless a name holds the terminator, ifchd accepts a bind if and only if there is something to send and all of it is acceptable, and then dispatches exactly the intended commands in order. |
| IfchCommands.BindUnderstoodIff | src/ifchange.c:331-356 | For every packet, whatever its names hold: ifchd accepts a bind and dispatches the intended commands if and only if there are some and all are acceptable. |
| IfchCommands.NameReadAsCommand | src/ifchange.c:50-79 | A host name that holds the terminator and a domain command is accepted, and both are run, although only a host name was meant. |
| Ifchange.IfcmdRaw | src/ifchange.c:50-79 | A command is written whole behind the offset, or nothing is. |
| Ifchange.PrintIpList | src/ifchange.c:145-172 | The dotted addresses, separated by commas. |
| Ifchange.IfchdCmd | src/ifchange.c:174-193 | The command for an option is written whole, or nothing is. |
| Ifchange.SendCmd | src/ifchange.c:315-329 | A changed option adds its command, an unchanged one nothing. |
| Ifchange.SendClientIp | src/ifchange.c:253-313 | The address command is sent if the address, subnet or broadcast address changed. |
| Ifchange.BuildBind | src/ifchange.c:331-349 | The buffer of a bind, command by command. |
| Ifchange.BindReachesDaemon | src/ifchange.c:331-356 | If nothing is dropped, ifchd reads the rendering of the intended commands. |
| Ifchange.DifferentialUpdateIsComplete | src/ifchange.c:315-356 | If what ifchd received implies the cached packet, then with the differences it implies the new one: address and every bindable option. |
| Ifchange.UnchangedNotResent | src/ifchange.c:315-329 | An unchanged option is not sent again. |
| Ifchange.DifferentialAgreesWithFull | src/ifchange.c:331-356 | A differential update leaves the same value for every option of the packet as a full one. |
| Ifchange.AddressAgreesWithFullIff | src/ifchange.c:253-313 | Exactly when the address command agrees too: if the address, the subnet or the broadcast address is sent again, or the old packet left nothing behind that the new one lacks. |
| Ifchange.SmallNotDropped | src/ifchange.c:50-79 | A packet whose options fit the buffers together loses no command, whatever was bound before. |
| Ifchange.Configurator.Ifchwrite | src/ifchange.c:195-225 | Success means that ifchd accepted the whole buffer. |
| Ifchange.Configurator.Bind | src/ifchange.c:331-356 | The cache changes exactly on success and stays implied by what ifchd received; a bind without changes fails and sends nothing. |
| Ifchange.Configurator.Deconfig | src/ifchange.c:234-251 | The address is reset once; the cache is forgotten exactly on success. |
| Ifchange.Configurator.Run | src/ifchange.c:234-356 | Over any run of binds and deconfigurations that are accepted, ifchd has received commands that imply the cached packet, which is that of the last one, if no name of a bound packet holds the terminator and no command of what has changed is dropped. |
| Bpf.DhcpFilterRefinesValidator | src/sockd.c:262-299 | On every packet of 28 bytes or more the filter accepts if and only if the C validator does, the source port is 67 and the packet is no fragment. |
| Bpf.ArpFilterRefinesValidator | src/sockd.c:327-342 | On every frame of 20 bytes or more the filter accepts if and only if the C validator does. |
| Ifset.TrailzCounts | src/ifset.c:58-67 | For every 32-bit value the table gives the number of trailing zeros, 32 for 0. |
| Ifset.PrefixLenInvertsMask | src/ifset.c:70-73 | The prefix length of every contiguous mask. |
| Ifset.DefaultBroadcastIffContiguous | src/ifset.c:541-552 | The default broadcast address is ip or not mask for every ip if and only if the mask is contiguous. |
| Netlink.AppendReadsBackIff | src/nl.c:55-82 | An appended attribute is read back behind the earlier ones if and only if its type and length fit 16 bits. |
| Netlink.Message.AddRtattr | src/nl.c:55-70 | An attribute that does not fit changes nothing; one that fits is appended, padded to four bytes. |
| Netlink.Message.RtattrParse | src/nl.c:72-82 | The attributes of any message in order, for every length and offset, up to where the walk leaves the message, and whether it does. |
| Netlink.StaysInsideIff | src/nl.c:72-82 | The walk over n bytes stays inside for all their values if and only if n is a multiple of four or less than four. |

## Left out

- Sockets, epoll, descriptor passing, fork, chroot, signals, lease and duid files, rfkill devices: foreign calls; a descriptor is open or closed, and success is nondeterministic.
- A listening socket that cannot be opened and a hang-up of ifchd end the process; the model follows the runs that go on. What was logged before satisfies all the lemmas.
- Carrier queries to ifchd on each send: part of the success of the send.
- IP and UDP checksums: their function is in a library that is not part of this model.
- The ARP filter for defence (src/sockd.c:366-408): it depends on the byte order of the host.
- Commands that a bind never sends (time zone, time to live, printer and time servers), writing resolv.conf, and what the kernel does with a command.
- Command line and configuration file, logging, going to the background.
- Wrap-around of the counters of requests, pings and conflicts; of arithmetic only the 32-bit lease and the 16-bit probe delay wrap.
- Netlink requests and replies beyond the attribute list; its headers are little-endian here.
- BuildDiscover: client id of at most 64 bytes, vendor and host name of at most 63, as the fields of the configuration allow; the type of the configuration says so, here and for the other builders.
- Ifchange.Configurator.Run: ends with the first change that is not accepted, since part of it may have reached ifchd; the process ends after a failed bind, but not after a failed deconfiguration.
- Arp.ArpDoDefense: states what the code decides, not the rate limit of section 2.4 of RFC 5227, which the code does not keep.
