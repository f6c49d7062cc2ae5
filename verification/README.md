# A verified model of the protocol engines

This project models, in Dafny, the engines behind the tunnels of the repository: the
PPP negotiation automaton of pppd with its timers and option handling, the L2TP and
PPTP control connections of mtpd, the HDLC-like framing of the on-demand loopback,
the IPv4 router, NAT and checksums of ocpa, and the base64 stream of EAP.  Each engine
appears twice: as a class or method in the form of the C code (object fields, linked
lists and packet buffers changed step by step), and as a function of plain values that
the method is proved to compute.  What the protocols promise is then proved about the
functions, for all inputs and all runs.

How it is laid out:

| files | what they hold |
|---|---|
| `Callouts.dfy` | pppd's timer list: order, cancellation, and what fires when callbacks change the list |
| `Fsm.dfy`, `FsmProps.dfy`, `Automaton.dfy` | the option negotiation automaton of section 4 of RFC 1661: the RFC's table, the code's deviations from it, what holds over every run, and the handlers of fsm.c proved to be that automaton |
| `OptionMenu.dfy`, `LcpOptions.dfy`, `LcpCodec.dfy`, `Ipcp.dfy` | Configure-Requests written and checked |
| `OptionFilter.dfy`, `LcpRequest.dfy`, `SingleFilter.dfy`, `IpcpRequest.dfy`, `CcpRequest.dfy` | the peer's request turned into its answer in the buffer it came in |
| `LcpHeard.dfy`, `LcpLink.dfy` | two endpoints over queues that lose packets: OPENED together, they agree |
| `L2tpAvp.dfy`, `L2tpChannel.dfy`, `L2tpPacket.dfy`, `L2tpSession.dfy`, `L2tpEndpoint.dfy` | attributes and their hiding, the window-1 channel, packets, the handshake, and the endpoint with its buffer |
| `Pptp.dfy`, `PptpSession.dfy` | cutting a TCP stream into messages; the call set up on top |
| `Fcs.dfy`, `Hdlc.dfy`, `Demand.dfy` | the frame check sequence and its table, framing, and the loopback with its queue |
| `Routes.dfy` | the ordered route list and its early-exit search |
| `Checksum.dfy`, `Masquerade.dfy`, `Nat.dfy`, `UserNat.dfy` | ones' complement sums, addresses rewritten in place, and the NAT |
| `Base64.dfy` | base64 in pieces |

Conventions.  Octets and 16- and 32-bit numbers are subset types of `int` (`Bytes.dfy`);
where C arithmetic wraps, the wrap is written out.  The check sequence works on
bit-vectors.  Network-order fields are numbers, most significant octet first.  What the
code gets from outside is a parameter: clock readings, `random()` and `magic()`, what
`recv` returns, whether sockets could be had, the digest function, packet filters.
Callbacks of the automaton are recorded in a log, in order, and do not call back into
the automaton in the middle of a transition.

Where the code and what it is meant to do part ways, the code was followed:

- The hints of `lcp_reqci` can be longer than `nak_buffer`: `LcpNakBuffer.NakBufferSuffices`
  says for which requests they are not, `LcpNakBuffer.LongestOverrun` shows the longest.
  They can also be longer than the packet they are copied back to
  (`LcpNakBuffer.AnswerFitsBack`, `LcpNakBuffer.FullNakBuffer`).
- The CI_ADDR that `ipcp_reqci` puts behind its answer can go beyond the packet buffer
  (`IpcpRoom.QuestionFits`, `IpcpRoom.QuestionOverruns`).
- BCOPY is memcpy, and all three loops that judge a request can have it copy an option
  onto part of itself, which C leaves undefined.  The model copies the lowest octet first.
  `OptionFilter.MovesApart` and `SingleFilter.ShiftsApart` say when no copy overlaps,
  `LcpRequest.CopyOverlaps` and `IpcpRequest.CopyOverlaps` show one that does.
- The early exit of the route search can miss a covering route
  (`RouteTable.NestedCanBeMissed`); `RouteTable.FoundExactly` says exactly when it finds one.
- `unroute4` ignores its mask and host bits (`RouteTable.RemoveIsExact`,
  `RouteTable.UnrouteUndoesRoute`, `RouteTable.UnrouteTakesAnother`,
  `RouteTable.HostBitsStay`).
- Fed up with Naks, `ipcp_reqci` rejects DNS and WINS options with its own address
  written over them (`IpcpJudge.RejectIsFaithfulExactly`, `IpcpJudge.NoServerNamed`).
- `ccp_reqci` rejects some options with other octets than they came with, too
  (`CcpJudge.RejectIsFaithfulExactly`, `CcpJudge.BothStrengths`, `CcpJudge.OtherMethod`).
- UDP packets of less than 40 octets keep a stale checksum (`Ip4Packet.UdpRecomputed`,
  `Ip4Packet.UdpMasqueraded`, `Ip4Packet.StaleChecksum`).
- A tunnel number of one octet makes L2TP blame the challenge (`L2tpSession.ChallengeBlamed`,
  `L2tpSession.ShortTunnelBlamed`).
- `b64dec` takes the octet 0 for a 65th character (`Base64Spec.DecIsStrictExactly`,
  `Base64Spec.NulIsTaken`).
- The automaton leaves the table of RFC 1661 in a few cells (`FsmRuns.DepartsExactlyThere`).

## Model

| member | source | states |
|---|---|---|
| `Callouts.ComparisonsCountMicros` | ConfProfile/jni/pppd/main.c:1275-1285 | comparing seconds first and microseconds second compares points in time, for normalized times |
| `Callouts.InsertKeepsOrder` | ConfProfile/jni/pppd/main.c:1275-1288 | a new timer goes behind all that are due no later and in front of all that are due later: the list stays sorted, equal deadlines in order of insertion |
| `Callouts.InsertAddsOne` | ConfProfile/jni/pppd/main.c:1254-1289 | arming adds exactly one entry |
| `Callouts.RemoveTakesOne` | ConfProfile/jni/pppd/main.c:1294-1310 | cancelling removes exactly the first entry of that function and argument, or nothing |
| `Callouts.RemoveKeepsOrder` | ConfProfile/jni/pppd/main.c:1294-1310 | cancelling keeps the list sorted |
| `Callouts.ArmedPending` | ConfProfile/jni/pppd/main.c:1254-1289 | arming changes the pending deadlines of its owner only |
| `Callouts.CancelledPending` | ConfProfile/jni/pppd/main.c:1294-1310 | cancelling removes its owner's first deadline and leaves every other entry |
| `Callouts.CancelledForAnother` | ConfProfile/jni/pppd/main.c:1294-1310 | cancelling leaves the deadlines of every other owner alone |
| `Callouts.PerformConserves` | ConfProfile/jni/pppd/main.c:1254-1310 | whatever a callback arms or cancels, the list stays sorted and holds nothing that was not armed |
| `Callouts.NeverEarly` | ConfProfile/jni/pppd/main.c:1316-1335 | whatever the callbacks do to the list, nothing fires before its time, and the rounds only stop short of an entry that is not due |
| `Callouts.FiresOnce` | ConfProfile/jni/pppd/main.c:1316-1335 | every entry that fires was armed, once for each firing; without cancellation, fired and remaining entries are together exactly those armed |
| `Callouts.UncancelledStays` | ConfProfile/jni/pppd/main.c:1254-1335 | an entry whose owner no callback cancels has fired or is pending still, just as often as it was armed |
| `Callouts.FiresAllDue` | ConfProfile/jni/pppd/main.c:1316-1335 | whatever the callbacks arm and cancel, with a round for every entry and one to spare calltimeout ends, and every entry due at the last reading of the clock whose owner is not cancelled has fired, once for each time it was armed |
| `Callouts.FiresInOrder` | ConfProfile/jni/pppd/main.c:1316-1335 | if the callbacks leave the list alone, exactly the entries that are due fire, in list order |
| `Callouts.CalloutList.Timeout` | ConfProfile/jni/pppd/main.c:1254-1289 | timeout() on the linked list is insertion into the sorted list of entries |
| `Callouts.CalloutList.Untimeout` | ConfProfile/jni/pppd/main.c:1294-1310 | untimeout() on the linked list is removal of the first match |
| `Callouts.CalloutList.CallTimeout` | ConfProfile/jni/pppd/main.c:1316-1335 | calltimeout() fires what RunDue says, with callbacks that change the list under it |
| `Callouts.CalloutList.TimeLeft` | ConfProfile/jni/pppd/main.c:1342-1359 | timeleft() is the time to the first deadline, not below zero |
| `FsmRuns.CellsFit` | ConfProfile/jni/pppd/fsm.c:97-327 | the automaton's cells keep: ACKRCVD is entered, and OPENED but from AckSent, only where seen_ack is noted; timed states are entered with the timer armed |
| `FsmRuns.StepKeepsInv` | ConfProfile/jni/pppd/fsm.c:97-787 | every event keeps the invariant: ACKRCVD or OPENED implies seen_ack, a timer runs just in timed states |
| `FsmRuns.RunKeepsInv` | ConfProfile/jni/pppd/fsm.c:97-787 | the invariant holds in every run from the initial state |
| `FsmRuns.ExactlyOneTimer` | ConfProfile/jni/pppd/fsm.c:97-327 | in every reachable state the timer runs if and only if the state is CLOSING, STOPPING, REQSENT, ACKRCVD or ACKSENT |
| `FsmRuns.StepFollows` | ConfProfile/jni/pppd/fsm.c:128-672 | at every event `up` is called just on entering OPENED, `down` just on leaving it |
| `FsmRuns.UpDownAlternate` | ConfProfile/jni/pppd/fsm.c:128-672 | over any run, #up - #down is 1 exactly when OPENED, else 0, and the two alternate |
| `FsmRuns.LateAnswersTossed` | ConfProfile/jni/pppd/fsm.c:484-604 | a repeated or late Ack, Nak or Reject in ACKRCVD or OPENED changes nothing and calls nothing: those arms of the handlers never run |
| `FsmRuns.GivesUp` | ConfProfile/jni/pppd/fsm.c:280-327 | if only timers expire, a timed state ends in CLOSED or STOPPED after exactly max(retransmits,0)+1 expiries, with no timer left, and calls `finished` once (never from the Configure phase under OPT_PASSIVE) |
| `FsmRuns.DepartsExactlyThere` | ConfProfile/jni/pppd/fsm.c:97-735 | every arm of fsm.c, reachable or not, is the cell of section 4.1 of RFC 1661, but for exactly the listed cells |
| `FsmRuns.PlainFollowsRfc` | ConfProfile/jni/pppd/fsm.c:97-735 | without silent, restart and passive, and with Terminate-Requests allowed, it goes from state to state as the RFC's table and says the same, but that every new request restarts the counter and a Close before the lower layer came up is not reported |
| `Automaton.Fsm.LowerUp` | ConfProfile/jni/pppd/fsm.c:97-122 | fsm_lowerup on the object is the event's step of the specified automaton: state, counter, ids, seen_ack, timer, and everything said to peer and callbacks in order |
| `Automaton.Fsm.LowerDown` | ConfProfile/jni/pppd/fsm.c:127-164 | fsm_lowerdown on the object is the event's step of the specified automaton: state, counter, ids, seen_ack, timer, and everything said to peer and callbacks in order |
| `Automaton.Fsm.Open` | ConfProfile/jni/pppd/fsm.c:170-204 | fsm_open on the object is the event's step of the specified automaton: state, counter, ids, seen_ack, timer, and everything said to peer and callbacks in order |
| `Automaton.Fsm.TerminateLayer` | ConfProfile/jni/pppd/fsm.c:210-243 | terminate_layer, from OPENED or not, is the table's Close or Down cell |
| `Automaton.Fsm.Close` | ConfProfile/jni/pppd/fsm.c:249-274 | fsm_close on the object is the event's step of the specified automaton: state, counter, ids, seen_ack, timer, and everything said to peer and callbacks in order |
| `Automaton.Fsm.Timeout` | ConfProfile/jni/pppd/fsm.c:280-327 | fsm_timeout on the object is the event's step of the specified automaton: state, counter, ids, seen_ack, timer, and everything said to peer and callbacks in order |
| `Automaton.Fsm.RConfReq` | ConfProfile/jni/pppd/fsm.c:412-477 | fsm_rconfreq on the object is the event's step of the specified automaton: state, counter, ids, seen_ack, timer, and everything said to peer and callbacks in order |
| `Automaton.Fsm.RConfAck` | ConfProfile/jni/pppd/fsm.c:483-535 | fsm_rconfack on the object is the event's step of the specified automaton: state, counter, ids, seen_ack, timer, and everything said to peer and callbacks in order |
| `Automaton.Fsm.RConfNakRej` | ConfProfile/jni/pppd/fsm.c:541-604 | fsm_rconfnakrej on the object is the event's step of the specified automaton: state, counter, ids, seen_ack, timer, and everything said to peer and callbacks in order |
| `Automaton.Fsm.RTermReq` | ConfProfile/jni/pppd/fsm.c:610-637 | fsm_rtermreq on the object is the event's step of the specified automaton: state, counter, ids, seen_ack, timer, and everything said to peer and callbacks in order |
| `Automaton.Fsm.RTermAck` | ConfProfile/jni/pppd/fsm.c:643-672 | fsm_rtermack on the object is the event's step of the specified automaton: state, counter, ids, seen_ack, timer, and everything said to peer and callbacks in order |
| `Automaton.Fsm.RCodeRej` | ConfProfile/jni/pppd/fsm.c:678-697 | fsm_rcoderej on the object is the event's step of the specified automaton: state, counter, ids, seen_ack, timer, and everything said to peer and callbacks in order |
| `Automaton.Fsm.ProtReject` | ConfProfile/jni/pppd/fsm.c:704-738 | fsm_protreject on the object is the event's step of the specified automaton: state, counter, ids, seen_ack, timer, and everything said to peer and callbacks in order |
| `Automaton.Fsm.SConfReq` | ConfProfile/jni/pppd/fsm.c:744-787 | fsm_sconfreq on the object: id and timer renewed, request recorded |
| `Automaton.Fsm.SData` | ConfProfile/jni/pppd/fsm.c:795-817 | fsm_sdata: data cut to what the peer can receive |
| `Automaton.Fsm.Input` | ConfProfile/jni/pppd/fsm.c:333-406 | fsm_input on any packet: malformed ones change nothing, the others are the event they decode to |
| `OptionMenu.WireLength` | ConfProfile/jni/pppd/lcp.c:654-675 | the length counted is the length written |
| `OptionMenu.Write` | ConfProfile/jni/pppd/lcp.c:690-765 | a row of writer macros writes the options asked for, in order, and nothing else |
| `OptionMenu.Check` | ConfProfile/jni/pppd/lcp.c:782-914 | a row of checker macros accepts exactly the octets the writer writes for the same menu |
| `LcpOptions.CiLenIsLength` | ConfProfile/jni/pppd/lcp.c:647-675 | lcp_cilen is the length of what lcp_addci writes, for all options |
| `LcpCodec.AddCi` | ConfProfile/jni/pppd/lcp.c:682-765 | lcp_addci writes the request, and reports a wrong length exactly when the length differs |
| `LcpCodec.AckCi` | ConfProfile/jni/pppd/lcp.c:770-914 | lcp_ackci accepts a packet if and only if it is byte for byte what lcp_addci writes |
| `OptionFilter.RulingsCoverPacket` | ConfProfile/jni/pppd/lcp.c:1511-1530 | cutting a request into options loses no octet, whatever the length octets say |
| `OptionFilter.Filter` | ConfProfile/jni/pppd/lcp.c:1511-1862 | the loop working in place, for any request whose answer fits its buffer: Ack if and only if every option is acceptable; with any Reject, the in-order concatenation of exactly the rejected options; otherwise exactly the hints, in order; and how far the hint buffer is written |
| `LcpJudge.NoHintWithAck` | ConfProfile/jni/pppd/lcp.c:1535-1815 | an acceptable option has no hint |
| `OptionFilter.MovesApart` | ConfProfile/jni/pppd/lcp.c:1832-1835 | no copy within the request overlaps, which memcpy leaves undefined, if and only if every rejected option is at most as long as all options spared in front of it, or there are none |
| `LcpRequest.ReqCi` | ConfProfile/jni/pppd/lcp.c:1480-1864 | lcp_reqci: verdict, answer, recorded options, use of nak_buffer and copies made, for any packet whose answer fits where it goes |
| `LcpRequest.CopyOverlaps` | ConfProfile/jni/pppd/lcp.c:1832-1835 | protocol compression, allowed, in front of an unknown option of four octets: a copy overlaps |
| `LcpNakBuffer.HintGrowth` | ConfProfile/jni/pppd/lcp.c:1535-1815 | how much longer than its option a hint can be |
| `LcpNakBuffer.NakBufferSuffices` | ConfProfile/jni/pppd/lcp.c:200-200 | the 1500 octets of nak_buffer hold the hints to every request of a length if and only if CHAP is not what we suggest, or the length is at most 1201 (1203, if no option of six octets can be naked) |
| `LcpNakBuffer.Overrun` | ConfProfile/jni/pppd/lcp.c:1561-1728 | for every greater length some request goes beyond them |
| `LcpNakBuffer.LongestOverrun` | ConfProfile/jni/pppd/lcp.c:1684-1707 | 374 requests for an unknown authentication, 1496 octets, make 1870 octets of hints, all of them the answer |
| `LcpNakBuffer.AnswerFitsBack` | ConfProfile/jni/pppd/lcp.c:1850-1856 | the hints sent as the answer to the requests of a length fit the 1496 octets they are copied back to if and only if CHAP is not what we suggest, we are fed up with Naks, or the length is below 1200 |
| `LcpNakBuffer.OverrunsBack` | ConfProfile/jni/pppd/lcp.c:1684-1707 | for every length from 1200 on some answer does not |
| `LcpNakBuffer.FullNakBuffer` | ConfProfile/jni/pppd/lcp.c:1850-1856 | 300 requests for an unknown authentication fill nak_buffer to its end and go four octets beyond the packet |
| `LcpHeard.HeardOne` | ConfProfile/jni/pppd/lcp.c:1535-1815 | an option that our own writer would write is recorded as it was meant, if it is accepted |
| `LcpHeard.AllHeard` | ConfProfile/jni/pppd/lcp.c:1511-1862 | if a whole request is acknowledged, everything in it is recorded |
| `LcpHeard.AcknowledgedIsHeard` | ConfProfile/jni/pppd/lcp.c:1480-1864 | whoever acknowledges the request for some gotoptions has recorded exactly those in its hisoptions, for the options lcp_reqci records |
| `LcpLink.HandleIsNext` | ConfProfile/jni/pppd/fsm.c:333-787 | an endpoint of the pair does what the automaton does |
| `LcpLink.RequestTaken` | ConfProfile/jni/pppd/fsm.c:412-477 | judging a request: AckSent or OPENED is reached from it only with hisoptions holding what the request asked for |
| `LcpLink.DeliverAgrees` | ConfProfile/jni/pppd/fsm.c:412-535 | delivering any packet keeps the agreement invariant of the pair |
| `LcpLink.StepAgrees` | ConfProfile/jni/pppd/fsm.c:97-787 | so does every step: local events, delivery, loss, protocol rejects |
| `LcpLink.OpenedMeansAgreed` | ConfProfile/jni/pppd/lcp.c:1480-1864 | in the invariant, both OPENED means both agreed |
| `LcpLink.OpenedTogether` | ConfProfile/jni/pppd/fsm.c:412-787 | two endpoints over lossy queues, any run from the start: whenever both are OPENED, each one's hisoptions are exactly what the other's gotoptions put on the wire |
| `IpcpOptions.CiLenIsLength` | ConfProfile/jni/pppd/ipcp.c:707-742 | ipcp_cilen is the length of what ipcp_addci writes |
| `IpcpOptions.FittingFits` | ConfProfile/jni/pppd/ipcp.c:763-823 | with too little room options are left out so that the rest fits; with enough, none is |
| `IpcpOptions.LeftIsExpected` | ConfProfile/jni/pppd/ipcp.c:763-833 | for any room: what ipcp_ackci then expects is what was written, unless the address option had no room and its old form was kept in reserve |
| `IpcpOptions.NothingIsLeftOut` | ConfProfile/jni/pppd/ipcp.c:736-742 | a request is at most 28 octets, so with any receive unit LCP accepts (128 or more) nothing is ever left out |
| `IpcpOptions.AdaptedOnce` | ConfProfile/jni/pppd/ipcp.c:720-734 | going over to old forms once is enough: asking again asks for the same |
| `IpcpOptions.AdaptedAsks` | ConfProfile/jni/pppd/ipcp.c:720-734 | old forms are asked for exactly where the peer has used them |
| `IpcpCodec.Request` | ConfProfile/jni/pppd/fsm.c:769-780 | the request sent is all of the adapted options, which is what ipcp_ackci accepts |
| `IpcpCodec.AddCi` | ConfProfile/jni/pppd/ipcp.c:749-833 | ipcp_addci for any room: what it writes and which options it drops |
| `IpcpCodec.AckCi` | ConfProfile/jni/pppd/ipcp.c:839-951 | ipcp_ackci accepts exactly what ipcp_addci writes when all fits |
| `SingleFilter.FaithfulReject` | ConfProfile/jni/pppd/ipcp.c:1549-1578 | if no rejected option was written over, a Reject returns the rejected options as sent |
| `SingleFilter.Filter` | ConfProfile/jni/pppd/ipcp.c:1349-1578 | the single-buffer loop: worst verdict wins, and the answer is exactly the options with that verdict as they stand after judgement |
| `SingleFilter.FrontAfter` | ConfProfile/jni/pppd/ccp.c:1306-1325 | when an option is returned and when the answer starts anew |
| `SingleFilter.ShiftsApart` | ConfProfile/jni/pppd/ipcp.c:1568-1570 | no copy within the request overlaps if and only if every option returned stays or goes down by at least its own length |
| `IpcpJudge.JudgeIsSteady` | ConfProfile/jni/pppd/ipcp.c:1364-1545 | acceptable options are left as they are; fed up with Naks, none is sent |
| `IpcpJudge.RejectedAsSent` | ConfProfile/jni/pppd/ipcp.c:1364-1545 | a rejected option is returned as it was sent, unless we are fed up with Naks and it named a server other than ours |
| `IpcpJudge.RejectIsFaithfulExactly` | ConfProfile/jni/pppd/ipcp.c:1349-1578 | for every packet, a Configure-Reject holds exactly the octets of the rejected options if and only if we are not fed up with Naks or no option names a DNS or WINS server other than ours |
| `IpcpJudge.NoServerNamed` | ConfProfile/jni/pppd/ipcp.c:1458-1500 | asked for the DNS server 0.0.0.0 when fed up with Naks, it rejects another option |
| `IpcpRequest.ReqCi` | ConfProfile/jni/pppd/ipcp.c:1318-1604 | ipcp_reqci: answer, records and copies made for any packet, with the CI_ADDR appended just when an address is wanted and none was named; the buffer need only hold what is written |
| `IpcpRequest.CopyOverlaps` | ConfProfile/jni/pppd/ipcp.c:1568-1570 | our DNS server in front of an unknown option of eight octets: a copy overlaps |
| `IpcpRoom.QuestionFits` | ConfProfile/jni/pppd/ipcp.c:1576-1598 | the answers to all requests of a length stay within 1496 octets if and only if the length is not 1494, or we are fed up with Naks, want no address, or have nothing to say to an option that names none |
| `IpcpRoom.QuestionOverruns` | ConfProfile/jni/pppd/ipcp.c:1576-1598 | otherwise 249 such options make a Nak of 1494 octets, and with the CI_ADDR of 1500 |
| `CcpJudge.MppeRoundTrip` | ConfProfile/jni/pppd/ccp.c:1104-1192 | an MPPE option without odd bits is rebuilt as it was |
| `CcpJudge.JudgeIsSteady` | ConfProfile/jni/pppd/ccp.c:1091-1304 | acceptable options are left as they are; fed up with Naks, none is sent |
| `CcpJudge.RejectedAsSent` | ConfProfile/jni/pppd/ccp.c:1091-1304 | a rejected option is returned as it was sent if and only if it is not Altered: not MPPE rebuilt with another strength or without odd bits after too many Naks, and not a first Deflate or BSD option of a wrong method, check or version whose replacement the kernel does not take; and those are always rejected |
| `CcpJudge.RejectIsFaithfulExactly` | ConfProfile/jni/pppd/ccp.c:1091-1343 | a Configure-Reject holds exactly the octets of the rejected options if and only if no option of the packet is Altered |
| `CcpJudge.BothStrengths` | ConfProfile/jni/pppd/ccp.c:1137-1167 | fed up with Naks, the request for 40 and 128 bits is rejected as one for 128 bits only |
| `CcpJudge.OtherMethod` | ConfProfile/jni/pppd/ccp.c:1208-1246 | a first Deflate option of another method is rejected with our method in it, if the kernel has no Deflate |
| `CcpRequest.ReqCi` | ConfProfile/jni/pppd/ccp.c:1067-1343 | ccp_reqci: answer, records and method for any packet and any kernel |
| `CcpRequest.AllRejected` | ConfProfile/jni/pppd/ccp.c:1331-1336 | all_rejected is noted exactly when every option was rejected |
| `L2tpAvp.HiddenRoundTrip` | ConfProfile/jni/mtpd/l2tp.c:235-308 | an attribute hidden as in section 4.3 of RFC 2661, behind its random vector, gives back its value for any digest function and any padding |
| `L2tpAvp.AttributesOfEncoded` | ConfProfile/jni/mtpd/l2tp.c:146-154 | attributes written one after the other are read back as they were |
| `L2tpAvp.UnhideValue` | ConfProfile/jni/mtpd/l2tp.c:275-292 | the block-wise unhiding loop computes the value octet by octet from digest blocks |
| `L2tpAvp.GetAttribute` | ConfProfile/jni/mtpd/l2tp.c:235-308 | for any buffer, get_attribute_raw returns the first attribute of the type, cut to size, unhidden with the last vector before it |
| `L2tpAvp.LookupSkips` | ConfProfile/jni/mtpd/l2tp.c:255-266 | attributes of other types in front do not matter, but for random vectors |
| `L2tpChannel.WrapTells` | ConfProfile/jni/mtpd/l2tp.c:209-223 | 16-bit comparisons order numbers less than 2^15 apart |
| `L2tpChannel.FateIsTrue` | ConfProfile/jni/mtpd/l2tp.c:209-226 | recv_packet decides as if the numbers never wrapped |
| `L2tpChannel.StepKeepsOrder` | ConfProfile/jni/mtpd/l2tp.c:128-233 | every step of either end keeps the channel in order |
| `L2tpChannel.AcceptedIsSent` | ConfProfile/jni/mtpd/l2tp.c:128-233 | over a channel that loses, repeats and delays: what one end accepted is what the other sent, in order, without repetition, short by at most the one outstanding message (two after a shutdown) |
| `L2tpChannel.RepeatsLastMessage` | ConfProfile/jni/mtpd/l2tp.c:541-549 | until acknowledged, what is repeated is the last message with Ns one behind and the current Nr |
| `L2tpPacket.ParseOfMessage` | ConfProfile/jni/mtpd/l2tp.c:183-207 | a message is understood as it was meant, attributes included |
| `L2tpPacket.ParseOfAck` | ConfProfile/jni/mtpd/l2tp.c:174-181 | and an acknowledgement as one |
| `L2tpSession.ReactAdvances` | ConfProfile/jni/mtpd/l2tp.c:420-523 | a packet moves the handshake on by one stage if it is the one that may, and otherwise leaves every number as it is |
| `L2tpSession.UpMeansHandshake` | ConfProfile/jni/mtpd/l2tp.c:420-523 | a session that is up was set up by four packets in order, the first of them proving the secret |
| `L2tpSession.NoSessionUnproven` | ConfProfile/jni/mtpd/l2tp.c:385-397 | without the right challenge response there is never a session |
| `L2tpSession.ChallengeBlamed` | ConfProfile/jni/mtpd/l2tp.c:425-443 | an SCCRP that assigns no tunnel is blamed on the challenge if and only if the attribute found has one octet, not 0; else it is a protocol error |
| `L2tpSession.ShortTunnelBlamed` | ConfProfile/jni/mtpd/l2tp.c:425-443 | as for a tunnel number of one octet |
| `L2tpEndpoint.Endpoint.SetMessage` | ConfProfile/jni/mtpd/l2tp.c:128-144 | the message begun in the buffer has the header numbers and type asked for; the number is used up |
| `L2tpEndpoint.Endpoint.AddAttribute` | ConfProfile/jni/mtpd/l2tp.c:146-154 | an attribute added is the encoding of its type and value behind what was there |
| `L2tpEndpoint.Endpoint.SendPacket` | ConfProfile/jni/mtpd/l2tp.c:166-172 | what goes out, and stays in the buffer, is the whole message |
| `L2tpEndpoint.Endpoint.SendAck` | ConfProfile/jni/mtpd/l2tp.c:174-181 | an acknowledgement carries both current numbers |
| `L2tpEndpoint.Endpoint.RecvPacket` | ConfProfile/jni/mtpd/l2tp.c:203-233 | what is done with a packet is Received of the channel; a message that came before is acknowledged again |
| `L2tpEndpoint.Endpoint.Process` | ConfProfile/jni/mtpd/l2tp.c:411-539 | l2tp_process: reply, outcome and new state for every packet |
| `L2tpEndpoint.Endpoint.Connect` | ConfProfile/jni/mtpd/l2tp.c:315-347 | the opening message with its attributes, and the challenge if there is a secret |
| `L2tpEndpoint.Endpoint.Timeout` | ConfProfile/jni/mtpd/l2tp.c:541-549 | the last message goes out again octet by octet, unless it was acknowledged |
| `L2tpEndpoint.RepetitionsAreFaithful` | ConfProfile/jni/mtpd/l2tp.c:166-172 | in every run, whatever was repeated is octet for octet the nearest message sent before it, and that message is what the buffer holds |
| `L2tpEndpoint.KeptUnlessSent` | ConfProfile/jni/mtpd/l2tp.c:411-539 | a packet handled without sending a message leaves the message to be repeated as it is |
| `L2tpEndpoint.KeptWhenDropped` | ConfProfile/jni/mtpd/l2tp.c:203-226 | and so does one that is not accepted |
| `L2tpEndpoint.Endpoint.Shutdown` | ConfProfile/jni/mtpd/l2tp.c:551-560 | the farewell is sent unless the peer stopped first |
| `L2tpEndpoint.SentIsUnderstood` | ConfProfile/jni/mtpd/l2tp.c:128-207 | what one endpoint writes is read by the other as that packet of the channel |
| `L2tpEndpoint.AckIsUnderstood` | ConfProfile/jni/mtpd/l2tp.c:174-207 | and an acknowledgement as that of the channel |
| `L2tpEndpoint.HandlingIsStep` | ConfProfile/jni/mtpd/l2tp.c:411-539 | handling an accepted packet is a step of the channel, for the end and for the packet it puts on the wire as the peer reads it, so that its theorems apply |
| `L2tpEndpoint.ReceivingIsStep` | ConfProfile/jni/mtpd/l2tp.c:203-226 | and so is ignoring a packet or acknowledging it again, for the end and the wire |
| `PptpStream.FramesOfMessages` | ConfProfile/jni/mtpd/pptp.c:150-214 | messages laid end to end are cut at their ends, whatever follows |
| `PptpStream.FailureIsFinal` | ConfProfile/jni/mtpd/pptp.c:184-197 | a bad header ends all framing at one position, whatever follows |
| `PptpStream.NotBeforeItIsThere` | ConfProfile/jni/mtpd/pptp.c:184-197 | and is not judged before its eighth octet has come |
| `PptpReceiver.Incoming.Recv` | ConfProfile/jni/mtpd/pptp.c:150-214 | recv_packet with any piece of the stream: delivers the control messages completed, with their true length and first 220 octets, and fails exactly at a bad header |
| `PptpReceiver.Incoming.PiecesDoNotMatter` | ConfProfile/jni/mtpd/pptp.c:150-214 | however the stream was cut up, messages and error position are those of the whole-stream parser |
| `PptpReceiver.Incoming.WantedIsPositive` | ConfProfile/jni/mtpd/pptp.c:160-172 | recv is never asked for nothing, so an empty answer means the peer closed |
| `PptpMessage.OctetsAreMessage` | ConfProfile/jni/mtpd/pptp.c:134-148 | everything sent has the length of its type and is framed |
| `PptpMessage.SentIsFramed` | ConfProfile/jni/mtpd/pptp.c:134-148 | the stream of an endpoint, in any pieces, holds exactly its messages |
| `PptpSession.UpMeansConnected` | ConfProfile/jni/mtpd/pptp.c:280-322 | with a call up, the connection was granted and then the very call asked for was connected; its numbers are those in use |
| `PptpSession.CallStays` | ConfProfile/jni/mtpd/pptp.c:306-349 | a call that is up keeps its numbers until someone hangs up |
| `PptpSession.OnlyOurCallIsCleared` | ConfProfile/jni/mtpd/pptp.c:324-349 | only our call, or the whole connection, is cleared from outside |
| `PptpSession.Endpoint.Process` | ConfProfile/jni/mtpd/pptp.c:256-385 | pptp_process on any piece of the stream: reply, new state and outcome |
| `PptpSession.Endpoint.Connect` | ConfProfile/jni/mtpd/pptp.c:216-230 | the connection request |
| `FcsTable.TableIsPolynomial` | ConfProfile/jni/pppd/demand.c:136-169 | all 256 entries of fcstab are the eight-step division of appendix C of RFC 1662 |
| `FcsTable.StepIsNext` | ConfProfile/jni/pppd/demand.c:136-169 | a table step is that division |
| `Fcs.GoodIsTrailer` | ConfProfile/jni/pppd/demand.c:190-192 | a frame ends at the good residue if and only if its last two octets are the complement of the others' sum, low octet first |
| `Fcs.BurstChangesSum` | ConfProfile/jni/pppd/demand.c:136-169 | frames that differ within two neighbouring octets have different sums |
| `HdlcFraming.FramingRoundTrip` | ConfProfile/jni/pppd/demand.c:176-222 | any payload that fits, with any choice of escapes that covers flag and escape, is the next frame heard |
| `HdlcFraming.DeframeInvertsFraming` | ConfProfile/jni/pppd/demand.c:176-222 | a whole conversation of such frames gives back exactly its payloads |
| `HdlcFraming.DeliveredIsFramed` | ConfProfile/jni/pppd/demand.c:188-197 | whatever is handed on was sent with its check sequence behind it |
| `HdlcFraming.DamageIsNoticed` | ConfProfile/jni/pppd/demand.c:190-192 | damage to two neighbouring octets of a frame is never overlooked |
| `HdlcFraming.EscapedFlagAborts` | ConfProfile/jni/pppd/demand.c:189-206 | an escaped octet that turns into a flag loses the frame |
| `Demand.Loopback.Take` | ConfProfile/jni/pppd/demand.c:202-219 | one octet that is not a flag: unescaping, overflow and check sequence |
| `Demand.Loopback.Flag` | ConfProfile/jni/pppd/demand.c:188-201 | a flag: exactly a good frame that is wanted is queued |
| `Demand.Loopback.LoopChars` | ConfProfile/jni/pppd/demand.c:176-222 | loop_chars on any chunk: the frames queued, and whether the link is wanted |
| `Demand.Loopback.PiecesDoNotMatter` | ConfProfile/jni/pppd/demand.c:176-222 | however the octets were cut up, the frames accepted are those of the whole stream |
| `Demand.Loopback.LoopFrame` | ConfProfile/jni/pppd/demand.c:236-268 | loop_frame queues a frame just if it is long enough, is a network protocol's and is active |
| `Demand.Loopback.Rexmit` | ConfProfile/jni/pppd/demand.c:274-302 | demand_rexmit sends the frames of one protocol in order and keeps the rest in order |
| `Demand.Loopback.Discard` | ConfProfile/jni/pppd/demand.c:96-121 | demand_discard empties the queue and starts framing anew |
| `PendingQueue.Queue.Append` | ConfProfile/jni/pppd/demand.c:255-266 | the tail pointer puts a frame last |
| `PendingQueue.Queue.Drain` | ConfProfile/jni/pppd/demand.c:274-302 | relinking in place divides the queue by protocol, both parts in order |
| `PendingQueue.ButKeepsOthers` | ConfProfile/jni/pppd/demand.c:274-302 | draining one protocol leaves every other as it was |
| `PendingQueue.SendingConserves` | ConfProfile/jni/pppd/demand.c:274-302 | for every protocol, sent and waiting frames are together those accepted, in order |
| `RouteTable.ClearIsBlock` | ConfProfile/jni/ocpa/iputils.c:276-282 | shifting down and up again gives the network of an address |
| `RouteTable.FoundIsLongest` | ConfProfile/jni/ocpa/router.c:597-613 | a route found is the longest prefix of the address in the table |
| `RouteTable.FoundExactly` | ConfProfile/jni/ocpa/router.c:597-613 | a route is found if and only if some covering route has no other inside it that lies below the address |
| `RouteTable.DisjointIsComplete` | ConfProfile/jni/ocpa/router.c:597-613 | with disjoint prefixes no covering route is ever missed |
| `RouteTable.NestedCanBeMissed` | ConfProfile/jni/ocpa/router.c:604-609 | with 10.1.0.0/16 in the table, 10.0.0.0/8 is not found for 10.2.0.1 |
| `RouteTable.InsertIsAddition` | ConfProfile/jni/ocpa/router.c:171-228 | route4 adds the route, or replaces the one with the same prefix, and keeps the strict order |
| `RouteTable.RemoveTakesTopmost` | ConfProfile/jni/ocpa/router.c:451-497 | unroute4 removes exactly the longest route that begins at that address |
| `RouteTable.RemoveIsExact` | ConfProfile/jni/ocpa/router.c:451-497 | which is the route asked for if and only if the topmost one there has the mask asked for |
| `RouteTable.UnrouteUndoesRoute` | ConfProfile/jni/ocpa/router.c:154-497 | unroute4 takes back a new route if and only if its address has no host bits and no longer route begins there |
| `RouteTable.UnrouteTakesAnother` | ConfProfile/jni/ocpa/router.c:454-497 | with 10.0.0.0/16 and 10.0.0.0/8 listed, taking back the latter takes the former |
| `RouteTable.HostBitsStay` | ConfProfile/jni/ocpa/router.c:154-497 | 10.0.0.1/8 is listed as 10.0.0.0/8 and not taken back |
| `RouteTable.WithoutTakesTunnel` | ConfProfile/jni/ocpa/router.c:362-395 | unroute removes exactly the routes of the tunnel |
| `RouteTable.PlayKeepsSorted` | ConfProfile/jni/ocpa/router.c:154-497 | every run keeps the list strictly descending |
| `RouteTable.EveryRunSelectsLongest` | ConfProfile/jni/ocpa/router.c:154-613 | the statements about the search, for the table of any run |
| `Router.Routes.Route4` | ConfProfile/jni/ocpa/router.c:154-232 | route4 on the linked list |
| `Router.Routes.Unroute4` | ConfProfile/jni/ocpa/router.c:451-497 | unroute4 on the linked list |
| `Router.Routes.Unroute` | ConfProfile/jni/ocpa/router.c:362-401 | unroute on the linked list, default route included |
| `Router.Routes.Default4` | ConfProfile/jni/ocpa/router.c:547-557 | default4 |
| `Router.Routes.Select` | ConfProfile/jni/ocpa/router.c:597-616 | the tunnel send4 chooses: that of the route found, or the default one |
| `OnesComplement.UpdateIsAdd` | ConfProfile/jni/ocpa/iputils.c:256-262 | ip4_update_sum is ones' complement addition on 16-bit values |
| `OnesComplement.AddAssociates` | ConfProfile/jni/ocpa/iputils.c:256-262 | which is associative |
| `OnesComplement.AddCommutes` | ConfProfile/jni/ocpa/iputils.c:256-262 | and commutative |
| `OnesComplement.ChecksumCompletes` | ConfProfile/jni/ocpa/iputils.c:271-274 | a sum and its checksum give 0xffff, and no other checksum does but the other way to write zero |
| `OnesComplement.PutChecksumCompletes` | ConfProfile/jni/ocpa/iputils.c:17-49 | a checksum computed without its own field is right in its field |
| `Ip4Packet.TcpChecksumIsRight` | ConfProfile/jni/ocpa/iputils.c:51-89 | with pseudo-header and odd octet, the TCP checksum verifies |
| `Ip4Packet.RecomputedVerifies` | ConfProfile/jni/ocpa/tun.c:339-356 | after recomputation header and TCP segment verify and nothing else changed; an UDP checksum is 0, but in packets of less than 40 octets the old one |
| `Ip4Packet.UdpRecomputed` | ConfProfile/jni/ocpa/iputils.c:91-106 | an UDP packet verifies afterwards if and only if it has at least 40 octets or did so before |
| `Ip4Packet.UdpMasqueraded` | ConfProfile/jni/ocpa/tun.c:339-356 | in a shorter one, a right checksum stays right after a new address if and only if both addresses have the same sum |
| `Ip4Packet.StaleChecksum` | ConfProfile/jni/ocpa/tun.c:339-356 | 28 octets from 10.0.0.1 with a right checksum have a wrong one from 10.0.0.3 |
| `Ip4Packet.MasqueradedVerifies` | ConfProfile/jni/ocpa/tun.c:339-356 | for any new address, the packet verifies and carries what it carried |
| `Masquerade.CalcIpChecksum` | ConfProfile/jni/ocpa/iputils.c:17-49 | the header loop on the buffer, and when it does nothing |
| `Masquerade.CalcPseudoheaderSum` | ConfProfile/jni/ocpa/iputils.c:108-126 | the pseudo-header sum |
| `Masquerade.CalcTcpChecksum` | ConfProfile/jni/ocpa/iputils.c:51-89 | the segment loop on the buffer |
| `Masquerade.CalcUdpChecksum` | ConfProfile/jni/ocpa/iputils.c:91-106 | the UDP checksum is switched off, in packets of at least 40 octets |
| `Masquerade.Tunnel.Masquerade` | ConfProfile/jni/ocpa/tun.c:320-410 | masquerade_src and masquerade_dst on an IPv4 packet |
| `NatRules.TranslationReversed` | ConfProfile/jni/ocpa/tun_usernat.c:122-130 | translating an address to a real DNS server and back gives it again if and only if no earlier entry shares that server |
| `NatRules.DistinctIsReversible` | ConfProfile/jni/ocpa/tun_usernat.c:122-130 | with different servers that can fail only for the servers' own addresses |
| `NatRules.FindFinds` | ConfProfile/jni/ocpa/tun_usernat.c:480-535 | find_link4 finds the first matching link, if there is one |
| `NatRules.AnswerComesBack` | ConfProfile/jni/ocpa/tun_usernat.c:119-141 | the answer to a packet that went by a living link comes back to its sender, from the address the packet was sent to if and only if that has a way back |
| `NatRules.RunKeeps` | ConfProfile/jni/ocpa/tun_usernat.c:437-453 | over any run only the first of several links with one port is alive, and a link stays as it is until its process ends or it is given up |
| `NatRules.AnswersUndoRequests` | ConfProfile/jni/ocpa/tun_usernat.c:96-141 | in every run: packet, then anything but the end of its link, then answer gives the exact reverse of the packet, if and only if there is one way back from its address |
| `NatPacket.ForwardedReads` | ConfProfile/jni/ocpa/tun_usernat.c:119-155 | the octets sent on read as the new addresses and ports, verify, and carry the same payload |
| `UserNat.Nat.FindLink4` | ConfProfile/jni/ocpa/tun_usernat.c:480-535 | find_link4 on the list |
| `UserNat.Nat.Forward` | ConfProfile/jni/ocpa/tun_usernat.c:361-477 | find_link and the rewriting: fate of a packet and new list |
| `UserNat.Nat.SendPacket` | ConfProfile/jni/ocpa/tun_usernat.c:96-155 | usernat_tun_ctx_send on the packet buffer, dropped packets included |
| `Base64Spec.WholeIsEncode` | ConfProfile/jni/pppd/eap.c:344-390 | streaming and flushing writes what the group-wise definition of RFC 4648 says, without padding |
| `Base64Spec.DecodedEncode` | ConfProfile/jni/pppd/eap.c:392-414 | decoding it gives the octets back, whatever bits were left before |
| `Base64Spec.RoundTrip` | ConfProfile/jni/pppd/eap.c:344-414 | in any pieces on both sides |
| `Base64Spec.DecIsStrictExactly` | ConfProfile/jni/pppd/eap.c:401-405 | b64dec is the decoder that stops at any octet outside the 64 characters if and only if the first such octet is not 0 |
| `Base64Spec.NulIsTaken` | ConfProfile/jni/pppd/eap.c:401-405 | the octet 0 alone is taken for six bits |
| `Machine.PiecesDoNotMatter` | ConfProfile/jni/pppd/eap.c:344-414 | for any machine of this kind that nothing stops, pieces do not matter |
| `Base64.B64.Encode` | ConfProfile/jni/pppd/eap.c:344-369 | b64enc |
| `Base64.B64.Flush` | ConfProfile/jni/pppd/eap.c:371-390 | b64flush |
| `Base64.B64.Decode` | ConfProfile/jni/pppd/eap.c:392-414 | b64dec, up to the first character that is none of the alphabet |

## Left out

- LcpLink.OpenedTogether: packets are queued, lost and delivered in order; an Ack is taken to arrive before the sender has used up 256 identifiers since the request it answers, because identifiers are octets. What `lcp_nakci` and `lcp_rejci` make of our options is arbitrary there.
- LcpLink.OpenedTogether: link quality and callback are not compared, because `lcp_reqci` does not record them.
- LcpRequest.ReqCi: the request, and the answer if it is a Nak, are taken to fit the packet buffer; `LcpNakBuffer.AnswerFitsBack` says when they do. The separate buffer for hints is a value.
- IpcpRequest.ReqCi: likewise, for the answer with the CI_ADDR behind it; see `IpcpRoom.QuestionFits`.
- Automaton.Fsm.Input: the timer list of the automaton is the sorted sequence of `Callouts.dfy`; that the linked list keeps that sequence is proved there.
- Automaton.Fsm.Open: OPT_RESTART and the other flags, retry limits and the peer's MRU are grouped in one value; callbacks that re-enter the automaton (MPPE closing LCP from CCP) are not modelled.
- CcpRequest.ReqCi: the loops that ask the kernel for ever smaller codes are one trial with any outcome (they need not end, if the kernel keeps saying 0 to a code that was too small to begin with); closing LCP, the CCP reset flags and `ccp_rejci`.
- IpcpRequest.ReqCi: `ipcp_nakci`, `ipcp_rejci` and the up and down actions of IPCP.
- L2tpChannel.AcceptedIsSent: safety only; two ends whose messages cross can wait for each other.
- L2tpEndpoint.HandlingIsStep: one endpoint against any peer that keeps to the channel; `l2tp.c` only ever opens tunnels and takes no SCCRQ, so two of its endpoints have nothing to say to each other.
- L2tpEndpoint.Endpoint.Process: the PPPoX socket and starting pppd; numbers that `random()` gives are parameters, the first that is not 0.
- L2tpSession.UpMeansHandshake: the digest is any function, so nothing is said about guessing it.
- PptpSession.Endpoint.Process: message fields are read as values; the outgoing buffer is built as a value.
- RouteTable.PlayKeepsSorted: masks from 1 on, since a mask of 0 shifts a 32-bit number by 32, which C leaves undefined; route counts, reference counts and the epoll table.
- UserNat.Nat.SendPacket: the packet queues of links that are being set up, IPv6, and the walk that ages links (a link that dies or is given up is an event of `NatRules.Run`).
- Masquerade.Tunnel.Masquerade: IPv6, and packets whose lengths are inconsistent, for which the code reads beyond its buffer.
- Callouts.FiresAllDue: an owner that a callback cancels is left to `Callouts.FiresOnce`.
- Base64.B64.Decode: the SRP code that calls it.
- Locks, sockets, poll and epoll, JNI, scripts, logging and packet printers.
- Authentication tables, MD4, MD5, SHA1 and DES themselves, IPX, CBCP and ECP.
- `ip4_update_checksum`, which has no caller, and the IPv6 checksums.
