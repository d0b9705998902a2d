# Verified model of the UDC/ARM communication firmware

The firmware of a power-supply controller talks to the outside in several ways. This project models
four of them in Dafny and proves what they are for:

* **uIP**, the TCP/IP stack: the state machine of a connection and its timers (`Tcp`,
  `TcpLifecycle`, `TcpConnection`), what it owes its peer and its application (`TcpReplies`), two endpoints
  over a network that loses, duplicates and reorders segments (`TcpStream`) and their recovery from loss
  (`TcpRecovery`), the connection table (`TcpTable`), sequence numbers (`Bytes`), checksums and
  their incremental updates (`InternetChecksum`, `IpPacket`, `Forwarding`), segment splitting
  (`SegmentSplit`), IP reassembly (`Reassembly`) and delimited reading with protosockets (`Psock`).
* **BSMP**, the protocol for variables, groups, curves and functions: the server as a function
  (`Bsmp`), its invariant over all runs (`BsmpInvariant`), group commands (`BsmpGroups`), the
  meaning of mask operations (`BsmpBits`), write protection and the reasons of errors (`BsmpProtection`),
  curve checksums (`BsmpCurves`), the server object (`BsmpServer`), and the client with its mirror of the
  server's tables (`BsmpMirror`, `BsmpTransfer`, `BsmpClient`).
* **MD5** as a streaming computation (`Md5Transform`, `Md5`), which the BSMP server uses for curves, with
  the meaning of its word operations (`Bits`, `Md5Words`) and a known answer (`Md5Known`).
* **Number formatting** in `UARTprintf` (`PrintfConvert`) and the **interlock latch** over CAN status
  messages (`Interlock`).

Where the C code changes objects, buffers and tables in place, so does the model: a class or a method
over arrays, proved equal to a function on values; the properties are lemmas about those functions.
Machine integers are ranges of the integers, and wrap-around is written out. The byte order of the host
is a parameter wherever `HTONS` occurs.

Everything the outside world decides is universally quantified: what an application answers in a
callback, which segments arrive and how often, what the curve store refuses, what the value checkers
accept, when the timer ticks. `dafny verify dfyconfig.toml` checks the project.

## What the code does where its comments say something else

* The completion test of IP reassembly skips one byte of the bitmap, and the length it delivers does
  not count the IP header (`Reassembly`).
* `curve_recalc_csum` compares the bytes of a block with the number of blocks, not with the block size
  (`BsmpCurves.ChecksumCoversCurve`).
* `bsmp_recalc_checksum` waits for a code that the server never sends
  (`BsmpClient.Client.RecalcChecksum`).
* The count byte of a group list wraps at 128 members (`BsmpMirror.FullTableIsLost`).
* `uip_close` with data in flight sends the FIN in place of that data (`TcpStream.FinPosition`), and
  a poll request may send with a length left over from an earlier call
  (`TcpLifecycle.PollRequestUsesStaleLength`).
* An entry stopped by the application while it waits in TIME_WAIT or FIN_WAIT_2 is never closed by the
  timer (`TcpLifecycle.BoundedClosing`, `TcpLifecycle.SegmentGetsStuck`).
* In FIN_WAIT_1 data that comes with the acknowledgement of the own FIN is taken and never acknowledged
  (`TcpReplies.TakesInOrder`); two entries in TIME_WAIT acknowledge each other without end
  (`TcpReplies.TimeWaitEchoes`); closing or aborting in a retransmission callback does nothing
  (`TcpReplies.NoCloseWhileResending`); the reset for a segment without ACK follows RFC 793 for a plain SYN
  only (`TcpReplies.ResetAnswers`).
* Mask operations ask no value checker (`BsmpProtection.MaskSkipsChecker`).
* A zero window does not stop the sender (`TcpLifecycle.FlowControl`), and a SYN to port 0 matches a
  free slot of the list of listening ports (`TcpTable.ListenAdds`).
* Both output overvoltages of FAP_ACDC latch the bit of output 1 (`Interlock.SharedLatches`).
* `UARTprintf` pads beyond its buffer for some widths of 17 and more (`PrintfConvert.FitsBuffer`).

## Model

| member | source | states |
|---|---|---|
| `SequenceNumbers.Add32` | app/communication_drivers/ethernet/server_net/uip-1.0/uip/uip.c:267-296 | the byte-wise addition with its two carry chains is addition modulo 2^32, for every operand and every 16-bit summand |
| `SequenceNumbers.Increment` | app/communication_drivers/ethernet/server_net/uip-1.0/uip/uip.c:1432-1444 | the carry chain adds one modulo 2^32 |
| `SequenceNumbers.ValueInjective` | app/communication_drivers/ethernet/server_net/uip-1.0/uip/uip.c:1614-1628 | comparing four bytes is comparing the numbers |
| `SequenceNumbers.SamePosition` | app/communication_drivers/ethernet/server_net/uip-1.0/uip/uip.c:1614-1678 | stream positions closer than 2^32 never share a sequence number, so equality of numbers means equality of positions |
| `TcpLifecycle.SegmentKeepsInv` | app/communication_drivers/ethernet/server_net/uip-1.0/uip/uip.c:1591-2064 | every segment, whatever the application answers, keeps the entry invariant: SYN_SENT, SYN_RCVD, FIN_WAIT_1, CLOSING and LAST_ACK have len = 1, FIN_WAIT_2 and TIME_WAIT have len = 0, ESTABLISHED has len <= initialmss <= UIP_TCP_MSS, nrtx <= UIP_MAXRTX, no opening entry is stopped; every packet built fits the buffer |
| `TcpLifecycle.TimerKeepsInv` | app/communication_drivers/ethernet/server_net/uip-1.0/uip/uip.c:805-929 | so does every timer call |
| `TcpLifecycle.PollKeepsInv` | app/communication_drivers/ethernet/server_net/uip-1.0/uip/uip.c:791-801 | so does a poll request, whatever length an earlier call left behind |
| `TcpLifecycle.OpenKeepsInv` | app/communication_drivers/ethernet/server_net/uip-1.0/uip/uip.c:497-523 | so do active and passive opens of any reused entry |
| `TcpLifecycle.PollRequestUsesStaleLength` | app/communication_drivers/ethernet/server_net/uip-1.0/uip/uip.c:791-801 | a silent application answers a poll request with data exactly when a length was left over from an earlier call (and the MSS is not zero) |
| `TcpLifecycle.FlowControl` | app/communication_drivers/ethernet/server_net/uip-1.0/uip/uip.c:1859-1957 | what the callback of a segment takes over from the application fits the initial MSS and the advertised window, except that a zero window counts as an open one; it is taken only when nothing stays outstanding |
| `TcpLifecycle.SegmentStamps` | app/communication_drivers/ethernet/server_net/uip-1.0/uip/uip.c:2067-2106 | every segment sent in answer to a segment carries the sequence and acknowledgement numbers of the connection as the call leaves it, a zero window exactly when the application has stopped the flow, and the MSS option exactly with a SYN; only the reset that refuses a SYN takes its numbers from the segment |
| `TcpLifecycle.TimerStamps` | app/communication_drivers/ethernet/server_net/uip-1.0/uip/uip.c:2067-2106 | so does every segment sent by the timer or a poll request |
| `TcpLifecycle.CallbackMeaning` | app/communication_drivers/ethernet/server_net/uip-1.0/uip/uip.c:1591-2064 | what the flags of a callback claim (acknowledged, new data, closed, aborted, connected) is true of the segment that caused it |
| `TcpLifecycle.SegmentFollowsRfc793` | app/communication_drivers/ethernet/server_net/uip-1.0/uip/uip.c:1680-2064 | a segment moves a connection only along an edge of figure 6 of RFC 793, and only with the evidence that edge needs |
| `TcpLifecycle.SynEdges` | app/communication_drivers/ethernet/server_net/uip-1.0/uip/uip.c:1687-1787 | the edges out of SYN_RCVD and SYN_SENT |
| `TcpLifecycle.TimerFollowsRfc793` | app/communication_drivers/ethernet/server_net/uip-1.0/uip/uip.c:805-929 | the timer moves a connection only to CLOSED, on give-up or at the end of the waiting states, or closes it at the request of the application |
| `TcpLifecycle.PollFollowsRfc793` | app/communication_drivers/ethernet/server_net/uip-1.0/uip/uip.c:791-801 | a poll request moves a connection only from ESTABLISHED, when the application closes or aborts it |
| `TcpLifecycle.OpensFollowRfc793` | app/communication_drivers/ethernet/server_net/uip-1.0/uip/uip.c:497-523 | opens take the edges out of CLOSED, and forget the last user of the entry, except that an active open keeps its rcv_nxt and a passive one without MSS option its MSS |
| `TcpLifecycle.ClosesExactlyOnTime` | app/communication_drivers/ethernet/server_net/uip-1.0/uip/uip.c:805-929 | without segments a connection that is neither idle nor stuck is CLOSED after exactly the number of timer calls that its state, timer and retransmission count determine, as long as the application does not call uip_stop while it is told of the end |
| `TcpLifecycle.TicksLeftBounded` | app/communication_drivers/ethernet/server_net/uip-1.0/uip/uip.c:805-929 | that number is at most 501, and zero only for a closed entry |
| `TcpLifecycle.BoundedClosing` | app/communication_drivers/ethernet/server_net/uip-1.0/uip/uip.c:805-929 | under every such application closing within 501 timer calls is guaranteed if and only if the entry is neither idle (ESTABLISHED, nothing outstanding) nor stuck (UIP_STOPPED set in TIME_WAIT, FIN_WAIT_2 or CLOSED, nothing outstanding) |
| `TcpLifecycle.IdleStaysOpen` | app/communication_drivers/ethernet/server_net/uip-1.0/uip/uip.c:919-926 | an idle connection with a silent application stays open for any number of timer calls |
| `TcpLifecycle.StuckForever` | app/communication_drivers/ethernet/server_net/uip-1.0/uip/uip.c:833-841 | the timer never changes a stuck entry, because the comparison is with the bare state, and its application is never called again |
| `TcpLifecycle.ClosingWhateverTheApplication` | app/communication_drivers/ethernet/server_net/uip-1.0/uip/uip.c:805-929 | under every application whatever, closing within 501 timer calls is guaranteed if and only if the entry is CLOSED, TIME_WAIT or FIN_WAIT_2 without the UIP_STOPPED bit |
| `TcpLifecycle.StopOnFinGetsStuck` | app/communication_drivers/ethernet/server_net/uip-1.0/uip/uip.c:1996-2051 | uip_stop in the callback that reports the FIN of the peer to a connection closed on this side makes a stuck entry |
| `TcpLifecycle.SegmentGetsStuck` | app/communication_drivers/ethernet/server_net/uip-1.0/uip/uip.c:1591-2064 | exactly which segments and answers make an entry stuck |
| `TcpLifecycle.SegmentFreesStuck` | app/communication_drivers/ethernet/server_net/uip-1.0/uip/uip.c:1591-2064 | exactly which free it again: a reset, or the FIN that FIN_WAIT_2 waits for |
| `TcpStream.StepKeepsNetInv` | app/communication_drivers/ethernet/server_net/uip-1.0/uip/uip.c:1591-2064 | every delivery (of any copy, in any order), timer call and poll request, under every application that resends what is in flight, keeps the joint invariant of both endpoints and of all segments ever sent |
| `TcpStream.ReachableInv` | app/communication_drivers/ethernet/server_net/uip-1.0/uip/uip.c:1591-2064 | the joint invariant holds in every state of every run from the handshake on |
| `TcpStream.StreamSafety` | app/communication_drivers/ethernet/server_net/uip-1.0/uip/uip.c:1614-1678 | in every reachable state the bytes handed to each application are a prefix of the bytes the other one submitted, through loss, duplication, reordering, resets and closing |
| `TcpStream.StreamSynchronised` | app/communication_drivers/ethernet/server_net/uip-1.0/uip/uip.c:1900-1957 | while an endpoint is ESTABLISHED, snd_nxt <= peer rcv_nxt <= snd_nxt + len in sequence space, and an ESTABLISHED peer was handed exactly the bytes up to there |
| `TcpStream.EndOfStream` | app/communication_drivers/ethernet/server_net/uip-1.0/uip/uip.c:1801-1820 | when either side takes a FIN while open, it has been handed everything submitted if and only if the FIN was sent behind the last submitted byte |
| `TcpStream.FinPosition` | app/communication_drivers/ethernet/server_net/uip-1.0/uip/uip.c:1910-1918 | on either side the FIN goes behind the last submitted byte if and only if nothing was outstanding as the application closed; otherwise it takes the sequence number of unacknowledged data |
| `TcpStream.ByteArrives` | app/communication_drivers/ethernet/server_net/uip-1.0/uip/uip.c:1708-1787 | the safety statements are not empty: there is a run in which a submitted byte is handed up by the peer |
| `TcpStream.ByteLost` | app/communication_drivers/ethernet/server_net/uip-1.0/uip/uip.c:1900-1918 | there is a run in which the peer takes the FIN and is in LAST_ACK although the only submitted byte never reached it |
| `TcpReplies.TakesInOrder` | app/communication_drivers/ethernet/server_net/uip-1.0/uip/uip.c:1789-2051 | in ESTABLISHED with a running flow, FIN_WAIT_1 and FIN_WAIT_2, in-order data and FIN move rcv_nxt past themselves whatever the application does, and are acknowledged at once if and only if the segment is not data that comes with the acknowledgement of this side's FIN |
| `TcpReplies.MovesAreAcknowledged` | app/communication_drivers/ethernet/server_net/uip-1.0/uip/uip.c:1680-2064 | in every state and for every segment: if rcv_nxt moves, the answer acknowledges the new one, with that single exception |
| `TcpReplies.OutOfOrderIsCorrected` | app/communication_drivers/ethernet/server_net/uip-1.0/uip/uip.c:1614-1628 | a segment from elsewhere in the stream changes nothing and is answered by a bare ACK of rcv_nxt |
| `TcpReplies.BareAckIsNotAnswered` | app/communication_drivers/ethernet/server_net/uip-1.0/uip/uip.c:1680-2064 | a bare segment that acknowledges nothing new is answered in TIME_WAIT and SYN_SENT only, and calls no application except in SYN_SENT |
| `TcpReplies.TimeWaitEchoes` | app/communication_drivers/ethernet/server_net/uip-1.0/uip/uip.c:2053-2054 | two entries in TIME_WAIT answer each other's acknowledgements without end |
| `TcpReplies.SegmentObeys` | app/communication_drivers/ethernet/server_net/uip-1.0/uip/uip.c:1894-1983 | whenever a segment makes an open connection call its application, it does what is asked: FIN, reset, new data up to the MSS, the outstanding data again, or stopping and restarting the flow, with the window announced |
| `TcpReplies.OpeningObeys` | app/communication_drivers/ethernet/server_net/uip-1.0/uip/uip.c:1687-1760 | so does a connection that opens |
| `TcpReplies.PollObeys` | app/communication_drivers/ethernet/server_net/uip-1.0/uip/uip.c:919-926 | so does an idle connection when it is polled |
| `TcpReplies.FinIsTaken` | app/communication_drivers/ethernet/server_net/uip-1.0/uip/uip.c:1801-1820 | the FIN of the peer is acknowledged and reported in every state, and answered by this side's own FIN if that was not sent yet |
| `TcpReplies.FinIsAcknowledged` | app/communication_drivers/ethernet/server_net/uip-1.0/uip/uip.c:1984-2063 | the acknowledgement of the own FIN leads to FIN_WAIT_2, TIME_WAIT or CLOSED |
| `TcpReplies.ResetCloses` | app/communication_drivers/ethernet/server_net/uip-1.0/uip/uip.c:1591-1604 | a reset closes the entry whatever its numbers, and is not answered |
| `TcpReplies.ResetAnswers` | app/communication_drivers/ethernet/server_net/uip-1.0/uip/uip.c:1401-1456 | everything but a reset is answered by one; it is the reset of section 3.4 of RFC 793 if and only if the segment has the ACK flag, or is one number long with a zero acknowledgement field |
| `TcpReplies.ResetIsAcceptable` | app/communication_drivers/ethernet/server_net/uip-1.0/uip/uip.c:1401-1456 | the reset that answers a SYN acknowledges exactly that SYN; the reset that answers a later segment has the sequence number its sender expects |
| `TcpReplies.OpenIsRefused` | app/communication_drivers/ethernet/server_net/uip-1.0/uip/uip.c:1771-1780 | an active open that gets anything in order but the SYN/ACK for its SYN fails, tells the application, and resets the peer |
| `TcpReplies.OutstandingIsResent` | app/communication_drivers/ethernet/server_net/uip-1.0/uip/uip.c:849-917 | when the timer of an entry with something outstanding fires below the limit, it is sent again from the same sequence number: SYN, SYN/ACK or FIN, or the bytes that the application, called with UIP_REXMIT, offers |
| `TcpReplies.NoCloseWhileResending` | app/communication_drivers/ethernet/server_net/uip-1.0/uip/uip.c:897-907 | uip_close and uip_abort in that callback have no effect |
| `TcpReplies.GivingUpResets` | app/communication_drivers/ethernet/server_net/uip-1.0/uip/uip.c:851-867 | at the limit the peer is reset and the application told |
| `TcpReplies.RestartsTimer` | app/communication_drivers/ethernet/server_net/uip-1.0/uip/uip.c:1645-1678 | an acknowledgement takes a new round-trip measurement exactly if nothing was resent (Karn), and restarts the timer |
| `TcpReplies.BackoffDoubles` | app/communication_drivers/ethernet/server_net/uip-1.0/uip/uip.c:869-873 | the time-out doubles four times, from UIP_RTO on, and stays there |
| `TcpReplies.Lifetimes` | app/communication_drivers/ethernet/server_net/uip-1.0/uip/uip.c:805-929 | unanswered, an active open lasts exactly 100 timer calls, a passive one 102, anything else 249 from its first transmission, TIME_WAIT 120 |
| `TcpReplies.OfferBindsPassive` | app/communication_drivers/ethernet/server_net/uip-1.0/uip/uip.c:1506-1571 | a connection opened by a SYN with MSS option m never sends a segment with more than m bytes of data, for any later segments, timer calls, polls and answers of the application |
| `TcpReplies.OfferBindsActive` | app/communication_drivers/ethernet/server_net/uip-1.0/uip/uip.c:1715-1752 | nor does one opened by a SYN/ACK with the option |
| `TcpReplies.OfferIsTaken` | app/communication_drivers/ethernet/server_net/uip-1.0/uip/uip.c:1715-1752 | the limit is the option, or UIP_TCP_MSS if that is less, and nothing smaller |
| `TcpReplies.WindowSetsMss` | app/communication_drivers/ethernet/server_net/uip-1.0/uip/uip.c:1872-1892 | after a segment the MSS is the advertised window, but at most the limit, and the limit for a zero window |
| `TcpReplies.HandshakeCompletes` | app/communication_drivers/ethernet/server_net/uip-1.0/uip/uip.c:1506-1787 | for any two entries, ports, initial sequence numbers and applications: SYN, SYN/ACK and the answer to it open both ends with matching numbers, and deliver the first data |
| `TcpReplies.ReleaseCompletes` | app/communication_drivers/ethernet/server_net/uip-1.0/uip/uip.c:1801-2051 | for any idle pair of connections: the FIN of the one, the FIN of the other and the last ACK leave TIME_WAIT on one side and CLOSED on the other, both applications told |
| `TcpRecovery.ReachableWhole` | app/communication_drivers/ethernet/server_net/uip-1.0/uip/uip.c:1900-1957 | in every reachable state the data in the network is acknowledged already or is all that is in flight, and a synchronised peer has all of that or none of it |
| `TcpRecovery.FiringResends` | app/communication_drivers/ethernet/server_net/uip-1.0/uip/uip.c:849-917 | in every state of the joint invariant a timer that fires with bytes in flight puts a segment with exactly these bytes, at their position, into the network |
| `TcpRecovery.Recovers` | app/communication_drivers/ethernet/server_net/uip-1.0/uip/uip.c:805-2064 | from every reachable state in which a side has bytes in flight and retransmissions left, and the peer is open and takes data, there is a run of the remaining timer calls, one retransmission and two deliveries after which nothing is in flight and the peer was handed every byte ever submitted, whatever was lost, doubled or delayed before |
| `TcpRecovery.LostByteRecovers` | app/communication_drivers/ethernet/server_net/uip-1.0/uip/uip.c:805-2064 | such states are reached: a run in which the only segment with a byte is not delivered goes on until the byte has arrived and nothing is in flight |
| `TcpConnection.Engine.AppSend` | app/communication_drivers/ethernet/server_net/uip-1.0/uip/uip.c:1900-1957 | the object performs the specified step in place: abort, close, MSS cut, outstanding data not exceeded |
| `TcpConnection.Engine.AppRexmit` | app/communication_drivers/ethernet/server_net/uip-1.0/uip/uip.c:1959-1983 | the object performs the specified step in place: data segment, pure ACK or nothing (what has to be acknowledged and resent is stated by TcpReplies.TakesInOrder and TcpReplies.OutstandingIsResent) |
| `TcpConnection.Engine.Timer` | app/communication_drivers/ethernet/server_net/uip-1.0/uip/uip.c:805-929 | the object performs the specified step in place: waiting states, give-up, backoff, polling |
| `TcpConnection.Engine.TimerFired` | app/communication_drivers/ethernet/server_net/uip-1.0/uip/uip.c:849-917 | the object performs the specified step in place: give-up limits and exponential backoff |
| `TcpConnection.Engine.Retransmit` | app/communication_drivers/ethernet/server_net/uip-1.0/uip/uip.c:881-916 | the object performs the specified step in place: what each state retransmits (TcpReplies.OutstandingIsResent says what that means) |
| `TcpConnection.Engine.Poll` | app/communication_drivers/ethernet/server_net/uip-1.0/uip/uip.c:791-801 | the object performs the specified step in place: poll request |
| `TcpConnection.Engine.Found` | app/communication_drivers/ethernet/server_net/uip-1.0/uip/uip.c:1591-1681 | the object performs the specified step in place: reset, order check, acknowledgement, state switch |
| `TcpConnection.Engine.Acknowledge` | app/communication_drivers/ethernet/server_net/uip-1.0/uip/uip.c:1630-1678 | the object performs the specified step in place: acknowledgement of outstanding data |
| `TcpConnection.Engine.StateSwitch` | app/communication_drivers/ethernet/server_net/uip-1.0/uip/uip.c:1680-2064 | the object performs the specified step in place: dispatch over the states |
| `TcpConnection.Engine.InSynRcvd` | app/communication_drivers/ethernet/server_net/uip-1.0/uip/uip.c:1687-1706 | the object performs the specified step in place: SYN_RCVD |
| `TcpConnection.Engine.InSynSent` | app/communication_drivers/ethernet/server_net/uip-1.0/uip/uip.c:1708-1787 | the object performs the specified step in place: SYN_SENT |
| `TcpConnection.Engine.InEstablished` | app/communication_drivers/ethernet/server_net/uip-1.0/uip/uip.c:1789-1983 | the object performs the specified step in place: ESTABLISHED |
| `TcpConnection.Engine.PassiveClose` | app/communication_drivers/ethernet/server_net/uip-1.0/uip/uip.c:1801-1820 | the object performs the specified step in place: FIN of the peer |
| `TcpConnection.Engine.InFinWait1` | app/communication_drivers/ethernet/server_net/uip-1.0/uip/uip.c:1996-2031 | the object performs the specified step in place: FIN_WAIT_1 |
| `TcpConnection.Engine.InFinWait2` | app/communication_drivers/ethernet/server_net/uip-1.0/uip/uip.c:2033-2051 | the object performs the specified step in place: FIN_WAIT_2 |
| `TcpConnection.Engine.Reset` | app/communication_drivers/ethernet/server_net/uip-1.0/uip/uip.c:1401-1456 | the reset reply: numbers flipped, acknowledgement incremented with carries; none in reply to a reset |
| `TcpTable.MatchIsUnique` | app/communication_drivers/ethernet/server_net/uip-1.0/uip/uip.c:1367-1379 | in an unambiguous table a packet matches at most one entry, so the search order does not matter |
| `TcpTable.OpenMatchesPeer` | app/communication_drivers/ethernet/server_net/uip-1.0/uip/uip.c:497-523 | a new entry matches the packets of its peer, whatever they carry |
| `TcpTable.UnmatchedMeans` | app/communication_drivers/ethernet/server_net/uip-1.0/uip/uip.c:1381-1505 | without a matching entry a reset is the answer exactly to what is no reset and no SYN for a listening port; such a SYN takes a reusable entry, if there is one, which then waits for the ACK of the SYN/ACK sent |
| `TcpTable.ReusableExists` | app/communication_drivers/ethernet/server_net/uip-1.0/uip/uip.c:1467-1484 | there is an entry to reuse if and only if one is CLOSED or TIME_WAIT |
| `TcpTable.ReusedClosesFirst` | app/communication_drivers/ethernet/server_net/uip-1.0/uip/uip.c:1467-1484 | no other closed or waiting entry would have closed earlier |
| `TcpTable.StepStaysUnambiguous` | app/communication_drivers/ethernet/server_net/uip-1.0/uip/uip.c:1591-2064 | processing a segment or a timer call cannot make the table ambiguous |
| `TcpTable.OpenStaysUnambiguous` | app/communication_drivers/ethernet/server_net/uip-1.0/uip/uip.c:1461-1505 | neither can an open whose endpoints no live entry has |
| `TcpTable.PortSearchEnds` | app/communication_drivers/ethernet/server_net/uip-1.0/uip/uip.c:461-476 | pigeonhole: the port search cannot fail more often than there are entries, for either byte order |
| `TcpTable.Stack.NewLocalPort` | app/communication_drivers/ethernet/server_net/uip-1.0/uip/uip.c:456-476 | the search ends within UIP_CONNS + 1 tries with a port that no live entry uses |
| `TcpTable.Stack.FindReusable` | app/communication_drivers/ethernet/server_net/uip-1.0/uip/uip.c:478-495 | the entry found is the first CLOSED one, or else the TIME_WAIT one with the largest timer; none is found only when there is neither |
| `TcpTable.ReusableIsUnique` | app/communication_drivers/ethernet/server_net/uip-1.0/uip/uip.c:1467-1484 | that description fits exactly one entry |
| `TcpTable.Stack.FindActive` | app/communication_drivers/ethernet/server_net/uip-1.0/uip/uip.c:1367-1379 | the entry found matches, and if none is found none does |
| `TcpTable.Stack.Connect` | app/communication_drivers/ethernet/server_net/uip-1.0/uip/uip.c:453-523 | the table stays unambiguous and sound; exactly the reusable entry changes, to the opened connection |
| `TcpTable.Stack.Input` | app/communication_drivers/ethernet/server_net/uip-1.0/uip/uip.c:1352-1505 | a matching entry alone makes its step; otherwise a SYN for a listening port takes the reusable entry, and anything else is answered with a reset; the table invariant is kept |
| `TcpTable.Stack.Tick` | app/communication_drivers/ethernet/server_net/uip-1.0/uip/uip.c:805-929 | one entry makes its timer step, the initial sequence number grows by one, the table invariant is kept |
| `TcpTable.Stack.Poll` | app/communication_drivers/ethernet/server_net/uip-1.0/uip/uip.c:791-801 | one entry makes its poll step with the length left over in uip_slen; the table invariant is kept |
| `TcpTable.Stack.Listen` | app/communication_drivers/ethernet/server_net/uip-1.0/uip/uip.c:600-612 | the first free slot gets the port; nothing else changes |
| `TcpTable.Stack.Unlisten` | app/communication_drivers/ethernet/server_net/uip-1.0/uip/uip.c:583-594 | the first slot with the port is free again; nothing else changes |
| `TcpTable.ListenAdds` | app/communication_drivers/ethernet/server_net/uip-1.0/uip/uip.c:600-612 | listening accepts the port if and only if it was accepted or a slot was free, changes no other port, and uses up one free slot; a free slot is a zero, so a SYN to port 0 is accepted as long as there is one |
| `TcpTable.UnlistenUndoesListen` | app/communication_drivers/ethernet/server_net/uip-1.0/uip/uip.c:583-612 | uip_unlisten undoes uip_listen if and only if the port is not listed before the first free slot already |
| `Md5Transform.Rounds` | app/communication_drivers/bsmp/bsmp/src/md5/md5.c:164-250 | the 64 unrolled operations, with their literal shifts, word indices and constants, are the table-driven steps of section 3.4 of RFC 1321 |
| `Md5.DecodeEncode` | app/communication_drivers/bsmp/bsmp/src/md5/md5.c:253-275 | Decode undoes Encode on any words |
| `Md5.Encode` | app/communication_drivers/bsmp/bsmp/src/md5/md5.c:253-262 | words to bytes, least significant byte first |
| `Md5.Decode` | app/communication_drivers/bsmp/bsmp/src/md5/md5.c:268-275 | bytes to words, least significant byte first |
| `Md5.Context.Update` | app/communication_drivers/bsmp/bsmp/src/md5/md5.c:103-134 | a context that holds a message holds its extension afterwards: state over the complete blocks, tail in the buffer, bit count modulo 2^64 |
| `Md5.Context.AddBits` | app/communication_drivers/bsmp/bsmp/src/md5/md5.c:111-115 | the two-word counter is 8 times the length modulo 2^64, with the carry found by comparison |
| `Md5.Context.Feed` | app/communication_drivers/bsmp/bsmp/src/md5/md5.c:117-133 | filling the buffer, transforming whole blocks and buffering the rest absorbs buffered and new bytes in order |
| `Md5.Context.Final` | app/communication_drivers/bsmp/bsmp/src/md5/md5.c:139-161 | the digest written is the one-shot digest of the message held |
| `Md5.PaddedIsBlocks` | app/communication_drivers/bsmp/bsmp/src/md5/md5.c:139-161 | padding ends on a block boundary |
| `Md5.AbsorbExtend` | app/communication_drivers/bsmp/bsmp/src/md5/md5.c:103-134 | absorbing a message in two parts is absorbing it whole |
| `Md5.DigestOfChunks` | app/communication_drivers/bsmp/bsmp/src/md5/md5.c:90-161 | for every message and every cut into chunks, init, updates and final give the one-shot digest of the concatenation, for any word operations; the rows of Md5Words and Md5Known say what the operations are |
| `Md5.BlocksChain` | app/communication_drivers/bsmp/bsmp/src/md5/md5.c:117-133 | the state after one block is the state the next one starts from |
| `Md5Words.FSelects` | app/communication_drivers/bsmp/bsmp/src/md5/md5.c:58 | every binary digit of F is the digit of y where x has a one, and of z elsewhere |
| `Md5Words.GSelects` | app/communication_drivers/bsmp/bsmp/src/md5/md5.c:59 | every binary digit of G is the digit of x where z has a one, and of y elsewhere |
| `Md5Words.HIsParity` | app/communication_drivers/bsmp/bsmp/src/md5/md5.c:60 | every binary digit of H is the parity of the three digits |
| `Md5Words.IFlips` | app/communication_drivers/bsmp/bsmp/src/md5/md5.c:61 | every binary digit of I is the digit of y, flipped where x has a one or z a zero |
| `Md5Words.SameDigits` | app/communication_drivers/bsmp/bsmp/src/md5/md5.c:58-61 | numbers with the same binary digits are equal, so these four rows determine the functions |
| `Md5Words.RotateIsArithmetic` | app/communication_drivers/bsmp/bsmp/src/md5/md5.c:63-64 | rotation by n is x * 2^n mod 2^32 plus x / 2^(32 - n) |
| `Md5Known.BlockIncrements` | app/communication_drivers/bsmp/bsmp/src/md5/md5.c:164-250 | every register grows modulo 2^32 by what the 64 steps make of it |
| `Md5Known.KnownAnswer` | app/communication_drivers/bsmp/bsmp/src/md5/md5.c:58-250 | with these operations the digest of the letters a to z is c3fcd3d76192e4007dfb496cca67e13b, as section A.5 of RFC 1321 lists it |
| `BsmpInvariant.ReachableInv` | app/communication_drivers/bsmp/bsmp/src/server.c:9-54 | after any registrations and packets: GROUP_ALL lists every variable in order, READ and WRITE hold the read-only and the writable ones, each live group has strictly increasing members, the sum of their sizes and the conjunction of their writability |
| `BsmpInvariant.IdsWithExact` | app/communication_drivers/bsmp/bsmp/src/server.c:45-53 | the READ and WRITE groups partition the variables and keep their order |
| `BsmpInvariant.RegisterVarKeepsInv` | app/communication_drivers/bsmp/bsmp/src/server.c:39-54 | registration keeps the invariant; the 16-bit group size never wraps |
| `BsmpInvariant.RegisterOthersKeepInv` | app/communication_drivers/bsmp/bsmp/src/server.c:56-68 | so does registration of curves and functions |
| `BsmpInvariant.DispatchKeepsInv` | app/communication_drivers/bsmp/bsmp/src/server.c:97-165 | so does every command |
| `BsmpInvariant.GroupCreateKeepsInv` | app/communication_drivers/bsmp/bsmp/src/server_priv.c:486-524 | a created group comes behind the live ones; a rejected one leaves the server unchanged |
| `BsmpInvariant.ResponseFits` | app/communication_drivers/bsmp/bsmp/src/server.c:129-170 | the length of every response fits 16 bits |
| `BsmpGroups.VarReadBack` | app/communication_drivers/bsmp/bsmp/src/server_priv.c:161-201 | a variable written without a refusal reads back as written and nothing else changes |
| `BsmpGroups.WriteReadIsBoth` | app/communication_drivers/bsmp/bsmp/src/server_priv.c:203-251 | the combined command is the write followed by the read |
| `BsmpGroups.GroupWriteIsVarWrites` | app/communication_drivers/bsmp/bsmp/src/server_priv.c:383-432 | group_write has the effect of var_write on every member with its own payload slice in id order; a member whose check fails is skipped |
| `BsmpGroups.GroupReadBack` | app/communication_drivers/bsmp/bsmp/src/server_priv.c:346-432 | after a group_write without refusal, group_read returns the payload |
| `BsmpGroups.GroupBinOpIsOneMask` | app/communication_drivers/bsmp/bsmp/src/server_priv.c:434-484 | group_bin_op is one mask operation on the concatenated values and touches nothing else |
| `BsmpGroups.ToggleTwice` | app/communication_drivers/bsmp/bsmp/src/bsmp.c:15-34 | toggling the same bits of a group twice restores the server |
| `BsmpBits.ByteMeaning` | app/communication_drivers/bsmp/bsmp/src/bsmp.c:15-34 | bit by bit and stated from the operation letter: A keeps the digits in the mask, O and S make them one, C makes them zero, X and T flip them, and no others change |
| `BsmpBits.KnownOperations` | app/communication_drivers/bsmp/bsmp/src/bsmp.c:26-34 | exactly the six letters are operations |
| `BsmpBits.VarBinOpMeaning` | app/communication_drivers/bsmp/bsmp/src/server_priv.c:253-296 | an accepted mask operation changes every byte of the variable that way, and nothing else |
| `BsmpBits.GroupBinOpMeaning` | app/communication_drivers/bsmp/bsmp/src/server_priv.c:434-484 | so does an accepted group operation with the values of the members in order |
| `BsmpProtection.ReadOnlyStays` | app/communication_drivers/bsmp/bsmp/src/server_priv.c:161-296 | no packet, whatever its code and payload, changes a read-only variable or a block of a read-only curve |
| `BsmpProtection.OnlyItsTable` | app/communication_drivers/bsmp/bsmp/src/server.c:97-127 | every command leaves alone the tables it has nothing to do with |
| `BsmpProtection.ReadOnlyForever` | app/communication_drivers/bsmp/bsmp/src/server.c:39-170 | over any run of registrations and packets everything keeps its place and access, a read-only variable its value and a read-only curve its blocks |
| `BsmpProtection.AcceptedStays` | app/communication_drivers/bsmp/bsmp/src/server_priv.c:161-251 | except for the mask operations no command stores a value that the checker of its variable refuses |
| `BsmpProtection.MaskSkipsChecker` | app/communication_drivers/bsmp/bsmp/src/server_priv.c:283-290 | a mask operation stores a value that the checker of the variable refuses |
| `BsmpProtection.RefusalsAreTrue` | app/communication_drivers/bsmp/bsmp/src/server_priv.c:96-759 | for every command and payload: the answer is an error if and only if there is a reason for one (unknown command, wrong id, wrong value, wrong size, read-only target, full table, busy store), the error is one of the reasons, and nothing changes, except for the other members of a group when the value of one is refused |
| `BsmpProtection.AnswerCodes` | app/communication_drivers/bsmp/bsmp/src/bsmp_priv.h:18-74 | the code of every answer that is no error, as a number on the wire, and 0xE2 for every unknown command |
| `BsmpProtection.LengthIsChecked` | app/communication_drivers/bsmp/bsmp/src/server.c:129-170 | a packet whose length field is wrong is answered by 0xE1 and changes nothing; every other one is dispatched |
| `BsmpProtection.RegistrationIsExact` | app/communication_drivers/bsmp/bsmp/src/server.c:16-68 | a registration succeeds if and only if the sizes are in range and there are fewer than 128 of the kind; which error it gives otherwise; what the tables are afterwards |
| `BsmpServer.ApplyMaskInPlace` | app/communication_drivers/bsmp/bsmp/src/bsmp.c:15-24 | the loop from the last byte down applies the operation to every byte (BsmpBits.ByteMeaning says what it does to the bits) |
| `BsmpServer.Server.VarQueryList` | app/communication_drivers/bsmp/bsmp/src/server_priv.c:110-131 | answers and changes the tables as specified: size modulo 128 and writability in one byte |
| `BsmpServer.Server.VarRead` | app/communication_drivers/bsmp/bsmp/src/server_priv.c:133-159 | answers and changes the tables as specified |
| `BsmpServer.Server.VarWrite` | app/communication_drivers/bsmp/bsmp/src/server_priv.c:161-201 | answers and changes the tables as specified, error codes in the order of the checks |
| `BsmpServer.Server.VarWriteRead` | app/communication_drivers/bsmp/bsmp/src/server_priv.c:203-251 | answers and changes the tables as specified |
| `BsmpServer.Server.VarBinOp` | app/communication_drivers/bsmp/bsmp/src/server_priv.c:253-296 | answers and changes the tables as specified (meaning: BsmpBits.VarBinOpMeaning; protection: BsmpProtection.ReadOnlyStays) |
| `BsmpServer.Server.GroupQueryList` | app/communication_drivers/bsmp/bsmp/src/server_priv.c:300-320 | answers and changes the tables as specified: the count is added in eight bits |
| `BsmpServer.Server.GroupQuery` | app/communication_drivers/bsmp/bsmp/src/server_priv.c:322-344 | answers and changes the tables as specified |
| `BsmpServer.Server.GroupRead` | app/communication_drivers/bsmp/bsmp/src/server_priv.c:346-381 | answers and changes the tables as specified |
| `BsmpServer.Server.GroupWrite` | app/communication_drivers/bsmp/bsmp/src/server_priv.c:383-432 | answers and changes the tables as specified, through the moving payload pointer |
| `BsmpServer.Server.GroupBinOp` | app/communication_drivers/bsmp/bsmp/src/server_priv.c:434-484 | answers and changes the tables as specified |
| `BsmpServer.Server.GroupCreate` | app/communication_drivers/bsmp/bsmp/src/server_priv.c:486-524 | answers and changes the tables as specified; the entry behind the live groups may be filled in part |
| `BsmpInvariant.AddVarOk` | app/communication_drivers/bsmp/bsmp/src/server_priv.c:72-77 | one more member, larger than the others, keeps the members increasing, the writability their conjunction and the size their sum: the 16-bit size never wraps |
| `BsmpServer.Server.GroupRemoveAll` | app/communication_drivers/bsmp/bsmp/src/server_priv.c:526-534 | answers and changes the tables as specified |
| `BsmpServer.Server.CurveQueryList` | app/communication_drivers/bsmp/bsmp/src/server_priv.c:538-562 | answers and changes the tables as specified: five bytes a curve, through the moving pointer |
| `BsmpServer.Server.CurveQueryCsum` | app/communication_drivers/bsmp/bsmp/src/server_priv.c:564-580 | answers and changes the tables as specified |
| `BsmpServer.Server.CurveBlockRequest` | app/communication_drivers/bsmp/bsmp/src/server_priv.c:582-615 | answers and changes the tables as specified |
| `BsmpServer.Server.CurveBlockWrite` | app/communication_drivers/bsmp/bsmp/src/server_priv.c:617-656 | answers and changes the tables as specified; the stored checksum is zeroed |
| `BsmpServer.Server.CurveRecalcCsum` | app/communication_drivers/bsmp/bsmp/src/server_priv.c:658-703 | answers and changes the tables as specified; the checksum comes from the streaming MD5 context |
| `BsmpServer.Server.ReadBlocks` | app/communication_drivers/bsmp/bsmp/src/server_priv.c:680-697 | the loop feeds the blocks up to the first one shorter than the number of blocks, or stops at a refused read |
| `BsmpServer.Server.FuncQueryList` | app/communication_drivers/bsmp/bsmp/src/server_priv.c:707-726 | answers and changes the tables as specified |
| `BsmpServer.Server.FuncExecute` | app/communication_drivers/bsmp/bsmp/src/server_priv.c:728-759 | answers and changes the tables as specified |
| `BsmpServer.Server.constructor` | app/communication_drivers/bsmp/bsmp/src/server.c:9-23 | the three standard groups, empty and writable, and nothing else |
| `BsmpServer.Server.RegisterVariable` | app/communication_drivers/bsmp/bsmp/src/server.c:39-54 | range, capacity and duplicate checks in this order; the new id is the position; the standard groups grow |
| `BsmpServer.Server.RegisterCurve` | app/communication_drivers/bsmp/bsmp/src/server.c:56-61 | range, capacity and duplicate checks in this order; the new id is the position |
| `BsmpServer.Server.RegisterFunction` | app/communication_drivers/bsmp/bsmp/src/server.c:63-68 | range, capacity and duplicate checks in this order |
| `BsmpServer.Server.Dispatch` | app/communication_drivers/bsmp/bsmp/src/server.c:97-127 | the command table |
| `BsmpServer.Server.ProcessPacket` | app/communication_drivers/bsmp/bsmp/src/server.c:129-170 | on raw bytes: length check, dispatch, response header; the table invariant is kept |
| `BsmpCurves.CacheAgrees` | app/communication_drivers/bsmp/bsmp/src/server_priv.c:646-702 | in every reachable state a stored checksum is all zero or the digest of what the checksum loop reads from the current blocks |
| `BsmpCurves.AnsweredChecksum` | app/communication_drivers/bsmp/bsmp/src/server_priv.c:564-580 | so is the checksum a client is told |
| `BsmpCurves.RecalcAnswersStored` | app/communication_drivers/bsmp/bsmp/src/server_priv.c:658-703 | the answer to a recalculation is what a later query is told: the digest of what the loop reads |
| `BsmpCurves.ChecksumCoversCurve` | app/communication_drivers/bsmp/bsmp/src/server_priv.c:680-697 | the checksum covers the whole curve if and only if no data lies behind a block with fewer bytes than the curve has blocks |
| `BsmpCurves.LongBlocksAreCovered` | app/communication_drivers/bsmp/bsmp/src/server_priv.c:680-697 | in particular when every block but the last has at least as many bytes as there are blocks |
| `BsmpCurves.SecondBlockLeftOut` | app/communication_drivers/bsmp/bsmp/src/server_priv.c:680-697 | registering a curve of two one-byte blocks reaches a state in which the checksum leaves out the second block |
| `BsmpClient.Client.Command` | app/communication_drivers/bsmp/bsmp/src/client.c:41-83 | one exchange over the link is the server step on the message, and the answer is decoded exactly |
| `BsmpClient.PacketDecodes` | app/communication_drivers/bsmp/bsmp/src/client.c:51-80 | the packet header is undone by its decoding for every payload that fits |
| `BsmpClient.Client.GetVersion` | app/communication_drivers/bsmp/bsmp/src/client.c:85-118 | the version the server answers |
| `BsmpClient.Client.UpdateVars` | app/communication_drivers/bsmp/bsmp/src/client.c:120-153 | the table is the decoded list; a size of zero on the wire means 128 |
| `BsmpClient.Client.UpdateGroups` | app/communication_drivers/bsmp/bsmp/src/client.c:155-222 | the table is the decoded list with the queried members and the sum of the known sizes |
| `BsmpClient.Client.UpdateCurves` | app/communication_drivers/bsmp/bsmp/src/client.c:224-275 | the table is the decoded list with the queried checksums; zero blocks on the wire means 65536 |
| `BsmpClient.Client.UpdateFuncs` | app/communication_drivers/bsmp/bsmp/src/client.c:277-307 | the table is the decoded list of size nibbles |
| `BsmpClient.Client.Init` | app/communication_drivers/bsmp/bsmp/src/client.c:309-349 | afterwards the tables are the server's if and only if there are at most 127 variables, all of at least one byte, and every curve has a block |
| `BsmpMirror.MirrorIsExact` | app/communication_drivers/bsmp/bsmp/src/client.c:120-307 | decoding every list gives the server's tables if and only if that condition holds |
| `BsmpMirror.FullTableIsLost` | app/communication_drivers/bsmp/bsmp/src/server_priv.c:316-317 | with 128 variables the count byte of GROUP_ALL wraps and the mirror is wrong |
| `BsmpMirror.GroupCreateKeepsMirror` | app/communication_drivers/bsmp/bsmp/src/client.c:590-622 | creating a group keeps an exact mirror exact |
| `BsmpMirror.GroupRemoveKeepsMirror` | app/communication_drivers/bsmp/bsmp/src/client.c:624-640 | so does removing the groups |
| `BsmpClient.Client.ReadVar` | app/communication_drivers/bsmp/bsmp/src/client.c:371-399 | from tables as bsmp_client_init leaves them: the value of the server, for exactly the variables of the table |
| `BsmpClient.Client.WriteVar` | app/communication_drivers/bsmp/bsmp/src/client.c:401-429 | from such tables: success if and only if the variable is writable, not empty and of the size of the value, and its checker agrees; then it holds the value, and otherwise nothing changed |
| `BsmpClient.Client.WriteReadVars` | app/communication_drivers/bsmp/bsmp/src/client.c:431-464 | success exactly as for a write; the value read is the one just written if both are the same variable |
| `BsmpClient.Client.BinOpVar` | app/communication_drivers/bsmp/bsmp/src/client.c:524-555 | success means that every binary digit of the variable is as the operation makes it and nothing else changed; which parameters give which error |
| `BsmpClient.Client.BinOpGroup` | app/communication_drivers/bsmp/bsmp/src/client.c:557-588 | likewise for the values of all members of a group |
| `BsmpClient.LettersMean` | app/communication_drivers/bsmp/bsmp/src/client.c:10-18 | the enumeration is and, or, exclusive or, set, clear, toggle |
| `BsmpClient.Client.ExecuteFunc` | app/communication_drivers/bsmp/bsmp/src/client.c:798-840 | the error is the return code of the function, and the output is the output of the function if and only if that is zero |
| `BsmpClient.Client.CreateGroup` | app/communication_drivers/bsmp/bsmp/src/client.c:590-622 | error cases; after a success client and server both have the new group, after a failure nothing changed |
| `BsmpClient.Client.RemoveAllGroups` | app/communication_drivers/bsmp/bsmp/src/client.c:624-640 | only the standard groups remain, on both sides |
| `BsmpClient.Client.ReadGroup` | app/communication_drivers/bsmp/bsmp/src/client.c:466-492 | the values are those of the members, in order |
| `BsmpClient.Client.WriteGroup` | app/communication_drivers/bsmp/bsmp/src/client.c:494-522 | a reported success means that the members have exactly these values now |
| `BsmpClient.Client.RequestBlock` | app/communication_drivers/bsmp/bsmp/src/client.c:642-669 | the block of the server, or an error when its read is refused |
| `BsmpClient.Client.SendBlock` | app/communication_drivers/bsmp/bsmp/src/client.c:707-739 | succeeds exactly for a writable curve, an accepting store and a block that is not empty |
| `BsmpClient.Client.WriteCurve` | app/communication_drivers/bsmp/bsmp/src/client.c:741-770 | exactly the blocks before the first failure are replaced, and the failure is one of: no data left, refused write, read-only curve |
| `BsmpClient.Client.ReadCurve` | app/communication_drivers/bsmp/bsmp/src/client.c:671-705 | the buffer gets the blocks up to the first one that is not full; an error, and length zero, exactly when a read on the way is refused |
| `BsmpTransfer.SentAll` | app/communication_drivers/bsmp/bsmp/src/client.c:741-770 | all blocks can be sent if and only if there is more data than all blocks but one take |
| `BsmpTransfer.CurveRoundTrip` | app/communication_drivers/bsmp/bsmp/src/client.c:671-770 | the blocks a writer cuts from the data are as many as the curve has, and the reader joins them to the same bytes, if and only if (nblocks - 1) * block_size < length <= nblocks * block_size |
| `BsmpClient.Client.WriteThenRead` | app/communication_drivers/bsmp/bsmp/src/client.c:671-770 | after bsmp_client_init, bsmp_write_curve and then bsmp_read_curve of a curve with 1 to 65535 blocks both report success and the same bytes come back if and only if the curve is writable, no block is refused for writing or for reading, and (nblocks - 1) * block_size < length <= nblocks * block_size |
| `BsmpClient.Client.RecalcChecksum` | app/communication_drivers/bsmp/bsmp/src/client.c:772-796 | never succeeds: the server recalculates, but answers with a code the client takes for an error |
| `Reassembly.OffsetIsThirteenBits` | app/communication_drivers/ethernet/server_net/uip-1.0/uip/uip.c:660 | the offset computed with six bits of the flag byte in 16-bit arithmetic is eight times the 13-bit field |
| `Reassembly.FragmentField` | app/communication_drivers/ethernet/server_net/uip-1.0/uip/uip.c:660-713 | offset and more-fragments flag are the low thirteen bits and the third bit of the 16-bit field |
| `Reassembly.MarkUnits` | app/communication_drivers/ethernet/server_net/uip-1.0/uip/uip.c:677-708 | the bitmap update sets exactly the bits of the complete 8-byte units of the fragment |
| `Reassembly.Complete` | app/communication_drivers/ethernet/server_net/uip-1.0/uip/uip.c:722-738 | the scan accepts exactly the bitmaps that are full below byte reasslen / 64 - 1 and exact in byte reasslen / 64 |
| `Reassembly.Reassembler.Store` | app/communication_drivers/ethernet/server_net/uip-1.0/uip/uip.c:672-718 | bit u is set if and only if unit u lies in some fragment since the last restart, and the buffer has the latest byte for every position received |
| `Reassembly.Reassembler.Input` | app/communication_drivers/ethernet/server_net/uip-1.0/uip/uip.c:629-752 | for any sequence of fragments: foreign ones are ignored, oversized ones discard the datagram, the others are added, and the datagram is delivered exactly when the scan passes |
| `Reassembly.ScanCertifies` | app/communication_drivers/ethernet/server_net/uip-1.0/uip/uip.c:719-738 | a passed scan certifies every unit below the end except those of bitmap byte reasslen / 64 - 1, and all of them if and only if those are there too |
| `Reassembly.FullScanCertifies` | app/communication_drivers/ethernet/server_net/uip-1.0/uip/uip.c:721 | with the bound reasslen / 64 the scan would certify all units, and would differ exactly there |
| `Reassembly.GapIsDelivered` | app/communication_drivers/ethernet/server_net/uip-1.0/uip/uip.c:719-738 | one fragment delivers a datagram whose first 64 bytes never arrived |
| `Reassembly.UnitsGiveBytes` | app/communication_drivers/ethernet/server_net/uip-1.0/uip/uip.c:719-738 | when all units are there, so is every byte of the datagram |
| `Reassembly.Reassembler.Deliver` | app/communication_drivers/ethernet/server_net/uip-1.0/uip/uip.c:739-751 | the delivered packet has the header of the first fragment, a valid header checksum and length reasslen, header included: the last 20 bytes of the datagram are missing |
| `Reassembly.Reassembler.Tick` | app/communication_drivers/ethernet/server_net/uip-1.0/uip/uip.c:807-812 | an unfinished datagram is dropped on the 40th timer call after its first fragment and not before, whatever fragments were added in between |
| `InternetChecksum.Chksum` | app/communication_drivers/ethernet/server_net/uip-1.0/uip/uip.c:303-338 | the carrying loop computes the folded sum for every length, odd ones included, and every initial value |
| `InternetChecksum.FoldIsAddCarries` | app/communication_drivers/ethernet/server_net/uip-1.0/uip/uip.c:303-338 | the closed form is the deferred-carry sum of section 2 of RFC 1071 |
| `InternetChecksum.Pieces` | app/communication_drivers/ethernet/server_net/uip-1.0/uip/uip.c:361-386 | summing piece by piece is summing the concatenation when all pieces but the last have even length |
| `InternetChecksum.VerifiesAnyOrder` | app/communication_drivers/ethernet/server_net/uip-1.0/uip/uip.c:346-357 | the receiver's test succeeds if and only if the sum is a multiple of 65535, for either byte order |
| `InternetChecksum.FilledVerifies` | app/communication_drivers/ethernet/server_net/uip-1.0/uip/uip.c:2117-2143 | a zeroed field filled with the complement makes the data verify |
| `IpPacket.UpperLayerChksum` | app/communication_drivers/ethernet/server_net/uip-1.0/uip/uip.c:361-386 | the sum over the pseudo header and the segment of section 3.1 of RFC 793 |
| `IpPacket.PseudoSum` | app/communication_drivers/ethernet/server_net/uip-1.0/uip/uip.c:366-383 | adding length and protocol first and then the addresses is summing the pseudo header |
| `IpPacket.IpFillVerifies` | app/communication_drivers/ethernet/server_net/uip-1.0/uip/uip.c:2142-2143 | the filled IP header verifies and only the field has changed |
| `IpPacket.TcpFillVerifies` | app/communication_drivers/ethernet/server_net/uip-1.0/uip/uip.c:2122-2123 | the filled TCP checksum verifies and only the field has changed |
| `IpPacket.FillIp` | app/communication_drivers/ethernet/server_net/uip-1.0/uip/uip.c:2142-2143 | the code stores exactly that field, for either byte order |
| `IpPacket.FillTcp` | app/communication_drivers/ethernet/server_net/uip-1.0/uip/uip.c:2122-2123 | the code stores exactly that field, for either byte order |
| `IpPacket.BumpedWord` | app/communication_drivers/ethernet/server_net/uip-1.0/uip/uip.c:1154-1161 | the addition with comparison adds the network-order constant up to a multiple of 65535, for either byte order |
| `IpPacket.BumpedNotFull` | app/communication_drivers/ethernet/server_net/uip-1.0/uip/uip.c:1154-1161 | the sum is 0xffff only if both operands are |
| `IpPacket.RepairedVerifies` | app/communication_drivers/ethernet/server_net/uip-1.0/uip/uip.c:1152-1161 | the echo reply verifies if and only if the request did |
| `IpPacket.EchoReply` | app/communication_drivers/ethernet/server_net/uip-1.0/uip/uip.c:1152-1165 | type, checksum and addresses of the reply; everything else is unchanged, and the IP header stays valid for a request addressed to the host |
| `IpPacket.TtlDownVerifies` | app/communication_drivers/ethernet/server_net/uip-1.0/uip/uip-fw.c:498-509 | the header with the decremented TTL verifies if and only if it did before |
| `IpPacket.DecrementTtl` | app/communication_drivers/ethernet/server_net/uip-1.0/uip/uip-fw.c:498-509 | the code makes exactly that update |
| `Forwarding.ForwardTtl` | app/communication_drivers/ethernet/server_net/uip-1.0/uip/uip-fw.c:485-510 | TTL of two or more: decremented; otherwise broadcasts stay local, ICMP packets vanish, and anything else is replaced by a valid time-exceeded message to the sender that quotes 28 bytes |
| `Forwarding.TimeExceeded` | app/communication_drivers/ethernet/server_net/uip-1.0/uip/uip-fw.c:229-283 | the message has valid IP and ICMP checksums, the right addresses and the quoted header |
| `SegmentSplit.SplitOutput` | app/communication_drivers/ethernet/server_net/uip-1.0/uip/uip-split.c:46-132 | the two packets have valid checksums, the payload in order, the original headers otherwise, and the second sequence number advanced modulo 2^32; other packets go out unchanged |
| `SegmentSplit.SplitIsTransparent` | app/communication_drivers/ethernet/server_net/uip-1.0/uip/uip-split.c:46-132 | an in-order receiver ends in the same state as with the unsplit segment, unless it already waits for the second half |
| `Psock.RecordsCutStream` | app/communication_drivers/ethernet/server_net/uip-1.0/uip/psock.c:312-342 | records and rest are the stream, cut behind every marker and nowhere else |
| `Psock.Socket.BufTo` | app/communication_drivers/ethernet/server_net/uip-1.0/uip/psock.c:116-154 | the bytes up to the marker extend the record; the buffer keeps its first bufsize bytes; the return code tells whether the marker was met |
| `Psock.Socket.NewData` | app/communication_drivers/ethernet/server_net/uip-1.0/uip/psock.c:284-309 | unread data, or a new segment when the last one was not just consumed |
| `Psock.Socket.ReadTo` | app/communication_drivers/ethernet/server_net/uip-1.0/uip/psock.c:312-342 | one call ends with the next record in the buffer, or waits with everything consumed |
| `Psock.Socket.Activate` | app/communication_drivers/ethernet/server_net/uip-1.0/uip/psock.c:312-342 | an activation of back-to-back reads yields exactly the records completed by the segment |
| `Psock.ReadRecords` | app/communication_drivers/ethernet/server_net/uip-1.0/uip/psock.c:312-342 | for every split of a stream into segments, with any other events between them, the records are those of the whole stream, each cut to the buffer size |
| `PrintfConvert.GuardIsExact` | uartstdio.c:893-896 | in 32-bit arithmetic the two tests of the guard hold exactly when the true product is not above the value |
| `PrintfConvert.Search` | uartstdio.c:889-898 | the search ends with the largest power of the base not above the value, and the count reduced once per step |
| `PrintfConvert.DigitsOfPower` | uartstdio.c:889-898 | that power tells the number of digits |
| `PrintfConvert.NumeralAt` | uartstdio.c:937-941 | dividing by powers of the base extracts the digits in order |
| `PrintfConvert.Convert` | uartstdio.c:889-944 | the buffer gets sign, padding and digits in the specified layout |
| `PrintfConvert.OutputReadsBack` | uartstdio.c:889-944 | every field reads back as the signed value, for both fill characters and every width |
| `PrintfConvert.OutputShape` | uartstdio.c:900-944 | the digits stand at the end, the sign before zeros or behind blanks, and the fill character everywhere else |
| `PrintfConvert.OutputLength` | uartstdio.c:900-930 | the length is the width when one to fourteen characters are missing and the bare length otherwise; for widths up to 15 it is the maximum of both |
| `PrintfConvert.FitsBuffer` | uartstdio.c:706-944 | the field fits 16 bytes if and only if the width is not between 17 and the bare length plus 14 |
| `PrintfConvert.ThreeDigitsOverrun` | uartstdio.c:706-944 | a three-digit number in a field of 17 characters is one character too long for the buffer |
| `PrintfConvert.PrintDecimal` | uartstdio.c:789-820 | %d prints the value of the 32-bit word as a signed number, the most negative one included |
| `Interlock.Controller.StatusMessage` | app/communication_drivers/can/can_bkp.c:580-733 | flags, latches and notifications are those of the extended trace, for any fault table |
| `Interlock.Controller.ResetInterlocks` | app/communication_drivers/shared_memory/main_var.c:81-90 | a reset clears latches and flags and is announced |
| `Interlock.Controller.Check` | app/communication_drivers/can/can_bkp.c:580-590 | one fault: flag and latch set and one notification on a rising edge, flag cleared when the bit is |
| `Interlock.Run` | app/communication_drivers/can/can_bkp.c:975-1150 | after any sequence of messages and resets the latches are all faults asserted since the last reset, and the notifications are exactly the rising edges |
| `Interlock.Controller.FlagIsLatched` | app/communication_drivers/can/can_bkp.c:1508-1556 | a set flag has its bit latched |
| `Interlock.LatchedNext` | app/communication_drivers/can/can_bkp.c:1644-1692 | a message adds exactly the bits of the faults it asserts |
| `Interlock.LatchedMeans` | app/communication_drivers/can/can_bkp.c:580-733 | a latched bit says that one of the faults that share it was asserted since the last reset; a fault that shares its bit with no other was asserted exactly if its bit is latched |
| `Interlock.RepeatIsSilent` | app/communication_drivers/can/can_bkp.c:580-733 | a message that repeats the one before causes no notification |
| `Interlock.EdgesBehindReset` | app/communication_drivers/can/can_bkp.c:580-733 | behind a reset every asserted fault notifies again |
| `Interlock.EdgesBehindQuiet` | app/communication_drivers/can/can_bkp.c:580-733 | so it does behind a message of the same module without faults |
| `Interlock.OneFault` | app/communication_drivers/can/can_bkp.c:580-733 | behind a reset a message that asserts a single fault notifies once, of its kind, and latches its bit alone |
| `Interlock.ResetClears` | app/communication_drivers/shared_memory/main_var.c:81-90 | a reset clears both latch words and is announced |
| `Interlock.DcdcDigits` | app/communication_drivers/can/can_bkp.c:580-733 | the faults of FAP_DCDC take the digits of the status bytes in order |
| `Interlock.SharedLatches` | app/communication_drivers/can/can_bkp.c:975-1150 | no two faults of FAP_DCDC share a bit; in FAP_ACDC exactly the two output voltages do; in FAC_Full_DCDC exactly each fault of Mod1Q4 with the same fault of Mod2Q4 |

## Left out

- IPv6, UDP, ARP, DHCP, the HTTP server, the network device driver and hardware access: not modelled.
- The round-trip estimator: the retransmission timeout after an acknowledgement is an arbitrary byte.
- The loop that parses TCP options: the MSS option of a segment is a field of its value. Urgent data and options on data segments are not modelled.
- The header bytes of outgoing TCP segments (ports, addresses, identification): a segment is a value in the state machine; packets as bytes are modelled where checksums, splitting and reassembly need them.
- The bit of uip_process that decides between local delivery, ping configuration and broadcast: not modelled.
- TcpStream.StreamSafety: applications resend the same bytes while data is outstanding, as uip.h demands; a poll request with a length left over is excluded when a silent application would send with it; fewer than 2^32 positions are used per connection. Everything else an application may answer is covered.
- TcpStream.StepKeepsNetInv: an event is enabled only for an entry whose sizes are in range, which holds in every reachable state.
- TcpLifecycle.ClosesExactlyOnTime: for applications that do not call uip_stop while they are told of the end of the connection; TcpLifecycle.ClosingWhateverTheApplication says what is left without that.
- uip_udp_new and the periodic housekeeping of the forwarding cache and of interfaces: not modelled; of uip_fw_forward only the TTL part is.
- Md5.Context.Update: inputs are shorter than 2^32 - 63 bytes, since the loop compares i + 63 in 32-bit arithmetic. Pointers and the stack copies of MD5Final are not modelled.
- BSMP hooks and a custom MD5 function: absent in the model. Value checkers see the proposed value only. Curve callbacks are a store of blocks that may refuse an access; a refused write leaves it unchanged.
- BsmpServer.Server.RegisterVariable: every variable brings storage of its own; the C code does not forbid sharing it.
- BsmpServer.Server.RegisterCurve: every curve brings storage of its own, likewise.
- BsmpClient.Client.Command: the link neither loses nor changes messages, so communication errors do not occur.
- BsmpClient.Client.ReadCurve: curves of 65536 blocks are excluded, because the 16-bit block counter of the client never reaches that number.
- BsmpClient.Client.WriteCurve: curves of 65536 blocks are excluded for the same reason.
- BsmpClient.Client.WriteThenRead: curves of 65536 blocks are excluded for the same reason, and the buffer holds the whole curve.
- Null pointers passed to the client: not modelled; an entity is named by its position in the client's table. The group commands of the client are stated for tables that agree with the server.
- TcpRecovery.Recovers: says that recovery is possible from every reachable state, not that the network will deliver; a peer that is closing, closed or has stopped the flow is left out.
- Reassembly.Reassembler.Input: fragments that end between byte 1536 and byte 1586 are excluded; their bitmap index lies outside the bitmap.
- Psock: reading fixed-size blocks and sending. A buffer has at least one byte.
- SegmentSplit.SplitOutput: for an odd buffer size the two regions of the copy overlap by a byte; copying upwards is assumed. The configured size is even.
- PrintfConvert.Convert: widths for which the field does not fit are excluded; PrintfConvert.FitsBuffer says which. Parsing of the format string is not modelled.
- PrintfConvert.PrintDecimal: the same widths are excluded.
- Interlock: the 32-bit latches are sets of bit positions, and the repeated blocks of the handlers are one loop over a table. Alarms, measurements and the Buck module of FAC_Full_ACDC, whose interlocks are level-triggered, are not modelled.
