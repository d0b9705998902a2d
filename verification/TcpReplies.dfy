/** What a connection owes its peer: acknowledgements, retransmissions, resets, segments no longer than
    the peer asked for, and a handshake and a release that come to an end. */
module TcpReplies {
  import opened Bytes
  import opened SequenceNumbers
  import opened Tcp
  import opened TcpLifecycle

  // ---- Acknowledgements ----

  /** The answer acknowledges everything up to `n`. */
  predicate Acks(o: Output, n: u32) { o.sent.Some? && o.sent.value.ack && o.sent.value.ackno == n }

  /** The states in which the peer's data counts, and in which its FIN does not have to wait. */
  predicate Receives(c: Conn, s: Segment) {
    || (c.phase == Established && !c.stopped && (s.fin ==> c.len == 0 || Acknowledges(c, s)))
    || c.phase == FinWait1 || c.phase == FinWait2
  }

  lemma OpenTakesInOrder(c: Conn, s: Segment, rto: u8, r: Reply)
    requires Inv(c) && r.Valid() && Receives(c, s) && c.phase == Established && !s.rst && s.seqno == c.rcvNxt && (s.data != [] || s.fin)
    ensures var o := OnSegment(c, s, rto, r);
            o.conn.rcvNxt == Plus(c.rcvNxt, |s.data| + if s.fin then 1 else 0) && Acks(o, o.conn.rcvNxt)
  {
  }

  /** In-order data and the FIN move the receive number past themselves, whatever the application does, and
      are acknowledged at once, except for data that comes with the acknowledgement of this side's FIN. */
  lemma TakesInOrder(c: Conn, s: Segment, rto: u8, r: Reply)
    requires Inv(c) && r.Valid() && Receives(c, s) && !s.rst && s.seqno == c.rcvNxt && (s.data != [] || s.fin)
    ensures var o, n := OnSegment(c, s, rto, r), Plus(c.rcvNxt, |s.data| + if s.fin then 1 else 0);
            && o.conn.rcvNxt == n
            && (Acks(o, n) <==> !(c.phase == FinWait1 && Acknowledges(c, s) && !s.fin))
  {
    if c.phase == Established { OpenTakesInOrder(c, s, rto, r); }
    else { PlusPlus(c.rcvNxt, |s.data|, 1); }
  }

  lemma CallIsAcknowledged(c: Conn, f: Flags, data: seq<u8>, r: Reply)
    requires r.Valid() && Sized(c)
    ensures var o := CallAndSend(c, f, data, r); o.conn.rcvNxt == c.rcvNxt && (f.newData ==> Acks(o, c.rcvNxt))
  {
  }

  lemma OpeningIsAcknowledged(c: Conn, s: Segment, rto: u8, r: Reply)
    requires Inv(c) && r.Valid() && (c.phase == SynRcvd || c.phase == SynSent)
    ensures var o := OnSegment(c, s, rto, r); o.conn.rcvNxt != c.rcvNxt ==> Acks(o, o.conn.rcvNxt)
  {
    hide CallAndSend;
    if Acknowledges(c, s) {
      var d := AfterAck(c, s, rto);
      if c.phase == SynRcvd {
        CallIsAcknowledged(d.To(Established).Received(|s.data|), NONE.(connected := true, newData := |s.data| > 0), s.data, r);
      } else {
        CallIsAcknowledged(OfferedMss(s, d).To(Established).(rcvNxt := Plus(s.seqno, 1)), NONE.(connected := true, newData := true), [], r);
      }
    }
    assert Plus(c.rcvNxt, 0) == c.rcvNxt;
  }

  /** Whatever the segment, a receive number that moves is acknowledged, with that one exception. */
  lemma MovesAreAcknowledged(c: Conn, s: Segment, rto: u8, r: Reply)
    requires Inv(c) && r.Valid()
    ensures var o := OnSegment(c, s, rto, r);
            o.conn.rcvNxt != c.rcvNxt ==>
              (Acks(o, o.conn.rcvNxt) <==> !(c.phase == FinWait1 && Acknowledges(c, s) && !s.fin))
  {
    if c.phase == SynRcvd || c.phase == SynSent { OpeningIsAcknowledged(c, s, rto, r); }
    else if Receives(c, s) && !s.rst && s.seqno == c.rcvNxt && (s.data != [] || s.fin) { TakesInOrder(c, s, rto, r); }
    else { NothingMoves(c, s, rto, r); }
  }

  lemma NothingMoves(c: Conn, s: Segment, rto: u8, r: Reply)
    requires Inv(c) && r.Valid() && c.phase != SynRcvd && c.phase != SynSent
    requires !(Receives(c, s) && !s.rst && s.seqno == c.rcvNxt && (s.data != [] || s.fin))
    ensures OnSegment(c, s, rto, r).conn.rcvNxt == c.rcvNxt
  {
  }

  /** A segment from elsewhere in the stream changes nothing, and tells the peer what is expected. */
  lemma OutOfOrderIsCorrected(c: Conn, s: Segment, rto: u8, r: Reply)
    requires Inv(c) && r.Valid() && !s.rst && !(c.phase == SynSent && s.SynAck())
    requires (s.data != [] || s.syn || s.fin) && s.seqno != c.rcvNxt
    ensures var o := OnSegment(c, s, rto, r);
            && o == Output(c, o.sent, [], []) && Acks(o, c.rcvNxt)
            && var t := o.sent.value; !t.fin && !t.syn && !t.rst && t.data == [] && t.seqno == c.sndNxt
  {
  }

  /** Acknowledgements are not acknowledged: a bare segment that acknowledges nothing new is answered in
      TIME_WAIT only, and by SYN_SENT with a reset. */
  lemma BareAckIsNotAnswered(c: Conn, s: Segment, rto: u8, r: Reply)
    requires Inv(c) && r.Valid() && !s.rst && !s.syn && !s.fin && s.data == [] && !Acknowledges(c, s)
    ensures var o := OnSegment(c, s, rto, r);
            && (o.sent.Some? <==> c.phase == TimeWait || c.phase == SynSent)
            && (c.phase == SynSent <==> o.sent.Some? && o.sent.value.rst)
            && (o.calls == [] <==> c.phase != SynSent) && (c.phase != SynSent ==> o.conn == c.(mss := o.conn.mss))
  {
  }

  /** Two entries in TIME_WAIT answer each other's acknowledgements for ever. */
  lemma TimeWaitEchoes(c: Conn, d: Conn, rto: u8, r: Reply)
    requires Inv(c) && Inv(d) && r.Valid() && c.phase == TimeWait && d.phase == TimeWait
    ensures OnSegment(c, AckOf(d), rto, r) == Output(c, Some(AckOf(c)), [], [])
    ensures OnSegment(d, AckOf(c), rto, r) == Output(d, Some(AckOf(d)), [], [])
  {
  }

  // ---- The application's requests ----

  /** A connection that calls its application in the open state does what it asks; `again` bytes stay
      outstanding, and `stopped` says whether the flow was stopped before. */
  ghost predicate Obeys(o: Output, r: Reply, again: nat, stopped: bool) {
    var t, d := o.sent, o.conn;
    match r.verdict
    case Close => d.Is(FinWait1) && d.len == 1 && d.nrtx == 0 && t.Some? && t.value.fin && t.value.ack && !t.value.rst && o.accepted == []
    case Abort => d.Is(Closed) && t.Some? && t.value.rst && t.value.ack && !t.value.fin && o.accepted == []
    case Continue =>
      && d.phase == Established && d.nrtx == 0
      && (d.stopped <==> r.flow.Stop? || (r.flow.Keep? && stopped)) && (r.flow.Restart? ==> t.Some? && t.value.wnd == RECEIVE_WINDOW)
      && (if r.slen == 0 then o.accepted == [] && d.len == again && (t.Some? ==> t.value.data == [])
          else if again > 0 then o.accepted == [] && d.len == again && Carries(t, r.buffer[..Min(again, |r.buffer|)])
          else o.accepted == r.buffer[..Min(Min(r.slen, d.mss), |r.buffer|)] && d.len == |o.accepted| && (d.mss > 0 ==> Carries(t, o.accepted)))
      && (t.Some? ==> !t.value.fin && !t.value.syn && !t.value.rst && t.value.ack)
  }

  predicate Carries(t: Option<Segment>, data: seq<u8>) { t.Some? && t.value.psh && t.value.data == data }

  lemma SendObeysEnd(c: Conn, f: Flags, data: seq<u8>, r: Reply)
    requires Inv(c) && r.Valid() && c.phase == Established && !f.close && !f.abort && (f.acked ==> c.len == 0) && !r.verdict.Continue?
    ensures Obeys(CallAndSend(c, f, data, r), r, c.len, c.stopped)
  {
  }

  lemma SendObeys(c: Conn, f: Flags, data: seq<u8>, r: Reply)
    requires Inv(c) && r.Valid() && c.phase == Established && !f.close && !f.abort && (f.acked ==> c.len == 0)
    ensures Obeys(CallAndSend(c, f, data, r), r, c.len, c.stopped)
  {
    hide AppSend, AppRexmit;
    if !r.verdict.Continue? { SendObeysEnd(c, f, data, r); }
    else {
      var d, g := AfterCall(c, r), FlagsAfter(f, r);
      SendContinues(d, g, r.slen, r.buffer, [Call(f, data)], r.flow.Restart?);
    }
  }

  lemma SendContinues(d: Conn, g: Flags, slen: u16, buffer: seq<u8>, calls: seq<Call>, restarted: bool)
    requires Inv(d) && d.phase == Established && |buffer| == TCP_MSS && !g.close && !g.abort && (g.acked ==> d.len == 0)
    requires restarted ==> g.newData && !d.stopped
    ensures var o := AppSend(d, g, slen, buffer, calls);
            && o.conn == d.(len := o.conn.len, nrtx := 0)
            && (if slen == 0 then o.accepted == [] && o.conn.len == d.len && (o.sent.Some? ==> o.sent.value.data == [])
                else if d.len > 0 then o.accepted == [] && o.conn.len == d.len && Carries(o.sent, buffer[..d.len])
                else o.accepted == buffer[..Min(slen, d.mss)] && o.conn.len == |o.accepted| && (d.mss > 0 ==> Carries(o.sent, o.accepted)))
            && (o.sent.Some? ==> var t := o.sent.value; !t.fin && !t.syn && !t.rst && t.ack && (restarted ==> t.wnd == RECEIVE_WINDOW))
            && (restarted ==> o.sent.Some?)
  {
  }

  /** Whenever a segment makes an open connection call its application. */
  lemma SegmentObeys(c: Conn, s: Segment, rto: u8, r: Reply)
    requires Inv(c) && r.Valid() && c.phase == Established && !s.rst && !OutOfOrder(c, s) && !(s.fin && !c.stopped)
    requires Acknowledges(c, s) || (s.data != [] && !c.stopped)
    ensures Obeys(OnSegment(c, s, rto, r), r, if Acknowledges(c, s) then 0 else c.len, c.stopped)
  {
    hide AppSend, CallAndSend, Obeys, Plus;
    var d, newData := AfterAck(c, s, rto), |s.data| > 0 && !c.stopped;
    SendObeys(WindowMss(if newData then d.Received(|s.data|) else d, s.wnd),
              NONE.(acked := Acknowledges(c, s), newData := newData), s.data, r);
  }

  /** So does a connection that opens. */
  lemma OpeningObeys(c: Conn, s: Segment, rto: u8, r: Reply)
    requires Inv(c) && r.Valid() && !s.rst && !OutOfOrder(c, s) && Acknowledges(c, s)
    requires c.phase == SynRcvd || (c.phase == SynSent && s.SynAck())
    ensures Obeys(OnSegment(c, s, rto, r), r, 0, false)
  {
    hide AppSend, CallAndSend, Obeys, Plus;
    var d := AfterAck(c, s, rto);
    if c.phase == SynRcvd {
      SendObeys(d.To(Established).Received(|s.data|), NONE.(connected := true, newData := |s.data| > 0), s.data, r);
    } else {
      SendObeys(OfferedMss(s, d).To(Established).(rcvNxt := Plus(s.seqno, 1)), NONE.(connected := true, newData := true), [], r);
    }
  }

  /** So does an idle connection that is polled. */
  lemma PollObeys(c: Conn, staleSlen: u16, r: Reply)
    requires Inv(c) && r.Valid() && Idle(c)
    ensures Obeys(OnTimer(c, r), r, 0, c.stopped)
    ensures r.slen > 0 ==> OnPoll(c, staleSlen, r) == OnTimer(c, r)
    ensures OnTimer(c, r).calls == [Call(NONE.(poll := true), [])]
  {
    SendObeys(c, NONE.(poll := true), [], r);
    hide Obeys, AppSend;
  }

  // ---- Resets ----

  /** A reset closes the entry whatever its numbers, and is not answered. */
  lemma ResetCloses(c: Conn, s: Segment, rto: u8, r: Reply)
    requires Inv(c) && r.Valid() && s.rst
    ensures var o := OnSegment(c, s, rto, r); o.conn.phase == Closed && (o.conn.stopped <==> r.flow.Stop?) && o.sent == None
  {
  }

  /** The length of a segment in sequence space. */
  function SpaceOf(s: Segment): nat { |s.data| + (if s.syn then 1 else 0) + (if s.fin then 1 else 0) }

  /** Section 3.4 of RFC 793: a reset that answers a segment without ACK acknowledges all of it. */
  predicate ResetByRfc793(s: Segment, t: Segment) {
    && t.rst && !t.syn && !t.fin && t.data == []
    && if s.ack then t.seqno == s.ackno else t.ack && t.ackno == Plus(s.seqno, SpaceOf(s)) && t.seqno == 0
  }

  /** Everything but a reset is answered with one; it follows RFC 793 exactly if the segment has the ACK
      flag, or is one number long and has a zero in place of the acknowledgement number. */
  lemma ResetAnswers(s: Segment)
    requires SpaceOf(s) < U32_MOD
    ensures s.rst <==> ResetReply(s) == None
    ensures !s.rst ==> ResetReply(s).value.wnd == s.wnd
    ensures !s.rst ==> (ResetByRfc793(s, ResetReply(s).value) <==> s.ack || (SpaceOf(s) == 1 && s.ackno == 0))
  {
    if !s.ack { NextNumber(s.seqno, SpaceOf(s)); }
  }

  lemma NextNumber(x: u32, n: nat)
    requires n < U32_MOD
    ensures Plus(x, n) == Plus(x, 1) <==> n == 1
  {
    if Plus(x, n) == Plus(x, 1) { SamePosition(x, n, 1); }
  }

  /** An active open that is answered by anything but a SYN|ACK for its SYN fails, and resets the peer. */
  lemma OpenIsRefused(c: Conn, s: Segment, rto: u8, r: Reply)
    requires Inv(c) && r.Valid() && c.phase == SynSent && !s.rst && !OutOfOrder(c, s) && !(Acknowledges(c, s) && s.SynAck())
    ensures var o := OnSegment(c, s, rto, r);
            && o.conn.Is(Closed) && o.accepted == [] && o.calls == [Call(NONE.(abort := true), [])]
            && o.sent.Some? && o.sent.value.rst && o.sent.value.seqno == s.ackno
  {
  }

  /** The reset that answers a SYN acknowledges it, and one that answers a later segment is where the
      connection expects the next one. */
  lemma ResetIsAcceptable(c: Conn)
    requires Inv(c)
    ensures c.phase == SynSent ==> ResetReply(SynOf(c)).Some? && Acknowledges(c, ResetReply(SynOf(c)).value)
    ensures ResetReply(AckOf(c)).Some? && ResetReply(AckOf(c)).value.seqno == c.rcvNxt
    ensures ResetReply(FinAckOf(c)).Some? && ResetReply(FinAckOf(c)).value.seqno == c.rcvNxt
    ensures ResetReply(RstAckOf(c)) == None
  {
  }

  // ---- Retransmission ----

  /** What a resent segment is in each state; an open connection resends what its application offers. */
  ghost predicate ResentBy(c: Conn, r: Reply, t: Segment) {
    && t.seqno == c.sndNxt && !t.rst
    && match c.phase
       case SynSent => t.OnlySyn() && t.data == [] && t.mssOption == Some(TCP_MSS)
       case SynRcvd => t.SynAck() && t.data == [] && t.ackno == c.rcvNxt && t.mssOption == Some(TCP_MSS)
       case Established => !t.syn && !t.fin && t.psh && t.ack && t.ackno == c.rcvNxt && |r.buffer| >= c.len && t.data == r.buffer[..c.len]
       case _ => t.fin && !t.syn && t.ack && t.ackno == c.rcvNxt && t.data == []
  }

  /** When the timer of an entry with something outstanding fires, it is sent again from where it was sent
      before, and the next time-out is set by how often that has happened. */
  lemma OutstandingIsResent(c: Conn, r: Reply)
    requires Inv(c) && r.Valid() && c.len > 0 && c.timer == 0 && !GivesUp(c) && c.phase != Closed
    ensures var o := OnTimer(c, r);
            && o.conn.phase == c.phase && o.conn.len == c.len && o.conn.sndNxt == c.sndNxt && o.conn.rcvNxt == c.rcvNxt
            && o.conn.nrtx == c.nrtx + 1 && o.conn.timer == Backoff(c.nrtx) && o.accepted == []
            && (c.phase != Established || r.slen > 0 ==> o.sent.Some? && ResentBy(c, r, o.sent.value))
            && o.calls == (if c.phase == Established then [Call(NONE.(rexmit := true), [])] else [])
  {
  }

  /** The callback that asks for the data again cannot close or abort the connection. */
  lemma NoCloseWhileResending(c: Conn, r: Reply, v: Verdict)
    requires Inv(c) && r.Valid() && c.phase == Established && c.len > 0 && c.timer == 0 && !GivesUp(c)
    ensures var o := OnTimer(c, r.(verdict := v));
            && o.conn == OnTimer(c, r).conn && o.conn.phase == Established && (o.sent.Some? ==> !o.sent.value.fin && !o.sent.value.rst)
  {
  }

  /** A silent call counts down. */
  lemma TimerCounts(c: Conn, r: Reply)
    requires Inv(c) && r.Valid() && c.len > 0 && c.timer > 0 && !c.Is(Closed)
    ensures OnTimer(c, r) == Quiet(c.(timer := c.timer - 1))
  {
  }

  /** At the limit the peer is reset and the application told. */
  lemma GivingUpResets(c: Conn, r: Reply)
    requires Inv(c) && r.Valid() && c.len > 0 && c.timer == 0 && c.phase != Closed
    requires c.nrtx == if c.phase == SynSent || c.phase == SynRcvd then MAXSYNRTX else MAXRTX
    ensures var o := OnTimer(c, r);
            && o.conn.phase == Closed && (o.conn.stopped <==> r.flow.Stop?) && o.accepted == []
            && Acks(o, c.rcvNxt) && o.sent.value.rst && o.sent.value.seqno == c.sndNxt
            && o.calls == [Call(NONE.(timedOut := true), [])]
  {
  }

  /** Karn's rule: the acknowledgement of something that was sent once alone
      gives a new time-out, and the timer starts from the one in force. */
  lemma RestartsTimer(c: Conn, s: Segment, rto: u8, r: Reply)
    requires Inv(c) && r.Valid() && !s.rst && !OutOfOrder(c, s) && Acknowledges(c, s)
    ensures var d := OnSegment(c, s, rto, r).conn;
            && d.rto == (if c.nrtx == 0 then rto else c.rto)
            && d.timer == (if d.phase == TimeWait then 0 else d.rto)
  {
    hide Plus, CallAndSend;
    var e := AfterAck(c, s, rto);
    match c.phase
    case Established =>
      var newData := |s.data| > 0 && !c.stopped;
      CallKeepsTimer(WindowMss(if newData then e.Received(|s.data|) else e, s.wnd), NONE.(acked := true, newData := newData), s.data, r);
    case SynRcvd => CallKeepsTimer(e.To(Established).Received(|s.data|), NONE.(connected := true, newData := |s.data| > 0), s.data, r);
    case SynSent =>
      if s.SynAck() { CallKeepsTimer(OfferedMss(s, e).To(Established).(rcvNxt := Plus(s.seqno, 1)), NONE.(connected := true, newData := true), [], r); }
    case _ =>
  }

  lemma CallKeepsTimer(c: Conn, f: Flags, data: seq<u8>, r: Reply)
    requires r.Valid() && Sized(c) && c.phase == Established
    ensures var d := CallAndSend(c, f, data, r).conn; d.timer == c.timer && d.rto == c.rto && d.phase != TimeWait
  {
    hide AppRexmit;
  }

  /** The time-out doubles four times and stays there. */
  lemma BackoffDoubles(k: u8)
    ensures Backoff(0) == RTO
    ensures k < 4 ==> Backoff(k + 1) == 2 * Backoff(k)
    ensures k >= 4 ==> Backoff(k) == 16 * RTO
  {
  }

  /** So a peer that never answers is given up after 100 calls of the timer by an active open, after 102 by
      a passive one, and 249 after the first transmission of anything else; TIME_WAIT takes 120. */
  lemma Lifetimes(c: Conn, entry: Conn, lport: u16, rport: u16, ripaddr: u32, iss: u32, s: Segment)
    requires Inv(c) && c.nrtx == 0
    ensures var d := Opened(entry, lport, rport, ripaddr, iss); d.rto == 3 && d.nrtx == 0 && TicksLeft(d) == 100
    ensures var d := Accepted(entry, lport, rport, ripaddr, iss, s); d.rto == 3 && d.nrtx == 0 && TicksLeft(d) == 102
    ensures c.len > 0 && c.timer == 3 && c.phase != SynSent && c.phase != SynRcvd && c.phase != Closed ==> TicksLeft(c) == 249
    ensures c.phase == TimeWait && c.timer == 0 ==> TicksLeft(c) == 120
  {
    assert RetransmissionTicks(3, 5) == 74;
    assert RetransmissionTicks(0, 5) == 98;
    assert RetransmissionTicks(6, 8) == 98;
    assert RetransmissionTicks(3, 8) == 221;
    assert RetransmissionTicks(0, 8) == 245;
  }

  // ---- The peer's segment size ----

  datatype Input = Arrival(segment: Segment, rto: u8, reply: Reply) | Timer(reply: Reply) | PollRequest(staleSlen: u16, reply: Reply)

  function Step(c: Conn, i: Input): Output
    requires i.reply.Valid() && Sized(c)
  {
    match i
    case Arrival(s, rto, r) => OnSegment(c, s, rto, r)
    case Timer(r) => OnTimer(c, r)
    case PollRequest(stale, r) => OnPoll(c, stale, r)
  }

  lemma StepKeepsInv(c: Conn, i: Input)
    requires Inv(c) && i.reply.Valid()
    ensures Inv(Step(c, i).conn)
  {
    match i
    case Arrival(s, rto, r) => SegmentKeepsInv(c, s, rto, r);
    case Timer(r) => TimerKeepsInv(c, r);
    case PollRequest(stale, r) => PollKeepsInv(c, stale, r);
  }

  /** No segment sent on these inputs carries more than m bytes. */
  ghost predicate SendsAtMost(c: Conn, inputs: seq<Input>, m: nat)
    decreases |inputs|
  {
    inputs != [] && Sized(c) && inputs[0].reply.Valid() ==>
      var o := Step(c, inputs[0]);
      (o.sent.Some? ==> |o.sent.value.data| <= m) && SendsAtMost(o.conn, inputs[1..], m)
  }

  /** An entry that may send data sends no more than m bytes at once. */
  ghost predicate Limited(c: Conn, m: nat) {
    c.phase != SynSent && (c.phase == SynRcvd || c.phase == Established ==> c.initialMss <= m)
  }

  lemma SendIsLimited(c: Conn, f: Flags, data: seq<u8>, r: Reply)
    requires r.Valid() && Sized(c) && c.phase == Established && c.len <= c.initialMss
    ensures var o := CallAndSend(c, f, data, r); o.conn.initialMss == c.initialMss && (o.sent.Some? ==> |o.sent.value.data| <= c.initialMss)
    ensures var d := CallAndSend(c, f, data, r).conn; d.phase != SynSent && d.phase != SynRcvd
  {
  }

  lemma ArrivalStaysLimited(c: Conn, s: Segment, rto: u8, r: Reply, m: nat)
    requires Inv(c) && r.Valid() && Limited(c, m)
    ensures var o := OnSegment(c, s, rto, r); Limited(o.conn, m) && (o.sent.Some? ==> |o.sent.value.data| <= m)
  {
    hide AppSend, CallAndSend, Plus;
    var d, acked := AfterAck(c, s, rto), Acknowledges(c, s);
    if c.phase == Established {
      var newData := |s.data| > 0 && !c.stopped;
      SendIsLimited(WindowMss(if newData then d.Received(|s.data|) else d, s.wnd), NONE.(acked := acked, newData := newData), s.data, r);
    } else if c.phase == SynRcvd && acked {
      SendIsLimited(d.To(Established).Received(|s.data|), NONE.(connected := true, newData := |s.data| > 0), s.data, r);
    }
  }

  lemma StepStaysLimited(c: Conn, i: Input, m: nat)
    requires Inv(c) && i.reply.Valid() && Limited(c, m)
    ensures var o := Step(c, i); Limited(o.conn, m) && (o.sent.Some? ==> |o.sent.value.data| <= m)
  {
    hide AppSend, CallAndSend, OnSegment;
    match i
    case Arrival(s, rto, r) => ArrivalStaysLimited(c, s, rto, r, m);
    case Timer(r) => if c.phase == Established { SendIsLimited(c, NONE.(poll := true), [], r); }
    case PollRequest(stale, r) =>
      if c.phase == Established { SendIsLimited(c, NONE.(poll := true), [], if r.slen == 0 then r.(slen := stale) else r); }
  }

  lemma {:induction false} RunStaysLimited(c: Conn, inputs: seq<Input>, m: nat)
    requires Inv(c) && Limited(c, m)
    ensures SendsAtMost(c, inputs, m)
    decreases |inputs|
  {
    hide Step;
    if inputs != [] && inputs[0].reply.Valid() {
      StepKeepsInv(c, inputs[0]);
      StepStaysLimited(c, inputs[0], m);
      RunStaysLimited(Step(c, inputs[0]).conn, inputs[1..], m);
    }
  }

  /** A connection that was opened by a SYN with the option never sends more at once than the option says,
      whatever arrives and whatever its application does. */
  lemma OfferBindsPassive(entry: Conn, lport: u16, rport: u16, ripaddr: u32, iss: u32, s: Segment, inputs: seq<Input>)
    requires Inv(entry) && s.mssOption.Some?
    ensures Accepted(entry, lport, rport, ripaddr, iss, s).initialMss == Min(s.mssOption.value, TCP_MSS)
    ensures SendsAtMost(Accepted(entry, lport, rport, ripaddr, iss, s), inputs, s.mssOption.value)
  {
    OpenKeepsInv(entry, lport, rport, ripaddr, iss, s);
    RunStaysLimited(Accepted(entry, lport, rport, ripaddr, iss, s), inputs, s.mssOption.value);
  }

  /** Nor does one that was opened by a SYN|ACK with the option. */
  lemma OfferBindsActive(c: Conn, s: Segment, rto: u8, r: Reply, inputs: seq<Input>)
    requires Inv(c) && r.Valid() && c.phase == SynSent && s.SynAck() && s.mssOption.Some?
    ensures SendsAtMost(c, [Arrival(s, rto, r)] + inputs, s.mssOption.value)
  {
    var o, all := OnSegment(c, s, rto, r), [Arrival(s, rto, r)] + inputs;
    assert all[1..] == inputs;
    SynAckLimits(c, s, rto, r);
    SegmentKeepsInv(c, s, rto, r);
    RunStaysLimited(o.conn, inputs, s.mssOption.value);
    hide OnSegment;
  }

  /** No smaller limit is taken than the one offered. */
  lemma OfferIsTaken(c: Conn, s: Segment, rto: u8, r: Reply)
    requires Inv(c) && r.Valid() && c.phase == SynSent && s.SynAck() && Acknowledges(c, s)
    ensures OnSegment(c, s, rto, r).conn.initialMss == (match s.mssOption case Some(m) => Min(m, TCP_MSS) case None => c.initialMss)
  {
  }

  lemma SynAckLimits(c: Conn, s: Segment, rto: u8, r: Reply)
    requires Inv(c) && r.Valid() && c.phase == SynSent && s.SynAck() && s.mssOption.Some?
    ensures var o := OnSegment(c, s, rto, r); Limited(o.conn, s.mssOption.value) && (o.sent.Some? ==> |o.sent.value.data| <= s.mssOption.value)
  {
  }

  /** After a segment an open connection sends at most the window, and as much as the first limit allows. */
  lemma WindowSetsMss(c: Conn, s: Segment, rto: u8, r: Reply)
    requires Inv(c) && r.Valid() && c.phase == Established && !s.rst && !OutOfOrder(c, s) && !(s.fin && !c.stopped)
    ensures OnSegment(c, s, rto, r).conn.mss == if s.wnd == 0 then c.initialMss else Min(s.wnd, c.initialMss)
  {
  }

  // ---- The handshake and the release ----

  /** A SYN|ACK that acknowledges the SYN opens the one end, which answers with an acknowledgement and the
      first data, if its application has some. */
  lemma SynAckOpens(c: Conn, s: Segment, rto: u8, r: Reply)
    requires Inv(c) && c.phase == SynSent && s.SynAck() && s.ackno == Plus(c.sndNxt, 1) && r.Valid() && r.verdict.Continue?
    ensures var o := OnSegment(c, s, rto, r);
            && o.conn.phase == Established && o.conn.sndNxt == s.ackno && o.conn.rcvNxt == Plus(s.seqno, 1)
            && o.calls != [] && o.calls[0].flags.connected && o.sent.Some?
            && var t := o.sent.value;
               t.ack && !t.rst && !t.syn && !t.fin && t.seqno == s.ackno && t.ackno == o.conn.rcvNxt && t.data == o.accepted
  {
  }

  /** That answer opens the other. */
  lemma AckOpens(d: Conn, s: Segment, rto: u8, r: Reply)
    requires Inv(d) && d.phase == SynRcvd && r.Valid() && r.verdict.Continue?
    requires s.ack && !s.rst && !s.syn && !s.fin && s.seqno == d.rcvNxt && s.ackno == Plus(d.sndNxt, 1)
    ensures var o := OnSegment(d, s, rto, r);
            && o.conn.phase == Established && o.calls != [] && o.calls[0] == Call(NONE.(connected := true, newData := s.data != []), s.data)
            && o.conn.sndNxt == s.ackno && o.conn.rcvNxt == Plus(d.rcvNxt, |s.data|)
  {
    assert Plus(d.rcvNxt, 0) == d.rcvNxt;
  }

  /** Both ends open, whatever the entries were used for before: the SYN of the one, accepted by the other,
      is answered by a SYN|ACK, whose answer opens the second and brings it the first data. */
  lemma HandshakeCompletes(e: Conn, f: Conn, port: u16, peer: u16, ip: u32, ipPeer: u32, issE: u32, issF: u32, rto: u8, r: Reply, q: Reply)
    requires Inv(e) && Inv(f) && r.Valid() && q.Valid() && r.verdict.Continue? && q.verdict.Continue?
    ensures var c := Opened(e, port, peer, ipPeer, issE);
            var d := Accepted(f, peer, port, ip, issF, SynOf(c));
            var o := OnSegment(c, SynAckOf(d), rto, r);
            && o.conn.phase == Established && o.sent.Some? && o.calls != [] && o.calls[0].flags.connected
            && d.rcvNxt == o.conn.sndNxt == Plus(issE, 1) && o.conn.rcvNxt == Plus(issF, 1)
            && var p := OnSegment(d, o.sent.value, rto, q);
               && p.conn.phase == Established && p.calls != [] && p.calls[0].flags.connected
               && p.conn.sndNxt == o.conn.rcvNxt && p.conn.rcvNxt == Plus(o.conn.sndNxt, |o.accepted|)
               && p.calls[0].data == o.accepted
  {
    var c := Opened(e, port, peer, ipPeer, issE);
    var d := Accepted(f, peer, port, ip, issF, SynOf(c));
    SynAckOpens(c, SynAckOf(d), rto, r);
    AckOpens(d, OnSegment(c, SynAckOf(d), rto, r).sent.value, rto, q);
    hide OnSegment, Plus;
  }

  /** The peer's FIN is acknowledged and reported in every state, and answered by this side's own FIN if that
      was not sent yet. */
  lemma FinIsTaken(c: Conn, s: Segment, rto: u8, r: Reply)
    requires Inv(c) && r.Valid() && Receives(c, s) && !s.rst && s.fin && s.seqno == c.rcvNxt
    ensures var o := OnSegment(c, s, rto, r);
            && Acks(o, Plus(c.rcvNxt, |s.data| + 1)) && |o.calls| == 1 && o.calls[0].flags.close
            && (if c.phase == Established then
                  && o.conn.Is(LastAck) && o.conn.len == 1 && o.conn.nrtx == 0 && o.sent == Some(FinAckOf(o.conn))
                  && o.calls[0].data == s.data && (o.calls[0].flags.newData <==> s.data != [])
                else
                  && o.sent == Some(AckOf(o.conn))
                  && (if c.phase == FinWait1 && !Acknowledges(c, s) then o.conn.phase == Closing && o.conn.len == 1
                      else o.conn.phase == TimeWait && o.conn.timer == 0 && o.conn.len == 0))
  {
    PlusPlus(c.rcvNxt, |s.data|, 1);
  }

  /** The acknowledgement of this side's FIN. */
  lemma FinIsAcknowledged(c: Conn, s: Segment, rto: u8, r: Reply)
    requires Inv(c) && r.Valid() && !s.rst && !OutOfOrder(c, s) && Acknowledges(c, s)
    ensures var o := OnSegment(c, s, rto, r);
            && (c.phase == FinWait1 && !s.fin ==> o.conn.Is(FinWait2) && o.conn.len == 0 && o.sent == None)
            && (c.phase == Closing ==> o.conn.Is(TimeWait) && o.conn.timer == 0 && o.sent == None)
            && (c.phase == LastAck ==> o.conn.phase == Closed && o.sent == None && o.calls == [Call(NONE.(close := true), [])])
  {
  }

  /** An idle pair of connections that have everything from each other. */
  ghost predicate Matched(c: Conn, d: Conn) {
    && Inv(c) && Inv(d) && Idle(c) && Idle(d) && !d.stopped && c.sndNxt == d.rcvNxt && d.sndNxt == c.rcvNxt
  }

  /** One end closes when it is polled: its FIN, the FIN of the other end and the last acknowledgement leave
      the one in TIME_WAIT and the other closed, both applications told. */
  lemma ReleaseCompletes(c: Conn, d: Conn, rto: u8, r: Reply, q: Reply, u: Reply, v: Reply)
    requires Matched(c, d) && r.Valid() && q.Valid() && u.Valid() && v.Valid()
    requires r.verdict.Close? && u.flow.Keep? && v.flow.Keep?
    ensures var o := OnTimer(c, r);
            && o.sent.Some?
            && var p := OnSegment(d, o.sent.value, rto, q);
               && p.conn.phase == LastAck && p.sent.Some? && p.calls == [Call(NONE.(close := true), [])]
               && var w := OnSegment(o.conn, p.sent.value, rto, u);
                  && w.conn.Is(TimeWait) && w.sent.Some? && w.calls == [Call(NONE.(close := true), [])]
                  && w.conn.rcvNxt == Plus(d.sndNxt, 1) && p.conn.rcvNxt == Plus(c.sndNxt, 1)
                  && var z := OnSegment(p.conn, w.sent.value, rto, v);
                     z.conn.Is(Closed) && z.sent == None && z.calls == [Call(NONE.(close := true), [])]
  {
    ReleaseOneWay(c, d, rto, r, q);
    var o := OnTimer(c, r);
    var p := OnSegment(d, o.sent.value, rto, q);
    ReleaseOtherWay(o.conn, p.conn, rto, u, v);
    hide OnTimer, OnSegment, Plus;
  }

  lemma ReleaseOneWay(c: Conn, d: Conn, rto: u8, r: Reply, q: Reply)
    requires Matched(c, d) && r.Valid() && q.Valid() && r.verdict.Close?
    ensures var o := OnTimer(c, r);
            && o.sent.Some? && o.conn.phase == FinWait1 && o.conn.sndNxt == c.sndNxt && o.conn.rcvNxt == c.rcvNxt && Inv(o.conn)
            && var p := OnSegment(d, o.sent.value, rto, q);
               && p.conn == d.To(LastAck).(len := 1, nrtx := 0, rcvNxt := Plus(c.sndNxt, 1)) && Inv(p.conn)
               && p.sent == Some(FinAckOf(p.conn)) && p.calls == [Call(NONE.(close := true), [])]
  {
  }

  lemma ReleaseOtherWay(c: Conn, d: Conn, rto: u8, u: Reply, v: Reply)
    requires Inv(c) && Inv(d) && c.phase == FinWait1 && d.Is(LastAck) && u.Valid() && v.Valid() && u.flow.Keep? && v.flow.Keep?
    requires d.rcvNxt == Plus(c.sndNxt, 1) && d.sndNxt == c.rcvNxt
    ensures var w := OnSegment(c, FinAckOf(d), rto, u);
            && w.conn.Is(TimeWait) && w.sent.Some? && w.calls == [Call(NONE.(close := true), [])] && w.conn.rcvNxt == Plus(d.sndNxt, 1)
            && var z := OnSegment(d, w.sent.value, rto, v);
               z.conn.Is(Closed) && z.sent == None && z.calls == [Call(NONE.(close := true), [])]
  {
  }
}
