/** Properties of single connections over whole runs: the state invariant, the edges of the
    RFC 793 state diagram, and closing in bounded time. */
module TcpLifecycle {
  import opened Bytes
  import opened SequenceNumbers
  import opened Tcp

  /** Invariant of every table entry. */
  ghost predicate Inv(c: Conn) {
    && Sized(c)
    && c.nrtx <= MAXRTX
    && (c.phase == SynSent || c.phase == SynRcvd ==> !c.stopped)
    && match c.phase
       case SynSent | SynRcvd => c.len == 1 && c.nrtx <= MAXSYNRTX
       case FinWait1 | Closing | LastAck => c.len == 1
       case FinWait2 | TimeWait => c.len == 0
       case Established => c.len <= c.initialMss
       case Closed => true
  }

  predicate Fits(o: Output) {
    o.sent.Some? ==> o.sent.value.PacketLength() <= IP_BUFFER
  }

  lemma AppSendKeepsInv(c: Conn, f: Flags, slen: u16, buffer: seq<u8>, calls: seq<Call>)
    requires Inv(c) && c.phase == Established && |buffer| == TCP_MSS
    ensures var o := AppSend(c, f, slen, buffer, calls); Inv(o.conn) && Fits(o)
  {
  }

  /** The invariant between the acknowledgement step and the state switch: an acknowledged
      segment leaves nothing outstanding. */
  ghost predicate MidInv(c: Conn, acked: bool) {
    if acked then
      && c.len == 0 && c.phase != FinWait2 && c.phase != TimeWait
      && Inv(c.(len := if c.phase == Established then 0 else 1))
    else Inv(c)
  }

  lemma EstablishedKeepsInv(c: Conn, acked: bool, s: Segment, r: Reply)
    requires MidInv(c, acked) && r.Valid() && c.phase == Established
    ensures var o := InEstablished(c, acked, s, r); Inv(o.conn) && Fits(o)
  {
    hide AppSend, AppRexmit;
    if !(s.fin && !c.stopped) {
      var newData := |s.data| > 0 && !c.stopped;
      var f := NONE.(acked := acked, newData := newData);
      var d := WindowMss(if newData then c.Received(|s.data|) else c, s.wnd);
      AppSendKeepsInv(AfterCall(d, r), FlagsAfter(f, r), r.slen, r.buffer, [Call(f, s.data)]);
    }
  }

  lemma OpeningKeepsInv(c: Conn, acked: bool, s: Segment, r: Reply)
    requires MidInv(c, acked) && r.Valid() && (c.phase == SynRcvd || c.phase == SynSent)
    ensures var o := InState(c, acked, s, r); Inv(o.conn) && Fits(o)
  {
    hide AppSend, AppRexmit;
    if acked && c.phase == SynRcvd {
      var f := NONE.(connected := true, newData := |s.data| > 0);
      AppSendKeepsInv(AfterCall(c.To(Established).Received(|s.data|), r), FlagsAfter(f, r), r.slen, r.buffer, [Call(f, s.data)]);
    } else if acked && s.SynAck() {
      var f := NONE.(connected := true, newData := true);
      AppSendKeepsInv(AfterCall(OfferedMss(s, c).To(Established).(rcvNxt := Plus(s.seqno, 1)), r), FlagsAfter(f, r),
                      r.slen, r.buffer, [Call(f, [])]);
    }
  }

  lemma ClosingKeepsInv(c: Conn, acked: bool, s: Segment, r: Reply)
    requires MidInv(c, acked) && r.Valid()
    requires c.phase != SynRcvd && c.phase != SynSent && c.phase != Established
    ensures var o := InState(c, acked, s, r); Inv(o.conn) && Fits(o)
  {
  }

  lemma SegmentKeepsInv(c: Conn, s: Segment, rto: u8, r: Reply)
    requires Inv(c) && r.Valid()
    ensures var o := OnSegment(c, s, rto, r); Inv(o.conn) && Fits(o)
  {
    if s.rst {
    } else if !OutOfOrder(c, s) {
      var d, acked := AfterAck(c, s, rto), Acknowledges(c, s);
      match c.phase
      case Established => EstablishedKeepsInv(d, acked, s, r);
      case SynRcvd | SynSent => OpeningKeepsInv(d, acked, s, r);
      case _ => ClosingKeepsInv(d, acked, s, r);
    }
  }

  lemma RetransmitKeepsInv(c: Conn, r: Reply)
    requires Inv(c) && r.Valid()
    ensures var o := Retransmit(c, r); Inv(o.conn) && Fits(o)
  {
  }

  lemma TimerKeepsInv(c: Conn, r: Reply)
    requires Inv(c) && r.Valid()
    ensures var o := OnTimer(c, r); Inv(o.conn) && Fits(o)
  {
    hide AppSend, AppRexmit, Retransmit;
    if c.phase == Established && c.len == 0 {
      var f := NONE.(poll := true);
      AppSendKeepsInv(AfterCall(c, r), FlagsAfter(f, r), r.slen, r.buffer, [Call(f, [])]);
    } else if c.len > 0 && c.timer == 0 && !GivesUp(c) && !c.Is(Closed) {
      RetransmitKeepsInv(c.(timer := Backoff(c.nrtx), nrtx := c.nrtx + 1), r);
    }
  }

  lemma PollKeepsInv(c: Conn, staleSlen: u16, r: Reply)
    requires Inv(c) && r.Valid()
    ensures var o := OnPoll(c, staleSlen, r); Inv(o.conn) && Fits(o)
  {
  }

  lemma OpenKeepsInv(c: Conn, lport: u16, rport: u16, ripaddr: u32, iss: u32, s: Segment)
    requires Inv(c)
    ensures Inv(Opened(c, lport, rport, ripaddr, iss))
    ensures Inv(Accepted(c, lport, rport, ripaddr, iss, s))
  {
  }

  /** Flow control: what the callback of a segment takes from the application fits the segment size and
      the window the segment advertises, except that a zero window counts as an open one. */
  lemma FlowControl(c: Conn, s: Segment, rto: u8, r: Reply)
    requires Inv(c) && r.Valid() && c.phase == Established && !s.rst && !OutOfOrder(c, s)
    ensures var o := OnSegment(c, s, rto, r);
            && |o.accepted| <= c.initialMss && |o.accepted| <= r.slen
            && (|o.accepted| <= s.wnd || (s.wnd == 0 && o.conn.mss == c.initialMss))
            && (o.accepted != [] ==> o.conn.len == |o.accepted| == Min(r.slen, o.conn.mss) && (Acknowledges(c, s) || c.len == 0))
  {
  }

  /** The sequence, acknowledgement and window fields speak for the connection as the call leaves it. */
  predicate Stamped(o: Output) {
    o.sent.Some? ==>
      var t := o.sent.value;
      && t.seqno == o.conn.sndNxt && t.ackno == o.conn.rcvNxt
      && t.wnd == (if o.conn.stopped then 0 else RECEIVE_WINDOW) && (t.mssOption == if t.syn then Some(TCP_MSS) else None)
  }

  lemma AppSendStamps(c: Conn, f: Flags, slen: u16, buffer: seq<u8>, calls: seq<Call>)
    requires Inv(c) && |buffer| == TCP_MSS
    ensures Stamped(AppSend(c, f, slen, buffer, calls))
  {
  }

  /** Everything sent is stamped, the answer to a refused SYN excepted, whose numbers are those of the
      segment it answers. */
  lemma SegmentStamps(c: Conn, s: Segment, rto: u8, r: Reply)
    requires Inv(c) && r.Valid()
    ensures var o := OnSegment(c, s, rto, r);
            Stamped(o) || (c.phase == SynSent && o.conn.Is(Closed) && o.sent == ResetReply(s))
  {
    hide AppSend, AppRexmit;
    if !s.rst && !OutOfOrder(c, s) {
      var d, acked := AfterAck(c, s, rto), Acknowledges(c, s);
      match c.phase
      case Established =>
        var newData := |s.data| > 0 && !d.stopped;
        var f := NONE.(acked := acked, newData := newData);
        AppSendStamps(AfterCall(WindowMss(if newData then d.Received(|s.data|) else d, s.wnd), r), FlagsAfter(f, r), r.slen, r.buffer, [Call(f, s.data)]);
      case SynRcvd =>
        var f := NONE.(connected := true, newData := |s.data| > 0);
        if acked { AppSendStamps(AfterCall(d.To(Established).Received(|s.data|), r), FlagsAfter(f, r), r.slen, r.buffer, [Call(f, s.data)]); }
      case SynSent =>
        var f := NONE.(connected := true, newData := true);
        if acked { AppSendStamps(AfterCall(OfferedMss(s, d).To(Established).(rcvNxt := Plus(s.seqno, 1)), r), FlagsAfter(f, r), r.slen, r.buffer, [Call(f, [])]); }
      case _ =>
    }
  }

  lemma TimerStamps(c: Conn, staleSlen: u16, r: Reply)
    requires Inv(c) && r.Valid()
    ensures Stamped(OnTimer(c, r)) && Stamped(OnPoll(c, staleSlen, r))
  {
    hide AppSend;
    if c.phase == Established && c.len == 0 {
      var f := NONE.(poll := true);
      AppSendStamps(AfterCall(c, r), FlagsAfter(f, r), r.slen, r.buffer, [Call(f, [])]);
      AppSendStamps(AfterCall(c, r), FlagsAfter(f, r), if r.slen == 0 then staleSlen else r.slen, r.buffer, [Call(f, [])]);
    }
  }

  /** uip_poll_conn: a silent application still "sends" when an earlier call left uip_slen set. */
  lemma PollRequestUsesStaleLength(c: Conn, staleSlen: u16, r: Reply)
    requires Inv(c) && r.Valid() && c.phase == Established && c.len == 0
    requires r.slen == 0 && r.verdict.Continue?
    ensures OnPoll(c, staleSlen, r).accepted == [] <==> staleSlen == 0 || c.mss == 0
  {
    assert |OnPoll(c, staleSlen, r).accepted| == Min(staleSlen, c.mss);
  }

  /** What a callback tells the application is true of the segment that caused it. */
  lemma CallbackMeaning(c: Conn, s: Segment, rto: u8, r: Reply)
    requires Inv(c) && r.Valid() && !c.Is(Closed)
    ensures var calls := OnSegment(c, s, rto, r).calls;
      && |calls| <= 1
      && (s.rst ==> calls == [Call(NONE.(abort := true), [])])
      && (calls != [] && !s.rst ==>
            var f := calls[0].flags;
            && !OutOfOrder(c, s)
            && (f.acked <==> c.phase == Established && Acknowledges(c, s))
            && (f.connected <==> Acknowledges(c, s) && (c.phase == SynRcvd || (c.phase == SynSent && s.SynAck())))
            && (f.abort <==> c.phase == SynSent && !f.connected)
            && (f.newData && calls[0].data != [] ==> calls[0].data == s.data && s.seqno == c.rcvNxt && !c.stopped))
      && (!s.rst && !OutOfOrder(c, s) && c.phase == Established && Acknowledges(c, s) ==> calls != [])
      && (!s.rst && !OutOfOrder(c, s) && c.phase == Established && s.data != [] && !c.stopped && !s.fin ==>
            calls != [] && calls[0].flags.newData && calls[0].data == s.data)
  {
    hide AppSend, AppRexmit;
  }

  // ---- The RFC 793 state diagram ----

  datatype Cause = ActiveOpen | PassiveOpen | RcvAckOfSyn | RcvAckOfFin | RcvFin | AppClose | Teardown | TwoMsl

  /** Figure 6 of section 3.2, with LISTEN folded into CLOSED and CLOSE-WAIT into LAST-ACK.
      The waiting timeout also ends FIN-WAIT-2, which the figure does not have. */
  predicate Edge(p: Phase, k: Cause, q: Phase) {
    match k
    case ActiveOpen => p == Closed && q == SynSent
    case PassiveOpen => p == Closed && q == SynRcvd
    case RcvAckOfSyn => (p == SynRcvd || p == SynSent) && q == Established
    case RcvAckOfFin => (p == FinWait1 && q == FinWait2) || (p == Closing && q == TimeWait) || (p == LastAck && q == Closed)
    case RcvFin => (p == Established && q == LastAck) || (p == FinWait1 && q == Closing) || (p == FinWait2 && q == TimeWait)
    case AppClose => p == Established && q == FinWait1
    case Teardown => q == Closed
    case TwoMsl => (p == TimeWait || p == FinWait2) && q == Closed
  }

  /** The causes a segment can have, each with the evidence it needs. */
  predicate SegmentCause(c: Conn, s: Segment, r: Reply, k: Cause) {
    match k
    case RcvAckOfSyn => !s.rst && Acknowledges(c, s) && (c.phase == SynSent ==> s.SynAck())
    case RcvAckOfFin => !s.rst && Acknowledges(c, s)
    case RcvFin => !s.rst && s.fin && s.seqno == c.rcvNxt && (c.phase == Established ==> !c.stopped)
    case AppClose => r.verdict.Close?
    case Teardown => s.rst || r.verdict.Abort? || (c.phase == SynSent && !(Acknowledges(c, s) && s.SynAck()))
    case _ => false
  }

  predicate SegmentEdge(c: Conn, s: Segment, r: Reply, p: Phase, q: Phase) {
    exists k :: Edge(p, k, q) && SegmentCause(c, s, r, k)
  }

  lemma SegmentFollowsRfc793(c: Conn, s: Segment, rto: u8, r: Reply)
    requires Inv(c) && r.Valid()
    ensures var q := OnSegment(c, s, rto, r).conn.phase;
            || q == c.phase
            || SegmentEdge(c, s, r, c.phase, q)
            || exists m :: SegmentEdge(c, s, r, c.phase, m) && SegmentEdge(c, s, r, m, q)
  {
    hide AppSend, AppRexmit, WindowMss, OfferedMss;
    var p, q := c.phase, OnSegment(c, s, rto, r).conn.phase;
    if s.rst {
      assert Edge(p, Teardown, q);
    } else if !OutOfOrder(c, s) && q != p {
      var acked := Acknowledges(c, s);
      match p
      case SynRcvd =>
        SynEdges(c, s, rto, r);
      case SynSent =>
        if acked && s.SynAck() {
          SynEdges(c, s, rto, r);
        } else {
          assert Edge(p, Teardown, q) && SegmentCause(c, s, r, Teardown);
        }
      case Established =>
        EstablishedEdges(c, s, rto, r);
      case FinWait1 =>
        if s.fin && acked {
          assert Edge(p, RcvAckOfFin, FinWait2) && SegmentCause(c, s, r, RcvAckOfFin);
          assert Edge(FinWait2, RcvFin, q) && SegmentCause(c, s, r, RcvFin);
          assert SegmentEdge(c, s, r, p, FinWait2) && SegmentEdge(c, s, r, FinWait2, q);
        } else if s.fin { assert Edge(p, RcvFin, q) && SegmentCause(c, s, r, RcvFin); }
        else { assert Edge(p, RcvAckOfFin, q) && SegmentCause(c, s, r, RcvAckOfFin); }
      case FinWait2 => assert Edge(p, RcvFin, q);
      case Closing | LastAck => assert Edge(p, RcvAckOfFin, q);
      case TimeWait | Closed =>
    }
  }

  lemma EstablishedEdges(c: Conn, s: Segment, rto: u8, r: Reply)
    requires Inv(c) && r.Valid() && c.phase == Established && !s.rst && !OutOfOrder(c, s)
    ensures var q := OnSegment(c, s, rto, r).conn.phase; q == c.phase || SegmentEdge(c, s, r, c.phase, q)
  {
    var p, q := c.phase, OnSegment(c, s, rto, r).conn.phase;
    if q != p {
      if s.fin && !c.stopped { assert Edge(p, RcvFin, q) && SegmentCause(c, s, r, RcvFin); }
      else if r.verdict.Abort? { assert Edge(p, Teardown, q) && SegmentCause(c, s, r, Teardown); }
      else { assert Edge(p, AppClose, q) && SegmentCause(c, s, r, AppClose); }
    }
  }

  lemma SynEdges(c: Conn, s: Segment, rto: u8, r: Reply)
    requires Inv(c) && r.Valid() && !s.rst && !OutOfOrder(c, s)
    requires c.phase == SynRcvd || (c.phase == SynSent && Acknowledges(c, s) && s.SynAck())
    ensures var q := OnSegment(c, s, rto, r).conn.phase;
            || q == c.phase
            || SegmentEdge(c, s, r, c.phase, q)
            || exists m :: SegmentEdge(c, s, r, c.phase, m) && SegmentEdge(c, s, r, m, q)
  {
    var p, q := c.phase, OnSegment(c, s, rto, r).conn.phase;
    if q != p {
      assert Edge(p, RcvAckOfSyn, Established) && SegmentCause(c, s, r, RcvAckOfSyn);
      assert SegmentEdge(c, s, r, p, Established);
      if q == FinWait1 {
        assert Edge(Established, AppClose, q) && SegmentCause(c, s, r, AppClose);
        assert SegmentEdge(c, s, r, Established, q);
      } else if q == Closed {
        assert Edge(Established, Teardown, q) && SegmentCause(c, s, r, Teardown);
        assert SegmentEdge(c, s, r, Established, q);
      }
    }
  }

  predicate TimerCause(c: Conn, r: Reply, k: Cause) {
    match k
    case AppClose => r.verdict.Close? && c.len == 0
    case Teardown => (r.verdict.Abort? && c.len == 0) || (c.len > 0 && c.timer == 0 && GivesUp(c))
    case TwoMsl => c.timer + 1 == TIME_WAIT_TIMEOUT
    case _ => false
  }

  lemma TimerFollowsRfc793(c: Conn, r: Reply)
    requires Inv(c) && r.Valid()
    ensures var q := OnTimer(c, r).conn.phase;
            q == c.phase || exists k :: Edge(c.phase, k, q) && TimerCause(c, r, k)
  {
    var p, q := c.phase, OnTimer(c, r).conn.phase;
    if q != p {
      if p == TimeWait || p == FinWait2 { assert Edge(p, TwoMsl, q); }
      else if c.len > 0 { assert Edge(p, Teardown, q); }
      else if r.verdict.Abort? { assert Edge(p, Teardown, q); }
      else { assert Edge(p, AppClose, q); }
    }
  }

  /** A poll request moves a connection only at the request of the application. */
  lemma PollFollowsRfc793(c: Conn, staleSlen: u16, r: Reply)
    requires Inv(c) && r.Valid()
    ensures var q := OnPoll(c, staleSlen, r).conn.phase;
            q == c.phase || (Idle(c) && ((Edge(c.phase, AppClose, q) && r.verdict.Close?) || (Edge(c.phase, Teardown, q) && r.verdict.Abort?)))
  {
  }

  /** An open takes the entry, closed or freed early from its wait, along an edge of the diagram. It
      keeps nothing of the entry's last user but the receive number of an active open, and the segment
      size of a passive one whose SYN has no MSS option. */
  lemma OpensFollowRfc793(c: Conn, d: Conn, lport: u16, rport: u16, ripaddr: u32, iss: u32, s: Segment)
    ensures Edge(Closed, ActiveOpen, Opened(c, lport, rport, ripaddr, iss).phase)
    ensures Edge(Closed, PassiveOpen, Accepted(c, lport, rport, ripaddr, iss, s).phase)
    ensures Opened(c, lport, rport, ripaddr, iss) == Opened(d, lport, rport, ripaddr, iss) <==> c.rcvNxt == d.rcvNxt
    ensures Accepted(c, lport, rport, ripaddr, iss, s) == Accepted(d, lport, rport, ripaddr, iss, s)
       <==> s.mssOption.Some? || (c.mss == d.mss && c.initialMss == d.initialMss)
  {
  }

  // ---- Closing in bounded time ----

  /** A run of the timer alone under the given application replies. */
  ghost predicate Legal(c: Conn, rs: seq<Reply>)
    decreases |rs|
  {
    Sized(c) && (rs != [] ==> rs[0].Valid() && Legal(OnTimer(c, rs[0]).conn, rs[1..]))
  }

  ghost function Run(c: Conn, rs: seq<Reply>): Conn
    requires Legal(c, rs)
    decreases |rs|
  {
    if rs == [] then c else Run(OnTimer(c, rs[0]).conn, rs[1..])
  }

  predicate Final(f: Flags) { f.close || f.abort || f.timedOut }

  /** The application does not call uip_stop from a callback that reports the end of the connection. */
  predicate Polite(o: Output, r: Reply) { r.flow.Stop? ==> o.calls == [] || !Final(o.calls[0].flags) }

  ghost predicate PoliteRun(c: Conn, rs: seq<Reply>)
    requires Legal(c, rs)
    decreases |rs|
  {
    rs != [] ==> Polite(OnTimer(c, rs[0]), rs[0]) && PoliteRun(OnTimer(c, rs[0]).conn, rs[1..])
  }

  /** An established connection with nothing outstanding has no reason to end. */
  predicate Idle(c: Conn) { c.phase == Established && c.len == 0 }

  /** The timer compares the waiting states and CLOSED with the bare state, so it passes over such
      an entry when the UIP_STOPPED bit is set. */
  predicate Stuck(c: Conn) {
    c.stopped && c.len == 0 && (c.phase == TimeWait || c.phase == FinWait2 || c.phase == Closed)
  }

  function Limit(c: Conn): nat {
    if c.phase == SynSent || c.phase == SynRcvd then MAXSYNRTX else MAXRTX
  }

  /** Ticks spent on retransmissions `from` up to the limit. */
  function RetransmissionTicks(from: nat, limit: nat): nat
    requires from <= limit <= 8
    decreases limit - from
  {
    if from == limit then 0 else Backoff(from) + 1 + RetransmissionTicks(from + 1, limit)
  }

  function TicksLeft(c: Conn): nat
    requires c.nrtx <= Limit(c)
  {
    if c.Is(Closed) then 0
    else if c.phase == TimeWait || c.phase == FinWait2 then
      (if c.timer < TIME_WAIT_TIMEOUT then 0 else 256) + TIME_WAIT_TIMEOUT - c.timer
    else c.timer + 1 + RetransmissionTicks(c.nrtx, Limit(c))
  }

  lemma TickCountsDown(c: Conn, r: Reply)
    requires Inv(c) && r.Valid() && !Idle(c) && !Stuck(c)
    requires Polite(OnTimer(c, r), r)
    ensures var d := OnTimer(c, r).conn;
            && Inv(d) && !Idle(d) && !Stuck(d)
            && TicksLeft(d) == (if c.Is(Closed) then 0 else TicksLeft(c) - 1)
  {
    TimerKeepsInv(c, r);
  }

  lemma TicksLeftBounded(c: Conn)
    requires Inv(c)
    ensures TicksLeft(c) <= 501
    ensures TicksLeft(c) == 0 <==> c.Is(Closed)
  {
    var l := Limit(c);
    assert RetransmissionTicks(4, l) <= 196 && RetransmissionTicks(2, l) <= 234 && RetransmissionTicks(0, l) <= 245 by {
      assert RetransmissionTicks(6, 8) == 98;
      assert RetransmissionTicks(4, l) == if l == 8 then 196 else 49;
      assert RetransmissionTicks(2, l) == 38 + RetransmissionTicks(4, l);
      assert RetransmissionTicks(0, l) == 11 + RetransmissionTicks(2, l);
    }
    RetransmissionMonotone(0, c.nrtx, l);
  }

  lemma {:induction false} RetransmissionMonotone(k: nat, n: nat, limit: nat)
    requires k <= n <= limit <= 8
    ensures RetransmissionTicks(n, limit) <= RetransmissionTicks(k, limit)
    decreases n
  {
    if k < n { RetransmissionMonotone(k, n - 1, limit); }
  }

  /** Without incoming segments an entry that is neither idle nor stuck closes after exactly
      TicksLeft timer calls, and stays closed, under every polite application. */
  lemma {:induction false} ClosesExactlyOnTime(c: Conn, rs: seq<Reply>)
    requires Inv(c) && !Idle(c) && !Stuck(c) && Legal(c, rs) && PoliteRun(c, rs)
    ensures Inv(Run(c, rs))
    ensures Run(c, rs).Is(Closed) <==> TicksLeft(c) <= |rs|
    decreases |rs|
  {
    TicksLeftBounded(c);
    if rs != [] {
      TickCountsDown(c, rs[0]);
      ClosesExactlyOnTime(OnTimer(c, rs[0]).conn, rs[1..]);
    }
  }

  const SILENT: Reply := Reply(Keep, Continue, 0, Repeat(0, TCP_MSS))

  lemma {:induction false} IdleStaysOpen(c: Conn, n: nat)
    requires Inv(c) && Idle(c)
    ensures Legal(c, Repeat(SILENT, n)) && PoliteRun(c, Repeat(SILENT, n)) && Idle(Run(c, Repeat(SILENT, n)))
    decreases n
  {
    var rs := Repeat(SILENT, n);
    if n > 0 {
      TimerKeepsInv(c, SILENT);
      IdleStaysOpen(OnTimer(c, SILENT).conn, n - 1);
      assert rs[1..] == Repeat(SILENT, n - 1);
    }
  }

  /** A stuck entry never changes under the timer, and its application is never called again. */
  lemma {:induction false} StuckForever(c: Conn, rs: seq<Reply>)
    requires Sized(c) && Stuck(c) && forall k :: 0 <= k < |rs| ==> rs[k].Valid()
    ensures Legal(c, rs) && PoliteRun(c, rs) && Run(c, rs) == c
    ensures forall k :: 0 <= k < |rs| ==> OnTimer(c, rs[k]) == Quiet(c)
    decreases |rs|
  {
    if rs != [] { StuckForever(c, rs[1..]); }
  }

  ghost predicate AlwaysCloses(c: Conn, bound: nat) {
    forall rs :: Legal(c, rs) && PoliteRun(c, rs) && bound <= |rs| ==> Run(c, rs).Is(Closed)
  }

  /** Closing is bounded, under every polite application, exactly for the entries that are neither
      idle nor stuck. */
  lemma BoundedClosing(c: Conn)
    requires Inv(c)
    ensures AlwaysCloses(c, 501) <==> !Idle(c) && !Stuck(c)
  {
    if Idle(c) {
      IdleStaysOpen(c, 501);
    } else if Stuck(c) {
      StuckForever(c, Repeat(SILENT, 501));
    } else {
      forall rs | Legal(c, rs) && PoliteRun(c, rs) && 501 <= |rs| ensures Run(c, rs).Is(Closed) {
        TicksLeftBounded(c);
        ClosesExactlyOnTime(c, rs);
      }
    }
  }

  // ---- Closing under every application ----

  const STOPPING: Reply := Reply(Stop, Continue, 0, Repeat(0, TCP_MSS))

  /** Stopping in the time-out callback makes the entry live again: it times out over and over. */
  lemma {:induction false} StopOutlivesTimeOut(c: Conn, n: nat)
    requires Inv(c) && c.len > 0 && !c.Is(Closed)
    ensures Legal(c, Repeat(STOPPING, n)) && !Run(c, Repeat(STOPPING, n)).Is(Closed)
    decreases n
  {
    var rs := Repeat(STOPPING, n);
    if n > 0 {
      TimerKeepsInv(c, STOPPING);
      StopOutlivesTimeOut(OnTimer(c, STOPPING).conn, n - 1);
      assert rs[1..] == Repeat(STOPPING, n - 1);
    }
  }

  /** While an entry waits its application is not called, so any reply is polite. */
  lemma {:induction false} WaitingIsPolite(c: Conn, rs: seq<Reply>)
    requires Inv(c) && !c.stopped && (c.phase == TimeWait || c.phase == FinWait2 || c.Is(Closed)) && Legal(c, rs)
    ensures PoliteRun(c, rs)
    decreases |rs|
  {
    if rs != [] { WaitingIsPolite(OnTimer(c, rs[0]).conn, rs[1..]); }
  }

  /** Under every application whatever, closing is bounded exactly for the entries that are closed or
      wait, the stuck ones excepted: uip_stop can keep alive everything with data outstanding. */
  lemma ClosingWhateverTheApplication(c: Conn)
    requires Inv(c)
    ensures (forall rs :: Legal(c, rs) && 501 <= |rs| ==> Run(c, rs).Is(Closed))
       <==> c.Is(Closed) || c.Is(TimeWait) || c.Is(FinWait2)
  {
    if c.Is(Closed) || c.Is(TimeWait) || c.Is(FinWait2) {
      forall rs | Legal(c, rs) && 501 <= |rs| ensures Run(c, rs).Is(Closed) {
        WaitingIsPolite(c, rs);
        BoundedClosing(c);
      }
    } else if Idle(c) {
      IdleStaysOpen(c, 501);
    } else if Stuck(c) {
      StuckForever(c, Repeat(SILENT, 501));
    } else {
      StopOutlivesTimeOut(c, 501);
    }
  }

  // ---- How an entry gets stuck ----

  /** uip_stop in the callback that reports the peer's FIN to a connection that has closed its side. */
  lemma StopOnFinGetsStuck(c: Conn, s: Segment, rto: u8, r: Reply)
    requires Inv(c) && r.Valid() && r.flow.Stop? && !s.rst && s.fin && s.seqno == c.rcvNxt
    requires c.phase == FinWait2 || (c.phase == FinWait1 && Acknowledges(c, s))
    ensures var d := OnSegment(c, s, rto, r).conn; d.phase == TimeWait && Stuck(d)
  {
  }

  /** A segment makes an entry stuck exactly when the application calls uip_stop as it reports a reset
      with nothing outstanding, the peer's FIN or the acknowledgement of its own, or when the segment
      acknowledges what a closed entry that was stopped before has outstanding. */
  lemma SegmentGetsStuck(c: Conn, s: Segment, rto: u8, r: Reply)
    requires Inv(c) && r.Valid() && !c.Is(Closed) && !Stuck(c)
    ensures Stuck(OnSegment(c, s, rto, r).conn) <==>
              if s.rst then r.flow.Stop? && c.len == 0
              else !OutOfOrder(c, s) && match c.phase
                case FinWait1 => r.flow.Stop? && s.fin && Acknowledges(c, s)
                case FinWait2 => r.flow.Stop? && s.fin
                case LastAck => r.flow.Stop? && Acknowledges(c, s)
                case Closed => Acknowledges(c, s)
                case _ => false
  {
    hide AppSend, AppRexmit;
    if !s.rst && (c.phase == Established || c.phase == SynSent || c.phase == SynRcvd) { OpenNotStuck(c, s, rto, r); }
  }

  lemma OpenNotStuck(c: Conn, s: Segment, rto: u8, r: Reply)
    requires Inv(c) && r.Valid() && (c.phase == Established || c.phase == SynSent || c.phase == SynRcvd) && !s.rst
    ensures !Stuck(OnSegment(c, s, rto, r).conn)
  {
  }

  /** Only the peer frees a stuck entry: by a reset, or by the FIN that FIN_WAIT_2 waits for. */
  lemma SegmentFreesStuck(c: Conn, s: Segment, rto: u8, r: Reply)
    requires Inv(c) && r.Valid() && Stuck(c)
    ensures !Stuck(OnSegment(c, s, rto, r).conn) <==>
              !r.flow.Stop? && (s.rst || (c.phase == FinWait2 && s.fin && s.seqno == c.rcvNxt))
  {
    hide AppSend, AppRexmit;
  }

  /** The timer never makes an entry stuck. */
  lemma TimerGetsNothingStuck(c: Conn, r: Reply)
    requires Inv(c) && r.Valid() && !Stuck(c)
    ensures !Stuck(OnTimer(c, r).conn)
  {
  }
}
