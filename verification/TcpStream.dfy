/** Two uIP endpoints over a network that may lose, duplicate, delay and reorder segments.
    Sequence numbers live modulo 2^32; the history fields of a side count positions without
    wrapping, the SYN at position 0 and the first data byte at position 1. */
module TcpStream {
  import opened Bytes
  import opened SequenceNumbers
  import opened Tcp
  import opened TcpLifecycle

  /** A connection and its history.
      `una`: position of sndNxt; `rpos`: position of rcvNxt, meaningful once `synced`;
      `sent`: bytes taken over from the application; `got`: bytes handed up as new data;
      `finPos`: position of the FIN once one was sent. */
  datatype Side = Side(c: Conn, una: nat, rpos: nat, synced: bool,
                       sent: seq<u8>, got: seq<u8>, finPos: Option<nat>)

  /** A segment in the network with the positions it was sent for. */
  datatype Flight = Flight(seg: Segment, pos: nat, ackPos: nat)

  /** Side `x` sends the flights `out`; the network never forgets one. */
  datatype Net = Net(a: Side, b: Side, isnA: u32, isnB: u32, fromA: set<Flight>, fromB: set<Flight>)

  datatype Event =
    | Deliver(atA: bool, flight: Flight, rto: u8, reply: Reply)
    | Tick(atA: bool, reply: Reply)
    | Poll(atA: bool, staleSlen: u16, reply: Reply)

  function HandedUp(o: Output): seq<u8> {
    if o.calls != [] && o.calls[0].flags.newData then o.calls[0].data else []
  }

  /** The bytes in flight, which the application must offer again. */
  function Outstanding(x: Side): seq<u8>
    requires x.c.len <= |x.sent|
  {
    x.sent[|x.sent| - x.c.len..]
  }

  /** What a step tells about the history: whether the outstanding data was acknowledged, how far
      the receive position moved, and the sequence number of an accepted SYN|ACK. */
  datatype Progress = Progress(acked: bool, advance: nat, synAck: bool)

  function SegmentProgress(c: Conn, s: Segment): Progress {
    if s.rst || OutOfOrder(c, s) then Progress(false, 0, false)
    else
      var acked := Acknowledges(c, s);
      var advance :=
        match c.phase
        case SynRcvd => if acked then |s.data| else 0
        case Established =>
          if s.fin && !c.stopped then (if c.len > 0 && !acked then 0 else 1 + |s.data|)
          else if c.stopped then 0 else |s.data|
        case FinWait1 | FinWait2 => |s.data| + (if s.fin then 1 else 0)
        case _ => 0;
      Progress(acked, advance, c.phase == SynSent && acked && s.SynAck())
  }

  const NO_PROGRESS := Progress(false, 0, false)

  function Extend(x: Side, p: Progress, o: Output): Side {
    var una := if p.acked then x.una + x.c.len else x.una;
    Side(o.conn, una,
         if p.synAck then 1 else x.rpos + p.advance,
         x.synced || p.synAck,
         x.sent + o.accepted,
         x.got + HandedUp(o),
         if (o.conn.phase == FinWait1 || o.conn.phase == LastAck) && o.conn.phase != x.c.phase then Some(una) else x.finPos)
  }

  function Launch(x: Side, o: Output): set<Flight> {
    match o.sent case None => {} case Some(s) => {Flight(s, x.una, x.rpos)}
  }

  /** A segment for a closed connection finds no table entry. */
  function Unmatched(c: Conn, s: Segment): Output { Output(c, ResetReply(s), [], []) }

  function DeliverTo(x: Side, s: Segment, rto: u8, r: Reply): Output
    requires r.Valid() && Sized(x.c)
  {
    if x.c.Is(Closed) then Unmatched(x.c, s) else OnSegment(x.c, s, rto, r)
  }

  function DeliverProgress(x: Side, s: Segment): Progress {
    if x.c.Is(Closed) then NO_PROGRESS else SegmentProgress(x.c, s)
  }

  /** The application resends the bytes in flight when it sends while data is outstanding. */
  ghost predicate Resends(c: Conn, acked: bool, r: Reply, again: seq<u8>) {
    && r.Valid() && Sized(c)
    && (c.phase == Established && c.len > 0 && !acked && r.slen > 0 ==> r.buffer[..c.len] == again)
  }

  // ---- What one step does, without the case distinction over the states ----

  predicate Opening(p: Phase) { p == SynSent || p == SynRcvd }
  predicate FinSent(p: Phase) { p == FinWait1 || p == Closing || p == LastAck }

  /** `data` is the incoming payload, `again` the bytes in flight. */
  ghost predicate Effect(c: Conn, p: Progress, o: Output, s: Option<Segment>, again: seq<u8>) {
    var d := o.conn;
    && d.sndNxt == Plus(c.sndNxt, if p.acked then c.len else 0)
    && (!p.synAck ==> d.rcvNxt == Plus(c.rcvNxt, p.advance))
    && (p.synAck ==> p.acked && s.Some? && s.value.SynAck() && d.rcvNxt == Plus(s.value.seqno, 1) && p.advance == 0 && c.phase == SynSent)
    && (p.acked ==> s.Some? && Acknowledges(c, s.value) && !s.value.rst)
    && (p.advance > 0 ==> s.Some? && !s.value.rst && s.value.seqno == c.rcvNxt && p.advance <= |s.value.data| + (if s.value.fin then 1 else 0) && c.phase != SynSent && c.phase != Closed)
    && (HandedUp(o) != [] ==> s.Some? && HandedUp(o) == s.value.data && (c.phase == Established || c.phase == SynRcvd) && p.advance >= |HandedUp(o)|)
    && (d.phase == Established ==> p.advance == |HandedUp(o)|)
    && (d.phase == LastAck && c.phase != LastAck ==> s.Some? && !s.value.rst && s.value.fin)
    && EffectOnPhase(c, p, o)
    && (o.sent.Some? && d.phase == SynSent && !o.sent.value.OnlySyn() ==> s.Some? && !s.value.rst && OutOfOrder(c, s.value))
    && (o.sent.Some? && !o.sent.value.rst ==> EffectOnSent(o, o.sent.value, again))
  }

  ghost predicate EffectOnPhase(c: Conn, p: Progress, o: Output) {
    var d := o.conn;
    && (o.accepted != [] ==> d.phase == Established && (p.acked || c.len == 0))
    && (d.phase == Established ==>
          && (c.phase == Established || (Opening(c.phase) && p.acked))
          && (c.phase == SynSent ==> p.synAck)
          && d.len == |o.accepted| + (if p.acked then 0 else c.len))
    && (Opening(d.phase) ==> d.phase == c.phase && !p.acked && p.advance == 0)
    && (FinSent(d.phase) || d.phase == FinWait2 || d.phase == TimeWait ==> !(c.phase == Closed))
    && (FinSent(d.phase) ==>
          if FinSent(c.phase) then !p.acked && (d.phase != c.phase ==> d.phase == Closing)
          else d.phase != Closing && (c.phase == Established || (Opening(c.phase) && p.acked && (c.phase == SynSent ==> p.synAck))))
    && (d.phase == FinWait2 || d.phase == TimeWait ==> FinSent(c.phase) || c.phase == FinWait2 || c.phase == TimeWait)
    && (d.phase == Closed ==> d.len <= (if p.acked then 0 else c.len))
    && (d.phase == LastAck && c.phase != LastAck ==> c.phase == Established && (p.acked || c.len == 0) && p.advance == |HandedUp(o)| + 1)
  }

  ghost predicate EffectOnSent(o: Output, t: Segment, again: seq<u8>) {
    var d := o.conn;
    && t.seqno == d.sndNxt
    && (t.ack ==> t.ackno == d.rcvNxt)
    && (!t.ack ==> d.phase == SynSent && t.OnlySyn())
    && (t.data != [] ==> !t.fin && !t.syn && d.phase == Established && t.data == (if o.accepted != [] then o.accepted else again) && d.len == |t.data|)
    && (t.fin ==> !t.syn && t.data == [] && FinSent(d.phase))
    && (t.syn ==> Opening(d.phase) && (t.ack ==> t.SynAck() && d.phase == SynRcvd))
  }

  lemma SendEffect(c: Conn, f: Flags, slen: u16, buffer: seq<u8>, calls: seq<Call>, again: seq<u8>)
    requires Inv(c) && c.phase == Established && |buffer| == TCP_MSS
    requires c.len > 0 && !f.acked && slen > 0 ==> buffer[..c.len] == again
    requires f.acked ==> c.len == 0
    ensures
      var o := AppSend(c, f, slen, buffer, calls);
      var d := o.conn;
      && d.sndNxt == c.sndNxt && d.rcvNxt == c.rcvNxt && o.calls == calls
      && (d.phase == Established || d.phase == FinWait1 || d.phase == Closed)
      && (o.accepted != [] ==> d.phase == Established && c.len == 0)
      && (d.phase == Established ==> d.len == |o.accepted| + c.len)
      && (d.phase == Closed ==> d.len == c.len)
      && (o.sent.Some? && !o.sent.value.rst ==> o.sent.value.ack && EffectOnSent(o, o.sent.value, again))
  {
  }

  lemma PassiveCloseEffect(c: Conn, s: Segment, rto: u8, r: Reply, again: seq<u8>)
    requires Inv(c) && c.phase == Established && !s.rst && !OutOfOrder(c, s) && s.fin && !c.stopped && r.Valid()
    ensures Effect(c, SegmentProgress(c, s), OnSegment(c, s, rto, r), Some(s), again)
  {
  }

  lemma QuietEffect(c: Conn, s: Segment, rto: u8, r: Reply, again: seq<u8>)
    requires Inv(c) && c.phase == Established && !s.rst && !OutOfOrder(c, s) && !(s.fin && !c.stopped) && r.Valid()
    requires !Acknowledges(c, s) && (s.data == [] || c.stopped)
    ensures Effect(c, SegmentProgress(c, s), OnSegment(c, s, rto, r), Some(s), again)
  {
  }

  lemma OpenCallEffect(c: Conn, s: Segment, e: Conn, acked: bool, newData: bool, r: Reply, again: seq<u8>)
    requires Inv(c) && c.phase == Established && !s.rst && Resends(c, acked, r, again)
    requires acked ==> Acknowledges(c, s)
    requires newData ==> s.data != [] && s.seqno == c.rcvNxt
    requires Inv(e) && e.phase == Established
    requires e.sndNxt == Plus(c.sndNxt, if acked then c.len else 0)
    requires e.rcvNxt == Plus(c.rcvNxt, if newData then |s.data| else 0)
    requires e.len == if acked then 0 else c.len
    ensures Effect(c, Progress(acked, if newData then |s.data| else 0, false),
                   CallAndSend(e, NONE.(acked := acked, newData := newData), s.data, r), Some(s), again)
  {
    hide AppSend, AppRexmit, Plus;
    var f := NONE.(acked := acked, newData := newData);
    SendEffect(AfterCall(e, r), FlagsAfter(f, r), r.slen, r.buffer, [Call(f, s.data)], again);
  }

  lemma OpenEffect(c: Conn, s: Segment, rto: u8, r: Reply, again: seq<u8>)
    requires Inv(c) && c.phase == Established && !s.rst && !OutOfOrder(c, s) && !(s.fin && !c.stopped)
    requires Acknowledges(c, s) || (s.data != [] && !c.stopped)
    requires Resends(c, Acknowledges(c, s), r, again)
    ensures Effect(c, SegmentProgress(c, s), OnSegment(c, s, rto, r), Some(s), again)
  {
    var acked, d := Acknowledges(c, s), AfterAck(c, s, rto);
    var newData := |s.data| > 0 && !d.stopped;
    var e := WindowMss(if newData then d.Received(|s.data|) else d, s.wnd);
    OpenCallEffect(c, s, e, acked, newData, r, again);
  }

  lemma OpeningEffect(c: Conn, s: Segment, rto: u8, r: Reply, again: seq<u8>)
    requires Inv(c) && Opening(c.phase) && !s.rst && !OutOfOrder(c, s)
    requires Resends(c, Acknowledges(c, s), r, again)
    ensures Effect(c, SegmentProgress(c, s), OnSegment(c, s, rto, r), Some(s), again)
  {
    hide AppSend, AppRexmit;
    var acked, d := Acknowledges(c, s), AfterAck(c, s, rto);
    if acked && c.phase == SynRcvd {
      var f := NONE.(connected := true, newData := |s.data| > 0);
      SendEffect(AfterCall(d.To(Established).Received(|s.data|), r), FlagsAfter(f, r), r.slen, r.buffer, [Call(f, s.data)], again);
    } else if acked && s.SynAck() {
      var f := NONE.(connected := true, newData := true);
      SendEffect(AfterCall(OfferedMss(s, d).To(Established).(rcvNxt := Plus(s.seqno, 1)), r), FlagsAfter(f, r),
                 r.slen, r.buffer, [Call(f, [])], again);
    }
  }

  lemma FinWait1Effect(c: Conn, s: Segment, rto: u8, r: Reply, again: seq<u8>)
    requires Inv(c) && c.phase == FinWait1 && !s.rst && !OutOfOrder(c, s) && r.Valid()
    ensures Effect(c, SegmentProgress(c, s), OnSegment(c, s, rto, r), Some(s), again)
  {
    PlusPlus(c.rcvNxt, |s.data|, 1);
  }

  lemma FinWait2Effect(c: Conn, s: Segment, rto: u8, r: Reply, again: seq<u8>)
    requires Inv(c) && c.phase == FinWait2 && !s.rst && !OutOfOrder(c, s) && r.Valid()
    ensures Effect(c, SegmentProgress(c, s), OnSegment(c, s, rto, r), Some(s), again)
  {
    PlusPlus(c.rcvNxt, |s.data|, 1);
  }

  lemma LateEffect(c: Conn, s: Segment, rto: u8, r: Reply, again: seq<u8>)
    requires Inv(c) && (c.phase == LastAck || c.phase == TimeWait || c.phase == Closing || c.phase == Closed) && !s.rst && !OutOfOrder(c, s) && r.Valid()
    ensures Effect(c, SegmentProgress(c, s), OnSegment(c, s, rto, r), Some(s), again)
  {
  }

  lemma RejectedEffect(c: Conn, s: Segment, rto: u8, r: Reply, again: seq<u8>)
    requires Inv(c) && (s.rst || OutOfOrder(c, s)) && r.Valid()
    ensures Effect(c, SegmentProgress(c, s), OnSegment(c, s, rto, r), Some(s), again)
  {
  }

  lemma SegmentEffect(c: Conn, s: Segment, rto: u8, r: Reply, again: seq<u8>)
    requires Inv(c)
    requires Resends(c, SegmentProgress(c, s).acked, r, again)
    ensures Effect(c, SegmentProgress(c, s), OnSegment(c, s, rto, r), Some(s), again)
  {
    if s.rst || OutOfOrder(c, s) { RejectedEffect(c, s, rto, r, again); }
    else if c.phase == Established {
      if s.fin && !c.stopped { PassiveCloseEffect(c, s, rto, r, again); }
      else if !Acknowledges(c, s) && (s.data == [] || c.stopped) { QuietEffect(c, s, rto, r, again); }
      else { OpenEffect(c, s, rto, r, again); }
    }
    else if Opening(c.phase) { OpeningEffect(c, s, rto, r, again); }
    else if c.phase == FinWait1 { FinWait1Effect(c, s, rto, r, again); }
    else if c.phase == FinWait2 { FinWait2Effect(c, s, rto, r, again); }
    else { LateEffect(c, s, rto, r, again); }
  }

  lemma TimerPollEffect(c: Conn, r: Reply, again: seq<u8>)
    requires Inv(c) && r.Valid() && c.phase == Established && c.len == 0
    ensures Effect(c, NO_PROGRESS, OnTimer(c, r), None, again)
  {
    var f := NONE.(poll := true);
    SendEffect(AfterCall(c, r), FlagsAfter(f, r), r.slen, r.buffer, [Call(f, [])], again);
  }

  lemma RetransmitEffect(c: Conn, r: Reply, again: seq<u8>)
    requires Inv(c) && c.len > 0
    requires Resends(c, false, r, again)
    ensures Effect(c, NO_PROGRESS, Retransmit(c, r), None, again)
  {
  }

  lemma TimedOutEffect(c: Conn, r: Reply, again: seq<u8>)
    requires Inv(c) && r.Valid() && !c.Is(Closed) && c.len > 0 && c.timer == 0 && GivesUp(c)
    ensures Effect(c, NO_PROGRESS, OnTimer(c, r), None, again)
  {
  }

  lemma CountingEffect(c: Conn, r: Reply, again: seq<u8>)
    requires Inv(c) && r.Valid() && (c.len > 0 ==> c.timer > 0) && !(c.phase == Established && c.len == 0)
    ensures Effect(c, NO_PROGRESS, OnTimer(c, r), None, again)
  {
    hide AppSend, AppRexmit, CallAndSend, Retransmit, EffectOnSent;
  }

  lemma TimerEffect(c: Conn, r: Reply, again: seq<u8>)
    requires Inv(c)
    requires Resends(c, false, r, again)
    ensures Effect(c, NO_PROGRESS, OnTimer(c, r), None, again)
  {
    hide AppSend, AppRexmit, CallAndSend, Retransmit, EffectOnSent;
    if c.phase == Established && c.len == 0 { TimerPollEffect(c, r, again); }
    else if c.len == 0 || c.timer > 0 { CountingEffect(c, r, again); }
    else if c.Is(Closed) { assert OnTimer(c, r) == Quiet(c); }
    else if GivesUp(c) { TimedOutEffect(c, r, again); }
    else {
      var d := c.(timer := Backoff(c.nrtx), nrtx := c.nrtx + 1);
      assert OnTimer(c, r) == Retransmit(d, r);
      RetransmitEffect(d, r, again);
    }
  }

  lemma PollEffect(c: Conn, staleSlen: u16, r: Reply, again: seq<u8>)
    requires Inv(c) && r.Valid()
    ensures Effect(c, NO_PROGRESS, OnPoll(c, staleSlen, r), None, again)
  {
    if c.phase == Established && c.len == 0 {
      TimerPollEffect(c, if r.slen == 0 then r.(slen := staleSlen) else r, again);
    }
  }

  // ---- The invariant of the network ----

  /** Positions stay below 2^32. */
  predicate Room(x: Side) { |x.sent| + 4 <= U32_MOD }

  ghost predicate FlightOk(f: Flight, x: Side, isn: u32) {
    var s := f.seg;
    && s.seqno == Plus(isn, f.pos)
    && f.pos <= 2 + |x.sent|
    && (s.data != [] ==>
          && !s.fin && !s.syn
          && 1 <= f.pos && f.pos - 1 + |s.data| <= |x.sent|
          && x.sent[f.pos - 1..f.pos - 1 + |s.data|] == s.data)
    && (s.fin ==> !s.syn && s.data == [] && x.finPos == Some(f.pos))
    && (s.syn ==> f.pos == 0 && (s.ack ==> s.SynAck()))
  }

  /** An entry that uip_stop kept alive before it ever synchronised acknowledges a number of its own. */
  ghost predicate AckOk(f: Flight, x: Side, isnPeer: u32) {
    f.seg.ack ==> if x.synced then f.ackPos <= x.rpos && f.seg.ackno == Plus(isnPeer, f.ackPos) else x.c.phase == Closed
  }

  ghost predicate SenderInv(x: Side, isn: u32) {
    && Inv(x.c)
    && x.c.sndNxt == Plus(isn, x.una)
    && x.una + x.c.len <= 2 + |x.sent|
    && (x.finPos.Some? ==> 1 <= x.finPos.value <= 1 + |x.sent|)
    && match x.c.phase
       case SynSent | SynRcvd => x.una == 0 && x.sent == [] && x.finPos == None
       case Established => 1 <= x.una && x.una + x.c.len == 1 + |x.sent| && x.finPos == None
       case FinWait1 | Closing | LastAck => x.finPos == Some(x.una)
       case _ => true
  }

  ghost predicate FlightsOk(fl: set<Flight>, x: Side, isn: u32, isnPeer: u32) {
    forall f :: f in fl && !f.seg.rst ==> FlightOk(f, x, isn) && AckOk(f, x, isnPeer)
  }

  /** What the receiver `y` knows of the stream of `x`. */
  ghost predicate ReceiverInv(x: Side, y: Side, isn: u32) {
    && (y.synced ==> y.c.rcvNxt == Plus(isn, y.rpos) && 1 <= y.rpos <= 2 + |x.sent|)
    && y.got <= x.sent
    && (y.c.phase == SynSent ==> !y.synced && y.got == [])
    && (y.c.phase == SynRcvd ==> y.rpos == 1 && y.got == [])
    && (y.c.phase == Established ==> y.rpos == 1 + |y.got|)
    && (y.c.phase != SynSent && y.c.phase != Closed ==> y.synced)
    && ((Opening(x.c.phase) || x.c.phase == Established) && y.synced ==> x.una <= y.rpos <= x.una + x.c.len)
  }

  /** While `x` waits for the SYN|ACK the peer has nothing but that to say. */
  ghost predicate HandshakeInv(x: Side, y: Side, fy: set<Flight>) {
    x.c.phase == SynSent ==>
      && (y.c.phase == SynRcvd || y.c.phase == Closed)
      && forall f :: f in fy && !f.seg.rst ==> Tame(f)
  }

  predicate Tame(f: Flight) { f.seg.data == [] && !f.seg.fin && (f.seg.syn ==> f.seg.SynAck()) }

  ghost predicate BareSyns(x: Side, fx: set<Flight>) {
    x.c.phase == SynSent ==> forall f :: f in fx ==> !f.seg.rst && f.seg.OnlySyn()
  }

  ghost predicate HalfInv(x: Side, y: Side, isnX: u32, isnY: u32, fx: set<Flight>, fy: set<Flight>) {
    && SenderInv(x, isnX) && FlightsOk(fx, x, isnX, isnY)
    && ReceiverInv(x, y, isnX)
    && HandshakeInv(x, y, fy) && BareSyns(x, fx)
  }

  ghost predicate NetInv(n: Net) {
    && HalfInv(n.a, n.b, n.isnA, n.isnB, n.fromA, n.fromB)
    && HalfInv(n.b, n.a, n.isnB, n.isnA, n.fromB, n.fromA)
  }

  /** A step of side `x`, caused by a flight of the peer or by the timer. */
  ghost predicate SideStep(x: Side, p: Progress, o: Output, f: Option<Flight>, fy: set<Flight>) {
    && (f.Some? ==> f.value in fy)
    && (x.c.phase == Established ==> x.c.len <= |x.sent|)
    && Effect(x.c, p, o, if f.Some? then Some(f.value.seg) else None,
              if x.c.phase == Established then Outstanding(x) else [])
    && Inv(o.conn)
  }

  lemma AckPosition(x: Side, y: Side, isnX: u32, isnY: u32, f: Flight)
    requires SenderInv(x, isnX) && ReceiverInv(x, y, isnX) && AckOk(f, y, isnX)
    requires Room(x) && Acknowledges(x.c, f.seg)
    requires (x.c.phase == Established || Opening(x.c.phase)) && y.synced
    ensures f.ackPos == x.una + x.c.len == y.rpos
  {
    PlusPlus(isnX, x.una, x.c.len);
    SamePosition(isnX, f.ackPos, x.una + x.c.len);
  }

  lemma ReceivePosition(x: Side, y: Side, isnY: u32, f: Flight)
    requires ReceiverInv(y, x, isnY) && FlightOk(f, y, isnY) && x.synced
    requires Room(y) && f.seg.seqno == x.c.rcvNxt
    ensures f.pos == x.rpos
  {
    SamePosition(isnY, f.pos, x.rpos);
  }

  lemma SenderInvStep(x: Side, isn: u32, p: Progress, o: Output)
    requires SenderInv(x, isn) && Inv(o.conn) && EffectOnPhase(x.c, p, o)
    requires o.conn.sndNxt == Plus(x.c.sndNxt, if p.acked then x.c.len else 0)
    requires p.acked ==> x.c.len > 0
    ensures SenderInv(Extend(x, p, o), isn)
  {
    PlusPlus(isn, x.una, if p.acked then x.c.len else 0);
  }

  /** The peer `y` keeps up with what `x` sends. */
  lemma SenderSideOfReceiverStep(x: Side, y: Side, isnX: u32, p: Progress, o: Output)
    requires SenderInv(x, isnX) && ReceiverInv(x, y, isnX) && SenderInv(Extend(x, p, o), isnX)
    requires EffectOnPhase(x.c, p, o)
    requires p.acked && (x.c.phase == Established || Opening(x.c.phase)) && y.synced ==> y.rpos == x.una + x.c.len
    ensures ReceiverInv(Extend(x, p, o), y, isnX)
  {
    assert x.sent <= x.sent + o.accepted;
  }

  /** Side `x` moves forward in the stream of `y`. */
  lemma AdvanceStep(x: Side, y: Side, isnY: u32, p: Progress, o: Output, f: Flight)
    requires ReceiverInv(y, x, isnY) && SenderInv(y, isnY) && FlightOk(f, y, isnY) && Room(y)
    requires Effect(x.c, p, o, Some(f.seg), if x.c.phase == Established && x.c.len <= |x.sent| then Outstanding(x) else [])
    requires p.advance > 0 && !p.synAck
    ensures ReceiverInv(y, Extend(x, p, o), isnY)
  {
    hide Plus, Inv, EffectOnSent, Outstanding, OutOfOrder, Acknowledges;
    ReceivePosition(x, y, isnY, f);
    PlusPlus(isnY, x.rpos, p.advance);
  }

  lemma SynAckStep(x: Side, y: Side, isnY: u32, p: Progress, o: Output, f: Flight)
    requires ReceiverInv(y, x, isnY) && SenderInv(y, isnY) && FlightOk(f, y, isnY)
    requires y.c.phase == SynRcvd || y.c.phase == Closed
    requires Effect(x.c, p, o, Some(f.seg), [])
    requires p.synAck && x.c.phase == SynSent
    ensures ReceiverInv(y, Extend(x, p, o), isnY)
  {
    PlusPlus(isnY, 0, 1);
  }

  lemma ReceiverStep(x: Side, y: Side, isnY: u32, isnX: u32, fx: set<Flight>, fy: set<Flight>, p: Progress, o: Output, f: Option<Flight>)
    requires HalfInv(y, x, isnY, isnX, fy, fx) && HandshakeInv(x, y, fy)
    requires SideStep(x, p, o, f, fy) && Room(y)
    ensures ReceiverInv(y, Extend(x, p, o), isnY)
  {
    if p.synAck { SynAckStep(x, y, isnY, p, o, f.value); }
    else if p.advance > 0 { AdvanceStep(x, y, isnY, p, o, f.value); }
    else { PlusPlus(isnY, x.rpos, 0); }
  }

  /** Flights already in the network stay right. */
  lemma OldFlights(x: Side, isnX: u32, isnY: u32, fx: set<Flight>, p: Progress, o: Output)
    requires FlightsOk(fx, x, isnX, isnY) && SenderInv(x, isnX)
    requires EffectOnPhase(x.c, p, o)
    requires p.synAck ==> x.c.phase == SynSent && !x.synced
    ensures FlightsOk(fx, Extend(x, p, o), isnX, isnY)
  {
    var x' := Extend(x, p, o);
    forall f | f in fx && !f.seg.rst ensures FlightOk(f, x', isnX) && AckOk(f, x', isnY) {
      assert FlightOk(f, x, isnX) && AckOk(f, x, isnY);
      var d := |f.seg.data|;
      if d > 0 { assert x'.sent[f.pos - 1..f.pos - 1 + d] == x.sent[f.pos - 1..f.pos - 1 + d]; }
    }
  }

  /** New data carries the bytes at its position: those just accepted, or those in flight. */
  lemma NewData(x: Side, isnX: u32, p: Progress, o: Output)
    requires SenderInv(x, isnX) && SenderInv(Extend(x, p, o), isnX) && (x.c.phase == Established ==> x.c.len <= |x.sent|)
    requires EffectOnPhase(x.c, p, o) && o.sent.Some? && o.sent.value.data != []
    requires EffectOnSent(o, o.sent.value, if x.c.phase == Established then Outstanding(x) else [])
    ensures var x', data := Extend(x, p, o), o.sent.value.data;
            && 1 <= x'.una && x'.una - 1 + |data| <= |x'.sent|
            && x'.sent[x'.una - 1..x'.una - 1 + |data|] == data
  {
    hide Inv, Plus;
    var x', data := Extend(x, p, o), o.sent.value.data;
    var q := x'.una - 1;
    if o.accepted != [] {
      assert x'.sent[q..q + |data|] == o.accepted;
    } else {
      assert x'.sent == x.sent;
      assert x'.sent[q..q + |data|] == Outstanding(x);
    }
  }

  /** While opening, only a bare SYN is sent: what the peer has sent so far is in order. */
  lemma OpeningSendsSyn(x: Side, y: Side, p: Progress, o: Output, f: Option<Flight>, fy: set<Flight>)
    requires HandshakeInv(x, y, fy) && SideStep(x, p, o, f, fy)
    requires o.sent.Some? && o.conn.phase == SynSent && (f.Some? ==> f.value in fy)
    ensures o.sent.value.OnlySyn()
  {
    hide Inv, Plus, EffectOnSent;
    if f.Some? && !f.value.seg.rst { assert Tame(f.value); }
  }

  lemma NewFlightOk(x: Side, isn: u32, o: Output, again: seq<u8>)
    requires SenderInv(x, isn) && x.c == o.conn && o.sent.Some? && EffectOnSent(o, o.sent.value, again)
    requires var data := o.sent.value.data;
             data != [] ==> 1 <= x.una && x.una - 1 + |data| <= |x.sent| && x.sent[x.una - 1..x.una - 1 + |data|] == data
    ensures FlightOk(Flight(o.sent.value, x.una, x.rpos), x, isn)
  {
    hide Inv, Plus;
  }

  lemma NewAckOk(x: Side, y: Side, isnY: u32, o: Output, again: seq<u8>)
    requires ReceiverInv(y, x, isnY) && x.c == o.conn && o.sent.Some? && EffectOnSent(o, o.sent.value, again)
    requires x.c.phase == SynSent ==> !o.sent.value.ack
    ensures AckOk(Flight(o.sent.value, x.una, x.rpos), x, isnY)
  {
    hide Inv, Plus;
  }

  lemma NewFlight(x: Side, y: Side, isnX: u32, isnY: u32, p: Progress, o: Output, f: Option<Flight>, fy: set<Flight>)
    requires SenderInv(x, isnX) && HandshakeInv(x, y, fy) && SideStep(x, p, o, f, fy)
    requires SenderInv(Extend(x, p, o), isnX) && ReceiverInv(y, Extend(x, p, o), isnY)
    requires o.sent.Some? && !o.sent.value.rst
    ensures var x' := Extend(x, p, o);
            var g := Flight(o.sent.value, x'.una, x'.rpos);
            FlightOk(g, x', isnX) && AckOk(g, x', isnY)
  {
    hide HandshakeInv, Inv, Plus, SenderInv, ReceiverInv, EffectOnPhase, EffectOnSent, FlightOk, AckOk, Outstanding;
    var again := if x.c.phase == Established then Outstanding(x) else [];
    if o.conn.phase == SynSent { OpeningSendsSyn(x, y, p, o, f, fy); }
    if o.sent.value.data != [] { NewData(x, isnX, p, o); }
    NewFlightOk(Extend(x, p, o), isnX, o, again);
    NewAckOk(Extend(x, p, o), y, isnY, o, again);
  }

  lemma HandshakeStep(x: Side, y: Side, isnX: u32, isnY: u32, fx: set<Flight>, fy: set<Flight>, p: Progress, o: Output, f: Option<Flight>)
    requires HalfInv(x, y, isnX, isnY, fx, fy) && HalfInv(y, x, isnY, isnX, fy, fx)
    requires SideStep(x, p, o, f, fy)
    ensures var x' := Extend(x, p, o);
            && HandshakeInv(x', y, fy)
            && BareSyns(x', fx + Launch(x', o))
            && HandshakeInv(y, x', fx + Launch(x', o))
  {
  }

  /** One step of side `x` keeps both halves of the invariant. */
  lemma StepKeepsHalves(x: Side, y: Side, isnX: u32, isnY: u32, fx: set<Flight>, fy: set<Flight>, p: Progress, o: Output, f: Option<Flight>)
    requires HalfInv(x, y, isnX, isnY, fx, fy) && HalfInv(y, x, isnY, isnX, fy, fx)
    requires SideStep(x, p, o, f, fy) && Room(x) && Room(y)
    ensures var x' := Extend(x, p, o);
            var fx' := fx + Launch(x', o);
            && HalfInv(x', y, isnX, isnY, fx', fy)
            && HalfInv(y, x', isnY, isnX, fy, fx')
  {
    var x' := Extend(x, p, o);
    SenderInvStep(x, isnX, p, o);
    if p.acked && (x.c.phase == Established || Opening(x.c.phase)) && y.synced { AckPosition(x, y, isnX, isnY, f.value); }
    SenderSideOfReceiverStep(x, y, isnX, p, o);
    ReceiverStep(x, y, isnY, isnX, fx, fy, p, o, f);
    OldFlights(x, isnX, isnY, fx, p, o);
    if o.sent.Some? && !o.sent.value.rst { NewFlight(x, y, isnX, isnY, p, o, f, fy); }
    HandshakeStep(x, y, isnX, isnY, fx, fy, p, o, f);
  }

  // ---- Runs of the network ----

  function Acting(n: Net, atA: bool): Side { if atA then n.a else n.b }
  function Inbox(n: Net, atA: bool): set<Flight> { if atA then n.fromB else n.fromA }

  /** The application resends what is in flight, and no poll request takes over a length that was
      left behind (see PollRequestUsesStaleLength). Everything else is up to the application. */
  ghost predicate Enabled(n: Net, e: Event) {
    var x := Acting(n, e.atA);
    && e.reply.Valid() && Sized(x.c) && (x.c.phase == Established ==> x.c.len <= |x.sent|)
    && var again := if x.c.phase == Established then Outstanding(x) else [];
       match e
       case Deliver(_, f, rto, r) =>
         && f in Inbox(n, e.atA)
         && Resends(x.c, DeliverProgress(x, f.seg).acked, r, again)
       case Tick(_, r) => Resends(x.c, false, r, again)
       case Poll(_, staleSlen, r) => staleSlen == 0 || r.slen > 0 || !r.verdict.Continue?
  }

  function Result(n: Net, e: Event): (Progress, Output)
    requires e.reply.Valid() && Sized(Acting(n, e.atA).c)
  {
    var x := Acting(n, e.atA);
    match e
    case Deliver(_, f, rto, r) => (DeliverProgress(x, f.seg), DeliverTo(x, f.seg, rto, r))
    case Tick(_, r) => (NO_PROGRESS, OnTimer(x.c, r))
    case Poll(_, staleSlen, r) => (NO_PROGRESS, OnPoll(x.c, staleSlen, r))
  }

  function Next(n: Net, e: Event): Net
    requires e.reply.Valid() && Sized(Acting(n, e.atA).c)
  {
    var (p, o) := Result(n, e);
    var x' := Extend(Acting(n, e.atA), p, o);
    if e.atA then n.(a := x', fromA := n.fromA + Launch(x', o))
    else n.(b := x', fromB := n.fromB + Launch(x', o))
  }

  lemma DeliverIsSideStep(n: Net, e: Event)
    requires NetInv(n) && Enabled(n, e) && e.Deliver?
    ensures SideStep(Acting(n, e.atA), Result(n, e).0, Result(n, e).1, Some(e.flight), Inbox(n, e.atA))
  {
    var x := Acting(n, e.atA);
    if !x.c.Is(Closed) {
      SegmentEffect(x.c, e.flight.seg, e.rto, e.reply, if x.c.phase == Established then Outstanding(x) else []);
      SegmentKeepsInv(x.c, e.flight.seg, e.rto, e.reply);
    }
  }

  lemma TickIsSideStep(n: Net, e: Event)
    requires NetInv(n) && Enabled(n, e) && e.Tick?
    ensures SideStep(Acting(n, e.atA), Result(n, e).0, Result(n, e).1, None, Inbox(n, e.atA))
  {
    var x := Acting(n, e.atA);
    TimerEffect(x.c, e.reply, if x.c.phase == Established then Outstanding(x) else []);
    TimerKeepsInv(x.c, e.reply);
  }

  lemma PollIsSideStep(n: Net, e: Event)
    requires NetInv(n) && Enabled(n, e) && e.Poll?
    ensures SideStep(Acting(n, e.atA), Result(n, e).0, Result(n, e).1, None, Inbox(n, e.atA))
  {
    var x := Acting(n, e.atA);
    PollEffect(x.c, e.staleSlen, e.reply, if x.c.phase == Established then Outstanding(x) else []);
    PollKeepsInv(x.c, e.staleSlen, e.reply);
  }

  function Delivered(e: Event): Option<Flight> { if e.Deliver? then Some(e.flight) else None }

  lemma EventIsSideStep(n: Net, e: Event)
    requires NetInv(n) && Enabled(n, e)
    ensures SideStep(Acting(n, e.atA), Result(n, e).0, Result(n, e).1, Delivered(e), Inbox(n, e.atA))
  {
    match e
    case Deliver(_, _, _, _) => DeliverIsSideStep(n, e);
    case Tick(_, _) => TickIsSideStep(n, e);
    case Poll(_, _, _) => PollIsSideStep(n, e);
  }

  lemma StepKeepsNetInv(n: Net, e: Event)
    requires NetInv(n) && Enabled(n, e) && Room(n.a) && Room(n.b)
    ensures NetInv(Next(n, e))
  {
    var (p, o) := Result(n, e);
    EventIsSideStep(n, e);
    if e.atA {
      StepKeepsHalves(n.a, n.b, n.isnA, n.isnB, n.fromA, n.fromB, p, o, Delivered(e));
    } else {
      StepKeepsHalves(n.b, n.a, n.isnB, n.isnA, n.fromB, n.fromA, p, o, Delivered(e));
    }
  }

  /** The start of a run: `a` has opened actively and sent its SYN, `b` has just taken a table
      entry for it and answered with SYN|ACK. Ports, timers and sequence numbers are arbitrary. */
  ghost predicate Init(n: Net) {
    && Inv(n.a.c) && Inv(n.b.c)
    && n.a.c.phase == SynSent && n.b.c.phase == SynRcvd
    && n.a == Side(n.a.c, 0, 0, false, [], [], None)
    && n.b == Side(n.b.c, 0, 1, true, [], [], None)
    && n.a.c.sndNxt == n.isnA && n.b.c.sndNxt == n.isnB
    && n.b.c.rcvNxt == Plus(n.isnA, 1)
    && n.fromA == {Flight(SynOf(n.a.c), 0, 0)}
    && n.fromB == {Flight(SynAckOf(n.b.c), 0, 1)}
  }

  /** The states of a run under the given events, none of which exhausts the position space. */
  ghost predicate Reachable(n: Net, es: seq<Event>)
    decreases |es|
  {
    if es == [] then Init(n)
    else
      exists m :: Reachable(m, es[..|es| - 1]) && Room(m.a) && Room(m.b) && Enabled(m, es[|es| - 1]) && n == Next(m, es[|es| - 1])
  }

  lemma {:induction false} ReachableInv(n: Net, es: seq<Event>)
    requires Reachable(n, es)
    ensures NetInv(n)
    decreases |es|
  {
    if es != [] {
      var m :| Reachable(m, es[..|es| - 1]) && Room(m.a) && Room(m.b) && Enabled(m, es[|es| - 1]) && n == Next(m, es[|es| - 1]);
      ReachableInv(m, es[..|es| - 1]);
      StepKeepsNetInv(m, es[|es| - 1]);
    } else {
      assert Plus(n.isnA, 0) == n.isnA && Plus(n.isnB, 0) == n.isnB;
    }
  }

  /** Stream safety: what an application was handed is a prefix of what the other one submitted,
      in every state of every run, through loss, duplication, reordering, resets and closing. */
  lemma StreamSafety(n: Net, es: seq<Event>)
    requires Reachable(n, es)
    ensures n.b.got <= n.a.sent && n.a.got <= n.b.sent
  {
    ReachableInv(n, es);
  }

  /** The distance from `x` to `y` in sequence space. */
  function Distance(x: u32, y: u32): nat { (y - x) % U32_MOD }

  /** Synchronisation: while `x` is open, the peer's receive position lies between the first
      unacknowledged byte and the end of the data in flight; an open peer was handed exactly the
      bytes up to there. */
  ghost predicate InStep(x: Side, y: Side) {
    var d := Distance(x.c.sndNxt, y.c.rcvNxt);
    && d <= x.c.len <= |x.sent|
    && (y.c.phase == Established ==> y.got == x.sent[..|x.sent| - x.c.len + d])
  }

  lemma Synchronised(x: Side, y: Side, isnX: u32)
    requires SenderInv(x, isnX) && ReceiverInv(x, y, isnX) && x.c.phase == Established && y.synced
    ensures InStep(x, y)
  {
    var d := y.rpos - x.una;
    PlusPlus(isnX, x.una, d);
    assert Plus(x.c.sndNxt, d) == y.c.rcvNxt;
    Wrapped(x.c.sndNxt, d);
  }

  lemma Wrapped(x: u32, d: u16)
    ensures Distance(x, Plus(x, d)) == d
  {
  }

  lemma StreamSynchronised(n: Net, es: seq<Event>)
    requires Reachable(n, es)
    ensures n.a.c.phase == Established && n.b.synced ==> InStep(n.a, n.b)
    ensures n.b.c.phase == Established && n.a.synced ==> InStep(n.b, n.a)
  {
    ReachableInv(n, es);
    if n.a.c.phase == Established && n.b.synced { Synchronised(n.a, n.b, n.isnA); }
    if n.b.c.phase == Established && n.a.synced { Synchronised(n.b, n.a, n.isnB); }
  }

  lemma AcceptedFin(x: Side, y: Side, isnX: u32, isnY: u32, fx: set<Flight>, fy: set<Flight>, p: Progress, o: Output, f: Flight)
    requires HalfInv(y, x, isnY, isnX, fy, fx) && SideStep(x, p, o, Some(f), fy) && Room(y)
    requires x.c.phase == Established && o.conn.phase == LastAck
    ensures y.finPos == Some(1 + |x.got + HandedUp(o)|)
    ensures x.got + HandedUp(o) <= y.sent
  {
    assert FlightOk(f, y, isnY);
    ReceivePosition(x, y, isnY, f);
  }

  /** End of stream: when an open side takes the FIN of the other, it has been handed everything the
      other submitted if and only if that FIN was sent behind the last submitted byte. */
  lemma EndOfStream(n: Net, es: seq<Event>, e: Event)
    requires Reachable(n, es) && Room(n.a) && Room(n.b) && Enabled(n, e) && e.Deliver?
    requires Acting(n, e.atA).c.phase == Established && Acting(Next(n, e), e.atA).c.phase == LastAck
    ensures var x, y := Acting(Next(n, e), e.atA), Acting(n, !e.atA);
            y.finPos.Some? && (x.got == y.sent <==> y.finPos.value == 1 + |y.sent|)
  {
    ReachableInv(n, es);
    DeliverIsSideStep(n, e);
    var (p, o) := Result(n, e);
    if e.atA { AcceptedFin(n.a, n.b, n.isnA, n.isnB, n.fromA, n.fromB, p, o, e.flight); }
    else { AcceptedFin(n.b, n.a, n.isnB, n.isnA, n.fromB, n.fromA, p, o, e.flight); }
  }

  lemma ClosingStep(x: Side, isn: u32, p: Progress, o: Output, f: Option<Flight>, fy: set<Flight>)
    requires SenderInv(x, isn) && SideStep(x, p, o, f, fy)
    requires x.c.phase == Established && FinSent(Extend(x, p, o).c.phase)
    ensures Extend(x, p, o).sent == x.sent
    ensures Extend(x, p, o).finPos == Some(1 + |x.sent|) <==> x.c.len == 0 || p.acked
  {
  }

  lemma OnlyActingChanges(n: Net, e: Event)
    requires e.reply.Valid() && Sized(Acting(n, e.atA).c)
    ensures var (p, o) := Result(n, e); Acting(Next(n, e), e.atA) == Extend(Acting(n, e.atA), p, o)
    ensures Acting(Next(n, e), !e.atA) == Acting(n, !e.atA)
  {
    hide Result, Extend, Launch;
  }

  /** The FIN goes behind the last submitted byte exactly when nothing is outstanding as the
      connection closes; otherwise it takes the place of the outstanding data. */
  lemma FinPosition(n: Net, es: seq<Event>, e: Event)
    requires Reachable(n, es) && Room(n.a) && Room(n.b) && Enabled(n, e)
    requires Acting(n, e.atA).c.phase == Established && FinSent(Acting(Next(n, e), e.atA).c.phase)
    ensures var x, x' := Acting(n, e.atA), Acting(Next(n, e), e.atA);
            && x'.sent == x.sent
            && (x'.finPos == Some(1 + |x.sent|) <==> x.c.len == 0 || Result(n, e).0.acked)
  {
    hide Result, Next, Extend, SideStep, Resends, SenderInv, ReceiverInv, FlightsOk, HandshakeInv, BareSyns;
    ReachableInv(n, es);
    EventIsSideStep(n, e);
    OnlyActingChanges(n, e);
    var (p, o) := Result(n, e);
    ClosingStep(Acting(n, e.atA), if e.atA then n.isnA else n.isnB, p, o, Delivered(e), Inbox(n, e.atA));
  }

  // ---- Runs: a submitted byte can arrive, and can be lost ----

  const ACTIVE := Conn(SynSent, false, 1, 2, 3, 0, 100, 1, TCP_MSS, TCP_MSS, RTO, 1, 0)
  const PASSIVE := Conn(SynRcvd, false, 2, 1, 4, 101, 300, 1, TCP_MSS, TCP_MSS, RTO, RTO, 0)

  function Handshake(): Net {
    Net(Side(ACTIVE, 0, 0, false, [], [], None), Side(PASSIVE, 0, 1, true, [], [], None), 100, 300,
        {Flight(SynOf(ACTIVE), 0, 0)}, {Flight(SynAckOf(PASSIVE), 0, 1)})
  }

  function OneByte(x: u8): Reply { Reply(Keep, Continue, 1, [x] + Repeat(0, TCP_MSS - 1)) }

  lemma HandshakeIsInit()
    ensures Reachable(Handshake(), [])
  {
    assert Init(Handshake());
    hide Init;
  }

  const OPEN_A := Conn(Established, false, 1, 2, 3, 301, 101, 0, TCP_MSS, TCP_MSS, RTO, RTO, 0)
  const OPEN_B := Conn(Established, false, 2, 1, 4, 101, 301, 0, TCP_MSS, TCP_MSS, RTO, RTO, 0)
  const CLOSING: Reply := Reply(Keep, Verdict.Close, 0, Repeat(0, TCP_MSS))

  function DataOf(c: Conn, x: u8): Segment { Build(c.(len := 1), false, false, false, true, true, [x]) }

  lemma OneMore(n: Net, es: seq<Event>, e: Event)
    requires Reachable(n, es) && Room(n.a) && Room(n.b) && Enabled(n, e)
    ensures Reachable(Next(n, e), es + [e])
  {
    hide Enabled, Next, Room;
    assert (es + [e])[..|es + [e]| - 1] == es;
  }

  /** The handshake with silent applications, step by step. */
  lemma TakeSynAck()
    ensures OnSegment(ACTIVE, SynAckOf(PASSIVE), RTO, SILENT)
         == Output(OPEN_A, Some(AckOf(OPEN_A)), [Call(NONE.(connected := true, newData := true), [])], [])
    ensures SegmentProgress(ACTIVE, SynAckOf(PASSIVE)) == Progress(true, 0, true)
  {
  }

  lemma TakeAck()
    ensures OnSegment(PASSIVE, AckOf(OPEN_A), RTO, SILENT) == Output(OPEN_B, None, [Call(NONE.(connected := true), [])], [])
    ensures SegmentProgress(PASSIVE, AckOf(OPEN_A)) == Progress(true, 0, false)
  {
  }

  /** Both sides open without data. */
  lemma BothOpen() returns (n: Net, es: seq<Event>)
    ensures Reachable(n, es)
    ensures n.a == Side(OPEN_A, 1, 1, true, [], [], None) && n.b == Side(OPEN_B, 1, 1, true, [], [], None)
  {
    hide OnSegment, SegmentProgress, OnTimer, OnPoll, Reachable, SynAckOf, AckOf;
    HandshakeIsInit();
    TakeSynAck();
    TakeAck();
    var m := Handshake();
    var e := Deliver(true, Flight(SynAckOf(PASSIVE), 0, 1), RTO, SILENT);
    OneMore(m, [], e);
    var m' := Next(m, e);
    var e' := Deliver(false, Flight(AckOf(OPEN_A), 1, 1), RTO, SILENT);
    OneMore(m', [] + [e], e');
    n, es := Next(m', e'), [] + [e] + [e'];
  }

  lemma PollSends(c: Conn, x: u8)
    requires c.phase == Established && !c.stopped && c.len == c.nrtx == 0 && c.mss == c.initialMss == TCP_MSS
    ensures OnTimer(c, OneByte(x)) == Output(c.(len := 1), Some(DataOf(c, x)), [Call(NONE.(poll := true), [])], [x])
  {
    assert OneByte(x).buffer[..1] == [x];
  }

  lemma ValidReplies(x: u8)
    ensures OneByte(x).Valid()
  {
  }

  lemma TakeByte(x: u8)
    ensures HandedUp(OnSegment(OPEN_B, DataOf(OPEN_A, x), RTO, SILENT)) == [x]
  {
  }

  /** The safety properties are not empty: a submitted byte can arrive. */
  lemma ByteArrives(x: u8) returns (n: Net, es: seq<Event>)
    ensures Reachable(n, es) && n.a.sent == n.b.got == [x]
  {
    hide OnTimer, OnSegment, OnPoll, SegmentProgress, Reachable, DataOf, OneByte;
    ValidReplies(x);
    var m, es0 := BothOpen();
    var e, e' := Tick(true, OneByte(x)), Deliver(false, Flight(DataOf(OPEN_A, x), 1, 1), RTO, SILENT);
    PollSends(OPEN_A, x);
    OneMore(m, es0, e);
    TakeByte(x);
    OneMore(Next(m, e), es0 + [e], e');
    n, es := Next(Next(m, e), e'), es0 + [e] + [e'];
  }

  /** Both applications send a byte; neither has arrived. */
  lemma BothSend(x: u8, y: u8) returns (n: Net, es: seq<Event>)
    ensures Reachable(n, es)
    ensures n.a == Side(OPEN_A.(len := 1), 1, 1, true, [x], [], None)
    ensures n.b == Side(OPEN_B.(len := 1), 1, 1, true, [y], [], None)
    ensures Flight(DataOf(OPEN_B, y), 1, 1) in n.fromB
  {
    hide OnTimer, OnSegment, OnPoll, Reachable, DataOf, OneByte;
    ValidReplies(x);
    ValidReplies(y);
    var m, es0 := BothOpen();
    var e, e' := Tick(true, OneByte(x)), Tick(false, OneByte(y));
    PollSends(OPEN_A, x);
    PollSends(OPEN_B, y);
    var m' := Next(m, e);
    OneMore(m, es0, e);
    OneMore(m', es0 + [e], e');
    n, es := Next(m', e'), es0 + [e] + [e'];
  }

  /** A peer's byte arrives and the application closes, its own byte unacknowledged. */
  lemma CloseOnByte(y: u8)
    ensures var c := OPEN_A.(phase := FinWait1, len := 1, rcvNxt := 302);
            OnSegment(OPEN_A.(len := 1), DataOf(OPEN_B, y), RTO, CLOSING)
              == Output(c, Some(FinAckOf(c)), [Call(NONE.(newData := true), [y])], [])
    ensures SegmentProgress(OPEN_A.(len := 1), DataOf(OPEN_B, y)) == Progress(false, 1, false)
  {
  }

  lemma TakeFin()
    ensures var c := OPEN_A.(phase := FinWait1, len := 1, rcvNxt := 302);
            var o := OnSegment(OPEN_B.(len := 1), FinAckOf(c), RTO, SILENT);
            o.conn.phase == LastAck && HandedUp(o) == [] && o.accepted == []
  {
  }

  /** `a` closes while its byte is outstanding, and `b` takes the FIN without ever getting the byte. */
  lemma ByteLost(x: u8, y: u8) returns (n: Net, es: seq<Event>)
    ensures Reachable(n, es) && n.b.c.phase == LastAck && n.a.sent == [x] && n.b.got == []
  {
    hide OnTimer, OnSegment, OnPoll, SegmentProgress, Reachable, DataOf, FinAckOf;
    var m, es0 := BothSend(x, y);
    var e := Deliver(true, Flight(DataOf(OPEN_B, y), 1, 1), RTO, CLOSING);
    CloseOnByte(y);
    OneMore(m, es0, e);
    var m' := Next(m, e);
    var c := OPEN_A.(phase := FinWait1, len := 1, rcvNxt := 302);
    var f := Flight(FinAckOf(c), 1, 2);
    assert m'.a.c == c && m'.a.sent == [x] && f in m'.fromA;
    var e' := Deliver(false, f, RTO, SILENT);
    TakeFin();
    OneMore(m', es0 + [e], e');
    n, es := Next(m', e'), es0 + [e] + [e'];
  }
}
