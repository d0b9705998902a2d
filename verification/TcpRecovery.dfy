/** Loss does not last: from every reachable state one time-out and two deliveries bring everything that is
    in flight to a peer that is open and takes data. */
module TcpRecovery {
  import opened Bytes
  import opened SequenceNumbers
  import opened Tcp
  import opened TcpLifecycle
  import opened TcpReplies
  import opened TcpStream

  // ---- The outstanding data travels as a whole ----

  /** Data in the network is acknowledged already or all that is in flight. */
  ghost predicate OldOrCurrent(f: Flight, x: Side) {
    f.seg.rst || f.seg.data == [] || f.pos + |f.seg.data| <= x.una || (f.pos == x.una && |f.seg.data| == x.c.len)
  }

  /** So the peer has all of it or nothing. */
  ghost predicate Whole(x: Side, y: Side, fx: set<Flight>) {
    x.c.phase == Established ==>
      && (forall f :: f in fx ==> OldOrCurrent(f, x))
      && (y.synced ==> y.rpos == x.una || y.rpos == x.una + x.c.len)
  }

  ghost predicate NetWhole(n: Net) { Whole(n.a, n.b, n.fromA) && Whole(n.b, n.a, n.fromB) }

  lemma ProgressIsWhole(c: Conn, s: Segment)
    ensures var p := SegmentProgress(c, s); p.advance > 0 && !s.fin ==> p.advance == |s.data| && !s.rst
  {
  }

  /** The sender's own step. */
  lemma SenderStaysWhole(x: Side, y: Side, isnX: u32, isnY: u32, fx: set<Flight>, fy: set<Flight>, p: Progress, o: Output, f: Option<Flight>)
    requires HalfInv(x, y, isnX, isnY, fx, fy) && HalfInv(y, x, isnY, isnX, fy, fx) && Whole(x, y, fx)
    requires SideStep(x, p, o, f, fy) && Room(x) && Room(y)
    ensures Whole(Extend(x, p, o), y, fx + Launch(Extend(x, p, o), o))
  {
    var x' := Extend(x, p, o);
    if x'.c.phase == Established {
      if p.acked && y.synced { AckPosition(x, y, isnX, isnY, f.value); }
      forall g | g in fx ensures OldOrCurrent(g, x') {
        assert !g.seg.rst ==> FlightOk(g, x, isnX);
        assert x.c.phase == Established ==> OldOrCurrent(g, x);
      }
    }
  }

  /** A step of the peer. */
  lemma ReceiverStaysWhole(x: Side, y: Side, isnX: u32, isnY: u32, fx: set<Flight>, fy: set<Flight>, p: Progress, o: Output, f: Option<Flight>)
    requires HalfInv(x, y, isnX, isnY, fx, fy) && HalfInv(y, x, isnY, isnX, fy, fx) && Whole(x, y, fx)
    requires SideStep(y, p, o, f, fx) && Room(x) && Room(y)
    requires f.Some? && !f.value.seg.fin && p.advance > 0 ==> p.advance == |f.value.seg.data|
    ensures Whole(x, Extend(y, p, o), fx)
  {
    if x.c.phase == Established && p.advance > 0 {
      var g := f.value;
      assert FlightOk(g, x, isnX) && OldOrCurrent(g, x);
      assert !p.synAck;
      ReceivePosition(y, x, isnX, g);
    }
  }

  lemma StepStaysWhole(n: Net, e: Event)
    requires NetInv(n) && NetWhole(n) && Enabled(n, e) && Room(n.a) && Room(n.b)
    ensures NetWhole(Next(n, e))
  {
    var (p, o) := Result(n, e);
    EventIsSideStep(n, e);
    if e.Deliver? { ProgressIsWhole(Acting(n, e.atA).c, e.flight.seg); }
    if e.atA {
      SenderStaysWhole(n.a, n.b, n.isnA, n.isnB, n.fromA, n.fromB, p, o, Delivered(e));
      ReceiverStaysWhole(n.b, n.a, n.isnB, n.isnA, n.fromB, n.fromA, p, o, Delivered(e));
    } else {
      SenderStaysWhole(n.b, n.a, n.isnB, n.isnA, n.fromB, n.fromA, p, o, Delivered(e));
      ReceiverStaysWhole(n.a, n.b, n.isnA, n.isnB, n.fromA, n.fromB, p, o, Delivered(e));
    }
  }

  lemma {:induction false} ReachableWhole(n: Net, es: seq<Event>)
    requires Reachable(n, es)
    ensures NetInv(n) && NetWhole(n)
    decreases |es|
  {
    ReachableInv(n, es);
    if es != [] {
      var m :| Reachable(m, es[..|es| - 1]) && Room(m.a) && Room(m.b) && Enabled(m, es[|es| - 1]) && n == Next(m, es[|es| - 1]);
      ReachableWhole(m, es[..|es| - 1]);
      StepStaysWhole(m, es[|es| - 1]);
    }
  }

  // ---- One time-out and two deliveries ----

  /** The application offers what is in flight again. */
  ghost predicate Offers(x: Side, r: Reply) {
    r.Valid() && r.slen > 0 && x.c.len <= |x.sent| && x.c.len <= TCP_MSS && r.buffer[..x.c.len] == Outstanding(x)
  }

  lemma SilentTick(n: Net, atA: bool)
    requires NetInv(n)
    requires var x := Acting(n, atA); x.c.phase == Established && x.c.len > 0 && x.c.timer > 0
    ensures var e, x := Tick(atA, SILENT), Acting(n, atA);
            && Enabled(n, e) && e.reply.Valid() && Sized(x.c)
            && Acting(Next(n, e), atA) == x.(c := x.c.(timer := x.c.timer - 1)) && Acting(Next(n, e), !atA) == Acting(n, !atA)
  {
    var x := Acting(n, atA);
    TimerCounts(x.c, SILENT);
    OnlyActingChanges(n, Tick(atA, SILENT));
    assert x.sent + [] == x.sent && x.got + [] == x.got;
    hide OnTimer;
  }

  /** Silent calls of the timer until it is about to fire. */
  lemma {:induction false} Waiting(n: Net, es: seq<Event>, atA: bool) returns (m: Net, fs: seq<Event>)
    requires Reachable(n, es) && Room(n.a) && Room(n.b)
    requires var x := Acting(n, atA); x.c.phase == Established && x.c.len > 0
    ensures Reachable(m, es + fs)
    ensures var x := Acting(n, atA); Acting(m, atA) == x.(c := x.c.(timer := 0)) && Acting(m, !atA) == Acting(n, !atA)
    ensures |fs| == Acting(n, atA).c.timer
    decreases Acting(n, atA).c.timer
  {
    hide Reachable, OnTimer, OnPoll, OnSegment, NetInv, Enabled, Next, Result, Resends;
    ReachableInv(n, es);
    var x := Acting(n, atA);
    if x.c.timer == 0 {
      m, fs := n, [];
      assert es + [] == es;
    } else {
      var e := Tick(atA, SILENT);
      SilentTick(n, atA);
      OneMore(n, es, e);
      var gs;
      m, gs := Waiting(Next(n, e), es + [e], atA);
      fs := [e] + gs;
      assert es + fs == es + [e] + gs;
    }
  }

  /** The segment that carries what is in flight of x. */
  ghost predicate CarriesOutstanding(g: Flight, x: Side) {
    && x.c.len <= |x.sent| && g.seg.data == Outstanding(x) && g.pos == x.una && g.ackPos == x.rpos
    && g.seg.seqno == x.c.sndNxt && g.seg.ackno == x.c.rcvNxt && g.seg.ack && !g.seg.rst && !g.seg.syn && !g.seg.fin
  }

  function Outbox(n: Net, atA: bool): set<Flight> { Inbox(n, !atA) }

  /** A timer that fires puts all that is in flight into the network again. */
  lemma FiringResends(n: Net, atA: bool, r: Reply)
    requires NetInv(n)
    requires var x := Acting(n, atA); x.c.phase == Established && x.c.len > 0 && x.c.timer == 0 && x.c.nrtx < MAXRTX && Offers(x, r)
    ensures var e, x := Tick(atA, r), Acting(n, atA);
            && Enabled(n, e) && e.reply.Valid() && Sized(x.c)
            && var m := Next(n, e);
               var c := Acting(m, atA).c;
               && Acting(m, atA) == x.(c := x.c.(timer := Backoff(x.c.nrtx), nrtx := x.c.nrtx + 1, stopped := c.stopped))
               && Acting(m, !atA) == Acting(n, !atA)
               && exists g :: g in Outbox(m, atA) && CarriesOutstanding(g, Acting(m, atA))
  {
    var e, x := Tick(atA, r), Acting(n, atA);
    OnlyActingChanges(n, e);
    ResendsAll(x, r);
    var o := OnTimer(x.c, r);
    var x' := Extend(x, NO_PROGRESS, o);
    assert x.sent + [] == x.sent && x.got + [] == x.got;
    var g := Flight(o.sent.value, x'.una, x'.rpos);
    assert g in Outbox(Next(n, e), atA) && CarriesOutstanding(g, x');
    hide OnTimer;
  }

  lemma ResendsAll(x: Side, r: Reply)
    requires Inv(x.c) && x.c.phase == Established && x.c.len > 0 && x.c.timer == 0 && x.c.nrtx < MAXRTX && Offers(x, r)
    ensures var o := OnTimer(x.c, r);
            && o.conn == x.c.(timer := Backoff(x.c.nrtx), nrtx := x.c.nrtx + 1, stopped := o.conn.stopped)
            && o.sent.Some? && o.accepted == [] && HandedUp(o) == []
            && CarriesOutstanding(Flight(o.sent.value, x.una, x.rpos), x)
  {
    OutstandingIsResent(x.c, r);
  }

  /** An open connection whose flow is not stopped answers data at once, in order or not. */
  lemma TakesAtOnce(c: Conn, s: Segment, rto: u8)
    requires Inv(c) && c.phase == Established && !c.stopped && s.data != [] && !s.rst && !s.syn && !s.fin
    ensures var o := OnSegment(c, s, rto, SILENT);
            && o.conn.phase == Established && !o.conn.stopped && o.accepted == [] && o.sent == Some(AckOf(o.conn))
            && (if s.seqno == c.rcvNxt then
                && HandedUp(o) == s.data && o.conn.rcvNxt == Plus(c.rcvNxt, |s.data|)
                && SegmentProgress(c, s).advance == |s.data| && !SegmentProgress(c, s).synAck
                else o == Output(c, Some(AckOf(c)), [], []) && SegmentProgress(c, s) == NO_PROGRESS)
  {
  }

  /** What the peer has to say then: it has everything. */
  ghost predicate AcksAll(h: Flight, x: Side) {
    && h.seg.ack && h.seg.ackno == Plus(x.c.sndNxt, x.c.len)
    && !h.seg.rst && !h.seg.syn && !h.seg.fin && h.seg.data == []
  }

  lemma PeerCatchesUp(x: Side, y: Side, isnX: u32, isnY: u32, fx: set<Flight>, fy: set<Flight>, g: Flight, rto: u8)
    requires HalfInv(x, y, isnX, isnY, fx, fy) && HalfInv(y, x, isnY, isnX, fy, fx) && Whole(x, y, fx)
    requires Room(x) && g in fx && CarriesOutstanding(g, x)
    requires x.c.phase == Established && x.c.len > 0 && y.c.phase == Established && !y.c.stopped
    ensures var o := OnSegment(y.c, g.seg, rto, SILENT);
            var y' := Extend(y, SegmentProgress(y.c, g.seg), o);
            && y'.c.phase == Established && o.sent.Some? && o.conn == y'.c && o.accepted == []
            && y'.rpos == x.una + x.c.len && AcksAll(Flight(o.sent.value, y'.una, y'.rpos), x)
  {
    var o, p := OnSegment(y.c, g.seg, rto, SILENT), SegmentProgress(y.c, g.seg);
    TakesAtOnce(y.c, g.seg, rto);
    assert FlightOk(g, x, isnX);
    if g.seg.seqno == y.c.rcvNxt { ReceivePosition(y, x, isnX, g); }
    PlusPlus(isnX, x.una, x.c.len);
    hide OnSegment, SegmentProgress, FlightsOk, HandshakeInv, BareSyns, FlightOk;
  }

  lemma DataArrives(n: Net, atA: bool, g: Flight, rto: u8)
    requires NetInv(n) && NetWhole(n) && Room(n.a) && Room(n.b)
    requires g in Outbox(n, atA) && CarriesOutstanding(g, Acting(n, atA))
    requires var x, y := Acting(n, atA), Acting(n, !atA); x.c.phase == Established && x.c.len > 0 && y.c.phase == Established && !y.c.stopped
    ensures var e, x := Deliver(!atA, g, rto, SILENT), Acting(n, atA);
            && Enabled(n, e) && e.reply.Valid() && Sized(Acting(n, !atA).c)
            && var m := Next(n, e);
               && Acting(m, atA) == x && Acting(m, !atA).c.phase == Established && Acting(m, !atA).synced
               && Acting(m, !atA).sent == Acting(n, !atA).sent
               && exists h :: h in Inbox(m, atA) && AcksAll(h, x)
  {
    var e, x, y := Deliver(!atA, g, rto, SILENT), Acting(n, atA), Acting(n, !atA);
    if atA { PeerCatchesUp(n.a, n.b, n.isnA, n.isnB, n.fromA, n.fromB, g, rto); }
    else { PeerCatchesUp(n.b, n.a, n.isnB, n.isnA, n.fromB, n.fromA, g, rto); }
    OnlyActingChanges(n, e);
    var o := OnSegment(y.c, g.seg, rto, SILENT);
    var y' := Extend(y, SegmentProgress(y.c, g.seg), o);
    var h := Flight(o.sent.value, y'.una, y'.rpos);
    assert y.sent + [] == y.sent;
    hide OnSegment, SegmentProgress, NetInv, NetWhole;
    assert h in Inbox(Next(n, e), atA) && AcksAll(h, x);
  }

  lemma TakesAck(c: Conn, s: Segment, rto: u8)
    requires Inv(c) && c.phase == Established && c.len > 0
    requires s.ack && s.ackno == Plus(c.sndNxt, c.len) && !s.rst && !s.syn && !s.fin && s.data == []
    ensures var o := OnSegment(c, s, rto, SILENT);
            && o.conn.phase == Established && o.conn.len == 0 && o.accepted == [] && o.conn.stopped == c.stopped
    ensures SegmentProgress(c, s) == Progress(true, 0, false)
  {
  }

  lemma AckArrives(n: Net, atA: bool, h: Flight, rto: u8)
    requires NetInv(n) && h in Inbox(n, atA) && AcksAll(h, Acting(n, atA))
    requires var x := Acting(n, atA); x.c.phase == Established && x.c.len > 0
    ensures var e, x := Deliver(atA, h, rto, SILENT), Acting(n, atA);
            && Enabled(n, e) && e.reply.Valid() && Sized(x.c)
            && var m := Next(n, e);
               && Acting(m, !atA) == Acting(n, !atA)
               && Acting(m, atA).c.phase == Established && Acting(m, atA).c.len == 0 && Acting(m, atA).sent == x.sent
  {
    var e, x := Deliver(atA, h, rto, SILENT), Acting(n, atA);
    TakesAck(x.c, h.seg, rto);
    OnlyActingChanges(n, e);
    assert x.sent + [] == x.sent;
    hide OnSegment, SegmentProgress;
  }

  /** Recovery: whatever was lost, doubled or delayed before, when one side has bytes in flight and its
      retransmissions are not used up, its timer can run down, its application offer the bytes again, the
      segment arrive and the answer come back: then nothing is in flight any more, and the peer's
      application was handed every byte that was ever submitted. */
  lemma Recovers(n: Net, es: seq<Event>, atA: bool, r: Reply, rto: u8) returns (m: Net, fs: seq<Event>)
    requires Reachable(n, es) && Room(n.a) && Room(n.b)
    requires var x, y := Acting(n, atA), Acting(n, !atA);
             x.c.phase == Established && x.c.len > 0 && x.c.nrtx < MAXRTX && y.c.phase == Established && !y.c.stopped && Offers(x, r)
    ensures Reachable(m, es + fs) && |fs| == Acting(n, atA).c.timer + 3
    ensures Acting(m, atA).c.phase == Established && Acting(m, !atA).c.phase == Established
    ensures Acting(m, atA).c.len == 0 && Acting(m, !atA).got == Acting(m, atA).sent == Acting(n, atA).sent
  {
    hide Reachable, NetInv, NetWhole, Enabled, Next, Outbox, Inbox, CarriesOutstanding, AcksAll, InStep;
    var k, fs0 := Waiting(n, es, atA);
    ReachableWhole(k, es + fs0);
    var e := Tick(atA, r);
    FiringResends(k, atA, r);
    OneMore(k, es + fs0, e);
    var l := Next(k, e);
    var g :| g in Outbox(l, atA) && CarriesOutstanding(g, Acting(l, atA));
    var e', es' := Deliver(!atA, g, rto, SILENT), es + fs0 + [e];
    ReachableWhole(l, es');
    DataArrives(l, atA, g, rto);
    OneMore(l, es', e');
    var l' := Next(l, e');
    var h :| h in Inbox(l', atA) && AcksAll(h, Acting(l, atA));
    var e'' := Deliver(atA, h, rto, SILENT);
    ReachableWhole(l', es' + [e']);
    AckArrives(l', atA, h, rto);
    OneMore(l', es' + [e'], e'');
    m, fs := Next(l', e''), fs0 + [e, e', e''];
    assert es + fs == es' + [e'] + [e''];
    NothingInFlight(m, es + fs, atA);
  }

  lemma NothingInFlight(n: Net, es: seq<Event>, atA: bool)
    requires Reachable(n, es)
    requires var x, y := Acting(n, atA), Acting(n, !atA); x.c.phase == Established && x.c.len == 0 && y.c.phase == Established && y.synced
    ensures Acting(n, !atA).got == Acting(n, atA).sent
  {
    StreamSynchronised(n, es);
    hide Reachable;
  }

  /** Such states are reached: a byte that was sent and not delivered arrives in the end. */
  lemma LostByteRecovers(x: u8) returns (n: Net, es: seq<Event>)
    ensures Reachable(n, es) && n.a.sent == n.b.got == [x] && n.a.c.len == 0
  {
    hide OnTimer, OnSegment, OnPoll, SegmentProgress, Reachable, DataOf, OneByte, Repeat;
    var m, es0 := BothOpen();
    var e := Tick(true, OneByte(x));
    ValidReplies(x);
    PollSends(OPEN_A, x);
    OneMore(m, es0, e);
    OffersByte(Next(m, e).a, x);
    var fs;
    n, fs := Recovers(Next(m, e), es0 + [e], true, OneByte(x), RTO);
    es := es0 + [e] + fs;
  }

  lemma OffersByte(y: Side, x: u8)
    requires y.c.len == 1 && y.sent == [x]
    ensures Offers(y, OneByte(x))
  {
    assert OneByte(x).buffer[..1] == [x];
  }
}
