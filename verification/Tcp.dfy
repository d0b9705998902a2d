/** What one call of uip_process does to one connection, as a function on values.
    The connection object that performs the same steps in place is in TcpConnection.dfy. */
module Tcp {
  import opened Bytes
  import opened SequenceNumbers

  const TCPIP_HLEN: nat := 40
  const IP_BUFFER: nat := 1586          // UIP_BUFSIZE - UIP_LLH_LEN
  const TCP_MSS: nat := IP_BUFFER - TCPIP_HLEN
  const RECEIVE_WINDOW: u16 := TCP_MSS
  const RTO: u8 := 3
  const MAXRTX: nat := 8
  const MAXSYNRTX: nat := 5
  const TIME_WAIT_TIMEOUT: nat := 120

  datatype Phase = Closed | SynRcvd | SynSent | Established | FinWait1 | FinWait2 | Closing | TimeWait | LastAck

  /** One entry of the connection table. `stopped` is the UIP_STOPPED bit of tcpstateflags, so
      an assignment of a bare state clears it and a comparison with a bare state reads it. */
  datatype Conn = Conn(
    phase: Phase, stopped: bool,
    lport: u16, rport: u16, ripaddr: u32,
    rcvNxt: u32, sndNxt: u32,
    len: u16, mss: u16, initialMss: u16,
    rto: u8, timer: u8, nrtx: u8)
  {
    /** tcpstateflags == UIP_<p> */
    predicate Is(p: Phase) { phase == p && !stopped }

    /** tcpstateflags = UIP_<p> */
    function To(p: Phase): Conn { this.(phase := p, stopped := false) }

    function Received(n: nat): Conn { this.(rcvNxt := Plus(rcvNxt, n)) }
  }

  /** A TCP segment: the header fields the state machine reads, the MSS option and the data. */
  datatype Segment = Segment(
    fin: bool, syn: bool, rst: bool, psh: bool, ack: bool,
    seqno: u32, ackno: u32, wnd: u16, mssOption: Option<u16>, data: seq<u8>)
  {
    /** (flags & TCP_CTL) == (TCP_SYN | TCP_ACK) */
    predicate SynAck() { syn && ack && !fin && !rst && !psh }

    predicate OnlySyn() { syn && !ack && !fin && !rst && !psh }

    /** The IP length of the packet that carries the segment. */
    function PacketLength(): nat { TCPIP_HLEN + (if mssOption.Some? then 4 else 0) + |data| }
  }

  /** The event flags passed to and from the application. */
  datatype Flags = Flags(
    acked: bool, newData: bool, rexmit: bool, poll: bool,
    close: bool, abort: bool, connected: bool, timedOut: bool)

  const NONE := Flags(false, false, false, false, false, false, false, false)

  datatype Flow = Keep | Stop | Restart
  datatype Verdict = Continue | Close | Abort

  /** Everything the application may do in one callback: stop or restart the flow, close or abort,
      and call uip_send with `slen` bytes (zero when it does not). `buffer` is the contents of the
      send area afterwards. */
  datatype Reply = Reply(flow: Flow, verdict: Verdict, slen: u16, buffer: seq<u8>)
  {
    ghost predicate Valid() { |buffer| == TCP_MSS }
  }

  /** A callback: the flags the application sees and the received bytes it is given. */
  datatype Call = Call(flags: Flags, data: seq<u8>)

  /** The result of one step. `accepted` are the bytes newly taken over from the application. */
  datatype Output = Output(conn: Conn, sent: Option<Segment>, calls: seq<Call>, accepted: seq<u8>)

  function Quiet(c: Conn): Output { Output(c, None, [], []) }

  /** The effect of a callback on the connection and on uip_flags. */
  function AfterCall(c: Conn, r: Reply): Conn {
    match r.flow
    case Keep => c
    case Stop => c.(stopped := true)
    case Restart => c.(stopped := false)
  }

  function FlagsAfter(f: Flags, r: Reply): Flags {
    match r.verdict
    case Close => NONE.(close := true)
    case Abort => NONE.(abort := true)
    case Continue => if r.flow.Restart? then f.(newData := true) else f
  }

  /** The tcp_send tail: sequence numbers and window come from the connection. */
  function Build(c: Conn, fin: bool, syn: bool, rst: bool, psh: bool, ack: bool, data: seq<u8>): Segment {
    Segment(fin, syn, rst, psh, ack, c.sndNxt, c.rcvNxt,
            if c.stopped then 0 else RECEIVE_WINDOW,
            if syn then Some(TCP_MSS) else None, data)
  }

  function AckOf(c: Conn): Segment { Build(c, false, false, false, false, true, []) }
  function FinAckOf(c: Conn): Segment { Build(c, true, false, false, false, true, []) }
  function RstAckOf(c: Conn): Segment { Build(c, false, false, true, false, true, []) }
  function SynAckOf(c: Conn): Segment { Build(c, false, true, false, false, true, []) }
  function SynOf(c: Conn): Segment { Build(c, false, true, false, false, false, []) }

  /** The reset sent when no connection matches: sequence and acknowledgement numbers flipped. */
  function ResetReply(s: Segment): Option<Segment> {
    if s.rst then None
    else Some(Segment(false, false, true, false, true, s.ackno, Plus(s.seqno, 1), s.wnd, None, []))
  }

  /** The apprexmit label. */
  function AppRexmit(c: Conn, f: Flags, slen: nat, buffer: seq<u8>): Option<Segment>
    requires |buffer| == TCP_MSS && c.len <= TCP_MSS
  {
    if slen > 0 && c.len > 0 then Some(Build(c, false, false, false, true, true, buffer[..c.len]))
    else if f.newData then Some(AckOf(c))
    else None
  }

  /** The appsend label, reached with the flags and uip_slen the application left behind. */
  function AppSend(c: Conn, f: Flags, slen: u16, buffer: seq<u8>, calls: seq<Call>): (o: Output)
    requires |buffer| == TCP_MSS && c.len <= TCP_MSS && c.mss <= TCP_MSS
    ensures o.calls == calls
  {
    if f.abort then
      var d := c.To(Closed);
      Output(d, Some(RstAckOf(d)), calls, [])
    else if f.close then
      var d := c.To(FinWait1).(len := 1, nrtx := 0);
      Output(d, Some(FinAckOf(d)), calls, [])
    else if slen == 0 then
      var d := c.(nrtx := 0);
      Output(d, AppRexmit(d, f, 0, buffer), calls, [])
    else
      var outstanding := if f.acked then 0 else c.len;
      if outstanding == 0 then
        var n := Min(slen, c.mss);
        var d := c.(len := n, nrtx := 0);
        Output(d, AppRexmit(d, f, n, buffer), calls, buffer[..n])
      else
        var d := c.(nrtx := 0);
        Output(d, AppRexmit(d, f, outstanding, buffer), calls, [])
  }

  /** A callback followed by the appsend label. */
  function CallAndSend(c: Conn, f: Flags, data: seq<u8>, r: Reply): Output
    requires r.Valid() && c.len <= TCP_MSS && c.mss <= TCP_MSS
  {
    AppSend(AfterCall(c, r), FlagsAfter(f, r), r.slen, r.buffer, [Call(f, data)])
  }

  /** What every table entry satisfies so that no copy leaves the buffers. */
  ghost predicate Sized(c: Conn) { c.len <= TCP_MSS && c.mss <= c.initialMss <= TCP_MSS }

  function Backoff(nrtx: u8): (r: u8)
  {
    if nrtx > 4 then 48 else [3, 6, 12, 24, 48][nrtx]
  }

  predicate GivesUp(c: Conn) {
    c.nrtx == MAXRTX || ((c.Is(SynSent) || c.Is(SynRcvd)) && c.nrtx == MAXSYNRTX)
  }

  /** The retransmission switch, after the timer was set back. */
  function Retransmit(c: Conn, r: Reply): Output
    requires r.Valid() && Sized(c)
  {
    match c.phase
    case SynRcvd => Output(c, Some(SynAckOf(c)), [], [])
    case SynSent => Output(c, Some(SynOf(c)), [], [])
    case Established =>
      var f := NONE.(rexmit := true);
      var d := AfterCall(c, r);
      Output(d, AppRexmit(d, FlagsAfter(f, r), r.slen, r.buffer), [Call(f, [])], [])
    case FinWait1 => Output(c, Some(FinAckOf(c)), [], [])
    case Closing => Output(c, Some(FinAckOf(c)), [], [])
    case LastAck => Output(c, Some(FinAckOf(c)), [], [])
    case _ => Quiet(c)
  }

  /** uip_process(UIP_TIMER). */
  function OnTimer(c: Conn, r: Reply): Output
    requires r.Valid() && Sized(c)
  {
    if c.Is(TimeWait) || c.Is(FinWait2) then
      var t: u8 := if c.timer == 255 then 0 else c.timer + 1;
      Quiet(if t == TIME_WAIT_TIMEOUT then c.(timer := t).To(Closed) else c.(timer := t))
    else if c.Is(Closed) then Quiet(c)
    else if c.len > 0 then
      if c.timer > 0 then Quiet(c.(timer := c.timer - 1))
      else if GivesUp(c) then
        var d := AfterCall(c.(timer := 255).To(Closed), r);
        Output(d, Some(RstAckOf(d)), [Call(NONE.(timedOut := true), [])], [])
      else
        Retransmit(c.(timer := Backoff(c.nrtx), nrtx := if c.nrtx == 255 then 0 else c.nrtx + 1), r)
    else if c.phase == Established then
      CallAndSend(c, NONE.(poll := true), [], r)
    else Quiet(c)
  }

  /** uip_process(UIP_POLL_REQUEST). This path does not reset uip_slen: when the application sends
      nothing, the length left over from an earlier call is used. */
  function OnPoll(c: Conn, staleSlen: u16, r: Reply): Output
    requires r.Valid() && Sized(c)
  {
    if c.phase == Established && c.len == 0 then
      CallAndSend(c, NONE.(poll := true), [], if r.slen == 0 then r.(slen := staleSlen) else r)
    else Quiet(c)
  }

  predicate OutOfOrder(c: Conn, s: Segment) {
    && !(c.phase == SynSent && s.SynAck())
    && (|s.data| > 0 || s.syn || s.fin)
    && s.seqno != c.rcvNxt
  }

  predicate Acknowledges(c: Conn, s: Segment) {
    s.ack && c.len > 0 && s.ackno == Plus(c.sndNxt, c.len)
  }

  /** The acknowledgement step. `measuredRto` is what the round-trip estimator yields. */
  function AfterAck(c: Conn, s: Segment, measuredRto: u8): Conn {
    if Acknowledges(c, s) then
      var rto := if c.nrtx == 0 then measuredRto else c.rto;
      c.(sndNxt := s.ackno, rto := rto, timer := rto, len := 0)
    else c
  }

  function OfferedMss(s: Segment, entry: Conn): Conn {
    match s.mssOption
    case None => entry
    case Some(m) => entry.(mss := Min(m, TCP_MSS), initialMss := Min(m, TCP_MSS))
  }

  function WindowMss(c: Conn, wnd: u16): Conn {
    c.(mss := if wnd > c.initialMss || wnd == 0 then c.initialMss else wnd)
  }

  function InEstablished(c: Conn, acked: bool, s: Segment, r: Reply): Output
    requires r.Valid() && Sized(c)
  {
    if s.fin && !c.stopped then
      if c.len > 0 then Quiet(c)
      else
        var f := NONE.(acked := acked, close := true, newData := |s.data| > 0);
        var d := c.Received(1 + |s.data|).To(LastAck).(len := 1, nrtx := 0);
        Output(d, Some(FinAckOf(d)), [Call(f, s.data)], [])
    else
      var newData := |s.data| > 0 && !c.stopped;
      var d := WindowMss(if newData then c.Received(|s.data|) else c, s.wnd);
      if acked || newData then
        CallAndSend(d, NONE.(acked := acked, newData := newData), s.data, r)
      else Quiet(d)
  }

  function InFinWait1(c: Conn, acked: bool, s: Segment, r: Reply): Output
  {
    var d := c.Received(|s.data|);
    if s.fin then
      var e := (if acked then d.To(TimeWait).(timer := 0, len := 0) else d.To(Closing)).Received(1);
      var e' := AfterCall(e, r);
      Output(e', Some(AckOf(e')), [Call(NONE.(close := true), [])], [])
    else if acked then Quiet(d.To(FinWait2).(len := 0))
    else if |s.data| > 0 then Output(d, Some(AckOf(d)), [], [])
    else Quiet(d)
  }

  function InFinWait2(c: Conn, s: Segment, r: Reply): Output
  {
    var d := c.Received(|s.data|);
    if s.fin then
      var e := AfterCall(d.To(TimeWait).(timer := 0).Received(1), r);
      Output(e, Some(AckOf(e)), [Call(NONE.(close := true), [])], [])
    else if |s.data| > 0 then Output(d, Some(AckOf(d)), [], [])
    else Quiet(d)
  }

  function InSynRcvd(c: Conn, acked: bool, s: Segment, r: Reply): Output
    requires r.Valid() && Sized(c)
  {
    if acked then
      CallAndSend(c.To(Established).Received(|s.data|),
                  NONE.(connected := true, newData := |s.data| > 0), s.data, r)
    else Quiet(c)
  }

  function InSynSent(c: Conn, acked: bool, s: Segment, r: Reply): Output
    requires r.Valid() && Sized(c)
  {
    if acked && s.SynAck() then
      CallAndSend(OfferedMss(s, c).To(Established).(rcvNxt := Plus(s.seqno, 1)),
                  NONE.(connected := true, newData := true), [], r)
    else
      Output(c.To(Closed), ResetReply(s), [Call(NONE.(abort := true), [])], [])
  }

  function InLastAck(c: Conn, acked: bool, r: Reply): Output {
    if acked then
      Output(AfterCall(c.To(Closed), r), None, [Call(NONE.(close := true), [])], [])
    else Quiet(c)
  }

  /** The state switch; `c` is the connection after the acknowledgement step and `acked` says
      whether that step found an acknowledgement. */
  function InState(c: Conn, acked: bool, s: Segment, r: Reply): Output
    requires r.Valid() && Sized(c)
  {
    match c.phase
    case SynRcvd => InSynRcvd(c, acked, s, r)
    case SynSent => InSynSent(c, acked, s, r)
    case Established => InEstablished(c, acked, s, r)
    case LastAck => InLastAck(c, acked, r)
    case FinWait1 => InFinWait1(c, acked, s, r)
    case FinWait2 => InFinWait2(c, s, r)
    case TimeWait => Output(c, Some(AckOf(c)), [], [])
    case Closing => Quiet(if acked then c.To(TimeWait).(timer := 0) else c)
    case Closed => Quiet(c)
  }

  /** The code from the `found` label on: a segment for a connection in the table. */
  function OnSegment(c: Conn, s: Segment, measuredRto: u8, r: Reply): Output
    requires r.Valid() && Sized(c)
  {
    if s.rst then
      Output(AfterCall(c.To(Closed), r), None, [Call(NONE.(abort := true), [])], [])
    else if OutOfOrder(c, s) then Output(c, Some(AckOf(c)), [], [])
    else InState(AfterAck(c, s, measuredRto), Acknowledges(c, s), s, r)
  }

  /** uip_connect fills in a free entry. */
  function Opened(entry: Conn, lport: u16, rport: u16, ripaddr: u32, iss: u32): Conn {
    entry.To(SynSent).(sndNxt := iss, initialMss := TCP_MSS, mss := TCP_MSS, len := 1, nrtx := 0,
                     timer := 1, rto := RTO, lport := lport, rport := rport, ripaddr := ripaddr)
  }

  /** The found_listen label fills in a free entry. The MSS stays as the previous user of the
      entry left it unless the SYN carries the option. */
  function Accepted(entry: Conn, lport: u16, rport: u16, ripaddr: u32, iss: u32, s: Segment): Conn {
    OfferedMss(s, entry.To(SynRcvd).(rto := RTO, timer := RTO, nrtx := 0, lport := lport, rport := rport,
                                   ripaddr := ripaddr, sndNxt := iss, len := 1, rcvNxt := Plus(s.seqno, 1)))
  }
}
