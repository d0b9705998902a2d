/** The connection object and the uip_process code that updates it in place. */
module TcpConnection {
  import opened Bytes
  import opened SequenceNumbers
  import T = Tcp

  class Connection {
    var phase: T.Phase
    var stopped: bool
    var lport: u16
    var rport: u16
    var ripaddr: u32
    var rcvNxt: Word32
    var sndNxt: Word32
    var len: u16
    var mss: u16
    var initialMss: u16
    var rto: u8
    var timer: u8
    var nrtx: u8

    ghost function State(): T.Conn
      reads this
    {
      T.Conn(phase, stopped, lport, rport, ripaddr, Value(rcvNxt), Value(sndNxt),
             len, mss, initialMss, rto, timer, nrtx)
    }

    constructor ()
      ensures phase == T.Closed && !stopped && len == mss == initialMss == 0 && nrtx == 0
    {
      phase, stopped, lport, rport, ripaddr := T.Closed, false, 0, 0, 0;
      rcvNxt, sndNxt := Word32(0, 0, 0, 0), Word32(0, 0, 0, 0);
      len, mss, initialMss, rto, timer, nrtx := 0, 0, 0, 0, 0, 0;
    }

    /** tcpstateflags = UIP_<p> */
    method Enter(p: T.Phase)
      modifies this`phase, this`stopped
      ensures State() == old(State()).To(p)
    {
      phase, stopped := p, false;
    }

    method AddRcvNxt(n: u16)
      modifies this`rcvNxt
      ensures State() == old(State()).Received(n)
    {
      rcvNxt := Add32(rcvNxt, n);
    }
  }

  /** The globals of uip.c that one uip_process call uses, and the step code. */
  class Engine {
    var flags: T.Flags
    var slen: u16
    var calls: seq<T.Call>     // the callbacks of the current step

    constructor ()
      ensures slen == 0
    {
      flags, slen, calls := T.NONE, 0, [];
    }

    /** UIP_APPCALL(): the application sees `flags` and the received bytes and answers with `r`. */
    method AppCall(conn: Connection, data: seq<u8>, r: T.Reply)
      modifies this, conn`stopped
      ensures conn.State() == T.AfterCall(old(conn.State()), r)
      ensures flags == T.FlagsAfter(old(flags), r)
      ensures slen == if r.slen > 0 then r.slen else old(slen)
      ensures calls == old(calls) + [T.Call(old(flags), data)]
    {
      calls := calls + [T.Call(flags, data)];
      if r.slen > 0 { slen := r.slen; }
      match r.flow {
        case Keep =>
        case Stop => conn.stopped := true;
        case Restart => conn.stopped := false; flags := flags.(newData := true);
      }
      match r.verdict {
        case Continue =>
        case Close => flags := T.NONE.(close := true);
        case Abort => flags := T.NONE.(abort := true);
      }
    }

    /** The tcp_send tail. */
    method Send(conn: Connection, fin: bool, syn: bool, rst: bool, psh: bool, ack: bool, data: seq<u8>) returns (out: T.Segment)
      ensures out == T.Build(conn.State(), fin, syn, rst, psh, ack, data)
    {
      var wnd: u16 := if conn.stopped then 0 else T.RECEIVE_WINDOW;
      out := T.Segment(fin, syn, rst, psh, ack, Value(conn.sndNxt), Value(conn.rcvNxt), wnd,
                       if syn then Some(T.TCP_MSS) else None, data);
    }

    method AppRexmit(conn: Connection, buffer: seq<u8>) returns (out: Option<T.Segment>)
      requires |buffer| == T.TCP_MSS && conn.len <= T.TCP_MSS
      ensures out == T.AppRexmit(conn.State(), flags, slen, buffer)
    {
      if slen > 0 && conn.len > 0 {
        var seg := Send(conn, false, false, false, true, true, buffer[..conn.len]);
        return Some(seg);
      }
      if flags.newData {
        var seg := Send(conn, false, false, false, false, true, []);
        return Some(seg);
      }
      return None;
    }

    method AppSend(conn: Connection, buffer: seq<u8>) returns (out: Option<T.Segment>)
      requires |buffer| == T.TCP_MSS && conn.len <= T.TCP_MSS && conn.mss <= T.TCP_MSS
      modifies this`slen, conn
      ensures var o := T.AppSend(old(conn.State()), flags, old(slen), buffer, calls);
              conn.State() == o.conn && out == o.sent
    {
      if flags.abort {
        slen := 0;
        conn.Enter(T.Closed);
        var seg := Send(conn, false, false, true, false, true, []);
        return Some(seg);
      }
      if flags.close {
        slen := 0;
        conn.len := 1;
        conn.Enter(T.FinWait1);
        conn.nrtx := 0;
        var seg := Send(conn, true, false, false, false, true, []);
        return Some(seg);
      }
      if slen > 0 {
        if flags.acked {
          conn.len := 0;
        }
        if conn.len == 0 {
          if slen > conn.mss {
            slen := conn.mss;
          }
          conn.len := slen;
        } else {
          slen := conn.len;
        }
      }
      conn.nrtx := 0;
      out := AppRexmit(conn, buffer);
    }

    /** A callback and the jump to the appsend label. */
    method CallAndSend(conn: Connection, data: seq<u8>, r: T.Reply) returns (out: Option<T.Segment>)
      requires r.Valid() && conn.len <= T.TCP_MSS && conn.mss <= T.TCP_MSS && calls == []
      modifies this, conn
      ensures var reply := if r.slen == 0 then r.(slen := old(slen)) else r;
              var o := T.CallAndSend(old(conn.State()), old(flags), data, reply);
              conn.State() == o.conn && out == o.sent && calls == o.calls
    {
      hide T.AppSend, T.AppRexmit;
      AppCall(conn, data, r);
      assert calls == [T.Call(old(flags), data)];
      out := AppSend(conn, r.buffer);
    }

    /** uip_process(UIP_TIMER) for one connection. */
    method Timer(conn: Connection, r: T.Reply) returns (out: Option<T.Segment>)
      requires r.Valid() && T.Sized(conn.State())
      modifies this, conn
      ensures var o := T.OnTimer(old(conn.State()), r);
              conn.State() == o.conn && out == o.sent && calls == o.calls
    {
      calls, slen, out := [], 0, None;
      if (conn.phase == T.TimeWait || conn.phase == T.FinWait2) && !conn.stopped {
        conn.timer := Wrap8(conn.timer, 1);
        if conn.timer == T.TIME_WAIT_TIMEOUT {
          conn.Enter(T.Closed);
        }
      } else if !(conn.phase == T.Closed && !conn.stopped) {
        if conn.len > 0 {
          var fired := conn.timer == 0;
          conn.timer := if fired then 255 else conn.timer - 1;
          if fired {
            out := TimerFired(conn, r);
          }
        } else if conn.phase == T.Established {
          flags := T.NONE.(poll := true);
          out := CallAndSend(conn, [], r);
        }
      }
    }

    /** The connection timed out: tell the application, then reset the peer. */
    method GiveUp(conn: Connection, r: T.Reply) returns (out: Option<T.Segment>)
      requires calls == []
      modifies this, conn
      ensures conn.State() == T.AfterCall(old(conn.State()).To(T.Closed), r) && out == Some(T.RstAckOf(conn.State()))
      ensures calls == [T.Call(T.NONE.(timedOut := true), [])]
    {
      conn.Enter(T.Closed);
      flags := T.NONE.(timedOut := true);
      AppCall(conn, [], r);
      var seg := Send(conn, false, false, true, false, true, []);
      return Some(seg);
    }

    method TimerFired(conn: Connection, r: T.Reply) returns (out: Option<T.Segment>)
      requires r.Valid() && T.Sized(conn.State()) && conn.timer == 255 && conn.len > 0
      requires calls == [] && slen == 0
      requires !(conn.phase == T.Closed && !conn.stopped)
      requires !((conn.phase == T.TimeWait || conn.phase == T.FinWait2) && !conn.stopped)
      modifies this, conn
      ensures var o := T.OnTimer(old(conn.State()).(timer := 0), r);
              conn.State() == o.conn && out == o.sent && calls == o.calls
    {
      hide T.AppSend, T.AppRexmit, T.CallAndSend;
      var unstopped := !conn.stopped;
      if conn.nrtx == T.MAXRTX ||
         (((conn.phase == T.SynSent && unstopped) || (conn.phase == T.SynRcvd && unstopped)) && conn.nrtx == T.MAXSYNRTX) {
        out := GiveUp(conn, r);
        return;
      }
      conn.timer := ShiftedRto(if conn.nrtx > 4 then 4 else conn.nrtx);
      conn.nrtx := Wrap8(conn.nrtx, 1);
      out := Retransmit(conn, r);
    }

    /** The switch over the state when the retransmission timer fired. */
    method Retransmit(conn: Connection, r: T.Reply) returns (out: Option<T.Segment>)
      requires r.Valid() && T.Sized(conn.State()) && calls == [] && slen == 0
      modifies this, conn
      ensures var o := T.Retransmit(old(conn.State()), r);
              conn.State() == o.conn && out == o.sent && calls == o.calls
    {
      var seg: T.Segment;
      match conn.phase {
        case SynRcvd => seg := Send(conn, false, true, false, false, true, []);
        case SynSent => seg := Send(conn, false, true, false, false, false, []);
        case Established =>
          flags := T.NONE.(rexmit := true);
          AppCall(conn, [], r);
          out := AppRexmit(conn, r.buffer);
          return;
        case FinWait1 => seg := Send(conn, true, false, false, false, true, []);
        case Closing => seg := Send(conn, true, false, false, false, true, []);
        case LastAck => seg := Send(conn, true, false, false, false, true, []);
        case _ => return None;
      }
      return Some(seg);
    }

    /** UIP_RTO << k */
    function ShiftedRto(k: u8): (r: u8)
      requires k <= 4
      ensures r == T.Backoff(k)
    {
      if k == 0 then T.RTO else var d := ShiftedRto(k - 1); d * 2
    }

    /** uip_process(UIP_POLL_REQUEST) */
    method Poll(conn: Connection, r: T.Reply) returns (out: Option<T.Segment>)
      requires r.Valid() && T.Sized(conn.State())
      modifies this, conn
      ensures var o := T.OnPoll(old(conn.State()), old(slen), r);
              conn.State() == o.conn && out == o.sent && calls == o.calls
    {
      calls, out := [], None;
      if conn.phase == T.Established && conn.len == 0 {
        flags := T.NONE.(poll := true);
        out := CallAndSend(conn, [], r);
      }
    }

    /** The code from the `found` label on. */
    method Found(conn: Connection, s: T.Segment, measuredRto: u8, r: T.Reply) returns (out: Option<T.Segment>)
      requires r.Valid() && T.Sized(conn.State()) && |s.data| <= T.TCP_MSS
      modifies this, conn
      ensures var o := T.OnSegment(old(conn.State()), s, measuredRto, r);
              conn.State() == o.conn && out == o.sent && calls == o.calls
    {
      calls, flags, out := [], T.NONE, None;
      if s.rst {
        conn.Enter(T.Closed);
        flags := T.NONE.(abort := true);
        AppCall(conn, [], r);
        return;
      }
      if !(conn.phase == T.SynSent && s.syn && s.ack && !s.fin && !s.psh) &&
         (|s.data| > 0 || s.syn || s.fin) && s.seqno != Value(conn.rcvNxt) {
        out := SendAck(conn);
        return;
      }
      Acknowledge(conn, s, measuredRto);
      out := StateSwitch(conn, s, r);
    }

    method SendAck(conn: Connection) returns (out: Option<T.Segment>)
      ensures out == Some(T.AckOf(conn.State()))
    {
      var seg := Send(conn, false, false, false, false, true, []);
      return Some(seg);
    }

    /** Sets the ACKDATA flag when the segment acknowledges the outstanding data. */
    method Acknowledge(conn: Connection, s: T.Segment, measuredRto: u8)
      requires flags == T.NONE
      modifies this`flags, conn
      ensures conn.State() == T.AfterAck(old(conn.State()), s, measuredRto)
      ensures flags == T.NONE.(acked := T.Acknowledges(old(conn.State()), s))
    {
      if s.ack && conn.len > 0 {
        var acc := Add32(conn.sndNxt, conn.len);
        if s.ackno == Value(acc) {
          conn.sndNxt := acc;
          if conn.nrtx == 0 { conn.rto := measuredRto; }
          flags := T.NONE.(acked := true);
          conn.timer := conn.rto;
          conn.len := 0;
        }
      }
    }

    method StateSwitch(conn: Connection, s: T.Segment, r: T.Reply) returns (out: Option<T.Segment>)
      requires r.Valid() && T.Sized(conn.State()) && |s.data| <= T.TCP_MSS && !s.rst
      requires calls == [] && flags == T.NONE.(acked := flags.acked) && (flags.acked ==> conn.len == 0)
      modifies this, conn
      ensures var o := T.InState(old(conn.State()), old(flags.acked), s, r);
              conn.State() == o.conn && out == o.sent && calls == o.calls
    {
      match conn.phase {
        case SynRcvd => out := InSynRcvd(conn, s, r);
        case SynSent => out := InSynSent(conn, s, r);
        case Established => out := InEstablished(conn, s, r);
        case LastAck =>
          out := None;
          if flags.acked {
            conn.Enter(T.Closed);
            flags := T.NONE.(close := true);
            AppCall(conn, [], r);
          }
        case FinWait1 => out := InFinWait1(conn, s, r);
        case FinWait2 => out := InFinWait2(conn, s, r);
        case TimeWait => out := SendAck(conn);
        case Closing =>
          out := None;
          if flags.acked {
            conn.Enter(T.TimeWait);
            conn.timer := 0;
          }
        case Closed => out := None;
      }
    }

    method InSynRcvd(conn: Connection, s: T.Segment, r: T.Reply) returns (out: Option<T.Segment>)
      requires r.Valid() && T.Sized(conn.State()) && |s.data| <= T.TCP_MSS && calls == []
      requires flags.acked ==> conn.len == 0
      modifies this, conn
      ensures var o := T.InSynRcvd(old(conn.State()), old(flags.acked), s, r);
              conn.State() == o.conn && out == o.sent && calls == o.calls
    {
      if !flags.acked { return None; }
      conn.Enter(T.Established);
      flags := T.NONE.(connected := true);
      conn.len := 0;
      if |s.data| > 0 {
        flags := flags.(newData := true);
      }
      conn.AddRcvNxt(|s.data|);
      slen := 0;
      out := CallAndSend(conn, s.data, r);
    }

    method OfferedMss(conn: Connection, s: T.Segment)
      modifies conn`mss, conn`initialMss
      ensures conn.State() == T.OfferedMss(s, old(conn.State()))
    {
      match s.mssOption {
        case None =>
        case Some(m) =>
          conn.mss := if m > T.TCP_MSS then T.TCP_MSS else m;
          conn.initialMss := conn.mss;
      }
    }

    method InSynSent(conn: Connection, s: T.Segment, r: T.Reply) returns (out: Option<T.Segment>)
      requires r.Valid() && T.Sized(conn.State()) && calls == [] && !s.rst
      requires flags.acked ==> conn.len == 0
      modifies this, conn
      ensures var o := T.InSynSent(old(conn.State()), old(flags.acked), s, r);
              conn.State() == o.conn && out == o.sent && calls == o.calls
    {
      if flags.acked && s.syn && s.ack && !s.fin && !s.psh {
        OfferedMss(conn, s);
        conn.Enter(T.Established);
        conn.rcvNxt := FromValue(s.seqno);
        conn.AddRcvNxt(1);
        flags := T.NONE.(connected := true, newData := true);
        conn.len := 0;
        slen := 0;
        out := CallAndSend(conn, [], r);
      } else {
        flags := T.NONE.(abort := true);
        AppCall(conn, [], r);
        conn.Enter(T.Closed);
        out := Reset(s);
      }
    }

    /** The reset label. */
    method Reset(s: T.Segment) returns (out: Option<T.Segment>)
      ensures out == T.ResetReply(s)
    {
      if s.rst { return None; }
      var ackno := Increment(FromValue(s.seqno));
      return Some(T.Segment(false, false, true, false, true, s.ackno, Value(ackno), s.wnd, None, []));
    }

    method InEstablished(conn: Connection, s: T.Segment, r: T.Reply) returns (out: Option<T.Segment>)
      requires r.Valid() && T.Sized(conn.State()) && |s.data| <= T.TCP_MSS
      requires calls == [] && flags == T.NONE.(acked := flags.acked) && (flags.acked ==> conn.len == 0)
      modifies this, conn
      ensures var o := T.InEstablished(old(conn.State()), old(flags.acked), s, r);
              conn.State() == o.conn && out == o.sent && calls == o.calls
    {
      if s.fin && !conn.stopped {
        out := PassiveClose(conn, s, r);
        return;
      }
      if |s.data| > 0 && !conn.stopped {
        flags := flags.(newData := true);
        conn.AddRcvNxt(|s.data|);
      }
      UpdateMss(conn, s.wnd);
      if flags.newData || flags.acked {
        slen := 0;
        out := CallAndSend(conn, s.data, r);
      } else {
        out := None;
      }
    }

    /** The current MSS follows the advertised window, but a zero window means a full segment. */
    method UpdateMss(conn: Connection, wnd: u16)
      modifies conn`mss
      ensures conn.State() == T.WindowMss(old(conn.State()), wnd)
    {
      var window := wnd;
      if window > conn.initialMss || window == 0 {
        window := conn.initialMss;
      }
      conn.mss := window;
    }

    /** The peer's FIN while the connection is open. */
    method PassiveClose(conn: Connection, s: T.Segment, r: T.Reply) returns (out: Option<T.Segment>)
      requires r.Valid() && T.Sized(conn.State()) && |s.data| <= T.TCP_MSS && s.fin && !conn.stopped
      requires calls == [] && flags == T.NONE.(acked := flags.acked)
      modifies this, conn
      ensures var o := T.InEstablished(old(conn.State()), old(flags.acked), s, r);
              conn.State() == o.conn && out == o.sent && calls == o.calls
    {
      if conn.len > 0 { return None; }
      conn.AddRcvNxt(1 + |s.data|);
      flags := flags.(close := true);
      if |s.data| > 0 { flags := flags.(newData := true); }
      AppCall(conn, s.data, r);
      conn.len := 1;
      conn.Enter(T.LastAck);
      conn.nrtx := 0;
      var seg := Send(conn, true, false, false, false, true, []);
      return Some(seg);
    }

    /** The FIN of the peer once this side has closed. */
    method PeerFin(conn: Connection, r: T.Reply) returns (out: Option<T.Segment>)
      requires calls == []
      modifies this, conn
      ensures conn.State() == T.AfterCall(old(conn.State()).Received(1), r) && out == Some(T.AckOf(conn.State()))
      ensures calls == [T.Call(T.NONE.(close := true), [])]
    {
      conn.AddRcvNxt(1);
      flags := T.NONE.(close := true);
      AppCall(conn, [], r);
      out := SendAck(conn);
    }

    method InFinWait1(conn: Connection, s: T.Segment, r: T.Reply) returns (out: Option<T.Segment>)
      requires |s.data| <= T.TCP_MSS && calls == [] && (flags.acked ==> conn.len == 0)
      modifies this, conn
      ensures var o := T.InFinWait1(old(conn.State()), old(flags.acked), s, r);
              conn.State() == o.conn && out == o.sent && calls == o.calls
    {
      conn.AddRcvNxt(|s.data|);
      if s.fin {
        if flags.acked {
          conn.Enter(T.TimeWait);
          conn.timer := 0;
          conn.len := 0;
        } else {
          conn.Enter(T.Closing);
        }
        out := PeerFin(conn, r);
      } else if flags.acked {
        conn.Enter(T.FinWait2);
        conn.len := 0;
        out := None;
      } else if |s.data| > 0 {
        out := SendAck(conn);
      } else {
        out := None;
      }
    }

    method InFinWait2(conn: Connection, s: T.Segment, r: T.Reply) returns (out: Option<T.Segment>)
      requires |s.data| <= T.TCP_MSS && calls == []
      modifies this, conn
      ensures var o := T.InFinWait2(old(conn.State()), s, r);
              conn.State() == o.conn && out == o.sent && calls == o.calls
    {
      conn.AddRcvNxt(|s.data|);
      if s.fin {
        conn.Enter(T.TimeWait);
        conn.timer := 0;
        out := PeerFin(conn, r);
      } else if |s.data| > 0 {
        out := SendAck(conn);
      } else {
        out := None;
      }
    }
  }
}
