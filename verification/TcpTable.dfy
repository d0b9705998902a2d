/** The connection table: demultiplexing, passive and active opens, slot reuse, local ports. */
module TcpTable {
  import opened Bytes
  import opened SequenceNumbers
  import T = Tcp
  import L = TcpLifecycle
  import opened TcpConnection

  const FIRST_PORT: nat := 4096
  const PORT_LIMIT: nat := 32000
  const MAX_CONNS: nat := 255    // the loops count in an unsigned byte

  /** A TCP packet: its addresses and the segment. Ports are in network byte order. */
  datatype Packet = Packet(srcip: u32, srcport: u16, destport: u16, seg: T.Segment)

  predicate Matches(c: T.Conn, p: Packet) {
    !c.Is(T.Closed) && p.destport == c.lport && p.srcport == c.rport && p.srcip == c.ripaddr
  }

  predicate SameEndpoints(c: T.Conn, d: T.Conn) {
    c.lport == d.lport && c.rport == d.rport && c.ripaddr == d.ripaddr
  }

  /** No two live entries stand for the same pair of endpoints. */
  ghost predicate Unambiguous(cs: seq<T.Conn>) {
    forall i, j :: 0 <= i < j < |cs| && !cs[i].Is(T.Closed) && !cs[j].Is(T.Closed) ==> !SameEndpoints(cs[i], cs[j])
  }

  ghost predicate AllInv(cs: seq<T.Conn>) { forall i :: 0 <= i < |cs| ==> L.Inv(cs[i]) }

  /** The entry to reuse: the first closed one, otherwise the first of the oldest waiting ones. */
  ghost predicate IsReusable(cs: seq<T.Conn>, k: nat) {
    && k < |cs|
    && if exists i :: 0 <= i < |cs| && cs[i].Is(T.Closed) then
         cs[k].Is(T.Closed) && forall i :: 0 <= i < k ==> !cs[i].Is(T.Closed)
       else
         && cs[k].Is(T.TimeWait)
         && (forall i :: 0 <= i < |cs| && cs[i].Is(T.TimeWait) ==> cs[i].timer <= cs[k].timer)
         && (forall i :: 0 <= i < k && cs[i].Is(T.TimeWait) ==> cs[i].timer < cs[k].timer)
  }

  ghost predicate NothingReusable(cs: seq<T.Conn>) {
    forall i :: 0 <= i < |cs| ==> !cs[i].Is(T.Closed) && !cs[i].Is(T.TimeWait)
  }

  lemma ReusableIsUnique(cs: seq<T.Conn>, j: nat, k: nat)
    requires IsReusable(cs, j) && IsReusable(cs, k)
    ensures j == k
  {
  }

  /** A matching entry is the only one, whatever order the table is searched in. */
  lemma MatchIsUnique(cs: seq<T.Conn>, p: Packet, i: nat, j: nat)
    requires Unambiguous(cs) && i < |cs| && j < |cs| && Matches(cs[i], p) && Matches(cs[j], p)
    ensures i == j
  {
  }

  /** A segment processed by its connection cannot make the table ambiguous: endpoints never
      change and a closed entry never comes back to life. */
  lemma StepStaysUnambiguous(cs: seq<T.Conn>, k: nat, d: T.Conn)
    requires Unambiguous(cs) && k < |cs| && SameEndpoints(cs[k], d)
    requires cs[k].Is(T.Closed) ==> d.Is(T.Closed)
    ensures Unambiguous(cs[k := d])
  {
    var t := cs[k := d];
    forall i, j | 0 <= i < j < |t| && !t[i].Is(T.Closed) && !t[j].Is(T.Closed)
      ensures !SameEndpoints(t[i], t[j])
    {
      assert !SameEndpoints(cs[i], cs[j]);
    }
  }

  lemma OpenStaysUnambiguous(cs: seq<T.Conn>, k: nat, d: T.Conn)
    requires Unambiguous(cs) && k < |cs|
    requires forall i :: 0 <= i < |cs| && !cs[i].Is(T.Closed) ==> !SameEndpoints(cs[i], d)
    ensures Unambiguous(cs[k := d])
  {
    var t := cs[k := d];
    forall i, j | 0 <= i < j < |t| && !t[i].Is(T.Closed) && !t[j].Is(T.Closed)
      ensures !SameEndpoints(t[i], t[j])
    {
      assert i != k && j != k ==> !SameEndpoints(cs[i], cs[j]);
    }
  }

  /** An entry that was opened matches the packets of its peer, whatever they carry. */
  lemma OpenMatchesPeer(entry: T.Conn, lport: u16, rport: u16, ripaddr: u32, iss: u32, syn: T.Segment, s: T.Segment)
    ensures Matches(T.Opened(entry, lport, rport, ripaddr, iss), Packet(ripaddr, rport, lport, s))
    ensures Matches(T.Accepted(entry, lport, rport, ripaddr, iss, syn), Packet(ripaddr, rport, lport, s))
  {
  }

  lemma SendKeepsEndpoints(c: T.Conn, f: T.Flags, data: seq<u8>, r: T.Reply)
    requires r.Valid() && T.Sized(c)
    ensures SameEndpoints(c, T.CallAndSend(c, f, data, r).conn)
  {
  }

  lemma StateKeepsEndpoints(c: T.Conn, acked: bool, s: T.Segment, r: T.Reply)
    requires r.Valid() && T.Sized(c)
    ensures SameEndpoints(c, T.InState(c, acked, s, r).conn)
  {
    match c.phase
    case SynRcvd =>
      SendKeepsEndpoints(c.To(T.Established).Received(|s.data|), T.NONE.(connected := true, newData := |s.data| > 0), s.data, r);
    case SynSent =>
      SendKeepsEndpoints(T.OfferedMss(s, c).To(T.Established).(rcvNxt := Plus(s.seqno, 1)), T.NONE.(connected := true, newData := true), [], r);
    case Established =>
      var newData := |s.data| > 0 && !c.stopped;
      SendKeepsEndpoints(T.WindowMss(if newData then c.Received(|s.data|) else c, s.wnd), T.NONE.(acked := acked, newData := newData), s.data, r);
    case _ =>
  }

  lemma SegmentKeepsEndpoints(c: T.Conn, s: T.Segment, rto: u8, r: T.Reply)
    requires r.Valid() && T.Sized(c)
    ensures SameEndpoints(c, T.OnSegment(c, s, rto, r).conn)
  {
    StateKeepsEndpoints(T.AfterAck(c, s, rto), T.Acknowledges(c, s), s, r);
  }

  lemma TimerKeepsEndpoints(c: T.Conn, r: T.Reply)
    requires r.Valid() && T.Sized(c)
    ensures SameEndpoints(c, T.OnTimer(c, r).conn)
    ensures c.Is(T.Closed) ==> T.OnTimer(c, r).conn.Is(T.Closed)
  {
  }

  lemma PollKeepsEndpoints(c: T.Conn, staleSlen: u16, r: T.Reply)
    requires r.Valid() && T.Sized(c)
    ensures SameEndpoints(c, T.OnPoll(c, staleSlen, r).conn)
    ensures c.Is(T.Closed) ==> T.OnPoll(c, staleSlen, r).conn.Is(T.Closed)
  {
  }

  /** The outcome for a packet that no entry matches. */
  ghost predicate Unmatched(cs: seq<T.Conn>, p: Packet, listening: bool, iss: u32, after: seq<T.Conn>, out: Option<T.Segment>) {
    if p.seg.OnlySyn() && listening then
      || (NothingReusable(cs) && after == cs && out == None)
      || exists k: nat :: IsReusable(cs, k)
           && var d := T.Accepted(cs[k], p.destport, p.srcport, p.srcip, iss, p.seg);
              after == cs[k := d] && out == Some(T.SynAckOf(d))
    else after == cs && out == T.ResetReply(p.seg)
  }

  /** A reset is the answer exactly to what is neither a SYN for a listening port nor a reset itself; such a
      SYN takes the reusable entry, if there is one, which waits for the peer's acknowledgement of the SYN|ACK
      sent back. */
  lemma UnmatchedMeans(cs: seq<T.Conn>, p: Packet, listening: bool, iss: u32, after: seq<T.Conn>, out: Option<T.Segment>)
    requires Unmatched(cs, p, listening, iss, after, out)
    ensures (out.Some? && out.value.rst) <==> !p.seg.rst && !(p.seg.OnlySyn() && listening)
    ensures after != cs ==> out.Some? && out.value.SynAck() && out.value.ackno == Plus(p.seg.seqno, 1) && out.value.seqno == iss
    ensures p.seg.OnlySyn() && listening ==>
              (out.Some? <==> exists k: nat :: k < |cs| == |after| && IsReusable(cs, k) && Waiting(after[k], p) && after == cs[k := after[k]])
  {
    if p.seg.OnlySyn() && listening {
      if out.Some? {
        var k: nat :| IsReusable(cs, k) && after == cs[k := T.Accepted(cs[k], p.destport, p.srcport, p.srcip, iss, p.seg)];
        assert Waiting(after[k], p);
      }
      assert forall k: nat :: IsReusable(cs, k) ==> cs[k].Is(T.Closed) || cs[k].Is(T.TimeWait);
    }
  }

  /** The entry of a connection that was just accepted. */
  predicate Waiting(c: T.Conn, p: Packet) { c.Is(T.SynRcvd) && c.len == 1 && c.nrtx == 0 && Matches(c, p) && c.rcvNxt == Plus(p.seg.seqno, 1) }

  /** There is an entry to reuse exactly when one is closed or waits. */
  lemma {:induction false} ReusableExists(cs: seq<T.Conn>)
    ensures NothingReusable(cs) <==> !exists k: nat :: IsReusable(cs, k)
    decreases |cs|
  {
    if cs != [] {
      var n := |cs| - 1;
      var front := cs[..n];
      ReusableExists(front);
      if !NothingReusable(front) {
        var k: nat :| IsReusable(front, k);
        assert IsReusable(cs, k) || IsReusable(cs, n);
      } else if !NothingReusable(cs) {
        assert IsReusable(cs, n);
      }
    }
  }

  /** It is one that no other would have preceded in closing. */
  lemma ReusedClosesFirst(cs: seq<T.Conn>, k: nat, i: nat)
    requires AllInv(cs) && IsReusable(cs, k) && i < |cs| && (cs[i].Is(T.Closed) || cs[i].Is(T.TimeWait))
    requires forall j :: 0 <= j < |cs| && cs[j].Is(T.TimeWait) ==> cs[j].timer < T.TIME_WAIT_TIMEOUT
    ensures L.TicksLeft(cs[k]) <= L.TicksLeft(cs[i])
  {
    assert L.Inv(cs[k]) && L.Inv(cs[i]);
  }

  // ---- Local ports ----

  function NextPort(p: nat): nat { if p + 1 >= PORT_LIMIT then FIRST_PORT else p + 1 }

  /** The port after n tries. */
  function NthPort(p: nat, n: nat): (r: nat)
    requires p < PORT_LIMIT && n <= PORT_LIMIT - FIRST_PORT
    ensures r < PORT_LIMIT
  {
    if p + n < PORT_LIMIT then p + n else p + n - (PORT_LIMIT - FIRST_PORT)
  }

  lemma NthPortDistinct(p: nat, i: nat, j: nat)
    requires p < PORT_LIMIT && i < j <= 1 + MAX_CONNS
    ensures NthPort(p, i) != NthPort(p, j)
    ensures NthPort(p, i + 1) == NextPort(NthPort(p, i))
  {
  }

  lemma HtonsInjective(order: Order, x: u16, y: u16)
    requires Htons(order, x) == Htons(order, y)
    ensures x == y
  {
    SwapTwice(x);
    SwapTwice(y);
  }

  /** n failed tries, each blocked by a live entry holding that port. */
  ghost predicate Blocked(cs: seq<T.Conn>, order: Order, p: nat, holder: seq<nat>)
    requires p < PORT_LIMIT && |holder| <= 1 + MAX_CONNS
  {
    forall i :: 0 <= i < |holder| ==> holder[i] < |cs| && cs[holder[i]].lport == Htons(order, NthPort(p, i + 1))
  }

  /** Pigeonhole: there cannot be more blocked tries than entries. */
  lemma PortSearchEnds(cs: seq<T.Conn>, order: Order, p: nat, holder: seq<nat>)
    requires p < PORT_LIMIT && |holder| <= 1 + MAX_CONNS
    requires Blocked(cs, order, p, holder)
    ensures |holder| <= |cs|
  {
    forall i, j | 0 <= i < j < |holder| ensures holder[i] != holder[j] {
      NthPortDistinct(p, i + 1, j + 1);
      if holder[i] == holder[j] { HtonsInjective(order, NthPort(p, i + 1), NthPort(p, j + 1)); }
    }
    DistinctBounded(holder, |cs|);
  }

  lemma {:induction false} DistinctBounded(s: seq<nat>, bound: nat)
    requires forall i :: 0 <= i < |s| ==> s[i] < bound
    requires forall i, j :: 0 <= i < j < |s| ==> s[i] != s[j]
    ensures |s| <= bound
    decreases bound
  {
    if |s| > 0 {
      assert s[0] < bound;
      if bound - 1 in s {
        var k :| 0 <= k < |s| && s[k] == bound - 1;
        DistinctBounded(s[..k] + s[k + 1..], bound - 1);
      } else {
        DistinctBounded(s, bound - 1);
      }
    }
  }

  // ---- Listening ports ----

  /** The index of the first x, the length if there is none. */
  function IndexOf(s: seq<u16>, x: u16): (k: nat)
    ensures k <= |s| && (k < |s| ==> s[k] == x) && forall i :: 0 <= i < k ==> s[i] != x
  {
    if s == [] || s[0] == x then 0 else 1 + IndexOf(s[1..], x)
  }

  /** Both loops over the listening ports: the first slot that holds x gets y. */
  function Replaced(s: seq<u16>, x: u16, y: u16): seq<u16> {
    var k := IndexOf(s, x);
    if k < |s| then s[k := y] else s
  }

  /** What listening on a port adds: the port itself, at the cost of a free slot. */
  lemma ListenAdds(s: seq<u16>, port: u16)
    requires port != 0
    ensures port in Replaced(s, 0, port) <==> port in s || 0 in s
    ensures forall q :: q != port && q != 0 ==> (q in Replaced(s, 0, port) <==> q in s)
    ensures multiset(Replaced(s, 0, port))[0] == if 0 in s then multiset(s)[0] - 1 else 0
  {
    var k, t := IndexOf(s, 0), Replaced(s, 0, port);
    if k < |s| {
      assert t[k] == port && s[k] == 0;
      forall q | q != port && q != 0 ensures q in t <==> q in s {
        if q in s { var i :| 0 <= i < |s| && s[i] == q; assert t[i] == q; }
      }
    }
  }

  /** uip_unlisten undoes uip_listen unless the port had an entry before the first free slot. */
  lemma UnlistenUndoesListen(s: seq<u16>, port: u16)
    ensures Replaced(Replaced(s, 0, port), port, 0) == s <==> port == 0 || port !in s[..IndexOf(s, 0)]
  {
    var k, t := IndexOf(s, 0), Replaced(s, 0, port);
    var j := IndexOf(t, port);
    if port == 0 {
      assert t == s;
    } else if port in s[..k] {
      var i :| 0 <= i < k && s[..k][i] == port;
      assert t[i] == port;
      assert s[j] != 0 && Replaced(t, port, 0)[j] == 0;
    } else {
      assert forall i :: 0 <= i < k ==> t[i] == s[..k][i];
      if k < |s| { assert t[k] == port; }
    }
  }

  class Stack {
    const conns: array<Connection>
    const listenPorts: array<u16>
    const order: Order
    const engine: Engine
    var iss: Word32
    var lastport: u16

    ghost predicate Valid()
      reads this, conns, listenPorts
    {
      && conns.Length <= MAX_CONNS && lastport < PORT_LIMIT
      && forall i, j :: 0 <= i < j < conns.Length ==> conns[i] != conns[j]
    }

    ghost function Table(): (cs: seq<T.Conn>)
      reads conns, conns[..]
      ensures |cs| == conns.Length
    {
      seq(conns.Length, i requires 0 <= i < conns.Length reads conns, conns[..] => conns[i].State())
    }

    /** The table invariant: every entry is sound and no two live ones share their endpoints. */
    ghost predicate TableInv()
      reads this, conns, listenPorts, conns[..]
    {
      Valid() && AllInv(Table()) && Unambiguous(Table())
    }

    static method ClosedEntries(n: nat) returns (list: seq<Connection>)
      ensures |list| == n && fresh(list) && forall i, j :: 0 <= i < j < n ==> list[i] != list[j]
      ensures forall i :: 0 <= i < n ==> L.Inv(list[i].State()) && list[i].State().Is(T.Closed)
    {
      list := [];
      for k := 0 to n
        invariant |list| == k && fresh(list)
        invariant forall i, j :: 0 <= i < j < k ==> list[i] != list[j]
        invariant forall i :: 0 <= i < k ==> L.Inv(list[i].State()) && list[i].State().Is(T.Closed)
      {
        var c := new Connection();
        list := list + [c];
      }
    }

    /** uip_init: no connection, and no port but 0 is listened on. */
    constructor (nconns: nat, nports: nat, order: Order)
      requires nconns <= MAX_CONNS
      ensures TableInv() && fresh(conns) && conns.Length == nconns && listenPorts.Length == nports
      ensures forall i :: 0 <= i < nconns ==> Table()[i].Is(T.Closed)
      ensures forall i :: 0 <= i < nports ==> listenPorts[i] == 0
    {
      hide L.Inv;
      this.order := order;
      listenPorts := new u16[nports](_ => 0);
      engine := new Engine();
      iss := Word32(0, 0, 0, 0);
      lastport := 1024;
      var list := ClosedEntries(nconns);
      conns := new Connection[nconns](i requires 0 <= i < |list| => list[i]);
    }

    /** The search for an entry to reuse, in found_listen and in uip_connect. */
    method FindReusable() returns (slot: Option<nat>)
      requires Valid()
      ensures match slot case Some(k) => IsReusable(Table(), k) case None => NothingReusable(Table())
    {
      slot := None;
      ghost var cs := Table();
      for c := 0 to conns.Length
        invariant forall i :: 0 <= i < c ==> !cs[i].Is(T.Closed)
        invariant slot == None ==> forall i :: 0 <= i < c ==> !cs[i].Is(T.TimeWait)
        invariant slot.Some? ==> slot.value < c && cs[slot.value].Is(T.TimeWait)
        invariant slot.Some? ==> forall i :: 0 <= i < c && cs[i].Is(T.TimeWait) ==> cs[i].timer <= cs[slot.value].timer
        invariant slot.Some? ==> forall i :: 0 <= i < slot.value && cs[i].Is(T.TimeWait) ==> cs[i].timer < cs[slot.value].timer
      {
        assert cs[c] == conns[c].State();
        if conns[c].phase == T.Closed && !conns[c].stopped {
          return Some(c);
        }
        if conns[c].phase == T.TimeWait && !conns[c].stopped {
          if slot == None || conns[c].timer > conns[slot.value].timer {
            slot := Some(c);
          }
        }
      }
    }

    /** The demultiplexing loop over the active connections. */
    method FindActive(p: Packet) returns (slot: Option<nat>)
      requires Valid()
      ensures match slot
              case Some(k) => k < conns.Length && Matches(Table()[k], p)
              case None => forall i :: 0 <= i < conns.Length ==> !Matches(Table()[i], p)
    {
      for c := 0 to conns.Length
        invariant forall i :: 0 <= i < c ==> !Matches(Table()[i], p)
      {
        var conn := conns[c];
        assert Table()[c] == conn.State();
        if !(conn.phase == T.Closed && !conn.stopped) && p.destport == conn.lport && p.srcport == conn.rport && p.srcip == conn.ripaddr {
          return Some(c);
        }
      }
      return None;
    }

    ghost predicate PortFree(cs: seq<T.Conn>, port: nat)
      requires port < PORT_LIMIT
    {
      forall i :: 0 <= i < |cs| && !cs[i].Is(T.Closed) ==> cs[i].lport != Htons(order, port)
    }

    /** The search for an unused local port. */
    method NewLocalPort() returns (ghost tries: nat)
      requires Valid()
      modifies this`lastport
      ensures Valid() && 1 <= tries <= conns.Length + 1
      ensures lastport == NthPort(old(lastport), tries)
      ensures PortFree(Table(), lastport)
    {
      ghost var cs := Table();
      ghost var start := lastport;
      ghost var holder: seq<nat> := [];
      tries := 0;
      var free := false;
      while !free
        invariant Valid() && |holder| <= conns.Length
        invariant Blocked(cs, order, start, holder)
        invariant tries == |holder| + (if free then 1 else 0) && lastport == NthPort(start, tries)
        invariant free ==> PortFree(cs, lastport)
        decreases !free, conns.Length + 1 - |holder|
      {
        NthPortDistinct(start, tries, tries + 1);
        lastport := lastport + 1;
        if lastport >= PORT_LIMIT {
          lastport := FIRST_PORT;
        }
        tries := tries + 1;
        var h := PortHolder();
        free := h == None;
        if h.Some? {
          holder := holder + [h.value];
          PortSearchEnds(cs, order, start, holder);
        }
      }
    }

    /** uip_connect */
    method Connect(ripaddr: u32, rport: u16) returns (slot: Option<nat>, ghost tries: nat)
      requires TableInv()
      modifies this`lastport, conns[..]
      ensures TableInv() && 1 <= tries <= conns.Length + 1
      ensures lastport == NthPort(old(lastport), tries) && PortFree(old(Table()), lastport)
      ensures slot == None ==> NothingReusable(old(Table())) && Table() == old(Table())
      ensures slot.Some? ==>
                var k, was := slot.value, old(Table());
                && IsReusable(was, k)
                && Table() == was[k := T.Opened(was[k], Htons(order, lastport), rport, ripaddr, Value(iss))]
    {
      ghost var cs := Table();
      tries := NewLocalPort();
      slot := FindReusable();
      if slot.Some? {
        var conn := conns[slot.value];
        OpenConnection(conn, ripaddr, rport);
        ghost var d := T.Opened(cs[slot.value], Htons(order, lastport), rport, ripaddr, Value(iss));
        assert Table() == cs[slot.value := d];
        OpenStaysUnambiguous(cs, slot.value, d);
      }
    }

    /** Is the current local port held by a live entry? */
    method PortHolder() returns (h: Option<nat>)
      requires Valid()
      ensures match h
              case Some(i) => i < conns.Length && Table()[i].lport == Htons(order, lastport)
              case None => PortFree(Table(), lastport)
    {
      for c := 0 to conns.Length
        invariant forall i :: 0 <= i < c && !Table()[i].Is(T.Closed) ==> Table()[i].lport != Htons(order, lastport)
      {
        var conn := conns[c];
        assert Table()[c] == conn.State();
        if !(conn.phase == T.Closed && !conn.stopped) && conn.lport == Htons(order, lastport) {
          return Some(c);
        }
      }
      return None;
    }

    method OpenConnection(conn: Connection, ripaddr: u32, rport: u16)
      requires lastport < PORT_LIMIT
      modifies conn
      ensures conn.State() == T.Opened(old(conn.State()), Htons(order, lastport), rport, ripaddr, Value(iss))
    {
      conn.Enter(T.SynSent);
      conn.sndNxt := iss;
      conn.mss := T.TCP_MSS;
      conn.initialMss := conn.mss;
      conn.len := 1;
      conn.nrtx := 0;
      conn.timer := 1;
      conn.rto := T.RTO;
      conn.lport := Htons(order, lastport);
      conn.rport := rport;
      conn.ripaddr := ripaddr;
    }

    /** The found_listen code. */
    method AcceptConnection(conn: Connection, p: Packet) returns (out: Option<T.Segment>)
      modifies conn
      ensures conn.State() == T.Accepted(old(conn.State()), p.destport, p.srcport, p.srcip, Value(iss), p.seg)
      ensures out == Some(T.SynAckOf(conn.State()))
    {
      conn.rto := T.RTO;
      conn.timer := T.RTO;
      conn.nrtx := 0;
      conn.lport := p.destport;
      conn.rport := p.srcport;
      conn.ripaddr := p.srcip;
      conn.Enter(T.SynRcvd);
      conn.sndNxt := iss;
      conn.len := 1;
      conn.rcvNxt := FromValue(p.seg.seqno);
      conn.AddRcvNxt(1);
      engine.OfferedMss(conn, p.seg);
      var seg := engine.Send(conn, false, true, false, false, true, []);
      return Some(seg);
    }

    /** TCP input: demultiplex, then process, accept, reset or drop. */
    method Input(p: Packet, measuredRto: u8, r: T.Reply) returns (out: Option<T.Segment>)
      requires TableInv() && r.Valid() && |p.seg.data| <= T.TCP_MSS
      modifies engine, conns[..]
      ensures TableInv()
      ensures forall k :: 0 <= k < conns.Length && Matches(old(Table())[k], p) ==>
                var o := T.OnSegment(old(Table())[k], p.seg, measuredRto, r);
                Table() == old(Table())[k := o.conn] && out == o.sent
      ensures (forall i :: 0 <= i < conns.Length ==> !Matches(old(Table())[i], p)) ==>
                Unmatched(old(Table()), p, p.destport in old(listenPorts[..]), Value(iss), Table(), out)
    {
      ghost var cs := Table();
      var slot := FindActive(p);
      if slot.Some? {
        forall k | 0 <= k < conns.Length && Matches(cs[k], p) ensures k == slot.value {
          MatchIsUnique(cs, p, k, slot.value);
        }
        out := InputMatched(slot.value, p.seg, measuredRto, r);
        return;
      }
      out := InputUnmatched(p);
    }

    method InputMatched(k: nat, s: T.Segment, measuredRto: u8, r: T.Reply) returns (out: Option<T.Segment>)
      requires TableInv() && r.Valid() && |s.data| <= T.TCP_MSS
      requires k < conns.Length && !Table()[k].Is(T.Closed)
      modifies engine, conns[k]
      ensures TableInv()
      ensures var o := T.OnSegment(old(Table())[k], s, measuredRto, r);
              Table() == old(Table())[k := o.conn] && out == o.sent
    {
      ghost var cs := Table();
      ghost var o := T.OnSegment(cs[k], s, measuredRto, r);
      L.SegmentKeepsInv(cs[k], s, measuredRto, r);
      SegmentKeepsEndpoints(cs[k], s, measuredRto, r);
      out := engine.Found(conns[k], s, measuredRto, r);
      assert Table() == cs[k := o.conn];
      StepStaysUnambiguous(cs, k, o.conn);
    }

    /** No entry matches: a SYN for a listening port takes an entry, anything else is reset. */
    method InputUnmatched(p: Packet) returns (out: Option<T.Segment>)
      requires TableInv() && forall i :: 0 <= i < conns.Length ==> !Matches(Table()[i], p)
      modifies conns[..]
      ensures TableInv()
      ensures Unmatched(old(Table()), p, p.destport in old(listenPorts[..]), Value(iss), Table(), out)
    {
      ghost var cs := Table();
      if !p.seg.OnlySyn() {
        out := engine.Reset(p.seg);
        return;
      }
      var listening := Listening(p.destport);
      if !listening {
        out := engine.Reset(p.seg);
        return;
      }
      out := Accept(p);
    }

    /** The found_listen label. */
    method Accept(p: Packet) returns (out: Option<T.Segment>)
      requires TableInv() && p.seg.OnlySyn() && forall i :: 0 <= i < conns.Length ==> !Matches(Table()[i], p)
      modifies conns[..]
      ensures TableInv()
      ensures Unmatched(old(Table()), p, true, Value(iss), Table(), out)
    {
      ghost var cs := Table();
      var slot := FindReusable();
      if slot == None {
        return None;
      }
      ghost var d := T.Accepted(cs[slot.value], p.destport, p.srcport, p.srcip, Value(iss), p.seg);
      out := AcceptConnection(conns[slot.value], p);
      assert Table() == cs[slot.value := d];
      OpenStaysUnambiguous(cs, slot.value, d);
    }

    method Listening(port: u16) returns (b: bool)
      ensures b <==> port in listenPorts[..]
    {
      for c := 0 to listenPorts.Length
        invariant port !in listenPorts[..c]
      {
        if listenPorts[c] == port { return true; }
      }
      assert listenPorts[..listenPorts.Length] == listenPorts[..];
      return false;
    }

    /** uip_listen */
    method Listen(port: u16)
      requires TableInv()
      modifies listenPorts
      ensures TableInv() && Table() == old(Table()) && listenPorts[..] == Replaced(old(listenPorts[..]), 0, port)
    {
      ghost var s := listenPorts[..];
      for c := 0 to listenPorts.Length
        invariant TableInv() && Table() == old(Table()) && listenPorts[..] == s && forall i :: 0 <= i < c ==> s[i] != 0
      {
        if listenPorts[c] == 0 {
          assert IndexOf(s, 0) == c;
          listenPorts[c] := port;
          return;
        }
      }
    }

    /** uip_unlisten */
    method Unlisten(port: u16)
      requires TableInv()
      modifies listenPorts
      ensures TableInv() && Table() == old(Table()) && listenPorts[..] == Replaced(old(listenPorts[..]), port, 0)
    {
      ghost var s := listenPorts[..];
      for c := 0 to listenPorts.Length
        invariant TableInv() && Table() == old(Table()) && listenPorts[..] == s && forall i :: 0 <= i < c ==> s[i] != port
      {
        if listenPorts[c] == port {
          assert IndexOf(s, port) == c;
          listenPorts[c] := 0;
          return;
        }
      }
    }

    /** A poll request for one entry, with the send length an earlier call left behind. */
    method Poll(k: nat, r: T.Reply) returns (out: Option<T.Segment>)
      requires TableInv() && r.Valid() && k < conns.Length
      modifies engine, conns[k]
      ensures TableInv()
      ensures var o := T.OnPoll(old(Table())[k], old(engine.slen), r);
              Table() == old(Table())[k := o.conn] && out == o.sent
    {
      ghost var cs, stale := Table(), engine.slen;
      L.PollKeepsInv(cs[k], stale, r);
      PollKeepsEndpoints(cs[k], stale, r);
      out := engine.Poll(conns[k], r);
      assert Table() == cs[k := T.OnPoll(cs[k], stale, r).conn];
      StepStaysUnambiguous(cs, k, T.OnPoll(cs[k], stale, r).conn);
    }

    /** The periodic call for one entry. */
    method Tick(k: nat, r: T.Reply) returns (out: Option<T.Segment>)
      requires TableInv() && r.Valid() && k < conns.Length
      modifies this`iss, engine, conns[k]
      ensures TableInv() && Value(iss) == Plus(old(Value(iss)), 1)
      ensures var o := T.OnTimer(old(Table())[k], r);
              Table() == old(Table())[k := o.conn] && out == o.sent
    {
      ghost var cs := Table();
      iss := Increment(iss);
      L.TimerKeepsInv(cs[k], r);
      TimerKeepsEndpoints(cs[k], r);
      out := engine.Timer(conns[k], r);
      assert Table() == cs[k := T.OnTimer(cs[k], r).conn];
      StepStaysUnambiguous(cs, k, T.OnTimer(cs[k], r).conn);
    }
  }
}
