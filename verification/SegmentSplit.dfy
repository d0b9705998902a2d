/** Splitting a full-sized TCP segment into two, so that the receiver's delayed acknowledgment does
    not stall a sender with one segment in flight. */
module SegmentSplit {
  import opened Bytes
  import opened InternetChecksum
  import opened IpPacket
  import N = SequenceNumbers

  /** A TCP segment without options, alone in its packet. */
  predicate IsSegment(p: seq<u8>) { WellFormed(p, TCPIP_HEADER) && Word(p, LEN) == |p| && p[PROTO] == PROTO_TCP }

  function SeqWord(p: seq<u8>): N.Word32
    requires |p| >= TCPIP_HEADER
  {
    N.Word32(p[SEQNO], p[SEQNO + 1], p[SEQNO + 2], p[SEQNO + 3])
  }

  function Seq(p: seq<u8>): u32
    requires |p| >= TCPIP_HEADER
  {
    N.Value(SeqWord(p))
  }

  function Payload(p: seq<u8>): seq<u8>
    requires |p| >= TCPIP_HEADER
  {
    p[TCPIP_HEADER..]
  }

  /** The bytes that a split may change in the headers: length, both checksums, sequence number. */
  predicate SplitField(k: nat) { k / 2 == 1 || k / 2 == 5 || k / 2 == 18 || k / 4 == 6 }

  ghost predicate SameHeaders(p: seq<u8>, q: seq<u8>) {
    |p| >= TCPIP_HEADER && |q| >= TCPIP_HEADER && forall k :: 0 <= k < TCPIP_HEADER && !SplitField(k) ==> p[k] == q[k]
  }

  /** a and b are the two halves of p. */
  ghost predicate Halves(p: seq<u8>, a: seq<u8>, b: seq<u8>) {
    && IsSegment(p) && IsSegment(a) && IsSegment(b) && SameHeaders(p, a) && SameHeaders(p, b)
    && IpValid(a) && TransportValid(a) && IpValid(b) && TransportValid(b)
    && |Payload(a)| == |Payload(p)| / 2
    && Payload(a) + Payload(b) == Payload(p)
    && Seq(a) == Seq(p) && Seq(b) == N.Plus(Seq(p), |Payload(a)|)
  }

  // ---- The receiver ----

  datatype Receiver = Receiver(rcvNxt: u32, data: seq<u8>)

  /** An in-order receiver takes the segment it waits for and ignores every other. */
  function Receive(r: Receiver, p: seq<u8>): Receiver
    requires |p| >= TCPIP_HEADER
  {
    Take(r, Seq(p), Payload(p))
  }

  function Take(r: Receiver, s: u32, x: seq<u8>): Receiver {
    if s != r.rcvNxt then r else Receiver(N.Plus(r.rcvNxt, |x|), r.data + x)
  }

  lemma TakeTwice(r: Receiver, s: u32, x: seq<u8>, y: seq<u8>)
    requires 0 < |x| < U32_MOD && 0 < |y|
    ensures var t := N.Plus(s, |x|); Take(Take(r, s, x), t, y) == Take(r, s, x + y) <==> r.rcvNxt != t
  {
    var t := N.Plus(s, |x|);
    assert t == s + |x| || t == s + |x| - U32_MOD;
    if r.rcvNxt == s {
      N.PlusPlus(s, |x|, |y|);
      assert r.data + (x + y) == r.data + x + y;
    } else if r.rcvNxt == t {
      assert |Take(r, t, y).data| == |r.data| + |y|;
    }
  }

  /** For the receiver the two halves are the segment, unless it waits for the second half already. */
  lemma SplitIsTransparent(p: seq<u8>, a: seq<u8>, b: seq<u8>, r: Receiver)
    requires Halves(p, a, b) && |Payload(p)| >= 2
    ensures Receive(Receive(r, a), b) == Receive(r, p) <==> r.rcvNxt != Seq(b)
  {
    assert |Payload(p)| == |Payload(a)| + |Payload(b)|;
    TakeTwice(r, Seq(p), Payload(a), Payload(b));
  }

  // ---- The split ----

  /** The checksums are filled in after the length is known. */
  lemma Refilled(order: Order, p: seq<u8>)
    requires WellFormed(p, TCPIP_HEADER) && p[PROTO] == PROTO_TCP
    ensures var q := IpFill(order, TcpFill(order, p));
            && |q| == |p| && IpValid(q) && TransportValid(q)
            && forall k :: 0 <= k < |p| && k / 2 != 5 && k / 2 != 18 ==> q[k] == p[k]
  {
    var t := TcpFill(order, p);
    var q := IpFill(order, t);
    hide TcpFill, IpFill, IpValid, TransportValid;
    TcpFillVerifies(order, p);
    IpFillVerifies(order, t);
    SameCover(t, q);
  }

  /** The header checksum is no part of what the transport checksum covers. */
  lemma SameCover(p: seq<u8>, q: seq<u8>)
    requires TransportValid(p) && SameExcept(p, q, IP_CHECKSUM)
    ensures TransportValid(q)
  {
    assert Word(q, LEN) == Word(p, LEN);
    assert Covered(q) == Covered(p);
  }

  method Refill(buf: array<u8>, order: Order)
    requires WellFormed(buf[..], TCPIP_HEADER) && buf[PROTO] == PROTO_TCP
    modifies buf
    ensures IpValid(buf[..]) && TransportValid(buf[..])
    ensures forall k :: 0 <= k < buf.Length && k / 2 != 5 && k / 2 != 18 ==> buf[k] == old(buf[k])
  {
    hide TcpFill, IpFill, IpValid, TransportValid;
    ghost var p := buf[..];
    Refilled(order, p);
    FillTcp(buf, order);
    FillIp(buf, order);
    ghost var q := buf[..];
    assert q == IpFill(order, TcpFill(order, p));
    assert forall k :: 0 <= k < buf.Length ==> buf[k] == q[k];
  }

  /** Trailing bytes of the buffer are no part of the packet. */
  lemma Cut(p: seq<u8>)
    requires WellFormed(p, TCPIP_HEADER) && p[PROTO] == PROTO_TCP && IpValid(p) && TransportValid(p)
    ensures var q := p[..Word(p, LEN)]; IsSegment(q) && IpValid(q) && TransportValid(q)
  {
    var q := p[..Word(p, LEN)];
    assert q[..IP_HEADER] == p[..IP_HEADER];
    assert Word(q, LEN) == Word(p, LEN);
    assert Covered(q) == Covered(p);
  }

  /** One transmission: set the length, fill in the checksums, hand over the packet. */
  method Transmit(buf: array<u8>, len: u16, order: Order) returns (sent: seq<u8>)
    requires TCPIP_HEADER <= len <= buf.Length && buf[PROTO] == PROTO_TCP
    modifies buf
    ensures sent == buf[..len] && IsSegment(sent) && IpValid(sent) && TransportValid(sent)
    ensures forall k :: 0 <= k < buf.Length && k / 2 != 1 && k / 2 != 5 && k / 2 != 18 ==> buf[k] == old(buf[k])
  {
    buf[LEN] := len / 256;
    buf[LEN + 1] := len % 256;
    Refill(buf, order);
    Cut(buf[..]);
    sent := buf[..len];
  }

  /** memcpy(uip_appdata, uip_appdata + len1, len2), from the first byte to the last */
  method MoveDown(buf: array<u8>, len1: nat, len2: nat)
    requires TCPIP_HEADER + len1 + len2 <= buf.Length
    modifies buf
    ensures forall k :: 0 <= k < TCPIP_HEADER ==> buf[k] == old(buf[k])
    ensures buf[TCPIP_HEADER..TCPIP_HEADER + len2] == old(buf[TCPIP_HEADER + len1..TCPIP_HEADER + len1 + len2])
  {
    for i := TCPIP_HEADER to TCPIP_HEADER + len2
      invariant forall k :: 0 <= k < TCPIP_HEADER ==> buf[k] == old(buf[k])
      invariant forall k :: TCPIP_HEADER <= k < i ==> buf[k] == old(buf[k + len1])
      invariant forall k :: i <= k < buf.Length ==> buf[k] == old(buf[k])
    {
      buf[i] := buf[i + len1];
    }
  }

  method AddSeq(buf: array<u8>, n: u16)
    requires buf.Length >= TCPIP_HEADER
    modifies buf
    ensures Seq(buf[..]) == N.Plus(old(Seq(buf[..])), n)
    ensures forall k :: 0 <= k < buf.Length && k / 4 != 6 ==> buf[k] == old(buf[k])
  {
    var w := N.Add32(N.Word32(buf[SEQNO], buf[SEQNO + 1], buf[SEQNO + 2], buf[SEQNO + 3]), n);
    buf[SEQNO], buf[SEQNO + 1], buf[SEQNO + 2], buf[SEQNO + 3] := w.b0, w.b1, w.b2, w.b3;
  }

  /** The second packet: the rest of the payload under the advanced sequence number. */
  method SecondHalf(buf: array<u8>, len1: u16, len2: u16, order: Order) returns (sent: seq<u8>)
    requires TCPIP_HEADER + len1 + len2 <= buf.Length && TCPIP_HEADER + len2 < U16_MOD && buf[PROTO] == PROTO_TCP
    modifies buf
    ensures IsSegment(sent) && IpValid(sent) && TransportValid(sent)
    ensures Payload(sent) == old(buf[TCPIP_HEADER + len1..TCPIP_HEADER + len1 + len2])
    ensures Seq(sent) == N.Plus(old(Seq(buf[..])), len1)
    ensures forall k :: 0 <= k < TCPIP_HEADER && !SplitField(k) ==> sent[k] == old(buf[k])
  {
    MoveDown(buf, len1, len2);
    assert Seq(buf[..]) == old(Seq(buf[..]));
    AddSeq(buf, len1);
    ghost var q := buf[..];
    sent := Transmit(buf, len2 + TCPIP_HEADER, order);
    assert SeqWord(sent) == SeqWord(q);
    assert Payload(sent) == q[TCPIP_HEADER..TCPIP_HEADER + len2];
  }

  /** Both halves of the packet in the buffer. */
  method Split(buf: array<u8>, len1: u16, len2: u16, order: Order) returns (first: seq<u8>, second: seq<u8>)
    requires TCPIP_HEADER + len1 + len2 <= buf.Length && TCPIP_HEADER + len1 + len2 < U16_MOD && buf[PROTO] == PROTO_TCP
    modifies buf
    ensures IsSegment(first) && IpValid(first) && TransportValid(first)
    ensures IsSegment(second) && IpValid(second) && TransportValid(second)
    ensures Payload(first) == old(buf[TCPIP_HEADER..TCPIP_HEADER + len1])
    ensures Payload(second) == old(buf[TCPIP_HEADER + len1..TCPIP_HEADER + len1 + len2])
    ensures Seq(first) == old(Seq(buf[..])) && Seq(second) == N.Plus(Seq(first), len1)
    ensures forall k :: 0 <= k < TCPIP_HEADER && !SplitField(k) ==> first[k] == old(buf[k]) && second[k] == old(buf[k])
  {
    ghost var p := buf[..];
    first := Transmit(buf, len1 + TCPIP_HEADER, order);
    ghost var q := buf[..];
    assert SeqWord(first) == SeqWord(p) && SeqWord(q) == SeqWord(p);
    assert q[TCPIP_HEADER..TCPIP_HEADER + len1 + len2] == p[TCPIP_HEADER..TCPIP_HEADER + len1 + len2];
    assert Payload(first) == q[TCPIP_HEADER..TCPIP_HEADER + len1];
    second := SecondHalf(buf, len1, len2, order);
  }

  lemma SplitMakesHalves(p: seq<u8>, a: seq<u8>, b: seq<u8>, n: u16)
    requires IsSegment(p) && IsSegment(a) && IsSegment(b) && n == (|p| - TCPIP_HEADER) / 2
    requires IpValid(a) && TransportValid(a) && IpValid(b) && TransportValid(b)
    requires Payload(a) == p[TCPIP_HEADER..TCPIP_HEADER + n] && Payload(b) == p[TCPIP_HEADER + n..]
    requires Seq(a) == Seq(p) && Seq(b) == N.Plus(Seq(a), n)
    requires forall k :: 0 <= k < TCPIP_HEADER && !SplitField(k) ==> a[k] == p[k] && b[k] == p[k]
    ensures Halves(p, a, b)
  {
    assert Payload(a) + Payload(b) == Payload(p);
  }

  /** uip_split_output for a packet buffer that holds `size` bytes above the link layer. */
  method SplitOutput(buf: array<u8>, uipLen: u16, size: nat, order: Order) returns (sent: seq<seq<u8>>)
    requires IP_HEADER <= uipLen <= buf.Length && TCPIP_HEADER <= size
    requires buf[PROTO] == PROTO_TCP && uipLen == size ==> IsSegment(buf[..uipLen])
    modifies buf
    ensures !(old(buf[PROTO]) == PROTO_TCP && uipLen == size) ==> sent == [old(buf[..uipLen])]
    ensures old(buf[PROTO]) == PROTO_TCP && uipLen == size ==> |sent| == 2 && Halves(old(buf[..uipLen]), sent[0], sent[1])
  {
    if buf[PROTO] == PROTO_TCP && uipLen == size {
      var tcplen := uipLen - TCPIP_HEADER;
      var len1, len2 := tcplen / 2, tcplen / 2;
      if len1 + len2 < tcplen { len2 := len2 + 1; }
      ghost var p := buf[..uipLen];
      assert SeqWord(p) == SeqWord(buf[..]);
      var first, second := Split(buf, len1, len2, order);
      SplitMakesHalves(p, first, second, len1);
      sent := [first, second];
    } else {
      sent := [buf[..uipLen]];
    }
  }
}
