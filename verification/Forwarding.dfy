/** The end of a packet's life in uip_fw_forward: the TTL decrement, or the ICMP message sent back. */
module Forwarding {
  import opened Bytes
  import opened InternetChecksum
  import opened IpPacket

  const DEFAULT_TTL: u8 := 64
  const ICMP_TIME_EXCEEDED: u8 := 11
  const QUOTED: nat := 28
  const BROADCAST: seq<u8> := [255, 255, 255, 255]

  datatype Verdict = Local | Forwarded(len: nat)

  /** An ICMP time-exceeded message of 56 bytes that quotes the packet p and goes back to its sender. */
  ghost predicate Reports(q: seq<u8>, p: seq<u8>, host: seq<u8>) {
    && |p| == |q| >= 56 && Word(q, LEN) == 56
    && IpValid(q) && Verifies(q[IP_HEADER..56])
    && q[PROTO] == PROTO_ICMP && q[IP_HEADER] == ICMP_TIME_EXCEEDED && q[IP_HEADER + 1] == 0
    && q[SOURCE..DESTINATION] == host && q[DESTINATION..IP_HEADER] == p[SOURCE..DESTINATION]
    && q[QUOTED..56] == p[..QUOTED]
  }

  /** memcpy(payload, ICMPBUF, 28) */
  method Quote(buf: array<u8>)
    requires buf.Length >= 56
    modifies buf
    ensures buf[..QUOTED] == old(buf[..QUOTED]) && buf[QUOTED..56] == old(buf[..QUOTED])
  {
    for k := 0 to QUOTED
      invariant buf[..QUOTED] == old(buf[..QUOTED]) && buf[QUOTED..QUOTED + k] == old(buf[..k])
    {
      buf[QUOTED + k] := buf[k];
    }
  }

  lemma PositiveSum(d: seq<u8>)
    requires |d| >= 2 && d[0] == ICMP_TIME_EXCEEDED
    ensures Fold(WordSum(d)) != 0
  {
  }

  /** The word stored without a special case for a zero sum. */
  function PlainComplement(order: Order, d: seq<u8>): u16 { Htons(order, 65535 - Htons(order, Fold(WordSum(d)))) }

  lemma IcmpFilled(order: Order, d: seq<u8>)
    requires |d| >= 4 && d[0] == ICMP_TIME_EXCEEDED && Word(d, 2) == 0
    ensures Verifies(PutWord(d, 2, PlainComplement(order, d)))
  {
    hide Fold, WordSum, Htons, Verifies;
    PositiveSum(d);
    StoredComplement(order, Fold(WordSum(d)));
    FilledVerifies(d, 2, 65535 - Fold(WordSum(d)));
  }

  /** icmpchksum = ~uip_chksum(type, 36), the field being zero. */
  method StoreIcmp(buf: array<u8>, order: Order)
    requires buf.Length >= 56
    modifies buf
    ensures buf[..] == PutWord(old(buf[..]), ICMP_CHECKSUM, PlainComplement(order, old(buf[IP_HEADER..56])))
  {
    var sum := Chksum(0, buf, IP_HEADER, 36);
    StoreWord(order, buf, ICMP_CHECKSUM, 65535 - Htons(order, sum));
  }

  lemma IcmpStored(order: Order, p: seq<u8>)
    requires |p| >= 56 && p[IP_HEADER] == ICMP_TIME_EXCEEDED && Word(p, ICMP_CHECKSUM) == 0
    ensures var q := PutWord(p, ICMP_CHECKSUM, PlainComplement(order, p[IP_HEADER..56]));
            Verifies(q[IP_HEADER..56]) && SameExcept(p, q, ICMP_CHECKSUM)
  {
    var d := p[IP_HEADER..56];
    var w := PlainComplement(order, d);
    IcmpFilled(order, d);
    assert PutWord(p, ICMP_CHECKSUM, w)[IP_HEADER..56] == PutWord(d, 2, w);
  }

  method ComplementIcmp(buf: array<u8>, order: Order)
    requires buf.Length >= 56 && buf[IP_HEADER] == ICMP_TIME_EXCEEDED && Word(buf[..], ICMP_CHECKSUM) == 0
    modifies buf
    ensures Verifies(buf[..][IP_HEADER..56]) && SameExcept(old(buf[..]), buf[..], ICMP_CHECKSUM)
  {
    IcmpStored(order, buf[..]);
    assert buf[IP_HEADER..56] == buf[..][IP_HEADER..56];
    StoreIcmp(buf, order);
  }

  /** The fields of the IP header of the message. */
  method PutHeader(buf: array<u8>)
    requires buf.Length >= 56
    modifies buf
    ensures Word(buf[..], LEN) == 56 && buf[TTL] == DEFAULT_TTL && buf[PROTO] == PROTO_ICMP
    ensures buf[..][SOURCE..] == old(buf[..])[SOURCE..]
  {
    buf[LEN], buf[LEN + 1] := 0, 56;
    buf[0], buf[1], buf[OFFSET], buf[OFFSET + 1] := 0x45, 0, 0, 0;
    buf[TTL], buf[PROTO] := DEFAULT_TTL, PROTO_ICMP;
  }

  /** The IP header of the message; the checksum comes last. */
  method FillHeader(buf: array<u8>, order: Order)
    requires buf.Length >= 56
    modifies buf
    ensures IpValid(buf[..]) && Word(buf[..], LEN) == 56 && buf[TTL] == DEFAULT_TTL && buf[PROTO] == PROTO_ICMP
    ensures buf[..][SOURCE..] == old(buf[..])[SOURCE..]
  {
    hide IpFill, IpValid, Word;
    PutHeader(buf);
    ghost var q := buf[..];
    FillIp(buf, order);
    IpFillVerifies(order, q);
    SameTail(q, buf[..]);
  }

  /** time_exceeded, for a packet that is not ICMP itself */
  method TimeExceeded(buf: array<u8>, host: seq<u8>, order: Order)
    requires buf.Length >= 56 && |host| == 4
    modifies buf
    ensures Reports(buf[..], old(buf[..]), host) && buf[TTL] == DEFAULT_TTL
  {
    ghost var p := buf[..];
    Quote(buf);
    buf[IP_HEADER], buf[IP_HEADER + 1] := ICMP_TIME_EXCEEDED, 0;
    buf[ICMP_CHECKSUM], buf[ICMP_CHECKSUM + 1] := 0, 0;
    assert buf[QUOTED..56] == p[..QUOTED] && buf[SOURCE..DESTINATION] == p[SOURCE..DESTINATION];
    ghost var z := buf[..];
    ComplementIcmp(buf, order);
    ghost var c := buf[..];
    ExchangeAddresses(buf, host);
    ghost var e := buf[..];
    FillHeader(buf, order);
    Assemble(p, z, c, e, buf[..], host);
  }

  /** The steps of time_exceeded put together. */
  lemma Assemble(p: seq<u8>, z: seq<u8>, c: seq<u8>, e: seq<u8>, r: seq<u8>, host: seq<u8>)
    requires |p| == |z| == |c| == |e| == |r| >= 56 && |host| == 4
    requires z[QUOTED..56] == p[..QUOTED] && z[SOURCE..DESTINATION] == p[SOURCE..DESTINATION]
    requires z[IP_HEADER] == ICMP_TIME_EXCEEDED && z[IP_HEADER + 1] == 0
    requires SameExcept(z, c, ICMP_CHECKSUM) && Verifies(c[IP_HEADER..56])
    requires Exchanged(c, e, host)
    requires r[SOURCE..] == e[SOURCE..] && IpValid(r) && Word(r, LEN) == 56 && r[PROTO] == PROTO_ICMP
    ensures Reports(r, p, host)
  {
    assert forall k :: SOURCE <= k < |r| ==> r[k] == r[SOURCE..][k - SOURCE] == e[k];
    assert forall k :: IP_HEADER <= k < |r| ==> e[k] == e[IP_HEADER..][k - IP_HEADER] == c[k];
    assert r[IP_HEADER..56] == c[IP_HEADER..56];
    assert r[QUOTED..56] == z[QUOTED..56];
    assert r[SOURCE..DESTINATION] == e[SOURCE..DESTINATION];
    assert r[DESTINATION..IP_HEADER] == e[DESTINATION..IP_HEADER];
    assert c[SOURCE..DESTINATION] == z[SOURCE..DESTINATION];
    assert r[IP_HEADER] == z[IP_HEADER] && r[IP_HEADER + 1] == z[IP_HEADER + 1];
  }

  lemma SameTail(p: seq<u8>, q: seq<u8>)
    requires |p| >= 56 && SameExcept(p, q, IP_CHECKSUM)
    ensures p[SOURCE..] == q[SOURCE..] && Word(p, LEN) == Word(q, LEN) && p[TTL] == q[TTL] && p[PROTO] == q[PROTO]
  {
  }

  /** The TTL part of uip_fw_forward on a packet of uipLen bytes. */
  method ForwardTtl(buf: array<u8>, uipLen: nat, host: seq<u8>, order: Order) returns (v: Verdict)
    requires buf.Length >= 56 && |host| == 4 && uipLen > 0
    modifies buf
    ensures old(buf[TTL]) >= 2 ==>
              v == Forwarded(uipLen) && buf[..] == TtlDown(order, old(buf[..])) && (IpValid(buf[..]) <==> IpValid(old(buf[..])))
    ensures old(buf[TTL]) <= 1 && old(buf[DESTINATION..IP_HEADER]) == BROADCAST ==> v == Local && buf[..] == old(buf[..])
    ensures old(buf[TTL]) <= 1 && old(buf[DESTINATION..IP_HEADER]) != BROADCAST && old(buf[PROTO]) == PROTO_ICMP ==> v == Forwarded(0)
    ensures old(buf[TTL]) <= 1 && old(buf[DESTINATION..IP_HEADER]) != BROADCAST && old(buf[PROTO]) != PROTO_ICMP ==>
              v == Forwarded(56) && Reports(buf[..], old(buf[..]), host) && buf[TTL] == DEFAULT_TTL - 1
  {
    var len := uipLen;
    ghost var p := buf[..];
    if buf[TTL] <= 1 {
      if buf[DESTINATION..IP_HEADER] == BROADCAST { return Local; }
      if buf[PROTO] == PROTO_ICMP {
        len := 0;
      } else {
        TimeExceeded(buf, host, order);
        StillReports(order, p, buf[..], host);
        len := 56;
      }
    } else {
      TtlDownVerifies(order, p);
    }
    DecrementTtl(buf, order);
    v := Forwarded(len);
  }

  lemma StillReports(order: Order, p: seq<u8>, q: seq<u8>, host: seq<u8>)
    requires Reports(q, p, host) && q[TTL] == DEFAULT_TTL
    ensures Reports(TtlDown(order, q), p, host) && TtlDown(order, q)[TTL] == DEFAULT_TTL - 1
  {
    TtlDownVerifies(order, q);
    var r := TtlDown(order, q);
    SameTail(q[TTL := r[TTL]], r);
    assert r[SOURCE..] == q[SOURCE..];
    assert r[IP_HEADER..56] == q[IP_HEADER..56];
  }
}
