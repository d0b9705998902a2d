/** Checksummed IPv4 packets in the packet buffer: filling, verifying, and the two places where uIP
    changes a packet and repairs its checksum without summing again. */
module IpPacket {
  import opened Bytes
  import opened InternetChecksum

  const IP_HEADER: nat := 20
  const TCPIP_HEADER: nat := 40
  const LEN: nat := 2
  const OFFSET: nat := 6
  const TTL: nat := 8
  const PROTO: nat := 9
  const IP_CHECKSUM: nat := 10
  const SOURCE: nat := 12
  const DESTINATION: nat := 16
  const ICMP_CHECKSUM: nat := 22
  const SEQNO: nat := 24
  const TCP_CHECKSUM: nat := 36
  const PROTO_ICMP: u8 := 1
  const PROTO_TCP: u8 := 6
  const ICMP_ECHO: u8 := 8

  /** A packet in a buffer: its length field covers the header and fits the buffer. */
  predicate WellFormed(p: seq<u8>, header: nat) { |p| >= header >= IP_HEADER && header <= Word(p, LEN) <= |p| }

  /** The IP header verifies. */
  predicate IpValid(p: seq<u8>) { |p| >= IP_HEADER && Verifies(p[..IP_HEADER]) }

  /** The pseudo header of section 3.1 of RFC 793. */
  function PseudoHeader(p: seq<u8>): seq<u8>
    requires |p| >= IP_HEADER && Word(p, LEN) >= IP_HEADER
  {
    var n := Word(p, LEN) - IP_HEADER;
    p[SOURCE..IP_HEADER] + [0, p[PROTO], n / 256, n % 256]
  }

  function Covered(p: seq<u8>): seq<u8>
    requires WellFormed(p, IP_HEADER)
  {
    PseudoHeader(p) + p[IP_HEADER..Word(p, LEN)]
  }

  /** The transport checksum verifies. */
  predicate TransportValid(p: seq<u8>) { WellFormed(p, IP_HEADER) && Verifies(Covered(p)) }

  predicate SameExcept(p: seq<u8>, q: seq<u8>, i: nat) {
    |p| == |q| && forall k :: 0 <= k < |p| && k != i && k != i + 1 ==> p[k] == q[k]
  }

  // ---- Summing ----

  /** uip_ipchksum */
  method IpChksum(buf: array<u8>, order: Order) returns (r: u16)
    requires buf.Length >= IP_HEADER
    ensures r == Reported(order, Fold(WordSum(buf[..IP_HEADER])))
  {
    var sum := Chksum(0, buf, 0, IP_HEADER);
    r := if sum == 0 then 0xffff else Htons(order, sum);
  }

  lemma WordSumOfFour(a: u8, b: u8, c: u8, d: u8)
    ensures WordSum([a, b, c, d]) == Word16(a, b) + Word16(c, d)
  {
    var s, t := [a, b, c, d], [c, d];
    assert s[2..] == t && t[2..] == [];
    assert WordSum(t) == Word16(c, d) + WordSum(t[2..]);
  }

  lemma PseudoSum(p: seq<u8>)
    requires WellFormed(p, IP_HEADER) && p[PROTO] <= 20
    ensures var n := Word(p, LEN) - IP_HEADER + p[PROTO];
            Fold(Fold(n + WordSum(p[SOURCE..IP_HEADER])) + WordSum(p[IP_HEADER..Word(p, LEN)])) == Fold(WordSum(Covered(p)))
  {
    var n := Word(p, LEN) - IP_HEADER;
    var tail: seq<u8> := [0, p[PROTO], n / 256, n % 256];
    WordSumOfFour(0, p[PROTO], n / 256, n % 256);
    WordSumAppend(p[SOURCE..IP_HEADER], tail);
    WordSumAppend(PseudoHeader(p), p[IP_HEADER..Word(p, LEN)]);
    FoldFold(n + p[PROTO] + WordSum(p[SOURCE..IP_HEADER]), WordSum(p[IP_HEADER..Word(p, LEN)]));
  }

  /** upper_layer_chksum; the first addition cannot carry for ICMP, TCP and UDP. */
  method UpperLayerChksum(buf: array<u8>, order: Order) returns (r: u16)
    requires WellFormed(buf[..], IP_HEADER) && buf[PROTO] <= 20
    ensures r == Reported(order, Fold(WordSum(Covered(buf[..]))))
  {
    var n := Word16(buf[LEN], buf[LEN + 1]) - IP_HEADER;
    PseudoSum(buf[..]);
    var sum: u16 := n + buf[PROTO];
    sum := Chksum(sum, buf, SOURCE, 8);
    sum := Chksum(sum, buf, IP_HEADER, n);
    r := if sum == 0 then 0xffff else Htons(order, sum);
  }

  /** The word that the host stores in a zeroed field. */
  function Complement(order: Order, data: seq<u8>): u16 { Htons(order, 65535 - Reported(order, Fold(WordSum(data)))) }

  lemma IpFilled(p: seq<u8>, order: Order)
    requires |p| >= IP_HEADER && Word(p, IP_CHECKSUM) == 0
    ensures IpValid(PutWord(p, IP_CHECKSUM, Complement(order, p[..IP_HEADER])))
  {
    var h := p[..IP_HEADER];
    StoredComplement(order, Fold(WordSum(h)));
    FilledVerifies(h, IP_CHECKSUM, Complement(order, h));
    assert PutWord(p, IP_CHECKSUM, Complement(order, h))[..IP_HEADER] == PutWord(h, IP_CHECKSUM, Complement(order, h));
  }

  lemma TcpFilled(p: seq<u8>, order: Order)
    requires WellFormed(p, TCPIP_HEADER) && Word(p, TCP_CHECKSUM) == 0
    ensures TransportValid(PutWord(p, TCP_CHECKSUM, Complement(order, Covered(p))))
  {
    StoredComplement(order, Fold(WordSum(Covered(p))));
    CoveredField(p, Complement(order, Covered(p)));
    FilledVerifies(Covered(p), 28, Complement(order, Covered(p)));
  }

  lemma PutTwice(p: seq<u8>, i: nat, a: u16, b: u16)
    requires i + 1 < |p|
    ensures SameExcept(p, PutWord(PutWord(p, i, a), i, b), i)
  {
  }

  /** The packet with its header checksum filled in. */
  function IpFill(order: Order, p: seq<u8>): seq<u8>
    requires |p| >= IP_HEADER
  {
    var z := PutWord(p, IP_CHECKSUM, 0);
    PutWord(z, IP_CHECKSUM, Complement(order, z[..IP_HEADER]))
  }

  /** The packet with its TCP checksum filled in. */
  function TcpFill(order: Order, p: seq<u8>): seq<u8>
    requires WellFormed(p, TCPIP_HEADER)
  {
    CoveredField(p, 0);
    var z := PutWord(p, TCP_CHECKSUM, 0);
    PutWord(z, TCP_CHECKSUM, Complement(order, Covered(z)))
  }

  lemma IpFillVerifies(order: Order, p: seq<u8>)
    requires |p| >= IP_HEADER
    ensures IpValid(IpFill(order, p)) && SameExcept(p, IpFill(order, p), IP_CHECKSUM)
  {
    var z := PutWord(p, IP_CHECKSUM, 0);
    IpFilled(z, order);
    PutTwice(p, IP_CHECKSUM, 0, Complement(order, z[..IP_HEADER]));
  }

  lemma TcpFillVerifies(order: Order, p: seq<u8>)
    requires WellFormed(p, TCPIP_HEADER)
    ensures TransportValid(TcpFill(order, p)) && SameExcept(p, TcpFill(order, p), TCP_CHECKSUM)
  {
    CoveredField(p, 0);
    var z := PutWord(p, TCP_CHECKSUM, 0);
    TcpFilled(z, order);
    PutTwice(p, TCP_CHECKSUM, 0, Complement(order, Covered(z)));
  }

  method Zero(buf: array<u8>, i: nat, order: Order)
    requires i + 1 < buf.Length
    modifies buf
    ensures buf[..] == PutWord(old(buf[..]), i, 0)
  {
    assert Htons(order, 0) == 0;
    StoreWord(order, buf, i, 0);
  }

  /** ipchksum = ~uip_ipchksum(), the field being zero. */
  method ComplementIp(buf: array<u8>, order: Order)
    requires buf.Length >= IP_HEADER
    modifies buf
    ensures buf[..] == PutWord(old(buf[..]), IP_CHECKSUM, Complement(order, old(buf[..])[..IP_HEADER]))
  {
    assert buf[..IP_HEADER] == buf[..][..IP_HEADER];
    var c := IpChksum(buf, order);
    StoreWord(order, buf, IP_CHECKSUM, 65535 - c);
  }

  /** tcpchksum = ~uip_tcpchksum(), the field being zero. */
  method ComplementTcp(buf: array<u8>, order: Order)
    requires WellFormed(buf[..], TCPIP_HEADER) && buf[PROTO] == PROTO_TCP
    modifies buf
    ensures buf[..] == PutWord(old(buf[..]), TCP_CHECKSUM, Complement(order, Covered(old(buf[..]))))
  {
    var c := UpperLayerChksum(buf, order);
    StoreWord(order, buf, TCP_CHECKSUM, 65535 - c);
  }

  /** ipchksum = 0; ipchksum = ~uip_ipchksum(). */
  method FillIp(buf: array<u8>, order: Order)
    requires buf.Length >= IP_HEADER
    modifies buf
    ensures buf[..] == IpFill(order, old(buf[..]))
  {
    Zero(buf, IP_CHECKSUM, order);
    ComplementIp(buf, order);
  }

  /** tcpchksum = 0; tcpchksum = ~uip_tcpchksum(). */
  method FillTcp(buf: array<u8>, order: Order)
    requires WellFormed(buf[..], TCPIP_HEADER) && buf[PROTO] == PROTO_TCP
    modifies buf
    ensures buf[..] == TcpFill(order, old(buf[..]))
  {
    CoveredField(buf[..], 0);
    Zero(buf, TCP_CHECKSUM, order);
    ComplementTcp(buf, order);
  }

  /** Where the TCP checksum field lies in the covered bytes. */
  lemma CoveredField(p: seq<u8>, w: u16)
    requires WellFormed(p, TCPIP_HEADER)
    ensures |Covered(p)| >= 30 && Word(Covered(p), 28) == Word(p, TCP_CHECKSUM)
    ensures WellFormed(PutWord(p, TCP_CHECKSUM, w), TCPIP_HEADER)
    ensures Covered(PutWord(p, TCP_CHECKSUM, w)) == PutWord(Covered(p), 28, w)
  {
    var q := PutWord(p, TCP_CHECKSUM, w);
    assert Word(q, LEN) == Word(p, LEN);
    assert PseudoHeader(q) == PseudoHeader(p);
  }

  // ---- Incremental updates ----

  /** Adding k, in network order, to a field with the carry handled by a comparison. */
  function Bumped(order: Order, c: u16, k: u16): u16 {
    if c >= Htons(order, 0xffff - k) then (c + Htons(order, k) + 1) % U16_MOD else (c + Htons(order, k)) % U16_MOD
  }

  lemma BumpedSum(order: Order, c: u16, k: u16)
    ensures Bumped(order, c, k) == c + Htons(order, k) || Bumped(order, c, k) == c + Htons(order, k) - 65535
  {
    SwapComplement(k);
  }

  /** All ones come out of all ones only. */
  lemma BumpedNotFull(order: Order, c: u16, k: u16)
    ensures Bumped(order, c, k) == 0xffff <==> c == Htons(order, k) == 0xffff
  {
    SwapComplement(k);
    hide Swap;
  }

  lemma SwapSum(x: u16, y: u16, z: u16) returns (m: int)
    requires z == x + y || z == x + y - 65535
    ensures Swap(z) == Swap(x) + Swap(y) + 65535 * m
  {
    SwapIsShift(x);
    SwapIsShift(y);
    SwapIsShift(z);
    var e := if z == x + y then 0 else 1;
    m := x / 256 + y / 256 - z / 256 - 256 * e;
  }

  /** In the packet the field has grown by k, up to a multiple of 65535. */
  lemma BumpedWord(order: Order, w: u16, k: u16) returns (m: int)
    ensures Htons(order, Bumped(order, Htons(order, w), k)) == w + k + 65535 * m
  {
    BumpedSum(order, Htons(order, w), k);
    if order.Little? {
      m := SwapSum(Swap(w), Swap(k), Bumped(order, Swap(w), k));
      SwapTwice(w);
      SwapTwice(k);
    } else {
      m := if Bumped(order, w, k) == w + k then 0 else -1;
    }
  }

  /** Data whose checksum field absorbs a change elsewhere still verifies. */
  lemma CompensatedVerifies(data: seq<u8>, i: nat, a: u16, j: nat, b: u16, m: int)
    requires i % 2 == 0 && j % 2 == 0 && i + 1 < |data| && j + 1 < |data| && i != j
    requires b - Word(data, j) + a - Word(data, i) == 65535 * m
    ensures Verifies(data) <==> Verifies(PutWord(PutWord(data, i, a), j, b))
  {
    TwoPuts(data, i, a, j, b);
    SameVerdict(data, PutWord(PutWord(data, i, a), j, b), m);
  }

  lemma TwoPuts(data: seq<u8>, i: nat, a: u16, j: nat, b: u16)
    requires i % 2 == 0 && j % 2 == 0 && i + 1 < |data| && j + 1 < |data| && i != j
    ensures WordSum(PutWord(PutWord(data, i, a), j, b)) == WordSum(data) - Word(data, i) + a - Word(data, j) + b
  {
    PutElsewhere(data, i, a, j);
    hide WordSum, PutWord, Word;
    WordSumPut(data, i, a);
    WordSumPut(PutWord(data, i, a), j, b);
  }

  lemma PutElsewhere(p: seq<u8>, i: nat, a: u16, j: nat)
    requires i % 2 == 0 && j % 2 == 0 && i + 1 < |p| && j + 1 < |p| && i != j
    ensures Word(PutWord(p, i, a), j) == Word(p, j)
  {
    assert j != i + 1 && j + 1 != i by {
      assert i == 2 * (i / 2) && j == 2 * (j / 2);
    }
  }

  lemma SameVerdict(x: seq<u8>, y: seq<u8>, m: int)
    requires WordSum(y) == WordSum(x) + 65535 * m
    ensures Verifies(x) <==> Verifies(y)
  {
    hide Verifies, WordSum;
    VerifiesAnyOrder(x, Big);
    VerifiesAnyOrder(y, Big);
    SameResidue(WordSum(x), WordSum(y), m);
  }

  lemma SameResidue(x: nat, y: nat, m: int)
    requires y == x + 65535 * m
    ensures x % 65535 == 0 <==> y % 65535 == 0
  {
    if x % 65535 == 0 { assert y == 65535 * (x / 65535 + m); }
    if y % 65535 == 0 { assert x == 65535 * (y / 65535 - m); }
  }

  /** The packet after the TTL decrement; a TTL of zero wraps. */
  function TtlDown(order: Order, p: seq<u8>): seq<u8>
    requires |p| >= IP_HEADER
  {
    PutWord(p[TTL := (p[TTL] as int + 255) % 256], IP_CHECKSUM,
            Htons(order, Bumped(order, Load(order, p, IP_CHECKSUM), 0x100)))
  }

  /** The repaired header verifies when the old one did, and only then. */
  lemma TtlDownVerifies(order: Order, p: seq<u8>)
    requires |p| >= IP_HEADER && p[TTL] >= 1
    ensures IpValid(TtlDown(order, p)) <==> IpValid(p)
    ensures TtlDown(order, p)[TTL] == p[TTL] - 1
    ensures forall k :: 0 <= k < |p| && k != TTL && k / 2 != IP_CHECKSUM / 2 ==> TtlDown(order, p)[k] == p[k]
  {
    hide Verifies, WordSum, Bumped, Htons;
    var h := p[..IP_HEADER];
    var w := Htons(order, Bumped(order, Load(order, p, IP_CHECKSUM), 0x100));
    var m := BumpedWord(order, Word(h, IP_CHECKSUM), 0x100);
    CompensatedVerifies(h, TTL, Word(h, TTL) - 0x100, IP_CHECKSUM, w, m);
    TtlDownHeader(p, w);
  }

  lemma TtlDownHeader(p: seq<u8>, w: u16)
    requires |p| >= IP_HEADER && p[TTL] >= 1
    ensures var h := p[..IP_HEADER];
            Word(h, TTL) >= 0x100 &&
            PutWord(p[TTL := (p[TTL] as int + 255) % 256], IP_CHECKSUM, w)[..IP_HEADER]
            == PutWord(PutWord(h, TTL, Word(h, TTL) - 0x100), IP_CHECKSUM, w)
  {
    assert (p[TTL] as int + 255) % 256 == p[TTL] - 1;
    assert (Word(p, TTL) - 0x100) / 256 == p[TTL] - 1 && (Word(p, TTL) - 0x100) % 256 == p[TTL + 1];
  }

  /** The TTL decrement of uip_fw_forward, and the repair of the header checksum. */
  method DecrementTtl(buf: array<u8>, order: Order)
    requires buf.Length >= IP_HEADER
    modifies buf
    ensures buf[..] == TtlDown(order, old(buf[..]))
  {
    hide Bumped, Htons, Word16;
    ghost var p := buf[..];
    var c := Htons(order, Word16(buf[IP_CHECKSUM], buf[IP_CHECKSUM + 1]));
    assert c == Load(order, p, IP_CHECKSUM);
    var v := Bumped(order, c, 0x100);
    buf[TTL] := (buf[TTL] as int + 255) % 256;
    assert buf[..] == p[TTL := buf[TTL]];
    StoreWord(order, buf, IP_CHECKSUM, v);
  }

  /** The ICMP part verifies. */
  predicate IcmpValid(p: seq<u8>) { |p| >= IP_HEADER + 4 && Verifies(p[IP_HEADER..]) }

  /** The echo reply: the type becomes 0, the checksum is repaired and the addresses are exchanged. */
  method EchoReply(buf: array<u8>, host: seq<u8>, order: Order)
    requires buf.Length >= IP_HEADER + 4 && |host| == 4 && buf[IP_HEADER] == ICMP_ECHO
    modifies buf
    ensures EchoAnswered(old(buf[..]), buf[..], host)
  {
    ghost var p := buf[..];
    RepairedVerifies(order, p);
    RepairEcho(buf, order);
    ghost var q := buf[..];
    ExchangeAddresses(buf, host);
    AnsweredEcho(order, p, q, buf[..], host);
  }

  /** The steps of the reply put together. */
  lemma AnsweredEcho(order: Order, p: seq<u8>, q: seq<u8>, r: seq<u8>, host: seq<u8>)
    requires |p| >= IP_HEADER + 4 && p[IP_HEADER] == ICMP_ECHO && q == Repaired(order, p) && Exchanged(q, r, host)
    ensures EchoAnswered(p, r, host)
  {
    RepairedVerifies(order, p);
    assert q[..IP_HEADER] == p[..IP_HEADER] && q[IP_HEADER + 4..] == p[IP_HEADER + 4..];
    assert r[IP_HEADER..] == q[IP_HEADER..] && r[IP_HEADER] == q[IP_HEADER..][0] && r[IP_HEADER + 1] == q[IP_HEADER..][1];
    assert r[IP_HEADER + 4..] == r[IP_HEADER..][4..] && q[IP_HEADER + 4..] == q[IP_HEADER..][4..];
    assert q[SOURCE..DESTINATION] == p[SOURCE..DESTINATION] && q[DESTINATION..IP_HEADER] == p[DESTINATION..IP_HEADER];
    assert q[..SOURCE] == p[..SOURCE];
    if host == p[DESTINATION..IP_HEADER] { ExchangeKeepsSum(q, r, host); }
  }

  /** r is the echo reply to p. */
  ghost predicate EchoAnswered(p: seq<u8>, r: seq<u8>, host: seq<u8>) {
    && |p| == |r| >= IP_HEADER + 4 && |host| == 4
    && (IcmpValid(r) <==> IcmpValid(p))
    && r[IP_HEADER] == 0 && r[IP_HEADER + 1] == p[IP_HEADER + 1] && r[IP_HEADER + 4..] == p[IP_HEADER + 4..]
    && r[SOURCE..DESTINATION] == host && r[DESTINATION..IP_HEADER] == p[SOURCE..DESTINATION] && r[..SOURCE] == p[..SOURCE]
    && (host == p[DESTINATION..IP_HEADER] ==> (IpValid(r) <==> IpValid(p)))
  }

  /** The packet with type and checksum of the reply. */
  function Repaired(order: Order, p: seq<u8>): seq<u8>
    requires |p| >= IP_HEADER + 4
  {
    PutWord(p[IP_HEADER := 0], ICMP_CHECKSUM, Htons(order, Bumped(order, Load(order, p, ICMP_CHECKSUM), 0x800)))
  }

  lemma RepairedVerifies(order: Order, p: seq<u8>)
    requires |p| >= IP_HEADER + 4 && p[IP_HEADER] == ICMP_ECHO
    ensures IcmpValid(Repaired(order, p)) <==> IcmpValid(p)
  {
    hide Verifies, WordSum, Bumped, Htons;
    var d := p[IP_HEADER..];
    var w := Htons(order, Bumped(order, Load(order, p, ICMP_CHECKSUM), 0x800));
    var m := BumpedWord(order, Word(d, 2), 0x800);
    CompensatedVerifies(d, 0, Word(d, 0) - 0x800, 2, w, m);
    assert Repaired(order, p)[IP_HEADER..] == PutWord(PutWord(d, 0, Word(d, 0) - 0x800), 2, w);
  }

  /** The type and the checksum. */
  method RepairEcho(buf: array<u8>, order: Order)
    requires buf.Length >= IP_HEADER + 4
    modifies buf
    ensures buf[..] == Repaired(order, old(buf[..]))
  {
    hide Bumped, Htons, Word16;
    ghost var p := buf[..];
    var c := Htons(order, Word16(buf[ICMP_CHECKSUM], buf[ICMP_CHECKSUM + 1]));
    assert c == Load(order, p, ICMP_CHECKSUM);
    var v := Bumped(order, c, 0x800);
    buf[IP_HEADER] := 0;
    assert buf[..] == p[IP_HEADER := 0];
    StoreWord(order, buf, ICMP_CHECKSUM, v);
  }

  /** The new destination is the old source, the new source is the host. */
  ghost predicate Exchanged(p: seq<u8>, q: seq<u8>, host: seq<u8>) {
    && |p| == |q| >= IP_HEADER && |host| == 4
    && q[..SOURCE] == p[..SOURCE] && q[SOURCE..DESTINATION] == host
    && q[DESTINATION..IP_HEADER] == p[SOURCE..DESTINATION] && q[IP_HEADER..] == p[IP_HEADER..]
  }

  /** The header sum does not change when the packet was addressed to the host. */
  lemma ExchangeKeepsSum(p: seq<u8>, q: seq<u8>, host: seq<u8>)
    requires Exchanged(p, q, host) && host == p[DESTINATION..IP_HEADER]
    ensures IpValid(q) <==> IpValid(p)
  {
    var h, a := p[..SOURCE], p[SOURCE..DESTINATION];
    assert p[..IP_HEADER] == h + (a + host);
    assert q[..IP_HEADER] == q[..SOURCE] + (q[SOURCE..DESTINATION] + q[DESTINATION..IP_HEADER]);
    WordSumAppend(h, a + host);
    WordSumAppend(h, host + a);
    WordSumAppend(a, host);
    WordSumAppend(host, a);
  }

  method ExchangeAddresses(buf: array<u8>, host: seq<u8>)
    requires buf.Length >= IP_HEADER && |host| == 4
    modifies buf
    ensures Exchanged(old(buf[..]), buf[..], host)
  {
    ghost var p := buf[..];
    Copy(buf, DESTINATION, buf[SOURCE..DESTINATION]);
    ghost var q := buf[..];
    assert q == p[..DESTINATION] + p[SOURCE..DESTINATION] + p[IP_HEADER..];
    assert q[..SOURCE] == p[..SOURCE] && q[DESTINATION..] == p[SOURCE..DESTINATION] + p[IP_HEADER..];
    Copy(buf, SOURCE, host);
    assert buf[..] == q[..SOURCE] + host + q[DESTINATION..];
    assert buf[..] == p[..SOURCE] + host + p[SOURCE..DESTINATION] + p[IP_HEADER..];
  }
}
