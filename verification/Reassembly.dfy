/** IP reassembly in uIP: one packet at a time, with a bitmap of the 8-byte units received. */
module Reassembly {
  import opened Bytes
  import opened InternetChecksum
  import opened IpPacket

  const BUFFER_SIZE: nat := 1586
  const BITMAP_SIZE: nat := 24
  const UNITS: nat := 192
  const MAX_AGE: u8 := 40
  const BITMAP_BITS: seq<bv8> := [0xff, 0x7f, 0x3f, 0x1f, 0x0f, 0x07, 0x03, 0x01]
  const PROBE: seq<bv8> := [0x80, 0x40, 0x20, 0x10, 0x08, 0x04, 0x02, 0x01]

  // ---- Bits of the bitmap; bit 0 is the most significant one ----

  function Bit(b: bv8, i: nat): bool
    requires i < 8
  {
    b & PROBE[i] != 0
  }

  lemma HeadBit(k: nat, i: nat)
    requires k < 8 && i < 8
    ensures Bit(BITMAP_BITS[k], i) <==> i >= k
    ensures Bit(!BITMAP_BITS[k], i) <==> i < k
  {
    if k == 0 {} else if k == 1 {} else if k == 2 {} else if k == 3 {} else if k == 4 {} else if k == 5 {} else if k == 6 {} else {}
  }

  lemma OrMask(x: bv8, y: bv8, m: bv8)
    ensures (x | y) & m != 0 <==> x & m != 0 || y & m != 0
  {
  }

  lemma OrBit(x: bv8, y: bv8, i: nat)
    requires i < 8
    ensures Bit(x | y, i) <==> Bit(x, i) || Bit(y, i)
  {
    OrMask(x, y, PROBE[i]);
  }

  lemma AndBit(x: bv8, y: bv8, i: nat)
    requires i < 8
    ensures Bit(x & y, i) <==> Bit(x, i) && Bit(y, i)
  {
    if i == 0 {} else if i == 1 {} else if i == 2 {} else if i == 3 {} else if i == 4 {} else if i == 5 {} else if i == 6 {} else {}
  }

  lemma FullBit(i: nat)
    requires i < 8
    ensures Bit(0xff, i) && !Bit(0, i)
  {
  }

  lemma SameBits(x: bv8, y: bv8)
    requires forall i :: 0 <= i < 8 ==> Bit(x, i) == Bit(y, i)
    ensures x == y
  {
    assert Bit(x, 0) == Bit(y, 0) && Bit(x, 1) == Bit(y, 1) && Bit(x, 2) == Bit(y, 2) && Bit(x, 3) == Bit(y, 3);
    assert Bit(x, 4) == Bit(y, 4) && Bit(x, 5) == Bit(y, 5) && Bit(x, 6) == Bit(y, 6) && Bit(x, 7) == Bit(y, 7);
  }

  // ---- Fragments ----

  /** A fragment of a datagram: where its data belongs, the data, and whether more follows. */
  datatype Fragment = Fragment(offset: nat, data: seq<u8>, more: bool)

  function End(f: Fragment): nat { f.offset + |f.data| }

  /** The 8-byte unit u lies in the fragment. */
  predicate Contains(f: Fragment, u: nat) { f.offset <= 8 * u && 8 * u + 8 <= End(f) }

  ghost predicate Covered(fs: seq<Fragment>, u: nat) { exists k :: 0 <= k < |fs| && Contains(fs[k], u) }

  /** Byte b of the datagram as the latest fragment that has it says. */
  function ByteAt(fs: seq<Fragment>, b: nat): Option<u8> {
    if fs == [] then None
    else
      var f := fs[|fs| - 1];
      if f.offset <= b < End(f) then Some(f.data[b - f.offset]) else ByteAt(fs[..|fs| - 1], b)
  }

  /** The end of the datagram according to the latest final fragment. */
  function Total(fs: seq<Fragment>): Option<nat> {
    if fs == [] then None
    else if !fs[|fs| - 1].more then Some(End(fs[|fs| - 1]))
    else Total(fs[..|fs| - 1])
  }

  /** The length of the IP header. */
  function HeaderLen(p: seq<u8>): nat
    requires |p| >= IP_HEADER
  {
    p[0] % 16 * 4
  }

  /** The low half of the first byte counts the 32-bit words of the header. */
  lemma HeaderOfVersion4(p: seq<u8>, n: nat)
    requires |p| >= IP_HEADER && n < 16 && p[0] == 0x40 + n
    ensures HeaderLen(p) == 4 * n
  {
  }

  predicate IsPacket(p: seq<u8>) { |p| >= IP_HEADER && IP_HEADER <= HeaderLen(p) <= |p| == Word(p, LEN) }

  /** The offset as computed: six bits of the flag byte take part, in 16-bit arithmetic. */
  function OffsetOf(p: seq<u8>): u16
    requires |p| >= IP_HEADER
  {
    (p[OFFSET] % 64 * 256 + p[OFFSET + 1] as int) * 8 % U16_MOD
  }

  /** The more-fragments bit among the six is shifted out: the offset is the 13-bit field in units. */
  lemma OffsetIsThirteenBits(p: seq<u8>)
    requires |p| >= IP_HEADER
    ensures OffsetOf(p) == 8 * (p[OFFSET] % 32 * 256 + p[OFFSET + 1] as int)
    ensures OffsetOf(p) % 8 == 0
  {
    var o := p[OFFSET];
    assert o % 64 == o % 32 + 32 * (o / 32 % 2);
  }

  predicate MoreFragments(p: seq<u8>)
    requires |p| >= IP_HEADER
  {
    p[OFFSET] / 32 % 2 == 1
  }

  /** Both come from the 16-bit field: three flags and thirteen bits. */
  lemma FragmentField(p: seq<u8>)
    requires |p| >= IP_HEADER
    ensures OffsetOf(p) == Word(p, OFFSET) % 0x2000 * 8
    ensures MoreFragments(p) <==> Word(p, OFFSET) / 0x2000 % 2 == 1
  {
    OffsetIsThirteenBits(p);
    FieldParts(p[OFFSET], p[OFFSET + 1]);
    hide OffsetOf, Word16;
  }

  lemma FieldParts(o: u8, l: u8)
    ensures Word16(o, l) / 0x2000 == o / 32 && Word16(o, l) % 0x2000 == o % 32 * 256 + l
  {
    assert o == 32 * (o / 32) + o % 32;
    assert Word16(o, l) == 0x2000 * (o / 32) + (o % 32 * 256 + l);
  }

  function FragmentOf(p: seq<u8>): Fragment
    requires IsPacket(p)
  {
    Fragment(OffsetOf(p), p[HeaderLen(p)..], MoreFragments(p))
  }

  /** Fragments of one datagram agree in the identification and both addresses. */
  function Key(p: seq<u8>): seq<u8>
    requires |p| >= IP_HEADER
  {
    p[4..6] + p[SOURCE..IP_HEADER]
  }

  // ---- The completion scan ----

  /** The test as written: its first part stops one bitmap byte early. */
  ghost predicate ScanPasses(fs: seq<Fragment>, total: nat) {
    && (forall u :: 0 <= u && u / 8 < total / 64 - 1 ==> Covered(fs, u))
    && (forall u :: u / 8 == total / 64 ==> (Covered(fs, u) <==> u < total / 8))
  }

  /** The test with the bound reasslen / 64. */
  ghost predicate FullScanPasses(fs: seq<Fragment>, total: nat) {
    && (forall u :: 0 <= u && u / 8 < total / 64 ==> Covered(fs, u))
    && (forall u :: u / 8 == total / 64 ==> (Covered(fs, u) <==> u < total / 8))
  }

  ghost predicate AllUnits(fs: seq<Fragment>, total: nat) { forall u :: 0 <= u < total / 8 ==> Covered(fs, u) }

  /** What the scan certifies: every unit below the end, except those of bitmap byte total / 64 - 1. */
  lemma ScanCertifies(fs: seq<Fragment>, total: nat)
    requires ScanPasses(fs, total)
    ensures forall u :: 0 <= u < total / 8 && u / 8 != total / 64 - 1 ==> Covered(fs, u)
    ensures AllUnits(fs, total) <==> forall u :: 0 <= u && u / 8 == total / 64 - 1 ==> Covered(fs, u)
  {
    forall u | 0 <= u < total / 8 && u / 8 != total / 64 - 1 ensures Covered(fs, u) {
      assert u / 8 <= total / 64;
    }
    forall u | 0 <= u && u / 8 == total / 64 - 1 ensures u < total / 8 {
      assert u < 8 * (total / 64);
    }
  }

  /** With the other bound the scan certifies everything, and differs from the one as written
      exactly in the skipped byte. */
  lemma FullScanCertifies(fs: seq<Fragment>, total: nat)
    ensures FullScanPasses(fs, total) ==> AllUnits(fs, total)
    ensures FullScanPasses(fs, total) <==> ScanPasses(fs, total) && AllUnits(fs, total)
  {
    if FullScanPasses(fs, total) {
      forall u | 0 <= u < total / 8 ensures Covered(fs, u) { assert u / 8 <= total / 64; }
    }
    if ScanPasses(fs, total) && AllUnits(fs, total) {
      forall u | 0 <= u && u / 8 < total / 64 ensures Covered(fs, u) { assert u < total / 8; }
    }
  }

  /** A single final fragment completes a datagram whose first 64 bytes never arrived. */
  lemma GapIsDelivered()
    ensures var fs := [Fragment(64, Repeat(0, 8), false)];
            Total(fs) == Some(72) && ScanPasses(fs, 72) && !Covered(fs, 0)
  {
    var f := Fragment(64, Repeat(0, 8), false);
    assert Contains(f, 8);
    assert [f][0] == f;
  }

  /** When all units below the end are there, so is every byte: the final fragment brings the rest. */
  lemma {:induction false} UnitsGiveBytes(fs: seq<Fragment>, total: nat, b: nat)
    requires Total(fs) == Some(total) && AllUnits(fs, total) && b < total
    requires forall k :: 0 <= k < |fs| ==> fs[k].offset % 8 == 0
    ensures ByteAt(fs, b).Some?
  {
    if b / 8 < total / 8 {
      assert Covered(fs, b / 8);
      var k :| 0 <= k < |fs| && Contains(fs[k], b / 8);
      HasByte(fs, k, b);
    } else {
      var k := FinalFragment(fs);
      assert fs[k].offset / 8 * 8 == fs[k].offset;
      HasByte(fs, k, b);
    }
  }

  lemma {:induction false} HasByte(fs: seq<Fragment>, k: nat, b: nat)
    requires k < |fs| && fs[k].offset <= b < End(fs[k])
    ensures ByteAt(fs, b).Some?
    decreases |fs|
  {
    if k < |fs| - 1 { HasByte(fs[..|fs| - 1], k, b); }
  }

  lemma {:induction false} FinalFragment(fs: seq<Fragment>) returns (k: nat)
    requires Total(fs).Some?
    ensures k < |fs| && !fs[k].more && Total(fs) == Some(End(fs[k]))
    decreases |fs|
  {
    if !fs[|fs| - 1].more { k := |fs| - 1; } else { k := FinalFragment(fs[..|fs| - 1]); }
  }

  lemma CoveredAppend(fs: seq<Fragment>, f: Fragment, u: nat)
    ensures Covered(fs + [f], u) <==> Covered(fs, u) || Contains(f, u)
  {
    var gs := fs + [f];
    if Covered(fs, u) {
      var k :| 0 <= k < |fs| && Contains(fs[k], u);
      assert gs[k] == fs[k];
    }
    if Contains(f, u) { assert gs[|fs|] == f; }
  }

  // ---- The bitmap ----

  predicate Marked(bitmap: seq<bv8>, u: nat)
    requires u < 8 * |bitmap|
  {
    Bit(bitmap[u / 8], u % 8)
  }

  /** Bytes x and y differ by the bits lo up to hi. */
  ghost predicate Adds(x: bv8, y: bv8, lo: nat, hi: nat) {
    forall i :: 0 <= i < 8 ==> (Bit(y, i) <==> Bit(x, i) || lo <= i < hi)
  }

  lemma AddsMiddle(x: bv8, lo: nat, hi: nat)
    requires lo < 8 && hi < 8
    ensures Adds(x, x | (BITMAP_BITS[lo] & !BITMAP_BITS[hi]), lo, hi)
  {
    hide Bit;
    forall i | 0 <= i < 8 ensures Bit(x | (BITMAP_BITS[lo] & !BITMAP_BITS[hi]), i) <==> Bit(x, i) || lo <= i < hi {
      OrBit(x, BITMAP_BITS[lo] & !BITMAP_BITS[hi], i);
      AndBit(BITMAP_BITS[lo], !BITMAP_BITS[hi], i);
      HeadBit(lo, i);
      HeadBit(hi, i);
    }
  }

  lemma AddsHead(x: bv8, lo: nat)
    requires lo < 8
    ensures Adds(x, x | BITMAP_BITS[lo], lo, 8)
  {
    hide Bit;
    forall i | 0 <= i < 8 ensures Bit(x | BITMAP_BITS[lo], i) <==> Bit(x, i) || lo <= i {
      OrBit(x, BITMAP_BITS[lo], i);
      HeadBit(lo, i);
    }
  }

  lemma AddsTail(x: bv8, hi: nat)
    requires hi < 8
    ensures Adds(x, x | !BITMAP_BITS[hi], 0, hi)
  {
    hide Bit;
    forall i | 0 <= i < 8 ensures Bit(x | !BITMAP_BITS[hi], i) <==> Bit(x, i) || i < hi {
      OrBit(x, !BITMAP_BITS[hi], i);
      HeadBit(hi, i);
    }
  }

  lemma AddsAll(x: bv8)
    ensures Adds(x, 0xff, 0, 8)
  {
    forall i | 0 <= i < 8 ensures Bit(0xff, i) { FullBit(i); }
  }

  /** Where the units from a on begin in bitmap byte j, and where those below e end. */
  function From(a: nat, j: nat): nat { if j < a / 8 then 8 else if j == a / 8 then a % 8 else 0 }
  function Upto(e: nat, j: nat): nat { if j > e / 8 then 0 else if j == e / 8 then e % 8 else 8 }

  ghost predicate AddsRange(before: seq<bv8>, after: seq<bv8>, a: nat, e: nat) {
    |before| == |after| == BITMAP_SIZE && forall j :: 0 <= j < BITMAP_SIZE ==> Adds(before[j], after[j], From(a, j), Upto(e, j))
  }

  lemma MarksRange(before: seq<bv8>, after: seq<bv8>, a: nat, e: nat, u: nat)
    requires AddsRange(before, after, a, e) && a <= e < UNITS && u < UNITS
    ensures Marked(after, u) <==> Marked(before, u) || a <= u < e
  {
    var j, i := u / 8, u % 8;
    assert Adds(before[j], after[j], From(a, j), Upto(e, j));
    assert 0 <= i < 8 && (Bit(after[j], i) <==> Bit(before[j], i) || a <= u < e);
  }

  lemma AddsNothing(x: bv8, lo: nat, hi: nat)
    requires hi <= lo || lo >= 8
    ensures Adds(x, x, lo, hi)
  {
  }

  /** The update of the bitmap for the units a up to e. */
  method MarkBytes(bitmap: array<bv8>, a: nat, e: nat)
    requires bitmap.Length == BITMAP_SIZE && a <= e < UNITS
    modifies bitmap
    ensures AddsRange(old(bitmap[..]), bitmap[..], a, e)
  {
    if a / 8 == e / 8 {
      MarkInByte(bitmap, a, e);
    } else {
      MarkAcross(bitmap, a, e);
    }
  }

  method MarkInByte(bitmap: array<bv8>, a: nat, e: nat)
    requires bitmap.Length == BITMAP_SIZE && a <= e < UNITS && a / 8 == e / 8
    modifies bitmap
    ensures AddsRange(old(bitmap[..]), bitmap[..], a, e)
  {
    ghost var before := bitmap[..];
    AddsMiddle(bitmap[a / 8], a % 8, e % 8);
    bitmap[a / 8] := bitmap[a / 8] | (BITMAP_BITS[a % 8] & !BITMAP_BITS[e % 8]);
    forall j | 0 <= j < BITMAP_SIZE && j != a / 8 ensures Adds(before[j], bitmap[j], From(a, j), Upto(e, j)) {
      AddsNothing(before[j], From(a, j), Upto(e, j));
    }
  }

  method MarkAcross(bitmap: array<bv8>, a: nat, e: nat)
    requires bitmap.Length == BITMAP_SIZE && a <= e < UNITS && a / 8 < e / 8
    modifies bitmap
    ensures AddsRange(old(bitmap[..]), bitmap[..], a, e)
  {
    ghost var before := bitmap[..];
    bitmap[a / 8] := bitmap[a / 8] | BITMAP_BITS[a % 8];
    FillBytes(bitmap, 1 + a / 8, e / 8);
    bitmap[e / 8] := bitmap[e / 8] | !BITMAP_BITS[e % 8];
    AllAcross(before, bitmap[..], a, e);
  }

  /** The bytes between the two ends become 0xff. */
  method FillBytes(bitmap: array<bv8>, lo: nat, hi: nat)
    requires lo <= hi <= bitmap.Length
    modifies bitmap
    ensures forall j :: 0 <= j < bitmap.Length ==> bitmap[j] == if lo <= j < hi then 0xff else old(bitmap[j])
  {
    for i := lo to hi
      invariant forall j :: 0 <= j < bitmap.Length ==> bitmap[j] == if lo <= j < i then 0xff else old(bitmap[j])
    {
      bitmap[i] := 0xff;
    }
  }

  lemma AllAcross(before: seq<bv8>, after: seq<bv8>, a: nat, e: nat)
    requires |before| == |after| == BITMAP_SIZE && a / 8 < e / 8 < BITMAP_SIZE
    requires after[a / 8] == before[a / 8] | BITMAP_BITS[a % 8] && after[e / 8] == before[e / 8] | !BITMAP_BITS[e % 8]
    requires forall j :: 0 <= j < BITMAP_SIZE && j != a / 8 && j != e / 8 ==> after[j] == if a / 8 < j < e / 8 then 0xff else before[j]
    ensures AddsRange(before, after, a, e)
  {
    forall j | 0 <= j < BITMAP_SIZE ensures Adds(before[j], after[j], From(a, j), Upto(e, j)) {
      AddsAcross(before, after, a, e, j);
    }
  }

  lemma AddsAcross(before: seq<bv8>, after: seq<bv8>, a: nat, e: nat, j: nat)
    requires |before| == |after| == BITMAP_SIZE && a / 8 < e / 8 && j < BITMAP_SIZE
    requires j == a / 8 ==> after[j] == before[j] | BITMAP_BITS[a % 8]
    requires j == e / 8 ==> after[j] == before[j] | !BITMAP_BITS[e % 8]
    requires a / 8 < j < e / 8 ==> after[j] == 0xff
    requires j < a / 8 || j > e / 8 ==> after[j] == before[j]
    ensures Adds(before[j], after[j], From(a, j), Upto(e, j))
  {
    if j == a / 8 { AddsHead(before[j], a % 8); }
    else if j == e / 8 { AddsTail(before[j], e % 8); }
    else if a / 8 < j < e / 8 { AddsAll(before[j]); }
    else { AddsNothing(before[j], From(a, j), Upto(e, j)); }
  }

  /** The update of the bitmap for a fragment at offset of len bytes. */
  method MarkUnits(bitmap: array<bv8>, offset: nat, len: nat)
    requires bitmap.Length == BITMAP_SIZE && offset % 8 == 0 && offset + len < 64 * BITMAP_SIZE
    modifies bitmap
    ensures forall u :: 0 <= u < UNITS ==> (Marked(bitmap[..], u) <==> Marked(old(bitmap[..]), u) || offset / 8 <= u < (offset + len) / 8)
  {
    ghost var before := bitmap[..];
    var a, e := offset / 8, (offset + len) / 8;
    MarkBytes(bitmap, a, e);
    forall u | 0 <= u < UNITS ensures Marked(bitmap[..], u) <==> Marked(before, u) || a <= u < e {
      MarksRange(before, bitmap[..], a, e, u);
    }
  }

  /** The completion test on the bitmap. */
  method Complete(bitmap: array<bv8>, total: nat) returns (complete: bool)
    requires bitmap.Length == BITMAP_SIZE && total < 64 * BITMAP_SIZE
    ensures complete <==>
      && (forall u :: 0 <= u < UNITS && u / 8 < total / 64 - 1 ==> Marked(bitmap[..], u))
      && (forall u :: 0 <= u < UNITS && u / 8 == total / 64 ==> (Marked(bitmap[..], u) <==> u < total / 8))
  {
    var i := 0;
    while i < total / 64 - 1
      invariant 0 <= i && (i == 0 || i <= total / 64 - 1)
      invariant forall j :: 0 <= j < i ==> bitmap[j] == 0xff
    {
      if bitmap[i] != 0xff {
        NotFull(bitmap[..], i);
        return false;
      }
      i := i + 1;
    }
    forall u | 0 <= u < UNITS && u / 8 < total / 64 - 1 ensures Marked(bitmap[..], u) { FullBit(u % 8); }
    LastByte(bitmap[..], total);
    complete := bitmap[total / 64] == !BITMAP_BITS[total / 8 % 8];
  }

  lemma NotFull(bitmap: seq<bv8>, j: nat)
    requires |bitmap| == BITMAP_SIZE && j < BITMAP_SIZE && bitmap[j] != 0xff
    ensures exists u :: 0 <= u < UNITS && u / 8 == j && !Marked(bitmap, u)
  {
    if forall i :: 0 <= i < 8 ==> Bit(bitmap[j], i) {
      forall i | 0 <= i < 8 ensures Bit(bitmap[j], i) == Bit(0xff, i) { FullBit(i); }
      SameBits(bitmap[j], 0xff);
    }
    var i :| 0 <= i < 8 && !Bit(bitmap[j], i);
    assert (8 * j + i) / 8 == j && (8 * j + i) % 8 == i;
    assert !Marked(bitmap, 8 * j + i);
  }

  lemma LastByte(bitmap: seq<bv8>, total: nat)
    requires |bitmap| == BITMAP_SIZE && total < 64 * BITMAP_SIZE
    ensures bitmap[total / 64] == !BITMAP_BITS[total / 8 % 8] <==>
      forall u :: 0 <= u < UNITS && u / 8 == total / 64 ==> (Marked(bitmap, u) <==> u < total / 8)
  {
    var j, k := total / 64, total / 8 % 8;
    assert total / 8 == 8 * j + k;
    if forall u :: 0 <= u < UNITS && u / 8 == j ==> (Marked(bitmap, u) <==> u < total / 8) {
      forall i | 0 <= i < 8 ensures Bit(bitmap[j], i) == Bit(!BITMAP_BITS[k], i) {
        var u := 8 * j + i;
        assert u / 8 == j && u % 8 == i && (Marked(bitmap, u) <==> u < total / 8);
        HeadBit(k, i);
      }
      SameBits(bitmap[j], !BITMAP_BITS[k]);
    }
    if bitmap[j] == !BITMAP_BITS[k] {
      forall u | 0 <= u < UNITS && u / 8 == j ensures Marked(bitmap, u) <==> u < total / 8 { HeadBit(k, u % 8); }
    }
  }

  // ---- The reassembly buffer ----

  /** The bitmap marks exactly the units that lie in a fragment. */
  ghost predicate Exact(fs: seq<Fragment>, bitmap: seq<bv8>)
    requires |bitmap| == BITMAP_SIZE
  {
    forall u :: 0 <= u < UNITS ==> (Marked(bitmap, u) <==> Covered(fs, u))
  }

  /** The buffer has every byte received, behind the IP header. */
  ghost predicate Stores(fs: seq<Fragment>, buf: seq<u8>)
    requires |buf| == BUFFER_SIZE
  {
    forall b :: 0 <= b < BUFFER_SIZE - IP_HEADER && ByteAt(fs, b).Some? ==> buf[IP_HEADER + b] == ByteAt(fs, b).value
  }

  predicate InRange(f: Fragment) { f.offset % 8 == 0 && End(f) < 64 * BITMAP_SIZE }

  lemma ContainsRange(f: Fragment, u: nat)
    requires f.offset % 8 == 0
    ensures Contains(f, u) <==> f.offset / 8 <= u < End(f) / 8
  {
  }

  lemma ExactNext(fs: seq<Fragment>, f: Fragment, before: seq<bv8>, after: seq<bv8>)
    requires |before| == |after| == BITMAP_SIZE && Exact(fs, before) && InRange(f)
    requires forall u :: 0 <= u < UNITS ==> (Marked(after, u) <==> Marked(before, u) || f.offset / 8 <= u < End(f) / 8)
    ensures Exact(fs + [f], after)
  {
    forall u | 0 <= u < UNITS ensures Marked(after, u) <==> Covered(fs + [f], u) {
      CoveredAppend(fs, f, u);
      ContainsRange(f, u);
      assert Marked(before, u) <==> Covered(fs, u);
    }
  }

  lemma StoresNext(fs: seq<Fragment>, f: Fragment, before: seq<u8>, after: seq<u8>)
    requires |before| == |after| == BUFFER_SIZE && Stores(fs, before) && InRange(f)
    requires after == before[..IP_HEADER + f.offset] + f.data + before[IP_HEADER + End(f)..]
    ensures Stores(fs + [f], after)
  {
    forall b | 0 <= b < BUFFER_SIZE - IP_HEADER && ByteAt(fs + [f], b).Some?
      ensures after[IP_HEADER + b] == ByteAt(fs + [f], b).value {
      assert (fs + [f])[..|fs|] == fs;
    }
  }

  lemma TotalNext(fs: seq<Fragment>, f: Fragment)
    ensures Total(fs + [f]) == if f.more then Total(fs) else Some(End(f))
  {
    assert (fs + [f])[..|fs|] == fs;
  }

  lemma ScanIsExact(fs: seq<Fragment>, bitmap: seq<bv8>, total: nat)
    requires |bitmap| == BITMAP_SIZE && Exact(fs, bitmap) && total < 64 * BITMAP_SIZE
    ensures ScanPasses(fs, total) <==>
      && (forall u :: 0 <= u < UNITS && u / 8 < total / 64 - 1 ==> Marked(bitmap, u))
      && (forall u :: 0 <= u < UNITS && u / 8 == total / 64 ==> (Marked(bitmap, u) <==> u < total / 8))
  {
    assert forall u :: 0 <= u < UNITS ==> (Marked(bitmap, u) <==> Covered(fs, u));
  }

  /** What is handed up: the header of the first fragment and the data; the length field is the end of the data, the header not counted, so the last
      20 bytes of the datagram are missing. */
  ghost predicate Delivered(out: seq<u8>, header: seq<u8>, fs: seq<Fragment>, total: nat) {
    && |out| >= IP_HEADER == |header| && total <= |out| && Word(out, LEN) == total && out[OFFSET] == out[OFFSET + 1] == 0 && IpValid(out)
    && (forall k :: 0 <= k < IP_HEADER && k < total && k / 2 != 1 && k / 2 != 3 && k / 2 != 5 ==> out[k] == header[k])
    && forall b :: 0 <= b < total - IP_HEADER && ByteAt(fs, b).Some? ==> out[IP_HEADER + b] == ByteAt(fs, b).value
  }

  class Reassembler {
    const buf: array<u8>
    const bitmap: array<bv8>
    var last: bool
    var total: u16
    var timer: u8
    ghost var frags: seq<Fragment> // the fragments accepted since the last restart
    ghost var header: seq<u8>      // the IP header of the fragment that caused it
    ghost var age: nat             // the timer calls since then

    ghost predicate Shaped() { buf.Length == BUFFER_SIZE && bitmap.Length == BITMAP_SIZE }

    ghost predicate Valid()
      reads this, buf, bitmap
    {
      && Shaped() && timer <= MAX_AGE && (timer > 0 ==> timer + age == MAX_AGE)
      && (timer > 0 ==> Tracks(frags) && |header| == IP_HEADER && buf[..IP_HEADER] == header)
    }

    ghost predicate Tracks(fs: seq<Fragment>)
      requires Shaped()
      reads this, buf, bitmap
    {
      && Exact(fs, bitmap[..]) && Stores(fs, buf[..])
      && (forall k :: 0 <= k < |fs| ==> InRange(fs[k]))
      && last == Total(fs).Some? && (last ==> Total(fs) == Some(total) && total < 64 * BITMAP_SIZE)
    }

    constructor ()
      ensures Valid() && timer == 0 && fresh(buf) && fresh(bitmap)
    {
      buf := new u8[BUFFER_SIZE](_ => 0);
      bitmap := new bv8[BITMAP_SIZE](_ => 0);
      last, total, timer, frags, header, age := false, 0, 0, [], [], 0;
    }

    /** The reassembly part of the periodic timer: an unfinished datagram is dropped on the MAX_AGE-th
        timer call after its first fragment, and not before. */
    method Tick()
      requires Valid()
      modifies this`timer, this`age
      ensures Valid() && age == old(age) + 1
      ensures old(timer) == 0 ==> timer == 0
      ensures old(timer) > 0 ==> (timer == 0 <==> age == MAX_AGE)
    {
      if timer != 0 { timer := timer - 1; }
      age := age + 1;
    }

    method ClearBitmap()
      requires Shaped()
      modifies bitmap
      ensures forall k :: 0 <= k < BITMAP_SIZE ==> bitmap[k] == 0
    {
      for j := 0 to BITMAP_SIZE
        invariant forall k :: 0 <= k < j ==> bitmap[k] == 0
      {
        bitmap[j] := 0;
      }
    }

    /** A new datagram: keep the header, clear the bitmap. */
    method Restart(ip: array<u8>)
      requires Shaped() && ip != buf && ip.Length >= BUFFER_SIZE
      modifies this, buf, bitmap
      ensures Valid() && timer == MAX_AGE && age == 0 && frags == [] && header == ip[..IP_HEADER]
    {
      for k := 0 to IP_HEADER
        invariant buf[..k] == ip[..k]
      {
        buf[k] := ip[k];
      }
      ClearBitmap();
      timer, age, last, frags, header := MAX_AGE, 0, false, [], ip[..IP_HEADER];
      forall u | 0 <= u < UNITS ensures !Marked(bitmap[..], u) {
        FullBit(u % 8);
        assert bitmap[..][u / 8] == 0;
      }
    }

    /** Copy the data, mark its units, note the end. */
    method Store(p: seq<u8>)
      requires Valid() && timer > 0 && IsPacket(p) && InRange(FragmentOf(p))
      modifies this`last, this`total, this`frags, buf, bitmap
      ensures Valid() && frags == old(frags) + [FragmentOf(p)] && buf[..IP_HEADER] == old(buf[..IP_HEADER])
    {
      ghost var f := FragmentOf(p);
      var offset := OffsetOf(p);
      var data := p[HeaderLen(p)..];
      Copy(buf, IP_HEADER + offset, data);
      StoresNext(frags, f, old(buf[..]), buf[..]);
      MarkUnits(bitmap, offset, |data|);
      ExactNext(frags, f, old(bitmap[..]), bitmap[..]);
      TotalNext(frags, f);
      if !MoreFragments(p) {
        last, total := true, offset + |data|;
      }
      frags := frags + [f];
    }

    /** The whole datagram goes back into the packet buffer. */
    method Deliver(ip: array<u8>, order: Order)
      requires Valid() && timer > 0 && last && ip != buf && ip.Length >= BUFFER_SIZE
      modifies ip
      ensures Delivered(ip[..], header, frags, total)
    {
      hide Exact, Stores, Delivered, IpFill;
      CopyOut(ip);
      ghost var c := ip[..];
      PatchHeader(ip);
      ghost var q := ip[..];
      IpFillVerifies(order, q);
      FillIp(ip, order);
      DeliveredCopy(buf[..], header, c, q, ip[..], frags, total);
    }

    /** ipoffset = 0 and len = uip_reasslen */
    method PatchHeader(ip: array<u8>)
      requires ip.Length >= IP_HEADER
      modifies ip
      ensures Word(ip[..], LEN) == total && ip[OFFSET] == ip[OFFSET + 1] == 0
      ensures forall k :: 0 <= k < ip.Length && k / 2 != 1 && k / 2 != 3 ==> ip[k] == old(ip[k])
    {
      ip[OFFSET], ip[OFFSET + 1] := 0, 0;
      ip[LEN], ip[LEN + 1] := total / 256, total % 256;
    }

    /** memcpy(BUF, FBUF, uip_reasslen) */
    method CopyOut(ip: array<u8>)
      requires Shaped() && total <= BUFFER_SIZE <= ip.Length && ip != buf
      modifies ip
      ensures forall k :: 0 <= k < total ==> ip[k] == buf[k]
    {
      for k := 0 to total
        invariant forall j :: 0 <= j < k ==> ip[j] == buf[j]
      {
        ip[k] := buf[k];
      }
    }

    /** Does the packet belong to the datagram in the buffer? */
    method SameDatagram(ip: array<u8>) returns (same: bool)
      requires Shaped() && ip.Length >= IP_HEADER
      ensures same <==> Key(ip[..]) == Key(buf[..])
    {
      same := ip[SOURCE..IP_HEADER] == buf[SOURCE..IP_HEADER] && ip[4..6] == buf[4..6];
      KeyParts(ip[..], buf[..]);
      assert ip[..][4..6] == ip[4..6] && buf[..][4..6] == buf[4..6];
      assert ip[..][SOURCE..IP_HEADER] == ip[SOURCE..IP_HEADER] && buf[..][SOURCE..IP_HEADER] == buf[SOURCE..IP_HEADER];
    }

    /** The completion test, and the delivery. */
    method Finish(ip: array<u8>, order: Order) returns (r: u16)
      requires Valid() && timer > 0 && ip != buf && ip.Length >= BUFFER_SIZE
      modifies this`timer, ip
      ensures Valid()
      ensures if Total(frags).Some? && ScanPasses(frags, Total(frags).value)
              then timer == 0 && Total(frags) == Some(r as nat) && Delivered(ip[..], header, frags, r)
              else r == 0 && timer == old(timer) && ip[..] == old(ip[..])
    {
      r := 0;
      if last {
        ScanIsExact(frags, bitmap[..], total);
        var complete := Complete(bitmap, total);
        if complete {
          Deliver(ip, order);
          timer := 0;
          r := total;
        }
      }
    }

    /** uip_reass on a fragment of len bytes that ends inside the bitmap or beyond the buffer. */
    method Input(ip: array<u8>, len: u16, order: Order) returns (r: u16)
      requires Valid() && ip != buf && BUFFER_SIZE <= ip.Length && len <= ip.Length && IsPacket(ip[..len])
      requires End(FragmentOf(ip[..len])) < 64 * BITMAP_SIZE || End(FragmentOf(ip[..len])) > BUFFER_SIZE
      modifies this, buf, bitmap, ip
      ensures Valid()
      ensures var f := FragmentOf(old(ip[..len]));
              var open := old(timer) != 0;
              var matches := open ==> Key(old(ip[..])) == Key(old(buf[..]));
              var before := if open then old(frags) else [];
              if !matches then r == 0 && timer == old(timer) && frags == old(frags) && ip[..] == old(ip[..])
              else if End(f) > BUFFER_SIZE then r == 0 && timer == 0
              else
                && frags == before + [f] && header == (if open then old(header) else old(ip[..IP_HEADER]))
                && age == (if open then old(age) else 0)
                && (if Total(frags).Some? && ScanPasses(frags, Total(frags).value)
                    then timer == 0 && Total(frags) == Some(r as nat) && Delivered(ip[..], header, frags, r)
                    else r == 0 && timer == (if open then old(timer) else MAX_AGE) && ip[..] == old(ip[..]))
    {
      if timer == 0 {
        Restart(ip);
        RestartedKey(ip[..], buf[..]);
      }
      var same := SameDatagram(ip);
      if !same { return 0; }
      var p := ip[..len];
      var offset := OffsetOf(p);
      if offset > BUFFER_SIZE || offset + (len - HeaderLen(p)) > BUFFER_SIZE {
        timer := 0;
        return 0;
      }
      OffsetIsThirteenBits(p);
      Store(p);
      r := Finish(ip, order);
    }
  }

  lemma KeyParts(p: seq<u8>, q: seq<u8>)
    requires |p| >= IP_HEADER && |q| >= IP_HEADER
    ensures Key(p) == Key(q) <==> p[4..6] == q[4..6] && p[SOURCE..IP_HEADER] == q[SOURCE..IP_HEADER]
  {
    assert Key(p)[..2] == p[4..6] && Key(q)[..2] == q[4..6] && Key(p)[2..] == p[SOURCE..IP_HEADER] && Key(q)[2..] == q[SOURCE..IP_HEADER];
  }

  lemma RestartedKey(p: seq<u8>, q: seq<u8>)
    requires |p| >= IP_HEADER && |q| >= IP_HEADER && p[..IP_HEADER] == q[..IP_HEADER]
    ensures Key(p) == Key(q)
  {
    assert p[4..6] == p[..IP_HEADER][4..6] && q[4..6] == q[..IP_HEADER][4..6];
    assert p[SOURCE..IP_HEADER] == p[..IP_HEADER][SOURCE..] && q[SOURCE..IP_HEADER] == q[..IP_HEADER][SOURCE..];
  }

  /** The steps of the delivery put together. */
  lemma DeliveredCopy(buf: seq<u8>, header: seq<u8>, c: seq<u8>, q: seq<u8>, r: seq<u8>, fs: seq<Fragment>, total: nat)
    requires |buf| == BUFFER_SIZE <= |c| == |q| && Stores(fs, buf) && total <= BUFFER_SIZE && buf[..IP_HEADER] == header
    requires forall k :: 0 <= k < total ==> c[k] == buf[k]
    requires Word(q, LEN) == total && q[OFFSET] == q[OFFSET + 1] == 0
    requires forall k :: 0 <= k < |q| && k / 2 != 1 && k / 2 != 3 ==> q[k] == c[k]
    requires IpValid(r) && SameExcept(q, r, IP_CHECKSUM)
    ensures Delivered(r, header, fs, total)
  {
    hide IpValid;
    assert forall k :: 0 <= k < IP_HEADER ==> header[k] == buf[k];
    forall b | 0 <= b < total - IP_HEADER && ByteAt(fs, b).Some? ensures r[IP_HEADER + b] == ByteAt(fs, b).value {
      CopiedByte(buf, c, q, r, total, b);
    }
  }

  lemma CopiedByte(buf: seq<u8>, c: seq<u8>, q: seq<u8>, r: seq<u8>, total: nat, b: nat)
    requires |buf| <= |c| == |q| && total <= |buf| && b < total - IP_HEADER
    requires forall k :: 0 <= k < total ==> c[k] == buf[k]
    requires forall k :: 0 <= k < |q| && k / 2 != 1 && k / 2 != 3 ==> q[k] == c[k]
    requires SameExcept(q, r, IP_CHECKSUM)
    ensures r[IP_HEADER + b] == buf[IP_HEADER + b]
  {
    assert q[IP_HEADER + b] == c[IP_HEADER + b];
  }
}
