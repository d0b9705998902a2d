/** Machine integers of the firmware, as ranges of the mathematical integers.
    Wrap-around is written out wherever the C code relies on it. */
module Bytes {
  const U16_MOD: int := 0x1_0000
  const U32_MOD: int := 0x1_0000_0000

  type u8 = x: int | 0 <= x < 0x100
  type u16 = x: int | 0 <= x < 0x1_0000
  type u32 = x: int | 0 <= x < 0x1_0000_0000

  datatype Option<+T> = None | Some(value: T)

  function Min(a: nat, b: nat): nat { if a < b then a else b }

  function Max(a: nat, b: nat): nat { if a < b then b else a }

  /** A 16-bit field, most significant byte first. */
  function Word16(hi: u8, lo: u8): u16 { hi as int * 256 + lo as int }

  function Repeat<T>(x: T, n: nat): seq<T> { seq(n, _ => x) }

  /** The byte order of the host. */
  datatype Order = Big | Little

  function Swap(x: u16): u16 { x % 256 * 256 + x / 256 }

  function Htons(order: Order, x: u16): u16 { if order.Big? then x else Swap(x) }

  lemma SwapTwice(x: u16)
    ensures Swap(Swap(x)) == x
  {
    var h, l := x / 256, x % 256;
    assert (l * 256 + h) / 256 == l && (l * 256 + h) % 256 == h;
  }

  /** memcpy(&dst[at], src, |src|) */
  method Copy(dst: array<u8>, at: nat, src: seq<u8>)
    requires at + |src| <= dst.Length
    modifies dst
    ensures dst[..] == old(dst[..at]) + src + old(dst[at + |src|..])
  {
    for k := 0 to |src|
      invariant dst[..] == old(dst[..at]) + src[..k] + old(dst[at + k..])
    {
      dst[at + k] := src[k];
    }
    assert src[..|src|] == src;
  }
}

/** Sequence numbers as uIP stores them: four bytes, most significant first. */
module SequenceNumbers {
  import opened Bytes

  datatype Word32 = Word32(b0: u8, b1: u8, b2: u8, b3: u8)

  function Value(w: Word32): u32 {
    Word16(w.b0, w.b1) as int * 0x1_0000 + Word16(w.b2, w.b3) as int
  }

  function FromValue(x: u32): (w: Word32)
    ensures Value(w) == x
  {
    var high, low := x / 0x1_0000, x % 0x1_0000;
    Word32(high / 0x100, high % 0x100, low / 0x100, low % 0x100)
  }

  /** Addition modulo 2^32, as section 3.3 of RFC 793 defines it. */
  function Plus(x: u32, n: nat): u32 { (x + n) % U32_MOD }

  /** `b + n` in an unsigned byte. */
  function Wrap8(b: u8, n: u8): (r: u8)
    ensures r == b + n || r == b + n - 256
    ensures r < n <==> b + n >= 256
  {
    if b + n < 256 then b + n else b + n - 256
  }

  lemma Word16Injective(a: u8, b: u8, c: u8, d: u8)
    requires Word16(a, b) == Word16(c, d)
    ensures a == c && b == d
  {
  }

  lemma ValueInjective(v: Word32, w: Word32)
    ensures Value(v) == Value(w) <==> v == w
  {
    if Value(v) == Value(w) {
      Word16Injective(v.b0, v.b1, w.b0, w.b1);
      Word16Injective(v.b2, v.b3, w.b2, w.b3);
    }
  }

  lemma ReducedOnce(x: u32, n: u16, y: u32)
    requires y == x + n || y == x + n - U32_MOD
    ensures y == Plus(x, n)
  {
    if y == x + n - U32_MOD { assert (x + n) / U32_MOD == 1; }
  }

  /** The byte-wise 32-bit addition: two partial sums and two separate carry chains. */
  method Add32(op: Word32, n: u16) returns (acc: Word32)
    ensures Value(acc) == Plus(Value(op), n)
  {
    var lo: u8, hi: u8 := n % 256, n / 256;
    var a3 := Wrap8(op.b3, lo);
    var a2 := Wrap8(op.b2, hi);
    var a1 := op.b1;
    var a0 := op.b0;
    if a2 < hi {
      a1 := Wrap8(a1, 1);
      if a1 == 0 {
        a0 := Wrap8(a0, 1);
      }
    }
    if a3 < lo {
      a2 := Wrap8(a2, 1);
      if a2 == 0 {
        a1 := Wrap8(a1, 1);
        if a1 == 0 {
          a0 := Wrap8(a0, 1);
        }
      }
    }
    acc := Word32(a0, a1, a2, a3);
    ReducedOnce(Value(op), n, Value(acc));
  }

  /** The carry chain used for the initial sequence number and for reset replies. */
  method Increment(w: Word32) returns (r: Word32)
    ensures Value(r) == Plus(Value(w), 1)
  {
    var b0, b1, b2, b3 := w.b0, w.b1, w.b2, Wrap8(w.b3, 1);
    if b3 == 0 {
      b2 := Wrap8(b2, 1);
      if b2 == 0 {
        b1 := Wrap8(b1, 1);
        if b1 == 0 {
          b0 := Wrap8(b0, 1);
        }
      }
    }
    r := Word32(b0, b1, b2, b3);
    ReducedOnce(Value(w), 1, Value(r));
  }

  /** Positions closer than 2^32 never share a sequence number. */
  lemma SamePosition(isn: u32, p: nat, q: nat)
    requires p < U32_MOD && q < U32_MOD
    requires Plus(isn, p) == Plus(isn, q)
    ensures p == q
  {
    assert (isn + p) / U32_MOD * U32_MOD + Plus(isn, p) == isn + p;
    assert (isn + q) / U32_MOD * U32_MOD + Plus(isn, q) == isn + q;
  }

  lemma PlusPlus(x: u32, m: nat, n: nat)
    ensures Plus(Plus(x, m), n) == Plus(x, m + n)
  {
  }
}
