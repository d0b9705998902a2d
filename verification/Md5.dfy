/** Streaming MD5: the buffered context against the one-shot definition of RFC 1321. */
module Md5 {
  import opened Bytes
  import opened Md5Transform

  // ---- Words and bytes, least significant byte first ----

  function ByteOf(w: u32, k: nat): (b: u8)
    requires k < 4
  {
    if k == 0 then w % 256 else if k == 1 then w / 0x100 % 256 else if k == 2 then w / 0x1_0000 % 256 else w / 0x100_0000
  }

  function WordOf(b0: u8, b1: u8, b2: u8, b3: u8): u32 { b0 + 0x100 * b1 + 0x1_0000 * b2 + 0x100_0000 * b3 }

  function EncodeWords(ws: seq<u32>): (bs: seq<u8>)
    ensures |bs| == 4 * |ws|
  {
    seq(4 * |ws|, j requires 0 <= j < 4 * |ws| => ByteOf(ws[j / 4], j % 4))
  }

  function DecodeWords(bs: seq<u8>): (ws: seq<u32>)
    requires |bs| % 4 == 0
    ensures |ws| == |bs| / 4
  {
    seq(|bs| / 4, i requires 0 <= i < |bs| / 4 => WordOf(bs[4 * i], bs[4 * i + 1], bs[4 * i + 2], bs[4 * i + 3]))
  }

  lemma WordBytes(w: u32)
    ensures WordOf(ByteOf(w, 0), ByteOf(w, 1), ByteOf(w, 2), ByteOf(w, 3)) == w
  {
    var q1 := w / 0x100;
    var q2 := q1 / 0x100;
    var q3 := q2 / 0x100;
    assert q2 == w / 0x1_0000 && q3 == w / 0x100_0000;
    assert w == q1 * 0x100 + w % 0x100 && q1 == q2 * 0x100 + q1 % 0x100 && q2 == q3 * 0x100 + q2 % 0x100;
  }

  lemma DecodeEncode(ws: seq<u32>)
    ensures DecodeWords(EncodeWords(ws)) == ws
  {
    hide ByteOf, WordOf;
    var bs := EncodeWords(ws);
    forall i | 0 <= i < |ws| ensures DecodeWords(bs)[i] == ws[i] {
      EncodedAt(ws, i);
      WordBytes(ws[i]);
    }
  }

  lemma EncodedAt(ws: seq<u32>, i: nat)
    requires i < |ws|
    ensures var bs := EncodeWords(ws);
      && bs[4 * i] == ByteOf(ws[i], 0) && bs[4 * i + 1] == ByteOf(ws[i], 1)
      && bs[4 * i + 2] == ByteOf(ws[i], 2) && bs[4 * i + 3] == ByteOf(ws[i], 3)
  {
  }

  /** Encode(output, input, 4 * |input|) */
  method Encode(output: array<u8>, input: seq<u32>)
    requires output.Length == 4 * |input|
    modifies output
    ensures output[..] == EncodeWords(input)
  {
    var i, j := 0, 0;
    while j < 4 * |input|
      invariant j == 4 * i && i <= |input|
      invariant forall k :: 0 <= k < j ==> output[k] == EncodeWords(input)[k]
    {
      output[j] := input[i] % 256;
      output[j + 1] := input[i] / 0x100 % 256;
      output[j + 2] := input[i] / 0x1_0000 % 256;
      output[j + 3] := input[i] / 0x100_0000 % 256;
      i, j := i + 1, j + 4;
    }
  }

  /** Decode(output, input, 4 * output.Length) */
  method Decode(output: array<u32>, input: seq<u8>)
    requires |input| == 4 * output.Length
    modifies output
    ensures output[..] == DecodeWords(input)
  {
    var i, j := 0, 0;
    while j < |input|
      invariant j == 4 * i && i <= output.Length
      invariant forall k :: 0 <= k < i ==> output[k] == DecodeWords(input)[k]
    {
      output[i] := WordOf(input[j], input[j + 1], input[j + 2], input[j + 3]);
      i, j := i + 1, j + 4;
    }
  }

  // ---- The one-shot definition (section 3 of RFC 1321) ----

  type State = s: seq<u32> | |s| == 4 witness [0, 0, 0, 0]
  type Block = b: seq<u8> | |b| == 64 witness Repeat(0, 64)

  const INITIAL: State := [INIT.a, INIT.b, INIT.c, INIT.d]

  function Transform(w: WordOps, st: State, block: Block): State {
    var r := Steps(w, DecodeWords(block), Regs(st[0], st[1], st[2], st[3]), 0, 64);
    [w.add(st[0], r.a), w.add(st[1], r.b), w.add(st[2], r.c), w.add(st[3], r.d)]
  }

  /** The complete blocks of a message, absorbed in order. */
  function Absorb(w: WordOps, st: State, m: seq<u8>): State
    decreases |m|
  {
    if |m| < 64 then st else Absorb(w, Transform(w, st, m[..64]), m[64..])
  }

  /** The bytes after the last complete block. */
  function Tail(m: seq<u8>): seq<u8> { m[|m| - |m| % 64..] }

  /** The message length in bits, modulo 2^64. */
  function BitCount(m: seq<u8>): nat { 8 * |m| % (U32_MOD * U32_MOD) }

  function LengthBytes(m: seq<u8>): seq<u8> { EncodeWords([BitCount(m) % U32_MOD, BitCount(m) / U32_MOD]) }

  /** A one bit and the fewest zero bits up to 448 modulo 512 bits. */
  function Filling(n: nat): seq<u8> { [0x80] + Repeat(0, (55 - n) % 64) }

  function Padded(m: seq<u8>): seq<u8> { m + Filling(|m|) + LengthBytes(m) }

  /** MD5 is this function for the operations MD5_OPS. */
  function Digest(w: WordOps, m: seq<u8>): seq<u8> { EncodeWords(Absorb(w, INITIAL, Padded(m))) }

  lemma PaddedIsBlocks(m: seq<u8>)
    ensures |Padded(m)| % 64 == 0
  {
  }

  lemma {:induction false} AbsorbAppend(w: WordOps, st: State, a: seq<u8>, b: seq<u8>)
    requires |a| % 64 == 0
    ensures Absorb(w, st, a + b) == Absorb(w, Absorb(w, st, a), b)
    decreases |a|
  {
    if a == [] {
      assert a + b == b;
    } else {
      assert (a + b)[..64] == a[..64] && (a + b)[64..] == a[64..] + b;
      AbsorbAppend(w, Transform(w, st, a[..64]), a[64..], b);
    }
  }

  /** The state after one block is the state the next one starts from. */
  lemma {:induction false} BlocksChain(w: WordOps, st: State, first: Block, second: Block)
    ensures Absorb(w, st, first) == Transform(w, st, first)
    ensures Absorb(w, st, first + second) == Transform(w, Transform(w, st, first), second)
  {
    OneBlock(w, st, first);
    OneBlock(w, Transform(w, st, first), second);
    AbsorbAppend(w, st, first, second);
    hide Transform, Absorb;
  }

  lemma {:induction false} OneBlock(w: WordOps, st: State, b: Block)
    ensures Absorb(w, st, b) == Transform(w, st, b)
  {
    assert b[..64] == b && b[64..] == [];
    hide Transform;
  }

  lemma RestAdds(a: nat, b: nat)
    ensures (a + b) % 64 == (a % 64 + b) % 64
  {
    assert a == a / 64 * 64 + a % 64;
  }

  lemma TailLength(m: seq<u8>, x: seq<u8>)
    ensures |Tail(m)| == |m| % 64 && |m + x| % 64 == |Tail(m) + x| % 64
  {
    RestAdds(|m|, |x|);
  }

  lemma TailExtend(m: seq<u8>, x: seq<u8>)
    ensures Tail(m + x) == Tail(Tail(m) + x)
    ensures m == m[..|m| - |m| % 64] + Tail(m)
    ensures m + x == m[..|m| - |m| % 64] + (Tail(m) + x)
  {
    TailLength(m, x);
  }

  /** What a block-by-block reader does with a buffered tail. */
  lemma AbsorbExtend(w: WordOps, m: seq<u8>, x: seq<u8>)
    ensures Absorb(w, INITIAL, m + x) == Absorb(w, Absorb(w, INITIAL, m), Tail(m) + x)
  {
    var k := |m| - |m| % 64;
    TailExtend(m, x);
    AbsorbAppend(w, INITIAL, m[..k], Tail(m) + x);
    AbsorbAppend(w, INITIAL, m[..k], Tail(m));
  }

  // ---- The streaming context ----

  const PADDING: seq<u8> := [0x80] + Repeat(0, 63)

  /** Where the first block of buffered and new bytes ends. */
  lemma FirstBlock(tail: seq<u8>, input: seq<u8>, n: nat)
    requires |tail| + n == 64 && n <= |input|
    ensures (tail + input)[..64] == tail + input[..n] && (tail + input)[64..] == input[n..]
  {
  }

  class Context {
    const ops: WordOps
    const state: array<u32>
    const count: array<u32>
    const buffer: array<u8>

    ghost predicate Valid()
      reads this
    {
      state.Length == 4 && count.Length == 2 && buffer.Length == 64 && state != count
    }

    /** The context has absorbed the message m: complete blocks went into the state, the rest is
        buffered and the bit count is kept modulo 2^64. */
    ghost predicate Holds(m: seq<u8>)
      reads this, state, count, buffer
    {
      && Valid()
      && state[..] == Absorb(ops, INITIAL, m)
      && count[1] * U32_MOD + count[0] == BitCount(m)
      && buffer[..|m| % 64] == Tail(m)
    }

    /** MD5Init on fresh memory */
    constructor (w: WordOps)
      ensures ops == w && Holds([]) && fresh(state) && fresh(count) && fresh(buffer)
    {
      ops := w;
      state := new u32[4];
      count := new u32[2];
      buffer := new u8[64];
      new;
      Init();
    }

    /** MD5Init */
    method Init()
      requires Valid()
      modifies state, count
      ensures Holds([])
    {
      count[0], count[1] := 0, 0;
      state[0] := 0x67452301;
      state[1] := 0xefcdab89;
      state[2] := 0x98badcfe;
      state[3] := 0x10325476;
      assert state[..] == INITIAL;
    }

    /** MD5Transform */
    method TransformBlock(block: Block)
      requires Valid()
      modifies state
      ensures state[..] == Transform(ops, old(state[..]), block)
    {
      var x := new u32[16];
      Decode(x, block);
      var words := x[..];
      var r := Rounds(ops, words, Regs(state[0], state[1], state[2], state[3]));
      state[0] := ops.add(state[0], r.a);
      state[1] := ops.add(state[1], r.b);
      state[2] := ops.add(state[2], r.c);
      state[3] := ops.add(state[3], r.d);
    }

    /** memcpy(&buffer[at], data, |data|) */
    method Store(at: nat, data: seq<u8>)
      requires Valid() && at + |data| <= 64
      modifies buffer
      ensures buffer[..at] == old(buffer[..at])
      ensures buffer[at..at + |data|] == data
    {
      Copy(buffer, at, data);
    }

    /** MD5Update. The block loop compares i + 63 in 32-bit arithmetic, hence the bound. */
    method Update(input: seq<u8>, ghost m: seq<u8>)
      requires Holds(m) && |input| + 63 < U32_MOD
      modifies state, count, buffer
      ensures Holds(m + input)
    {
      var index: u32 := count[0] / 8 % 64;
      assert index == |m| % 64 by { IndexOf(m, count[0], count[1]); }
      AddBits(|input|, m, input);
      AbsorbExtend(ops, m, input);
      TailExtend(m, input);
      TailLength(m, input);
      Feed(index, input, Tail(m));
    }

    /** The data part of MD5Update: fill the buffer, transform whole blocks, buffer the rest. */
    method Feed(index: nat, input: seq<u8>, ghost tail: seq<u8>)
      requires Valid() && |input| + 63 < U32_MOD
      requires index == |tail| < 64 && buffer[..index] == tail
      modifies state, buffer
      ensures state[..] == Absorb(ops, old(state[..]), tail + input)
      ensures buffer[..|tail + input| % 64] == Tail(tail + input)
    {
      var partLen := 64 - index;
      if |input| >= partLen {
        FirstBlock(tail, input, partLen);
        Store(index, input[..partLen]);
        assert buffer[..] == buffer[..index] + buffer[index..64];
        TransformBlock(buffer[..]);
        ghost var n;
        var i;
        i, n := WholeBlocks(input, partLen);
        Store(0, input[i..]);
        TailAfter(tail + input, n + 1, input[i..]);
      } else {
        Store(index, input);
        assert buffer[..index + |input|] == tail + input;
        TailAfter(tail + input, 0, tail + input);
      }
    }

    /** The block loop from offset `start`; the rest is shorter than a block. */
    method WholeBlocks(input: seq<u8>, start: nat) returns (i: nat, ghost n: nat)
      requires Valid() && |input| + 63 < U32_MOD && start <= |input|
      modifies state
      ensures i == start + 64 * n && i <= |input| < i + 64
      ensures state[..] == Absorb(ops, old(state[..]), input[start..])
    {
      i, n := start, 0;
      while i + 63 < |input|
        invariant i == start + 64 * n && i <= |input|
        invariant Absorb(ops, state[..], input[i..]) == Absorb(ops, old(state[..]), input[start..])
      {
        NextBlock(ops, state[..], input, i);
        TransformBlock(input[i..i + 64]);
        i, n := i + 64, n + 1;
      }
    }

    /** MD5Final */
    method Final(digest: array<u8>, ghost m: seq<u8>)
      requires Holds(m) && digest.Length == 16 && digest != buffer
      modifies state, count, buffer, digest
      ensures digest[..] == Digest(ops, m)
    {
      var bits := new u8[8];
      Encode(bits, count[..]);
      var lengthBytes := bits[..];
      var index: u32 := count[0] / 8 % 64;
      assert index == |m| % 64 by { IndexOf(m, count[0], count[1]); }
      var padLen := if index < 56 then 56 - index else 120 - index;
      PaddingIsFilling(|m|, padLen);
      assert lengthBytes == LengthBytes(m) by { SplitCount(count[..], BitCount(m)); }
      Update(PADDING[..padLen], m);
      Update(lengthBytes, m + PADDING[..padLen]);
      Encode(digest, state[..]);
      Zeroize();
    }

    method Zeroize()
      requires Valid()
      modifies state, count, buffer
      ensures forall k :: 0 <= k < 4 ==> state[k] == 0
      ensures forall k :: 0 <= k < 2 ==> count[k] == 0
      ensures forall k :: 0 <= k < 64 ==> buffer[k] == 0
    {
      for k := 0 to 64
        invariant forall j :: 0 <= j < k ==> buffer[j] == 0
      {
        buffer[k] := 0;
      }
      state[0], state[1], state[2], state[3] := 0, 0, 0, 0;
      count[0], count[1] := 0, 0;
    }

    /** The bit count: a 64-bit addition in two words. */
    method AddBits(inputLen: u32, ghost m: seq<u8>, ghost input: seq<u8>)
      requires Valid() && inputLen == |input|
      requires count[1] * U32_MOD + count[0] == BitCount(m)
      modifies count
      ensures count[1] * U32_MOD + count[0] == BitCount(m + input)
    {
      var shifted: u32 := inputLen * 8 % U32_MOD;
      var high: u32 := inputLen / 0x2000_0000;
      ghost var c0, c1 := count[0], count[1];
      count[0] := (count[0] + shifted) % U32_MOD;
      ghost var carry := if c0 + shifted < U32_MOD then 0 else 1;
      if count[0] < shifted {
        count[1] := (count[1] + 1) % U32_MOD;
      }
      count[1] := (count[1] + high) % U32_MOD;
      assert count[0] == c0 + shifted - carry * U32_MOD;
      CarryChain(c1, carry, high, count[1]);
      BitSum(m, input, c0, c1, shifted, high, carry, count[0], count[1]);
    }
  }

  lemma {:induction false} NextBlock(w: WordOps, st: State, input: seq<u8>, i: nat)
    requires i + 64 <= |input|
    ensures Absorb(w, st, input[i..]) == Absorb(w, Transform(w, st, input[i..i + 64]), input[i + 64..])
  {
    assert input[i..][..64] == input[i..i + 64] && input[i..][64..] == input[i + 64..];
  }

  lemma TailAfter(m: seq<u8>, n: nat, rest: seq<u8>)
    requires 64 * n <= |m| < 64 * n + 64 && rest == m[64 * n..]
    ensures |m| % 64 == |rest| && Tail(m) == rest
  {
  }

  lemma PaddingIsFilling(n: nat, padLen: nat)
    requires padLen == if n % 64 < 56 then 56 - n % 64 else 120 - n % 64
    ensures padLen <= 64 && PADDING[..padLen] == Filling(n)
  {
    assert (55 - n) % 64 == padLen - 1;
  }

  lemma SplitCount(c: seq<u32>, bits: nat)
    requires |c| == 2 && c[1] * U32_MOD + c[0] == bits
    ensures c == [bits % U32_MOD, bits / U32_MOD]
  {
  }

  /** The buffer index is the low part of the bit count. */
  lemma IndexOf(m: seq<u8>, c0: u32, c1: u32)
    requires c1 * U32_MOD + c0 == BitCount(m)
    ensures c0 / 8 % 64 == |m| % 64
  {
    var q := 8 * |m| / (U32_MOD * U32_MOD);
    assert 8 * |m| == q * (U32_MOD * U32_MOD) + c1 * U32_MOD + c0;
    LowBits(|m|, q, c1, c0);
  }

  lemma LowBits(n: nat, q: nat, c1: nat, c0: nat)
    requires 8 * n == q * (U32_MOD * U32_MOD) + c1 * U32_MOD + c0
    ensures c0 / 8 % 64 == n % 64
  {
    var k := q * 0x80_0000 * U32_MOD + c1 * 0x80_0000;
    assert c0 / 8 == n - 64 * k;
    ModShift(n, k, c0 / 8);
  }

  lemma ModShift(n: nat, k: nat, r: nat)
    requires n == 64 * k + r
    ensures n % 64 == r % 64
  {
  }

  lemma CarryChain(c1: u32, carry: nat, high: u32, r: u32)
    requires carry <= 1
    requires r == if carry == 1 then ((c1 + 1) % U32_MOD + high) % U32_MOD else (c1 + high) % U32_MOD
    ensures r == (c1 + carry + high) % U32_MOD
  {
  }

  lemma BitSum(m: seq<u8>, input: seq<u8>, c0: u32, c1: u32, shifted: u32, high: u32, carry: nat, d0: u32, d1: u32)
    requires |input| < U32_MOD && c1 * U32_MOD + c0 == BitCount(m)
    requires shifted == |input| * 8 % U32_MOD && high == |input| / 0x2000_0000
    requires d0 == c0 + shifted - carry * U32_MOD
    requires d1 == (c1 + carry + high) % U32_MOD
    ensures d1 * U32_MOD + d0 == BitCount(m + input)
  {
    var M2 := U32_MOD * U32_MOD;
    var k := (c1 + carry + high) / U32_MOD;
    assert d1 == c1 + carry + high - k * U32_MOD;
    assert |input| * 8 == high * U32_MOD + shifted;
    assert d1 * U32_MOD + d0 == BitCount(m) + 8 * |input| - k * M2;
    var q := 8 * |m| / M2;
    assert BitCount(m) == 8 * |m| - q * M2;
    assert 8 * |m + input| == (k + q) * M2 + (d1 * U32_MOD + d0);
    Remainder(8 * |m + input|, k + q, d1 * U32_MOD + d0, M2);
  }

  lemma Remainder(x: int, q: int, r: int, d: int)
    requires x == q * d + r && 0 <= r < d
    ensures x % d == r
  {
    var e := q - x / d;
    assert e * d == x % d - r;
    assert e >= 1 ==> e * d >= d;
    assert e <= -1 ==> e * d <= -d;
  }

  /** MD5Init, any sequence of MD5Update, then MD5Final: the digest of the concatenation, however
      the message was cut. */
  method DigestOfChunks(chunks: seq<seq<u8>>, digest: array<u8>)
    requires digest.Length == 16 && forall k :: 0 <= k < |chunks| ==> |chunks[k]| + 63 < U32_MOD
    modifies digest
    ensures digest[..] == Digest(MD5_OPS, Concat(chunks))
  {
    var ctx := new Context(MD5_OPS);
    for k := 0 to |chunks|
      invariant ctx.Holds(Concat(chunks[..k])) && fresh(ctx.state) && fresh(ctx.count) && fresh(ctx.buffer)
      invariant ctx.ops == MD5_OPS
    {
      ConcatStep(chunks, k);
      ctx.Update(chunks[k], Concat(chunks[..k]));
    }
    assert chunks[..|chunks|] == chunks;
    ctx.Final(digest, Concat(chunks));
  }

  function Concat(chunks: seq<seq<u8>>): seq<u8> {
    if chunks == [] then [] else Concat(chunks[..|chunks| - 1]) + chunks[|chunks| - 1]
  }

  lemma ConcatStep(chunks: seq<seq<u8>>, k: nat)
    requires k < |chunks|
    ensures Concat(chunks[..k + 1]) == Concat(chunks[..k]) + chunks[k]
  {
    assert chunks[..k + 1][..k] == chunks[..k];
  }
}
