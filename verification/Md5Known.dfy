/** A known answer: the fifth test of section A.5 of RFC 1321, step by step. It exercises every shift,
    constant and function of the transformation, and the order of the words. */
module Md5Known {
  import opened Bytes
  import opened Bits
  import opened Md5
  import opened Md5Transform
  import opened Md5Words

  /** The letters from a to z. */
  const ALPHABET: seq<u8> := seq(26, i requires 0 <= i < 26 => 97 + i)

  /** Byte i of the padded message. */
  function PaddedByte(i: nat): u8 {
    if i < 26 then 97 + i else if i == 26 then 0x80 else if i == 56 then 208 else 0
  }

  lemma PaddedAlphabet()
    ensures |Padded(ALPHABET)| == 64 && forall i :: 0 <= i < 64 ==> Padded(ALPHABET)[i] == PaddedByte(i)
  {
    assert BitCount(ALPHABET) == 208;
    assert LengthBytes(ALPHABET) == [208, 0, 0, 0, 0, 0, 0, 0];
  }

  /** Word k of the padded message. */
  function PaddedWord(k: nat): u32 {
    if k < 6 then WordOf(97 + 4 * k, 98 + 4 * k, 99 + 4 * k, 100 + 4 * k)
    else if k == 6 then WordOf(121, 122, 0x80, 0) else if k == 14 then 208 else 0
  }

  const WORDS: seq<u32> := seq(16, k requires 0 <= k < 16 => PaddedWord(k))

  /** What a step mixes of b, c and d. */
  function Mixed(i: nat, b: bv32, c: bv32, d: bv32): bv32 {
    if i < 16 then (b & c) | (!b & d)
    else if i < 32 then (b & d) | (c & !d)
    else if i < 48 then b ^ c ^ d
    else c ^ (b | !d)
  }

  lemma FIs(x: u32, y: u32, z: u32)
    ensures F(x, y, z) == Value32(Mixed(0, x as bv32, y as bv32, z as bv32))
  {
  }

  lemma GIs(x: u32, y: u32, z: u32)
    ensures G(x, y, z) == Value32(Mixed(16, x as bv32, y as bv32, z as bv32))
  {
  }

  lemma HIs(x: u32, y: u32, z: u32)
    ensures H(x, y, z) == Value32(Mixed(32, x as bv32, y as bv32, z as bv32))
  {
  }

  lemma IIs(x: u32, y: u32, z: u32)
    ensures I(x, y, z) == Value32(Mixed(48, x as bv32, y as bv32, z as bv32))
  {
  }

  lemma SameRound(i: nat, b: bv32, c: bv32, d: bv32)
    ensures Mixed(i, b, c, d) == Mixed(if i < 16 then 0 else if i < 32 then 16 else if i < 48 then 32 else 48, b, c, d)
  {
  }

  lemma MixOf(i: nat, x: u32, y: u32, z: u32, m: u32)
    requires m as bv32 == Mixed(i, x as bv32, y as bv32, z as bv32)
    ensures Mix(MD5_OPS, i, x, y, z) == m
  {
    hide F, G, H, I, Mixed, Value32;
    Word(m);
    SameRound(i, x as bv32, y as bv32, z as bv32);
    if i < 16 { FIs(x, y, z); } else if i < 32 { GIs(x, y, z); } else if i < 48 { HIs(x, y, z); } else { IIs(x, y, z); }
  }

  /** Two to the power of the shift of step i. */
  function Factor(i: nat): (p: nat)
    ensures p >= 1
  {
    if i < 16 then [128, 4096, 131072, 4194304][i % 4] else if i < 32 then [32, 512, 16384, 1048576][i % 4]
    else if i < 48 then [16, 2048, 65536, 8388608][i % 4] else [64, 1024, 32768, 2097152][i % 4]
  }

  lemma FactorIs(i: nat)
    ensures Factor(i) == Pow2(Shift(i))
  {
    SmallPowers();
    hide Pow2;
  }

  lemma SmallPowers()
    ensures Pow2(4) == 16 && Pow2(5) == 32 && Pow2(6) == 64 && Pow2(7) == 128 && Pow2(9) == 512 && Pow2(10) == 1024
    ensures Pow2(11) == 2048 && Pow2(12) == 4096 && Pow2(14) == 16384 && Pow2(15) == 32768 && Pow2(16) == 65536
    ensures Pow2(17) == 131072 && Pow2(20) == 1048576 && Pow2(21) == 2097152 && Pow2(22) == 4194304 && Pow2(23) == 8388608
  {
    assert Pow2(8) == 256;
    PowSum(8, 8);
    assert Pow2(16) == 65536;
  }

  /** The nested additions of the code wrap as one sum. */
  lemma SumOf(a: u32, m: u32, x: u32, t: u32)
    ensures Add(a, Add(Add(m, x), t)) == (a + m + x + t) % U32_MOD
  {
    Residue(m + x, t);
    Residue(m + x + t, a);
  }

  lemma Residue(n: nat, k: nat)
    ensures (n % U32_MOD + k) % U32_MOD == (n + k) % U32_MOD
  {
    var r := n % U32_MOD + k;
    assert n + k == (n / U32_MOD + r / U32_MOD) * U32_MOD + r % U32_MOD;
    Quotient(n + k, U32_MOD, n / U32_MOD + r / U32_MOD, r % U32_MOD);
  }

  lemma RotatedBy(s: u32, i: nat, p: nat, w: nat)
    requires p == Factor(i) && Turn(s, p, w)
    ensures RotateLeft(s, Shift(i)) == w
  {
    hide RotateLeft, Factor, Shift, Pow2;
    FactorIs(i);
    RotateIsArithmetic(s, Shift(i));
    PowSum(Shift(i), 32 - Shift(i));
    WordSize();
    Quotient(U32_MOD, p, Pow2(32 - Shift(i)), 0);
  }

  /** A machine word as a number. */
  function W(b: bv32): u32 { b as int }

  lemma Back(b: bv32)
    ensures W(b) as bv32 == b
  {
  }

  lemma MixKnown(i: nat, b: bv32, c: bv32, d: bv32, m: bv32)
    requires m == Mixed(i, b, c, d)
    ensures Mix(MD5_OPS, i, W(b), W(c), W(d)) == W(m)
  {
    hide Mix, Mixed, W;
    Back(b);
    Back(c);
    Back(d);
    Back(m);
    MixOf(i, W(b), W(c), W(d), W(m));
  }

  /** Step i takes word k, adds t and rotates by the factor p. */
  predicate Row(i: nat, k: nat, t: u32, p: nat) { WordIndex(i) == k && Sine(i) == t && Factor(i) == p }

  lemma Rows1To8()
    ensures Row(0, 0, 0xd76aa478, 128) && Row(1, 1, 0xe8c7b756, 4096) && Row(2, 2, 0x242070db, 131072) && Row(3, 3, 0xc1bdceee, 4194304)
    ensures Row(4, 4, 0xf57c0faf, 128) && Row(5, 5, 0x4787c62a, 4096) && Row(6, 6, 0xa8304613, 131072) && Row(7, 7, 0xfd469501, 4194304)
  {
  }

  lemma Rows9To16()
    ensures Row(8, 8, 0x698098d8, 128) && Row(9, 9, 0x8b44f7af, 4096) && Row(10, 10, 0xffff5bb1, 131072) && Row(11, 11, 0x895cd7be, 4194304)
    ensures Row(12, 12, 0x6b901122, 128) && Row(13, 13, 0xfd987193, 4096) && Row(14, 14, 0xa679438e, 131072) && Row(15, 15, 0x49b40821, 4194304)
  {
  }

  lemma Rows17To24()
    ensures Row(16, 1, 0xf61e2562, 32) && Row(17, 6, 0xc040b340, 512) && Row(18, 11, 0x265e5a51, 16384) && Row(19, 0, 0xe9b6c7aa, 1048576)
    ensures Row(20, 5, 0xd62f105d, 32) && Row(21, 10, 0x02441453, 512) && Row(22, 15, 0xd8a1e681, 16384) && Row(23, 4, 0xe7d3fbc8, 1048576)
  {
  }

  lemma Rows25To32()
    ensures Row(24, 9, 0x21e1cde6, 32) && Row(25, 14, 0xc33707d6, 512) && Row(26, 3, 0xf4d50d87, 16384) && Row(27, 8, 0x455a14ed, 1048576)
    ensures Row(28, 13, 0xa9e3e905, 32) && Row(29, 2, 0xfcefa3f8, 512) && Row(30, 7, 0x676f02d9, 16384) && Row(31, 12, 0x8d2a4c8a, 1048576)
  {
  }

  lemma Rows33To40()
    ensures Row(32, 5, 0xfffa3942, 16) && Row(33, 8, 0x8771f681, 2048) && Row(34, 11, 0x6d9d6122, 65536) && Row(35, 14, 0xfde5380c, 8388608)
    ensures Row(36, 1, 0xa4beea44, 16) && Row(37, 4, 0x4bdecfa9, 2048) && Row(38, 7, 0xf6bb4b60, 65536) && Row(39, 10, 0xbebfbc70, 8388608)
  {
  }

  lemma Rows41To48()
    ensures Row(40, 13, 0x289b7ec6, 16) && Row(41, 0, 0xeaa127fa, 2048) && Row(42, 3, 0xd4ef3085, 65536) && Row(43, 6, 0x04881d05, 8388608)
    ensures Row(44, 9, 0xd9d4d039, 16) && Row(45, 12, 0xe6db99e5, 2048) && Row(46, 15, 0x1fa27cf8, 65536) && Row(47, 2, 0xc4ac5665, 8388608)
  {
  }

  lemma Rows49To56()
    ensures Row(48, 0, 0xf4292244, 64) && Row(49, 7, 0x432aff97, 1024) && Row(50, 14, 0xab9423a7, 32768) && Row(51, 5, 0xfc93a039, 2097152)
    ensures Row(52, 12, 0x655b59c3, 64) && Row(53, 3, 0x8f0ccc92, 1024) && Row(54, 10, 0xffeff47d, 32768) && Row(55, 1, 0x85845dd1, 2097152)
  {
  }

  lemma Rows57To64()
    ensures Row(56, 8, 0x6fa87e4f, 64) && Row(57, 15, 0xfe2ce6e0, 1024) && Row(58, 6, 0xa3014314, 32768) && Row(59, 13, 0x4e0811a1, 2097152)
    ensures Row(60, 4, 0xf7537e82, 64) && Row(61, 11, 0xbd3af235, 1024) && Row(62, 2, 0x2ad7d2bb, 32768) && Row(63, 9, 0xeb86d391, 2097152)
  {
  }

  predicate Has(x: seq<u32>, k: nat, v: u32) { k < |x| && x[k] == v }

  lemma Words(x: seq<u32>)
    requires x == WORDS
    ensures |x| == 16
    ensures Has(x, 0, 0x64636261) && Has(x, 1, 0x68676665) && Has(x, 2, 0x6c6b6a69) && Has(x, 3, 0x706f6e6d)
    ensures Has(x, 4, 0x74737271) && Has(x, 5, 0x78777675) && Has(x, 6, 0x00807a79) && Has(x, 7, 0x00000000)
    ensures Has(x, 8, 0x00000000) && Has(x, 9, 0x00000000) && Has(x, 10, 0x00000000) && Has(x, 11, 0x00000000)
    ensures Has(x, 12, 0x00000000) && Has(x, 13, 0x00000000) && Has(x, 14, 0x000000d0) && Has(x, 15, 0x00000000)
  {
  }

  /** s rotated by the factor p. */
  predicate Turn(s: u32, p: nat, w: nat) { p >= 1 && U32_MOD % p == 0 && w == s * p % U32_MOD + s / (U32_MOD / p) }

  /** One step on known registers: m is the mixture, v the word, t the constant, s the sum of all,
      w the sum rotated, o the new register. */
  lemma K(x: seq<u32>, r: Regs, i: nat, k: nat, a: bv32, b: bv32, c: bv32, d: bv32, m: bv32, v: u32, t: u32, s: u32, p: nat, w: u32, o: bv32)
    requires |x| == 16 && i < 64 && Steps(MD5_OPS, x, r, 0, i) == Regs(W(a), W(b), W(c), W(d))
    requires m == Mixed(i, b, c, d) && Row(i, k, t, p) && k < 16 && Turn(s, p, w)
    requires Has(x, k, v) && s == (W(a) + W(m) + v + t) % U32_MOD
    requires W(o) == (w + W(b)) % U32_MOD
    ensures Steps(MD5_OPS, x, r, 0, i + 1) == Regs(W(d), W(o), W(b), W(c))
  {
    hide Mix, Mixed, Shift, Sine, WordIndex, RotateLeft, Factor, W, Turn;
    MixKnown(i, b, c, d, m);
    RotatedBy(s, i, p, w);
    SumOf(W(a), W(m), v, t);
  }

  lemma Numbers1To8()
    ensures W(0x67452301) == 0x67452301 && W(0xefcdab89) == 0xefcdab89 && W(0x98badcfe) == 0x98badcfe && W(0x10325476) == 0x10325476
    ensures W(0xd6d117a6) == 0xd6d117a6 && W(0xceebcbd8) == 0xceebcbd8 && W(0xaab1aaaa) == 0xaab1aaaa && W(0xc7dd03a3) == 0xc7dd03a3
    ensures W(0x227d8cf1) == 0x227d8cf1 && W(0xf6b19ba6) == 0xf6b19ba6 && W(0x4503b812) == 0x4503b812 && W(0xaab18ab8) == 0xaab18ab8
    ensures W(0xfe15f787) == 0xfe15f787 && W(0x4469b872) == 0x4469b872 && W(0xa811b278) == 0xa811b278 && W(0xed13ba02) == 0xed13ba02
    ensures W(0xb71122fc) == 0xb71122fc && W(0xe815f77b) == 0xe815f77b && W(0xda9bbb0d) == 0xda9bbb0d
    ensures Turn(0x3bce06d8, 128, 0xe7036c1d) && Turn(0x304d3e09, 4096, 0xd3e09304)
    ensures Turn(0xf123bbe5, 131072, 0x77cbe247) && Turn(0x18ac848a, 4194304, 0x22862b21)
    ensures Turn(0xeb72247e, 128, 0xb9123f75) && Turn(0xaf1a9fbb, 4096, 0xa9fbbaf1)
    ensures Turn(0xb842077f, 131072, 0x0eff7084) && Turn(0x2a60448e, 4194304, 0x238a9811)
  {
  }

  lemma Steps1To8(x: seq<u32>, r: Regs)
    requires x == WORDS && Steps(MD5_OPS, x, r, 0, 0) == Regs(W(0x67452301), W(0xefcdab89), W(0x98badcfe), W(0x10325476))
    ensures Steps(MD5_OPS, x, r, 0, 8) == Regs(W(0xfe15f787), W(0xda9bbb0d), W(0xb71122fc), W(0xa811b278))
  {
    hide Steps, W, Row, Turn, Has;
    Words(x);
    Rows1To8();
    Numbers1To8();
    K(x, r, 0, 0, 0x67452301, 0xefcdab89, 0x98badcfe, 0x10325476, 0x98badcfe, 0x64636261, 0xd76aa478, 0x3bce06d8, 128, 0xe7036c1d, 0xd6d117a6);
    K(x, r, 1, 1, 0x10325476, 0xd6d117a6, 0xefcdab89, 0x98badcfe, 0xceebcbd8, 0x68676665, 0xe8c7b756, 0x304d3e09, 4096, 0xd3e09304, 0xaab1aaaa);
    K(x, r, 2, 2, 0x98badcfe, 0xaab1aaaa, 0xd6d117a6, 0xefcdab89, 0xc7dd03a3, 0x6c6b6a69, 0x242070db, 0xf123bbe5, 131072, 0x77cbe247, 0x227d8cf1);
    K(x, r, 3, 3, 0xefcdab89, 0x227d8cf1, 0xaab1aaaa, 0xd6d117a6, 0xf6b19ba6, 0x706f6e6d, 0xc1bdceee, 0x18ac848a, 4194304, 0x22862b21, 0x4503b812);
    K(x, r, 4, 4, 0xd6d117a6, 0x4503b812, 0x227d8cf1, 0xaab1aaaa, 0xaab18ab8, 0x74737271, 0xf57c0faf, 0xeb72247e, 128, 0xb9123f75, 0xfe15f787);
    K(x, r, 5, 5, 0xaab1aaaa, 0xfe15f787, 0x4503b812, 0x227d8cf1, 0x4469b872, 0x78777675, 0x4787c62a, 0xaf1a9fbb, 4096, 0xa9fbbaf1, 0xa811b278);
    K(x, r, 6, 6, 0x227d8cf1, 0xa811b278, 0xfe15f787, 0x4503b812, 0xed13ba02, 0x00807a79, 0xa8304613, 0xb842077f, 131072, 0x0eff7084, 0xb71122fc);
    K(x, r, 7, 7, 0x4503b812, 0xb71122fc, 0xa811b278, 0xfe15f787, 0xe815f77b, 0x00000000, 0xfd469501, 0x2a60448e, 4194304, 0x238a9811, 0xda9bbb0d);
  }

  lemma Numbers9To16()
    ensures W(0xfe15f787) == 0xfe15f787 && W(0xda9bbb0d) == 0xda9bbb0d && W(0xb71122fc) == 0xb71122fc && W(0xa811b278) == 0xa811b278
    ensures W(0xb211227c) == 0xb211227c && W(0xae752899) == 0xae752899 && W(0x9b112a6d) == 0x9b112a6d && W(0x2bbe757f) == 0x2bbe757f
    ensures W(0xfa35aa19) == 0xfa35aa19 && W(0x7d4bd80b) == 0x7d4bd80b && W(0xab3e709b) == 0xab3e709b && W(0x56cfa5cb) == 0x56cfa5cb
    ensures W(0x7d7bd03f) == 0x7d7bd03f && W(0x1754a316) == 0x1754a316 && W(0x7e4ff90b) == 0x7e4ff90b && W(0x85567d90) == 0x85567d90
    ensures W(0x57dda15b) == 0x57dda15b && W(0x00df74d5) == 0x00df74d5 && W(0x1756f792) == 0x1756f792 && W(0x608d6b7e) == 0x608d6b7e
    ensures Turn(0x19a7b2db, 128, 0xd3d96d8c) && Turn(0xce67d494, 4096, 0x7d494ce6)
    ensures Turn(0xb14628c6, 131072, 0x518d628c) && Turn(0x0f370366, 4194304, 0xd983cdc0)
    ensures Turn(0x978109fa, 128, 0xc084fd4b) && Turn(0xa7a6e01d, 4096, 0x6e01da7a)
    ensures Turn(0x7ba2bdc4, 131072, 0x7b88f745) && Turn(0xb7daa57e, 4194304, 0x5fadf6a9)
  {
  }

  lemma Steps9To16(x: seq<u32>, r: Regs)
    requires x == WORDS && Steps(MD5_OPS, x, r, 0, 8) == Regs(W(0xfe15f787), W(0xda9bbb0d), W(0xb71122fc), W(0xa811b278))
    ensures Steps(MD5_OPS, x, r, 0, 16) == Regs(W(0x1754a316), W(0x608d6b7e), W(0x00df74d5), W(0x85567d90))
  {
    hide Steps, W, Row, Turn, Has;
    Words(x);
    Rows9To16();
    Numbers9To16();
    K(x, r, 8, 8, 0xfe15f787, 0xda9bbb0d, 0xb71122fc, 0xa811b278, 0xb211227c, 0x00000000, 0x698098d8, 0x19a7b2db, 128, 0xd3d96d8c, 0xae752899);
    K(x, r, 9, 9, 0xa811b278, 0xae752899, 0xda9bbb0d, 0xb71122fc, 0x9b112a6d, 0x00000000, 0x8b44f7af, 0xce67d494, 4096, 0x7d494ce6, 0x2bbe757f);
    K(x, r, 10, 10, 0xb71122fc, 0x2bbe757f, 0xae752899, 0xda9bbb0d, 0xfa35aa19, 0x00000000, 0xffff5bb1, 0xb14628c6, 131072, 0x518d628c, 0x7d4bd80b);
    K(x, r, 11, 11, 0xda9bbb0d, 0x7d4bd80b, 0x2bbe757f, 0xae752899, 0xab3e709b, 0x00000000, 0x895cd7be, 0x0f370366, 4194304, 0xd983cdc0, 0x56cfa5cb);
    K(x, r, 12, 12, 0xae752899, 0x56cfa5cb, 0x7d4bd80b, 0x2bbe757f, 0x7d7bd03f, 0x00000000, 0x6b901122, 0x978109fa, 128, 0xc084fd4b, 0x1754a316);
    K(x, r, 13, 13, 0x2bbe757f, 0x1754a316, 0x56cfa5cb, 0x7d4bd80b, 0x7e4ff90b, 0x00000000, 0xfd987193, 0xa7a6e01d, 4096, 0x6e01da7a, 0x85567d90);
    K(x, r, 14, 14, 0x7d4bd80b, 0x85567d90, 0x1754a316, 0x56cfa5cb, 0x57dda15b, 0x000000d0, 0xa679438e, 0x7ba2bdc4, 131072, 0x7b88f745, 0x00df74d5);
    K(x, r, 15, 15, 0x56cfa5cb, 0x00df74d5, 0x85567d90, 0x1754a316, 0x1756f792, 0x00000000, 0x49b40821, 0xb7daa57e, 4194304, 0x5fadf6a9, 0x608d6b7e);
  }

  lemma Numbers17To24()
    ensures W(0x1754a316) == 0x1754a316 && W(0x608d6b7e) == 0x608d6b7e && W(0x00df74d5) == 0x00df74d5 && W(0x85567d90) == 0x85567d90
    ensures W(0x008d6955) == 0x008d6955 && W(0x2d8071cc) == 0x2d8071cc && W(0x60807bee) == 0x60807bee && W(0x5dcee119) == 0x5dcee119
    ensures W(0x4d8c7198) == 0x4d8c7198 && W(0xedfe7e4b) == 0xedfe7e4b && W(0x7dcef059) == 0x7dcef059 && W(0x4c2145b3) == 0x4c2145b3
    ensures W(0xec305f53) == 0xec305f53 && W(0x570c43e0) == 0x570c43e0 && W(0x450d43f0) == 0x450d43f0 && W(0x977efd2a) == 0x977efd2a
    ensures W(0x172c4762) == 0x172c4762 && W(0xc28ab49d) == 0xc28ab49d && W(0xc27abc8a) == 0xc27abc8a && W(0xc9f162d4) == 0xc9f162d4
    ensures Turn(0x76679832, 32, 0xccf3064e) && Turn(0xa6982737, 512, 0x304e6f4d)
    ensures Turn(0x74ca40be, 16384, 0x902f9d32) && Turn(0x2c7685e2, 1048576, 0x5e22c768)
    ensures Turn(0x685757f1, 32, 0x0aeafe2d) && Turn(0xa520395c, 512, 0x4072b94a)
    ensures Turn(0xddccac2e, 16384, 0x2b0bb773) && Turn(0x6ae37076, 1048576, 0x0766ae37)
  {
  }

  lemma Steps17To24(x: seq<u32>, r: Regs)
    requires x == WORDS && Steps(MD5_OPS, x, r, 0, 16) == Regs(W(0x1754a316), W(0x608d6b7e), W(0x00df74d5), W(0x85567d90))
    ensures Steps(MD5_OPS, x, r, 0, 24) == Regs(W(0x570c43e0), W(0xc9f162d4), W(0xc28ab49d), W(0x977efd2a))
  {
    hide Steps, W, Row, Turn, Has;
    Words(x);
    Rows17To24();
    Numbers17To24();
    K(x, r, 16, 1, 0x1754a316, 0x608d6b7e, 0x00df74d5, 0x85567d90, 0x008d6955, 0x68676665, 0xf61e2562, 0x76679832, 32, 0xccf3064e, 0x2d8071cc);
    K(x, r, 17, 6, 0x85567d90, 0x2d8071cc, 0x608d6b7e, 0x00df74d5, 0x60807bee, 0x00807a79, 0xc040b340, 0xa6982737, 512, 0x304e6f4d, 0x5dcee119);
    K(x, r, 18, 11, 0x00df74d5, 0x5dcee119, 0x2d8071cc, 0x608d6b7e, 0x4d8c7198, 0x00000000, 0x265e5a51, 0x74ca40be, 16384, 0x902f9d32, 0xedfe7e4b);
    K(x, r, 19, 0, 0x608d6b7e, 0xedfe7e4b, 0x5dcee119, 0x2d8071cc, 0x7dcef059, 0x64636261, 0xe9b6c7aa, 0x2c7685e2, 1048576, 0x5e22c768, 0x4c2145b3);
    K(x, r, 20, 5, 0x2d8071cc, 0x4c2145b3, 0xedfe7e4b, 0x5dcee119, 0xec305f53, 0x78777675, 0xd62f105d, 0x685757f1, 32, 0x0aeafe2d, 0x570c43e0);
    K(x, r, 21, 10, 0x5dcee119, 0x570c43e0, 0x4c2145b3, 0xedfe7e4b, 0x450d43f0, 0x00000000, 0x02441453, 0xa520395c, 512, 0x4072b94a, 0x977efd2a);
    K(x, r, 22, 15, 0xedfe7e4b, 0x977efd2a, 0x570c43e0, 0x4c2145b3, 0x172c4762, 0x00000000, 0xd8a1e681, 0xddccac2e, 16384, 0x2b0bb773, 0xc28ab49d);
    K(x, r, 23, 4, 0x4c2145b3, 0xc28ab49d, 0x977efd2a, 0x570c43e0, 0xc27abc8a, 0x74737271, 0xe7d3fbc8, 0x6ae37076, 1048576, 0x0766ae37, 0xc9f162d4);
  }

  lemma Numbers25To32()
    ensures W(0x570c43e0) == 0x570c43e0 && W(0xc9f162d4) == 0xc9f162d4 && W(0xc28ab49d) == 0xc28ab49d && W(0x977efd2a) == 0x977efd2a
    ensures W(0xc1f06095) == 0xc1f06095 && W(0x25bfae3b) == 0x25bfae3b && W(0x09fbe659) == 0x09fbe659 && W(0x89980104) == 0x89980104
    ensures W(0xad9e8c2f) == 0xad9e8c2f && W(0xf8c8365f) == 0xf8c8365f && W(0xa888271f) == 0xa888271f && W(0xe6d3b398) == 0xe6d3b398
    ensures W(0xf0d0375b) == 0xf0d0375b && W(0xf54d8710) == 0xf54d8710 && W(0xf65b8790) == 0xf65b8790 && W(0x927b72e2) == 0x927b72e2
    ensures W(0x935f3680) == 0x935f3680 && W(0x2e69afc7) == 0x2e69afc7 && W(0x267bf7e2) == 0x267bf7e2 && W(0xaeb35766) == 0xaeb35766
    ensures Turn(0x3ade725b, 32, 0x5bce4b67) && Turn(0x64b1ec29, 512, 0x63d852c9)
    ensures Turn(0xd56dbcc0, 16384, 0x6f30355b) && Turn(0xb7d39ee0, 1048576, 0xee0b7d39)
    ensures Turn(0xc073ce9b, 32, 0x0e79d378) && Turn(0xe94e96f5, 512, 0x9d2debd2)
    ensures Turn(0xf3966fb8, 16384, 0x9bee3ce5) && Turn(0x9a79f804, 1048576, 0x8049a79f)
  {
  }

  lemma Steps25To32(x: seq<u32>, r: Regs)
    requires x == WORDS && Steps(MD5_OPS, x, r, 0, 24) == Regs(W(0x570c43e0), W(0xc9f162d4), W(0xc28ab49d), W(0x977efd2a))
    ensures Steps(MD5_OPS, x, r, 0, 32) == Regs(W(0xf54d8710), W(0xaeb35766), W(0x2e69afc7), W(0x927b72e2))
  {
    hide Steps, W, Row, Turn, Has;
    Words(x);
    Rows25To32();
    Numbers25To32();
    K(x, r, 24, 9, 0x570c43e0, 0xc9f162d4, 0xc28ab49d, 0x977efd2a, 0xc1f06095, 0x00000000, 0x21e1cde6, 0x3ade725b, 32, 0x5bce4b67, 0x25bfae3b);
    K(x, r, 25, 14, 0x977efd2a, 0x25bfae3b, 0xc9f162d4, 0xc28ab49d, 0x09fbe659, 0x000000d0, 0xc33707d6, 0x64b1ec29, 512, 0x63d852c9, 0x89980104);
    K(x, r, 26, 3, 0xc28ab49d, 0x89980104, 0x25bfae3b, 0xc9f162d4, 0xad9e8c2f, 0x706f6e6d, 0xf4d50d87, 0xd56dbcc0, 16384, 0x6f30355b, 0xf8c8365f);
    K(x, r, 27, 8, 0xc9f162d4, 0xf8c8365f, 0x89980104, 0x25bfae3b, 0xa888271f, 0x00000000, 0x455a14ed, 0xb7d39ee0, 1048576, 0xee0b7d39, 0xe6d3b398);
    K(x, r, 28, 13, 0x25bfae3b, 0xe6d3b398, 0xf8c8365f, 0x89980104, 0xf0d0375b, 0x00000000, 0xa9e3e905, 0xc073ce9b, 32, 0x0e79d378, 0xf54d8710);
    K(x, r, 29, 2, 0x89980104, 0xf54d8710, 0xe6d3b398, 0xf8c8365f, 0xf65b8790, 0x6c6b6a69, 0xfcefa3f8, 0xe94e96f5, 512, 0x9d2debd2, 0x927b72e2);
    K(x, r, 30, 7, 0xf8c8365f, 0x927b72e2, 0xf54d8710, 0xe6d3b398, 0x935f3680, 0x00000000, 0x676f02d9, 0xf3966fb8, 16384, 0x9bee3ce5, 0x2e69afc7);
    K(x, r, 31, 12, 0xe6d3b398, 0x2e69afc7, 0x927b72e2, 0xf54d8710, 0x267bf7e2, 0x00000000, 0x8d2a4c8a, 0x9a79f804, 1048576, 0x8049a79f, 0xaeb35766);
  }

  lemma Numbers33To40()
    ensures W(0xf54d8710) == 0xf54d8710 && W(0xaeb35766) == 0xaeb35766 && W(0x2e69afc7) == 0x2e69afc7 && W(0x927b72e2) == 0x927b72e2
    ensures W(0x12a18a43) == 0x12a18a43 && W(0xb4bf680e) == 0xb4bf680e && W(0x346590af) == 0x346590af && W(0x4c8ffa80) == 0x4c8ffa80
    ensures W(0x5683c5e8) == 0x5683c5e8 && W(0x2361ed0a) == 0x2361ed0a && W(0xdb517f84) == 0xdb517f84 && W(0x06a5e211) == 0x06a5e211
    ensures W(0x694bf59b) == 0x694bf59b && W(0xb9c0c733) == 0xb9c0c733 && W(0x9c04c828) == 0x9c04c828 && W(0xf1e6dc7a) == 0xf1e6dc7a
    ensures W(0x4e83f958) == 0x4e83f958 && W(0x23a9451b) == 0x23a9451b && W(0x6b8f5e52) == 0x6b8f5e52 && W(0x8d41bf99) == 0x8d41bf99
    ensures Turn(0x8060c10a, 16, 0x060c10a8) && Turn(0x4e52fa12, 2048, 0x97d09272)
    ensures Turn(0xf28ad6d1, 65536, 0xd6d1f28a) && Turn(0x87ea0fc6, 8388608, 0xe343f507)
    ensures Turn(0x2b31ae52, 16, 0xb31ae522) && Turn(0xa8e704c2, 2048, 0x38261547)
    ensures Turn(0x68a131c2, 65536, 0x31c268a1) && Turn(0x30f4fcd3, 8388608, 0x69987a7e)
  {
  }

  lemma Steps33To40(x: seq<u32>, r: Regs)
    requires x == WORDS && Steps(MD5_OPS, x, r, 0, 32) == Regs(W(0xf54d8710), W(0xaeb35766), W(0x2e69afc7), W(0x927b72e2))
    ensures Steps(MD5_OPS, x, r, 0, 40) == Regs(W(0xb9c0c733), W(0x8d41bf99), W(0x23a9451b), W(0xf1e6dc7a))
  {
    hide Steps, W, Row, Turn, Has;
    Words(x);
    Rows33To40();
    Numbers33To40();
    K(x, r, 32, 5, 0xf54d8710, 0xaeb35766, 0x2e69afc7, 0x927b72e2, 0x12a18a43, 0x78777675, 0xfffa3942, 0x8060c10a, 16, 0x060c10a8, 0xb4bf680e);
    K(x, r, 33, 8, 0x927b72e2, 0xb4bf680e, 0xaeb35766, 0x2e69afc7, 0x346590af, 0x00000000, 0x8771f681, 0x4e52fa12, 2048, 0x97d09272, 0x4c8ffa80);
    K(x, r, 34, 11, 0x2e69afc7, 0x4c8ffa80, 0xb4bf680e, 0xaeb35766, 0x5683c5e8, 0x00000000, 0x6d9d6122, 0xf28ad6d1, 65536, 0xd6d1f28a, 0x2361ed0a);
    K(x, r, 35, 14, 0xaeb35766, 0x2361ed0a, 0x4c8ffa80, 0xb4bf680e, 0xdb517f84, 0x000000d0, 0xfde5380c, 0x87ea0fc6, 8388608, 0xe343f507, 0x06a5e211);
    K(x, r, 36, 1, 0xb4bf680e, 0x06a5e211, 0x2361ed0a, 0x4c8ffa80, 0x694bf59b, 0x68676665, 0xa4beea44, 0x2b31ae52, 16, 0xb31ae522, 0xb9c0c733);
    K(x, r, 37, 4, 0x4c8ffa80, 0xb9c0c733, 0x06a5e211, 0x2361ed0a, 0x9c04c828, 0x74737271, 0x4bdecfa9, 0xa8e704c2, 2048, 0x38261547, 0xf1e6dc7a);
    K(x, r, 38, 7, 0x2361ed0a, 0xf1e6dc7a, 0xb9c0c733, 0x06a5e211, 0x4e83f958, 0x00000000, 0xf6bb4b60, 0x68a131c2, 65536, 0x31c268a1, 0x23a9451b);
    K(x, r, 39, 10, 0x06a5e211, 0x23a9451b, 0xf1e6dc7a, 0xb9c0c733, 0x6b8f5e52, 0x00000000, 0xbebfbc70, 0x30f4fcd3, 8388608, 0x69987a7e, 0x8d41bf99);
  }

  lemma Numbers41To48()
    ensures W(0xb9c0c733) == 0xb9c0c733 && W(0x8d41bf99) == 0x8d41bf99 && W(0x23a9451b) == 0x23a9451b && W(0xf1e6dc7a) == 0xf1e6dc7a
    ensures W(0x5f0e26f8) == 0x5f0e26f8 && W(0xa3e88ead) == 0xa3e88ead && W(0x0d00742f) == 0x0d00742f && W(0x02c0b11c) == 0x02c0b11c
    ensures W(0x2c698028) == 0x2c698028 && W(0x66f6468d) == 0x66f6468d && W(0xc7de793c) == 0xc7de793c && W(0x90a35af5) == 0x90a35af5
    ensures W(0xf495ad64) == 0xf495ad64 && W(0xb5d41f9c) == 0xb5d41f9c && W(0x438103e4) == 0x438103e4 && W(0xa04b4904) == 0xa04b4904
    ensures W(0x853c0c6d) == 0x853c0c6d && W(0x703d54d8) == 0x703d54d8 && W(0x65a20240) == 0x65a20240 && W(0x71d10367) == 0x71d10367
    ensures Turn(0x416a6cf1, 16, 0x16a6cf14) && Turn(0x4debdb04, 2048, 0x5ed8226f)
    ensures Turn(0x95716435, 65536, 0x64359571) && Turn(0x5a28d053, 8388608, 0x29ad1468)
    ensures Turn(0x72530c4a, 16, 0x2530c4a7) && Turn(0x2d1d4ee5, 2048, 0xea772968)
    ensures Turn(0x0bd4cff2, 65536, 0xcff20bd4) && Turn(0x275d1e03, 8388608, 0x0193ae8f)
  {
  }

  lemma Steps41To48(x: seq<u32>, r: Regs)
    requires x == WORDS && Steps(MD5_OPS, x, r, 0, 40) == Regs(W(0xb9c0c733), W(0x8d41bf99), W(0x23a9451b), W(0xf1e6dc7a))
    ensures Steps(MD5_OPS, x, r, 0, 48) == Regs(W(0xb5d41f9c), W(0x71d10367), W(0x703d54d8), W(0xa04b4904))
  {
    hide Steps, W, Row, Turn, Has;
    Words(x);
    Rows41To48();
    Numbers41To48();
    K(x, r, 40, 13, 0xb9c0c733, 0x8d41bf99, 0x23a9451b, 0xf1e6dc7a, 0x5f0e26f8, 0x00000000, 0x289b7ec6, 0x416a6cf1, 16, 0x16a6cf14, 0xa3e88ead);
    K(x, r, 41, 0, 0xf1e6dc7a, 0xa3e88ead, 0x8d41bf99, 0x23a9451b, 0x0d00742f, 0x64636261, 0xeaa127fa, 0x4debdb04, 2048, 0x5ed8226f, 0x02c0b11c);
    K(x, r, 42, 3, 0x23a9451b, 0x02c0b11c, 0xa3e88ead, 0x8d41bf99, 0x2c698028, 0x706f6e6d, 0xd4ef3085, 0x95716435, 65536, 0x64359571, 0x66f6468d);
    K(x, r, 43, 6, 0x8d41bf99, 0x66f6468d, 0x02c0b11c, 0xa3e88ead, 0xc7de793c, 0x00807a79, 0x04881d05, 0x5a28d053, 8388608, 0x29ad1468, 0x90a35af5);
    K(x, r, 44, 9, 0xa3e88ead, 0x90a35af5, 0x66f6468d, 0x02c0b11c, 0xf495ad64, 0x00000000, 0xd9d4d039, 0x72530c4a, 16, 0x2530c4a7, 0xb5d41f9c);
    K(x, r, 45, 12, 0x02c0b11c, 0xb5d41f9c, 0x90a35af5, 0x66f6468d, 0x438103e4, 0x00000000, 0xe6db99e5, 0x2d1d4ee5, 2048, 0xea772968, 0xa04b4904);
    K(x, r, 46, 15, 0x66f6468d, 0xa04b4904, 0xb5d41f9c, 0x90a35af5, 0x853c0c6d, 0x00000000, 0x1fa27cf8, 0x0bd4cff2, 65536, 0xcff20bd4, 0x703d54d8);
    K(x, r, 47, 2, 0x90a35af5, 0x703d54d8, 0xa04b4904, 0xb5d41f9c, 0x65a20240, 0x6c6b6a69, 0xc4ac5665, 0x275d1e03, 8388608, 0x0193ae8f, 0x71d10367);
  }

  lemma Numbers49To56()
    ensures W(0xb5d41f9c) == 0xb5d41f9c && W(0x71d10367) == 0x71d10367 && W(0x703d54d8) == 0x703d54d8 && W(0xa04b4904) == 0xa04b4904
    ensures W(0x0fc8e327) == 0x0fc8e327 && W(0xfc32dd6e) == 0xfc32dd6e && W(0x8e23fc08) == 0x8e23fc08 && W(0x65456b34) == 0x65456b34
    ensures W(0x135d22d2) == 0x135d22d2 && W(0xb35602cb) == 0xb35602cb && W(0xd69a49ef) == 0xd69a49ef && W(0x33edb197) == 0x33edb197
    ensures W(0x08a9b714) == 0x08a9b714 && W(0xc1e942f1) == 0xc1e942f1 && W(0xfe044e62) == 0xfe044e62 && W(0xd9bb987c) == 0xd9bb987c
    ensures W(0x1c529c8d) == 0x1c529c8d && W(0x23a68048) == 0x23a68048 && W(0xe60d2532) == 0xe60d2532 && W(0x83877d1b) == 0x83877d1b
    ensures Turn(0x1e298768, 64, 0x8a61da07) && Turn(0x719a44a3, 1024, 0x69128dc6)
    ensures Turn(0x2f2e9c21, 32768, 0x4e109797) && Turn(0xbd766404, 2097152, 0x8097aecc)
    ensures Turn(0x6a37ee45, 64, 0x8dfb915a) && Turn(0x62c5f495, 1024, 0x17d2558b)
    ensures Turn(0xcf9893d5, 32768, 0x49eae7cc) && Turn(0x07e69aff, 2097152, 0x5fe0fcd3)
  {
  }

  lemma Steps49To56(x: seq<u32>, r: Regs)
    requires x == WORDS && Steps(MD5_OPS, x, r, 0, 48) == Regs(W(0xb5d41f9c), W(0x71d10367), W(0x703d54d8), W(0xa04b4904))
    ensures Steps(MD5_OPS, x, r, 0, 56) == Regs(W(0xc1e942f1), W(0x83877d1b), W(0x23a68048), W(0xd9bb987c))
  {
    hide Steps, W, Row, Turn, Has;
    Words(x);
    Rows49To56();
    Numbers49To56();
    K(x, r, 48, 0, 0xb5d41f9c, 0x71d10367, 0x703d54d8, 0xa04b4904, 0x0fc8e327, 0x64636261, 0xf4292244, 0x1e298768, 64, 0x8a61da07, 0xfc32dd6e);
    K(x, r, 49, 7, 0xa04b4904, 0xfc32dd6e, 0x71d10367, 0x703d54d8, 0x8e23fc08, 0x00000000, 0x432aff97, 0x719a44a3, 1024, 0x69128dc6, 0x65456b34);
    K(x, r, 50, 14, 0x703d54d8, 0x65456b34, 0xfc32dd6e, 0x71d10367, 0x135d22d2, 0x000000d0, 0xab9423a7, 0x2f2e9c21, 32768, 0x4e109797, 0xb35602cb);
    K(x, r, 51, 5, 0x71d10367, 0xb35602cb, 0x65456b34, 0xfc32dd6e, 0xd69a49ef, 0x78777675, 0xfc93a039, 0xbd766404, 2097152, 0x8097aecc, 0x33edb197);
    K(x, r, 52, 12, 0xfc32dd6e, 0x33edb197, 0xb35602cb, 0x65456b34, 0x08a9b714, 0x00000000, 0x655b59c3, 0x6a37ee45, 64, 0x8dfb915a, 0xc1e942f1);
    K(x, r, 53, 3, 0x65456b34, 0xc1e942f1, 0x33edb197, 0xb35602cb, 0xfe044e62, 0x706f6e6d, 0x8f0ccc92, 0x62c5f495, 1024, 0x17d2558b, 0xd9bb987c);
    K(x, r, 54, 10, 0xb35602cb, 0xd9bb987c, 0xc1e942f1, 0x33edb197, 0x1c529c8d, 0x00000000, 0xffeff47d, 0xcf9893d5, 32768, 0x49eae7cc, 0x23a68048);
    K(x, r, 55, 1, 0x33edb197, 0x23a68048, 0xd9bb987c, 0xc1e942f1, 0xe60d2532, 0x68676665, 0x85845dd1, 0x07e69aff, 2097152, 0x5fe0fcd3, 0x83877d1b);
  }

  lemma Numbers57To64()
    ensures W(0xc1e942f1) == 0xc1e942f1 && W(0x83877d1b) == 0x83877d1b && W(0x23a68048) == 0x23a68048 && W(0xd9bb987c) == 0xd9bb987c
    ensures W(0x8461ffd3) == 0x8461ffd3 && W(0x0077c208) == 0x0077c208 && W(0x5ff882a4) == 0x5ff882a4 && W(0x847fc2e7) == 0x847fc2e7
    ensures W(0xfc0800ef) == 0xfc0800ef && W(0xa3e2247f) == 0xa3e2247f && W(0x7b95ff18) == 0x7b95ff18 && W(0x5e6bc930) == 0x5e6bc930
    ensures W(0xdc09d947) == 0xdc09d947 && W(0x708ed9c2) == 0x708ed9c2 && W(0x22f412f2) == 0x22f412f2 && W(0x2baf1354) == 0x2baf1354
    ensures W(0xdb31ee1d) == 0xdb31ee1d && W(0xd38f1e7f) == 0xd38f1e7f && W(0xf4502d2b) == 0xf4502d2b && W(0x1116e6d8) == 0x1116e6d8
    ensures Turn(0xb5f3c113, 64, 0x7cf044ed) && Turn(0x37e10200, 1024, 0x840800df)
    ensures Turn(0xc3303ec4, 32768, 0x1f626198) && Turn(0x4d258dd4, 2097152, 0xba89a4b1)
    ensures Turn(0x48488c42, 64, 0x12231092) && Turn(0x64aec80e, 1024, 0xbb203992)
    ensures Turn(0x16574fc0, 32768, 0xa7e00b2b) && Turn(0x3e42c9ec, 2097152, 0x3d87c859)
  {
  }

  lemma Steps57To64(x: seq<u32>, r: Regs)
    requires x == WORDS && Steps(MD5_OPS, x, r, 0, 56) == Regs(W(0xc1e942f1), W(0x83877d1b), W(0x23a68048), W(0xd9bb987c))
    ensures Steps(MD5_OPS, x, r, 0, 64) == Regs(W(0x708ed9c2), W(0x1116e6d8), W(0xd38f1e7f), W(0x2baf1354))
  {
    hide Steps, W, Row, Turn, Has;
    Words(x);
    Rows57To64();
    Numbers57To64();
    K(x, r, 56, 8, 0xc1e942f1, 0x83877d1b, 0x23a68048, 0xd9bb987c, 0x8461ffd3, 0x00000000, 0x6fa87e4f, 0xb5f3c113, 64, 0x7cf044ed, 0x0077c208);
    K(x, r, 57, 15, 0xd9bb987c, 0x0077c208, 0x83877d1b, 0x23a68048, 0x5ff882a4, 0x00000000, 0xfe2ce6e0, 0x37e10200, 1024, 0x840800df, 0x847fc2e7);
    K(x, r, 58, 6, 0x23a68048, 0x847fc2e7, 0x0077c208, 0x83877d1b, 0xfc0800ef, 0x00807a79, 0xa3014314, 0xc3303ec4, 32768, 0x1f626198, 0xa3e2247f);
    K(x, r, 59, 13, 0x83877d1b, 0xa3e2247f, 0x847fc2e7, 0x0077c208, 0x7b95ff18, 0x00000000, 0x4e0811a1, 0x4d258dd4, 2097152, 0xba89a4b1, 0x5e6bc930);
    K(x, r, 60, 4, 0x0077c208, 0x5e6bc930, 0xa3e2247f, 0x847fc2e7, 0xdc09d947, 0x74737271, 0xf7537e82, 0x48488c42, 64, 0x12231092, 0x708ed9c2);
    K(x, r, 61, 11, 0x847fc2e7, 0x708ed9c2, 0x5e6bc930, 0xa3e2247f, 0x22f412f2, 0x00000000, 0xbd3af235, 0x64aec80e, 1024, 0xbb203992, 0x2baf1354);
    K(x, r, 62, 2, 0xa3e2247f, 0x2baf1354, 0x708ed9c2, 0x5e6bc930, 0xdb31ee1d, 0x6c6b6a69, 0x2ad7d2bb, 0x16574fc0, 32768, 0xa7e00b2b, 0xd38f1e7f);
    K(x, r, 63, 9, 0x5e6bc930, 0xd38f1e7f, 0x2baf1354, 0x708ed9c2, 0xf4502d2b, 0x00000000, 0xeb86d391, 0x3e42c9ec, 2097152, 0x3d87c859, 0x1116e6d8);
  }

  const AFTER: State := [0xd7d3fcc3, 0x00e49261, 0x6c49fb7d, 0x3be167ca]

  lemma WordAt(k: nat)
    requires k < 16
    ensures PaddedWord(k) == WordOf(PaddedByte(4 * k), PaddedByte(4 * k + 1), PaddedByte(4 * k + 2), PaddedByte(4 * k + 3))
  {
  }

  lemma {:induction false} WordsOf(block: Block)
    requires forall i :: 0 <= i < 64 ==> block[i] == PaddedByte(i)
    ensures DecodeWords(block) == WORDS
  {
    hide PaddedByte, PaddedWord, WordOf;
    forall k | 0 <= k < 16 ensures DecodeWords(block)[k] == WORDS[k] {
      WordAt(k);
      assert DecodeWords(block)[k] == WordOf(block[4 * k], block[4 * k + 1], block[4 * k + 2], block[4 * k + 3]);
    }
  }

  lemma {:induction false} Block(block: Block)
    requires DecodeWords(block) == WORDS
    ensures Transform(MD5_OPS, INITIAL, block) == AFTER
  {
    hide Steps;
    var r := Regs(0x67452301, 0xefcdab89, 0x98badcfe, 0x10325476);
    NoStep(MD5_OPS, WORDS, r, 0);
    Steps1To8(WORDS, r);
    Steps9To16(WORDS, r);
    Steps17To24(WORDS, r);
    Steps25To32(WORDS, r);
    Steps33To40(WORDS, r);
    Steps41To48(WORDS, r);
    Steps49To56(WORDS, r);
    Steps57To64(WORDS, r);
  }

  /** Section 3.4 of RFC 1321: a block increments each of the four registers. */
  lemma {:induction false} BlockIncrements(st: State, block: Block, i: nat)
    requires i < 4
    ensures var r := Steps(MD5_OPS, DecodeWords(block), Regs(st[0], st[1], st[2], st[3]), 0, 64);
            Transform(MD5_OPS, st, block)[i] == (st[i] + [r.a, r.b, r.c, r.d][i]) % U32_MOD
  {
    hide Steps, DecodeWords;
  }

  /** MD5 ("abcdefghijklmnopqrstuvwxyz") = c3fcd3d76192e4007dfb496cca67e13b */
  lemma KnownAnswer()
    ensures Digest(MD5_OPS, ALPHABET)
         == [0xc3, 0xfc, 0xd3, 0xd7, 0x61, 0x92, 0xe4, 0x00,
             0x7d, 0xfb, 0x49, 0x6c, 0xca, 0x67, 0xe1, 0x3b]
  {
    hide Transform, DecodeWords, Steps, Padded;
    var p := Padded(ALPHABET);
    PaddedAlphabet();
    WordsOf(p);
    Block(p);
    assert p[..64] == p && p[64..] == [];
    assert Absorb(MD5_OPS, INITIAL, p) == AFTER;
    EncodedAnswer();
  }

  lemma AnswerBytes()
    ensures ByteOf(0xd7d3fcc3, 0) == 0xc3 && ByteOf(0xd7d3fcc3, 1) == 0xfc && ByteOf(0xd7d3fcc3, 2) == 0xd3 && ByteOf(0xd7d3fcc3, 3) == 0xd7
    ensures ByteOf(0x00e49261, 0) == 0x61 && ByteOf(0x00e49261, 1) == 0x92 && ByteOf(0x00e49261, 2) == 0xe4 && ByteOf(0x00e49261, 3) == 0x00
    ensures ByteOf(0x6c49fb7d, 0) == 0x7d && ByteOf(0x6c49fb7d, 1) == 0xfb && ByteOf(0x6c49fb7d, 2) == 0x49 && ByteOf(0x6c49fb7d, 3) == 0x6c
    ensures ByteOf(0x3be167ca, 0) == 0xca && ByteOf(0x3be167ca, 1) == 0x67 && ByteOf(0x3be167ca, 2) == 0xe1 && ByteOf(0x3be167ca, 3) == 0x3b
  {
  }

  lemma EncodedAnswer()
    ensures EncodeWords(AFTER)
         == [0xc3, 0xfc, 0xd3, 0xd7, 0x61, 0x92, 0xe4, 0x00,
             0x7d, 0xfb, 0x49, 0x6c, 0xca, 0x67, 0xe1, 0x3b]
  {
    hide ByteOf;
    AnswerBytes();
    var e := EncodeWords(AFTER);
    EncodedAt(AFTER, 0);
    EncodedAt(AFTER, 1);
    EncodedAt(AFTER, 2);
    EncodedAt(AFTER, 3);
  }
}
