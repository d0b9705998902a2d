/** The MD5 block transformation: the unrolled code against the step table of RFC 1321. */
module Md5Transform {
  import opened Bytes

  // ---- Word operations (section 2 and section 3.4 of RFC 1321) ----

  function F(x: u32, y: u32, z: u32): u32 { (((x as bv32) & (y as bv32)) | (!(x as bv32) & (z as bv32))) as int }
  function G(x: u32, y: u32, z: u32): u32 { (((x as bv32) & (z as bv32)) | ((y as bv32) & !(z as bv32))) as int }
  function H(x: u32, y: u32, z: u32): u32 { ((x as bv32) ^ (y as bv32) ^ (z as bv32)) as int }
  function I(x: u32, y: u32, z: u32): u32 { ((y as bv32) ^ ((x as bv32) | !(z as bv32))) as int }

  function RotateLeft(x: u32, n: u32): u32 {
    if 0 < n < 32 then (((x as bv32) << n) | ((x as bv32) >> (32 - n))) as int else x
  }

  /** The bit-wise operations as a parameter: nothing about the rounds depends on what they are. */
  datatype WordOps = WordOps(f: (u32, u32, u32) -> u32, g: (u32, u32, u32) -> u32,
                             h: (u32, u32, u32) -> u32, i: (u32, u32, u32) -> u32,
                             rotate: (u32, u32) -> u32, add: (u32, u32) -> u32)

  const MD5_OPS := WordOps(F, G, H, I, RotateLeft, Add)

  function Add(x: u32, y: u32): u32 { (x + y) % U32_MOD }

  // ---- The reference: one step of section 3.4, driven by tables ----

  datatype Regs = Regs(a: u32, b: u32, c: u32, d: u32)

  const INIT: Regs := Regs(0x67452301, 0xefcdab89, 0x98badcfe, 0x10325476)

  /** Sine(i) = floor(2^32 * abs(sin(i + 1))), the table T of section 3.4. */
  function Sine(i: nat): u32 {
    if i < 8 then (
      if i == 0 then 0xd76aa478 else if i == 1 then 0xe8c7b756 else if i == 2 then 0x242070db else if i == 3 then 0xc1bdceee
      else if i == 4 then 0xf57c0faf else if i == 5 then 0x4787c62a else if i == 6 then 0xa8304613 else 0xfd469501)
    else if i < 16 then (
      if i == 8 then 0x698098d8 else if i == 9 then 0x8b44f7af else if i == 10 then 0xffff5bb1 else if i == 11 then 0x895cd7be
      else if i == 12 then 0x6b901122 else if i == 13 then 0xfd987193 else if i == 14 then 0xa679438e else 0x49b40821)
    else if i < 24 then (
      if i == 16 then 0xf61e2562 else if i == 17 then 0xc040b340 else if i == 18 then 0x265e5a51 else if i == 19 then 0xe9b6c7aa
      else if i == 20 then 0xd62f105d else if i == 21 then 0x02441453 else if i == 22 then 0xd8a1e681 else 0xe7d3fbc8)
    else if i < 32 then (
      if i == 24 then 0x21e1cde6 else if i == 25 then 0xc33707d6 else if i == 26 then 0xf4d50d87 else if i == 27 then 0x455a14ed
      else if i == 28 then 0xa9e3e905 else if i == 29 then 0xfcefa3f8 else if i == 30 then 0x676f02d9 else 0x8d2a4c8a)
    else if i < 40 then (
      if i == 32 then 0xfffa3942 else if i == 33 then 0x8771f681 else if i == 34 then 0x6d9d6122 else if i == 35 then 0xfde5380c
      else if i == 36 then 0xa4beea44 else if i == 37 then 0x4bdecfa9 else if i == 38 then 0xf6bb4b60 else 0xbebfbc70)
    else if i < 48 then (
      if i == 40 then 0x289b7ec6 else if i == 41 then 0xeaa127fa else if i == 42 then 0xd4ef3085 else if i == 43 then 0x04881d05
      else if i == 44 then 0xd9d4d039 else if i == 45 then 0xe6db99e5 else if i == 46 then 0x1fa27cf8 else 0xc4ac5665)
    else if i < 56 then (
      if i == 48 then 0xf4292244 else if i == 49 then 0x432aff97 else if i == 50 then 0xab9423a7 else if i == 51 then 0xfc93a039
      else if i == 52 then 0x655b59c3 else if i == 53 then 0x8f0ccc92 else if i == 54 then 0xffeff47d else 0x85845dd1)
    else (
      if i == 56 then 0x6fa87e4f else if i == 57 then 0xfe2ce6e0 else if i == 58 then 0xa3014314 else if i == 59 then 0x4e0811a1
      else if i == 60 then 0xf7537e82 else if i == 61 then 0xbd3af235 else if i == 62 then 0x2ad7d2bb else 0xeb86d391)
  }

  function Mix(w: WordOps, i: nat, x: u32, y: u32, z: u32): u32 {
    if i < 16 then w.f(x, y, z) else if i < 32 then w.g(x, y, z) else if i < 48 then w.h(x, y, z) else w.i(x, y, z)
  }

  function WordIndex(i: nat): (k: nat)
    ensures k < 16
  {
    if i < 16 then i else if i < 32 then (5 * i + 1) % 16 else if i < 48 then (3 * i + 5) % 16 else 7 * i % 16
  }

  function Shift(i: nat): (s: u32)
    ensures 0 < s < 32
  {
    if i < 16 then [7, 12, 17, 22][i % 4] else if i < 32 then [5, 9, 14, 20][i % 4]
    else if i < 48 then [4, 11, 16, 23][i % 4] else [6, 10, 15, 21][i % 4]
  }

  /** a = b + ((a + Mix(b,c,d) + X[k] + T[i]) <<< s); then the registers change places. */
  function Step(w: WordOps, x: seq<u32>, i: nat, r: Regs): Regs
    requires |x| == 16 && i < 64
  {
    var sum := w.add(r.a, w.add(w.add(Mix(w, i, r.b, r.c, r.d), x[WordIndex(i)]), Sine(i)));
    Regs(r.d, w.add(w.rotate(sum, Shift(i)), r.b), r.b, r.c)
  }

  function Steps(w: WordOps, x: seq<u32>, r: Regs, lo: nat, hi: nat): Regs
    requires |x| == 16 && lo <= hi <= 64
  {
    if lo == hi then r else Step(w, x, hi - 1, Steps(w, x, r, lo, hi - 1))
  }

  lemma {:induction false} StepsCompose(w: WordOps, x: seq<u32>, r: Regs, lo: nat, mid: nat, hi: nat)
    requires |x| == 16 && lo <= mid <= hi <= 64
    ensures Steps(w, x, Steps(w, x, r, lo, mid), mid, hi) == Steps(w, x, r, lo, hi)
    decreases hi
  {
    if mid < hi { StepsCompose(w, x, r, lo, mid, hi - 1); }
  }

  lemma NoStep(w: WordOps, x: seq<u32>, r0: Regs, lo: nat)
    requires |x| == 16 && lo <= 64
    ensures Steps(w, x, r0, lo, lo) == r0
  {
  }

  lemma NextStep(w: WordOps, x: seq<u32>, r0: Regs, lo: nat, i: nat, r: Regs)
    requires |x| == 16 && lo <= i < 64 && r == Steps(w, x, r0, lo, i)
    ensures Step(w, x, i, r) == Steps(w, x, r0, lo, i + 1)
  {
  }

  // ---- The macros and the unrolled rounds ----

  function FF(w: WordOps, a: u32, b: u32, c: u32, d: u32, x: u32, s: u32, ac: u32): u32 {
    w.add(w.rotate(w.add(a, w.add(w.add(w.f(b, c, d), x), ac)), s), b)
  }

  function GG(w: WordOps, a: u32, b: u32, c: u32, d: u32, x: u32, s: u32, ac: u32): u32 {
    w.add(w.rotate(w.add(a, w.add(w.add(w.g(b, c, d), x), ac)), s), b)
  }

  function HH(w: WordOps, a: u32, b: u32, c: u32, d: u32, x: u32, s: u32, ac: u32): u32 {
    w.add(w.rotate(w.add(a, w.add(w.add(w.h(b, c, d), x), ac)), s), b)
  }

  function II(w: WordOps, a: u32, b: u32, c: u32, d: u32, x: u32, s: u32, ac: u32): u32 {
    w.add(w.rotate(w.add(a, w.add(w.add(w.i(b, c, d), x), ac)), s), b)
  }

  method Steps1To8(w: WordOps, x: seq<u32>, r0: Regs) returns (r: Regs)
    requires |x| == 16
    ensures r == Steps(w, x, r0, 0, 8)
  {
    hide Steps;
    NoStep(w, x, r0, 0);
    var a, b, c, d := r0.a, r0.b, r0.c, r0.d;
    NextStep(w, x, r0, 0, 0, Regs(a, b, c, d));
    a := FF(w, a, b, c, d, x[0], 7, 0xd76aa478);
    NextStep(w, x, r0, 0, 1, Regs(d, a, b, c));
    d := FF(w, d, a, b, c, x[1], 12, 0xe8c7b756);
    NextStep(w, x, r0, 0, 2, Regs(c, d, a, b));
    c := FF(w, c, d, a, b, x[2], 17, 0x242070db);
    NextStep(w, x, r0, 0, 3, Regs(b, c, d, a));
    b := FF(w, b, c, d, a, x[3], 22, 0xc1bdceee);
    NextStep(w, x, r0, 0, 4, Regs(a, b, c, d));
    a := FF(w, a, b, c, d, x[4], 7, 0xf57c0faf);
    NextStep(w, x, r0, 0, 5, Regs(d, a, b, c));
    d := FF(w, d, a, b, c, x[5], 12, 0x4787c62a);
    NextStep(w, x, r0, 0, 6, Regs(c, d, a, b));
    c := FF(w, c, d, a, b, x[6], 17, 0xa8304613);
    NextStep(w, x, r0, 0, 7, Regs(b, c, d, a));
    b := FF(w, b, c, d, a, x[7], 22, 0xfd469501);
    r := Regs(a, b, c, d);
  }

  method Steps9To16(w: WordOps, x: seq<u32>, r0: Regs) returns (r: Regs)
    requires |x| == 16
    ensures r == Steps(w, x, r0, 8, 16)
  {
    hide Steps;
    NoStep(w, x, r0, 8);
    var a, b, c, d := r0.a, r0.b, r0.c, r0.d;
    NextStep(w, x, r0, 8, 8, Regs(a, b, c, d));
    a := FF(w, a, b, c, d, x[8], 7, 0x698098d8);
    NextStep(w, x, r0, 8, 9, Regs(d, a, b, c));
    d := FF(w, d, a, b, c, x[9], 12, 0x8b44f7af);
    NextStep(w, x, r0, 8, 10, Regs(c, d, a, b));
    c := FF(w, c, d, a, b, x[10], 17, 0xffff5bb1);
    NextStep(w, x, r0, 8, 11, Regs(b, c, d, a));
    b := FF(w, b, c, d, a, x[11], 22, 0x895cd7be);
    NextStep(w, x, r0, 8, 12, Regs(a, b, c, d));
    a := FF(w, a, b, c, d, x[12], 7, 0x6b901122);
    NextStep(w, x, r0, 8, 13, Regs(d, a, b, c));
    d := FF(w, d, a, b, c, x[13], 12, 0xfd987193);
    NextStep(w, x, r0, 8, 14, Regs(c, d, a, b));
    c := FF(w, c, d, a, b, x[14], 17, 0xa679438e);
    NextStep(w, x, r0, 8, 15, Regs(b, c, d, a));
    b := FF(w, b, c, d, a, x[15], 22, 0x49b40821);
    r := Regs(a, b, c, d);
  }

  method Steps17To24(w: WordOps, x: seq<u32>, r0: Regs) returns (r: Regs)
    requires |x| == 16
    ensures r == Steps(w, x, r0, 16, 24)
  {
    hide Steps;
    NoStep(w, x, r0, 16);
    var a, b, c, d := r0.a, r0.b, r0.c, r0.d;
    NextStep(w, x, r0, 16, 16, Regs(a, b, c, d));
    a := GG(w, a, b, c, d, x[1], 5, 0xf61e2562);
    NextStep(w, x, r0, 16, 17, Regs(d, a, b, c));
    d := GG(w, d, a, b, c, x[6], 9, 0xc040b340);
    NextStep(w, x, r0, 16, 18, Regs(c, d, a, b));
    c := GG(w, c, d, a, b, x[11], 14, 0x265e5a51);
    NextStep(w, x, r0, 16, 19, Regs(b, c, d, a));
    b := GG(w, b, c, d, a, x[0], 20, 0xe9b6c7aa);
    NextStep(w, x, r0, 16, 20, Regs(a, b, c, d));
    a := GG(w, a, b, c, d, x[5], 5, 0xd62f105d);
    NextStep(w, x, r0, 16, 21, Regs(d, a, b, c));
    d := GG(w, d, a, b, c, x[10], 9, 0x2441453);
    NextStep(w, x, r0, 16, 22, Regs(c, d, a, b));
    c := GG(w, c, d, a, b, x[15], 14, 0xd8a1e681);
    NextStep(w, x, r0, 16, 23, Regs(b, c, d, a));
    b := GG(w, b, c, d, a, x[4], 20, 0xe7d3fbc8);
    r := Regs(a, b, c, d);
  }

  method Steps25To32(w: WordOps, x: seq<u32>, r0: Regs) returns (r: Regs)
    requires |x| == 16
    ensures r == Steps(w, x, r0, 24, 32)
  {
    hide Steps;
    NoStep(w, x, r0, 24);
    var a, b, c, d := r0.a, r0.b, r0.c, r0.d;
    NextStep(w, x, r0, 24, 24, Regs(a, b, c, d));
    a := GG(w, a, b, c, d, x[9], 5, 0x21e1cde6);
    NextStep(w, x, r0, 24, 25, Regs(d, a, b, c));
    d := GG(w, d, a, b, c, x[14], 9, 0xc33707d6);
    NextStep(w, x, r0, 24, 26, Regs(c, d, a, b));
    c := GG(w, c, d, a, b, x[3], 14, 0xf4d50d87);
    NextStep(w, x, r0, 24, 27, Regs(b, c, d, a));
    b := GG(w, b, c, d, a, x[8], 20, 0x455a14ed);
    NextStep(w, x, r0, 24, 28, Regs(a, b, c, d));
    a := GG(w, a, b, c, d, x[13], 5, 0xa9e3e905);
    NextStep(w, x, r0, 24, 29, Regs(d, a, b, c));
    d := GG(w, d, a, b, c, x[2], 9, 0xfcefa3f8);
    NextStep(w, x, r0, 24, 30, Regs(c, d, a, b));
    c := GG(w, c, d, a, b, x[7], 14, 0x676f02d9);
    NextStep(w, x, r0, 24, 31, Regs(b, c, d, a));
    b := GG(w, b, c, d, a, x[12], 20, 0x8d2a4c8a);
    r := Regs(a, b, c, d);
  }

  method Steps33To40(w: WordOps, x: seq<u32>, r0: Regs) returns (r: Regs)
    requires |x| == 16
    ensures r == Steps(w, x, r0, 32, 40)
  {
    hide Steps;
    NoStep(w, x, r0, 32);
    var a, b, c, d := r0.a, r0.b, r0.c, r0.d;
    NextStep(w, x, r0, 32, 32, Regs(a, b, c, d));
    a := HH(w, a, b, c, d, x[5], 4, 0xfffa3942);
    NextStep(w, x, r0, 32, 33, Regs(d, a, b, c));
    d := HH(w, d, a, b, c, x[8], 11, 0x8771f681);
    NextStep(w, x, r0, 32, 34, Regs(c, d, a, b));
    c := HH(w, c, d, a, b, x[11], 16, 0x6d9d6122);
    NextStep(w, x, r0, 32, 35, Regs(b, c, d, a));
    b := HH(w, b, c, d, a, x[14], 23, 0xfde5380c);
    NextStep(w, x, r0, 32, 36, Regs(a, b, c, d));
    a := HH(w, a, b, c, d, x[1], 4, 0xa4beea44);
    NextStep(w, x, r0, 32, 37, Regs(d, a, b, c));
    d := HH(w, d, a, b, c, x[4], 11, 0x4bdecfa9);
    NextStep(w, x, r0, 32, 38, Regs(c, d, a, b));
    c := HH(w, c, d, a, b, x[7], 16, 0xf6bb4b60);
    NextStep(w, x, r0, 32, 39, Regs(b, c, d, a));
    b := HH(w, b, c, d, a, x[10], 23, 0xbebfbc70);
    r := Regs(a, b, c, d);
  }

  method Steps41To48(w: WordOps, x: seq<u32>, r0: Regs) returns (r: Regs)
    requires |x| == 16
    ensures r == Steps(w, x, r0, 40, 48)
  {
    hide Steps;
    NoStep(w, x, r0, 40);
    var a, b, c, d := r0.a, r0.b, r0.c, r0.d;
    NextStep(w, x, r0, 40, 40, Regs(a, b, c, d));
    a := HH(w, a, b, c, d, x[13], 4, 0x289b7ec6);
    NextStep(w, x, r0, 40, 41, Regs(d, a, b, c));
    d := HH(w, d, a, b, c, x[0], 11, 0xeaa127fa);
    NextStep(w, x, r0, 40, 42, Regs(c, d, a, b));
    c := HH(w, c, d, a, b, x[3], 16, 0xd4ef3085);
    NextStep(w, x, r0, 40, 43, Regs(b, c, d, a));
    b := HH(w, b, c, d, a, x[6], 23, 0x4881d05);
    NextStep(w, x, r0, 40, 44, Regs(a, b, c, d));
    a := HH(w, a, b, c, d, x[9], 4, 0xd9d4d039);
    NextStep(w, x, r0, 40, 45, Regs(d, a, b, c));
    d := HH(w, d, a, b, c, x[12], 11, 0xe6db99e5);
    NextStep(w, x, r0, 40, 46, Regs(c, d, a, b));
    c := HH(w, c, d, a, b, x[15], 16, 0x1fa27cf8);
    NextStep(w, x, r0, 40, 47, Regs(b, c, d, a));
    b := HH(w, b, c, d, a, x[2], 23, 0xc4ac5665);
    r := Regs(a, b, c, d);
  }

  method Steps49To56(w: WordOps, x: seq<u32>, r0: Regs) returns (r: Regs)
    requires |x| == 16
    ensures r == Steps(w, x, r0, 48, 56)
  {
    hide Steps;
    NoStep(w, x, r0, 48);
    var a, b, c, d := r0.a, r0.b, r0.c, r0.d;
    NextStep(w, x, r0, 48, 48, Regs(a, b, c, d));
    a := II(w, a, b, c, d, x[0], 6, 0xf4292244);
    NextStep(w, x, r0, 48, 49, Regs(d, a, b, c));
    d := II(w, d, a, b, c, x[7], 10, 0x432aff97);
    NextStep(w, x, r0, 48, 50, Regs(c, d, a, b));
    c := II(w, c, d, a, b, x[14], 15, 0xab9423a7);
    NextStep(w, x, r0, 48, 51, Regs(b, c, d, a));
    b := II(w, b, c, d, a, x[5], 21, 0xfc93a039);
    NextStep(w, x, r0, 48, 52, Regs(a, b, c, d));
    a := II(w, a, b, c, d, x[12], 6, 0x655b59c3);
    NextStep(w, x, r0, 48, 53, Regs(d, a, b, c));
    d := II(w, d, a, b, c, x[3], 10, 0x8f0ccc92);
    NextStep(w, x, r0, 48, 54, Regs(c, d, a, b));
    c := II(w, c, d, a, b, x[10], 15, 0xffeff47d);
    NextStep(w, x, r0, 48, 55, Regs(b, c, d, a));
    b := II(w, b, c, d, a, x[1], 21, 0x85845dd1);
    r := Regs(a, b, c, d);
  }

  method Steps57To64(w: WordOps, x: seq<u32>, r0: Regs) returns (r: Regs)
    requires |x| == 16
    ensures r == Steps(w, x, r0, 56, 64)
  {
    hide Steps;
    NoStep(w, x, r0, 56);
    var a, b, c, d := r0.a, r0.b, r0.c, r0.d;
    NextStep(w, x, r0, 56, 56, Regs(a, b, c, d));
    a := II(w, a, b, c, d, x[8], 6, 0x6fa87e4f);
    NextStep(w, x, r0, 56, 57, Regs(d, a, b, c));
    d := II(w, d, a, b, c, x[15], 10, 0xfe2ce6e0);
    NextStep(w, x, r0, 56, 58, Regs(c, d, a, b));
    c := II(w, c, d, a, b, x[6], 15, 0xa3014314);
    NextStep(w, x, r0, 56, 59, Regs(b, c, d, a));
    b := II(w, b, c, d, a, x[13], 21, 0x4e0811a1);
    NextStep(w, x, r0, 56, 60, Regs(a, b, c, d));
    a := II(w, a, b, c, d, x[4], 6, 0xf7537e82);
    NextStep(w, x, r0, 56, 61, Regs(d, a, b, c));
    d := II(w, d, a, b, c, x[11], 10, 0xbd3af235);
    NextStep(w, x, r0, 56, 62, Regs(c, d, a, b));
    c := II(w, c, d, a, b, x[2], 15, 0x2ad7d2bb);
    NextStep(w, x, r0, 56, 63, Regs(b, c, d, a));
    b := II(w, b, c, d, a, x[9], 21, 0xeb86d391);
    r := Regs(a, b, c, d);
  }

  /** The four rounds. */
  method Rounds(w: WordOps, x: seq<u32>, r0: Regs) returns (r: Regs)
    requires |x| == 16
    ensures r == Steps(w, x, r0, 0, 64)
  {
    r := r0;
    r := Steps1To8(w, x, r);
    StepsCompose(w, x, r0, 0, 0, 8);
    r := Steps9To16(w, x, r);
    StepsCompose(w, x, r0, 0, 8, 16);
    r := Steps17To24(w, x, r);
    StepsCompose(w, x, r0, 0, 16, 24);
    r := Steps25To32(w, x, r);
    StepsCompose(w, x, r0, 0, 24, 32);
    r := Steps33To40(w, x, r);
    StepsCompose(w, x, r0, 0, 32, 40);
    r := Steps41To48(w, x, r);
    StepsCompose(w, x, r0, 0, 40, 48);
    r := Steps49To56(w, x, r);
    StepsCompose(w, x, r0, 0, 48, 56);
    r := Steps57To64(w, x, r);
    StepsCompose(w, x, r0, 0, 56, 64);
  }
}
