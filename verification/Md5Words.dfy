/** What the word operations of MD5 are, independently of the way they are computed. */
module Md5Words {
  import opened Bytes
  import opened Bits
  import opened Md5Transform

  // ---- The functions of section 3.4 of RFC 1321, digit by digit ----

  lemma Word(v: u32)
    ensures Value32(v as bv32) == v
  {
    assert v % 0x1_0000_0000 == v;
  }

  lemma {:induction false} PowSum(m: nat, n: nat)
    ensures Pow2(m + n) == Pow2(m) * Pow2(n)
    decreases n
  {
    if n > 0 { PowSum(m, n - 1); }
  }

  lemma WordSize()
    ensures Pow2(31) == 0x8000_0000 && Pow2(32) == U32_MOD
  {
    assert Pow2(8) == 256;
    PowSum(8, 8);
    PowSum(16, 16);
  }

  lemma Complement(b: bv32)
    ensures !b == Xor32(b, 0xffff_ffff) && Value32(0xffff_ffff) == 0xffff_ffff
  {
  }

  lemma Not(b: bv32, i: nat)
    requires i < 32
    ensures Bit(Value32(!b), i) == !Bit(Value32(b), i)
  {
    hide Value32, Bit, Xor32;
    Complement(b);
    Digits32(Xor, b, 0xffff_ffff, i);
    WordSize();
    Ones(32, i);
  }

  lemma FParts(x: u32, y: u32, z: u32)
    ensures var a, b, c := x as bv32, y as bv32, z as bv32;
            F(x, y, z) == Value32(Or32(And32(a, b), And32(!a, c)))
  {
  }

  /** F takes each digit from y or z, as x says. */
  lemma FSelects(x: u32, y: u32, z: u32, i: nat)
    requires i < 32
    ensures Bit(F(x, y, z), i) == if Bit(x, i) then Bit(y, i) else Bit(z, i)
  {
    hide F, Bit, Value32, And32, Or32;
    var a, b, c := x as bv32, y as bv32, z as bv32;
    FParts(x, y, z);
    Word(x); Word(y); Word(z);
    Digits32(And, a, b, i);
    Digits32(And, !a, c, i);
    Digits32(Or, And32(a, b), And32(!a, c), i);
    Not(a, i);
  }

  lemma GParts(x: u32, y: u32, z: u32)
    ensures var a, b, c := x as bv32, y as bv32, z as bv32;
            G(x, y, z) == Value32(Or32(And32(a, c), And32(b, !c)))
  {
  }

  /** G takes each digit from x or y, as z says. */
  lemma GSelects(x: u32, y: u32, z: u32, i: nat)
    requires i < 32
    ensures Bit(G(x, y, z), i) == if Bit(z, i) then Bit(x, i) else Bit(y, i)
  {
    hide G, Bit, Value32, And32, Or32;
    var a, b, c := x as bv32, y as bv32, z as bv32;
    GParts(x, y, z);
    Word(x); Word(y); Word(z);
    Digits32(And, a, c, i);
    Digits32(And, b, !c, i);
    Digits32(Or, And32(a, c), And32(b, !c), i);
    Not(c, i);
  }

  function Parity(a: bv32, b: bv32, c: bv32): bv32 { a ^ b ^ c }

  lemma OuterXor(a: bv32, b: bv32, c: bv32)
    ensures Parity(a, b, c) == Xor32(a ^ b, c)
  {
  }

  lemma TwoXors(a: bv32, b: bv32, c: bv32)
    ensures Parity(a, b, c) == Xor32(Xor32(a, b), c)
  {
    OuterXor(a, b, c);
    assert Xor32(a, b) == a ^ b;
    hide Parity, Xor32;
  }

  lemma ParityOf(x: u32, y: u32, z: u32)
    ensures H(x, y, z) == Value32(Parity(x as bv32, y as bv32, z as bv32))
  {
  }

  lemma HParts(x: u32, y: u32, z: u32)
    ensures H(x, y, z) == Value32(Xor32(Xor32(x as bv32, y as bv32), z as bv32))
  {
    hide H, Value32, Xor32, Parity;
    ParityOf(x, y, z);
    TwoXors(x as bv32, y as bv32, z as bv32);
  }

  /** H is the parity of the three digits. */
  lemma HIsParity(x: u32, y: u32, z: u32, i: nat)
    ensures Bit(H(x, y, z), i) == ((Bit(x, i) != Bit(y, i)) != Bit(z, i))
  {
    hide H, Bit, Value32, Xor32;
    var a, b, c := x as bv32, y as bv32, z as bv32;
    HParts(x, y, z);
    Word(x); Word(y); Word(z);
    Digits32(Xor, a, b, i);
    Digits32(Xor, Xor32(a, b), c, i);
  }

  lemma IParts(x: u32, y: u32, z: u32)
    ensures I(x, y, z) == Value32(Xor32(y as bv32, Or32(x as bv32, !(z as bv32))))
  {
  }

  /** I flips the digit of y when that of x is one or that of z is not. */
  lemma IFlips(x: u32, y: u32, z: u32, i: nat)
    requires i < 32
    ensures Bit(I(x, y, z), i) == (Bit(y, i) != (Bit(x, i) || !Bit(z, i)))
  {
    hide I, Bit, Value32, Xor32, Or32;
    var a, b, c := x as bv32, y as bv32, z as bv32;
    IParts(x, y, z);
    Word(x); Word(y); Word(z);
    Digits32(Or, a, !c, i);
    Digits32(Xor, b, Or32(a, !c), i);
    Not(c, i);
  }

  /** The digits determine the word, so the four laws determine the functions. */
  lemma {:induction false} SameDigits(v: nat, w: nat, n: nat)
    requires v < Pow2(n) && w < Pow2(n) && forall i :: 0 <= i < n ==> Bit(v, i) == Bit(w, i)
    ensures v == w
    decreases n
  {
    if n > 0 {
      FirstDigit(v);
      FirstDigit(w);
      forall i | 0 <= i < n - 1 ensures Bit(v / 2, i) == Bit(w / 2, i) {
        BitNext(v, i);
        BitNext(w, i);
        assert Bit(v, i + 1) == Bit(w, i + 1);
      }
      assert Bit(v, 0) == Bit(w, 0);
      SameDigits(v / 2, w / 2, n - 1);
    }
  }

  // ---- Rotation ----

  function Left(b: bv32, n: nat): bv32
    requires n < 32
  {
    b << n
  }

  function Right(b: bv32, n: nat): bv32
    requires n <= 32
  {
    b >> n
  }

  lemma RightOnce(b: bv32, n: nat)
    requires n < 32
    ensures b >> (n + 1) == (b >> n) >> 1
  {
    if n == 0 {} else if n == 1 {} else if n == 2 {} else if n == 3 {} else if n == 4 {} else if n == 5 {} else if n == 6 {} else if n == 7 {} else if n == 8 {} else if n == 9 {} else if n == 10 {} else if n == 11 {} else if n == 12 {} else if n == 13 {} else if n == 14 {} else if n == 15 {} else if n == 16 {} else if n == 17 {} else if n == 18 {} else if n == 19 {} else if n == 20 {} else if n == 21 {} else if n == 22 {} else if n == 23 {} else if n == 24 {} else if n == 25 {} else if n == 26 {} else if n == 27 {} else if n == 28 {} else if n == 29 {} else if n == 30 {} else {}
  }

  lemma LeftOnce(b: bv32, n: nat)
    requires n < 31
    ensures b << (n + 1) == (b << n) << 1
  {
    if n == 0 {} else if n == 1 {} else if n == 2 {} else if n == 3 {} else if n == 4 {} else if n == 5 {} else if n == 6 {} else if n == 7 {} else if n == 8 {} else if n == 9 {} else if n == 10 {} else if n == 11 {} else if n == 12 {} else if n == 13 {} else if n == 14 {} else if n == 15 {} else if n == 16 {} else if n == 17 {} else if n == 18 {} else if n == 19 {} else if n == 20 {} else if n == 21 {} else if n == 22 {} else if n == 23 {} else if n == 24 {} else if n == 25 {} else if n == 26 {} else if n == 27 {} else if n == 28 {} else if n == 29 {} else {}
  }

  lemma NoShift(b: bv32)
    ensures Left(b, 0) == b && Right(b, 0) == b
  {
  }

  lemma RightNext(b: bv32, n: nat)
    requires n < 32
    ensures Value32(Right(b, n + 1)) == Value32(Right(b, n)) / 2
  {
    hide Value32;
    RightOnce(b, n);
    Half32(b >> n);
  }

  lemma {:induction false} ShiftedRight(b: bv32, n: nat)
    requires n <= 32
    ensures Value32(Right(b, n)) == Value32(b) / Pow2(n)
    decreases n
  {
    hide Value32, Right;
    if n == 0 {
      NoShift(b);
    } else {
      ShiftedRight(b, n - 1);
      RightNext(b, n - 1);
      Twice(Value32(b), Pow2(n - 1));
    }
  }

  lemma Twice(v: nat, d: nat)
    requires d >= 1
    ensures v / (2 * d) == v / d / 2
  {
    var q := v / d / 2;
    assert v == (v / d) * d + v % d;
    assert v == q * (2 * d) + (v / d % 2 * d + v % d) by { assert v / d == 2 * q + v / d % 2; }
    Quotient(v, 2 * d, q, v / d % 2 * d + v % d);
  }

  /** c is b without its top digit. */
  predicate Cut(b: bv32, c: bv32) {
    c & 0x8000_0000 == 0 && b << 1 == c << 1 && (b == c || b == 0x8000_0000 | c)
  }

  lemma CutLeaves(b: bv32)
    ensures (b & 0x7fff_ffff) & 0x8000_0000 == 0
    ensures b << 1 == (b & 0x7fff_ffff) << 1
  {
  }

  lemma CutOff(b: bv32)
    ensures b == b & 0x7fff_ffff || b == 0x8000_0000 | (b & 0x7fff_ffff)
  {
  }

  lemma CutOf(b: bv32)
    ensures Cut(b, b & 0x7fff_ffff)
  {
    CutLeaves(b);
    CutOff(b);
  }

  lemma TopValue(c: bv32)
    requires c & 0x8000_0000 == 0
    ensures Value32(0x8000_0000 | c) == 0x8000_0000 + Value32(c)
  {
  }

  lemma Below(b: bv32)
    ensures Value32(b) < U32_MOD
  {
  }

  lemma CutValues(b: bv32, c: bv32)
    requires Cut(b, c)
    ensures Value32(b << 1) == 2 * Value32(c) && (Value32(b) == Value32(c) || Value32(b) == Value32(c) + 0x8000_0000)
  {
    hide Value32;
    Double32(c);
    TopValue(c);
  }

  lemma Doubled(b: bv32)
    ensures Value32(b << 1) == 2 * Value32(b) % U32_MOD
  {
    hide Value32, Cut;
    CutOf(b);
    CutValues(b, b & 0x7fff_ffff);
    Below(b << 1);
    Wraps(Value32(b), Value32(b << 1));
  }

  lemma Wraps(v: nat, w: nat)
    requires w < U32_MOD && (2 * v == w || 2 * v == w + U32_MOD)
    ensures w == 2 * v % U32_MOD
  {
  }

  lemma LeftNext(b: bv32, n: nat)
    requires n < 31
    ensures Value32(Left(b, n + 1)) == 2 * Value32(Left(b, n)) % U32_MOD
  {
    hide Value32;
    LeftOnce(b, n);
    Doubled(b << n);
  }

  lemma {:induction false} ShiftedLeft(b: bv32, n: nat)
    requires n < 32
    ensures Value32(Left(b, n)) == Value32(b) * Pow2(n) % U32_MOD
    decreases n
  {
    hide Value32, Left;
    if n == 0 {
      NoShift(b);
      Below(b);
    } else {
      ShiftedLeft(b, n - 1);
      LeftNext(b, n - 1);
      DoubleRest(Value32(b) * Pow2(n - 1));
      Regrouped(Value32(b), Pow2(n - 1));
    }
  }

  lemma Regrouped(v: nat, p: nat)
    ensures v * (2 * p) == 2 * (v * p)
  {
  }

  lemma DoubleRest(k: nat)
    ensures 2 * (k % U32_MOD) % U32_MOD == 2 * k % U32_MOD
  {
    var m, r := k / U32_MOD, k % U32_MOD;
    assert k == m * U32_MOD + r;
    Quotient(2 * k, U32_MOD, 2 * r / U32_MOD + 2 * m, 2 * r % U32_MOD);
  }

  /** A number without its last n digits and one with no others: disjoint, so or is addition. */
  lemma {:induction false} OrIsSum(p: bv32, q: bv32, n: nat)
    requires Value32(p) % Pow2(n) == 0 && Value32(q) < Pow2(n)
    ensures Value32(Or32(p, q)) == Value32(p) + Value32(q)
    decreases n
  {
    hide Value32, Or32, Odd32, Rest32;
    if n == 0 {
      OrZero(p, q);
    } else {
      ShiftOr32(p, q);
      Half32(p);
      Half32(q);
      Half32(Or32(p, q));
      EvenMultiple(Value32(p), Pow2(n - 1));
      OrIsSum(Rest32(p), Rest32(q), n - 1);
    }
  }

  lemma OrZero(p: bv32, q: bv32)
    requires Value32(q) == 0
    ensures Or32(p, q) == p
  {
    assert q == 0;
  }

  lemma EvenMultiple(v: nat, d: nat)
    requires d >= 1 && v % (2 * d) == 0
    ensures v % 2 == 0 && v / 2 % d == 0
  {
    var q := v / (2 * d);
    assert v == q * (2 * d);
    assert v == 2 * (q * d);
    Quotient(v / 2, d, q, 0);
  }

  lemma RotateParts(x: u32, n: u32)
    requires 0 < n < 32
    ensures var b := x as bv32; RotateLeft(x, n) == Value32(Or32(Left(b, n), Right(b, 32 - n)))
  {
  }

  lemma MultipleRest(v: nat, p: nat, q: nat)
    requires p >= 1 && q >= 1
    ensures v * p % (p * q) % p == 0
  {
    var k := v * p / (p * q);
    assert v * p == k * (p * q) + v * p % (p * q);
    assert k * (p * q) == (k * q) * p;
    Common(v, k * q, p, v * p % (p * q));
  }

  lemma Common(v: int, w: int, p: int, r: nat)
    requires p >= 1 && v * p == w * p + r
    ensures r % p == 0
  {
    assert r == (v - w) * p;
    NotNegative(v - w, p);
    Quotient(r, p, v - w, 0);
  }

  lemma NotNegative(e: int, p: int)
    requires p >= 1 && e * p >= 0
    ensures e >= 0
  {
    assert e <= -1 ==> e * p <= -p;
  }

  lemma HighPart(v: nat, p: nat, q: nat)
    requires p >= 1 && q >= 1 && v < p * q
    ensures v / q < p
  {
    assert (p - 1 - v / q) * q == p * q - q - v / q * q && v == v / q * q + v % q;
    NotBelow(p - v / q, q);
  }

  lemma NotBelow(e: int, q: int)
    requires q >= 1 && e * q > 0
    ensures e > 0
  {
    assert e <= 0 ==> e * q <= 0;
  }

  /** The digits move up by n places, and those that leave the word come back at its end. */
  lemma RotateIsArithmetic(x: u32, n: u32)
    requires 0 < n < 32
    ensures RotateLeft(x, n) == x * Pow2(n) % U32_MOD + x / Pow2(32 - n)
  {
    hide RotateLeft, Value32, Or32, Left, Right, Pow2;
    var b := x as bv32;
    Word(x);
    RotateParts(x, n);
    ShiftedLeft(b, n);
    ShiftedRight(b, 32 - n);
    WordSize();
    PowSum(n, 32 - n);
    MultipleRest(x, Pow2(n), Pow2(32 - n));
    HighPart(x, Pow2(n), Pow2(32 - n));
    OrIsSum(Left(b, n), Right(b, 32 - n), n);
  }
}
