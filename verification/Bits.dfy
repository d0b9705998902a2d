/** Words as bit vectors and as numbers: what the bit operations do to each binary digit. */
module Bits {
  function Pow2(n: nat): (p: nat)
    ensures p >= 1
  {
    if n == 0 then 1 else 2 * Pow2(n - 1)
  }

  /** Binary digit i of a number. */
  predicate Bit(v: nat, i: nat) { v / Pow2(i) % 2 == 1 }

  lemma ZeroMultiple(e: int, d: int)
    requires -d < e * d < d
    ensures e == 0
  {
    assert e >= 1 ==> e * d >= d;
    assert e <= -1 ==> e * d <= -d;
  }

  lemma Quotient(v: nat, d: nat, q: nat, r: nat)
    requires d >= 1 && v == q * d + r && r < d
    ensures v / d == q && v % d == r
  {
    assert (v / d - q) * d == r - v % d;
    ZeroMultiple(v / d - q, d);
  }

  lemma Halve(v: nat, d: nat)
    requires d >= 1
    ensures v / (2 * d) == v / 2 / d
  {
    var q := v / 2 / d;
    assert v / 2 == q * d + v / 2 % d;
    Quotient(v, 2 * d, q, 2 * (v / 2 % d) + v % 2);
  }

  lemma BitNext(v: nat, i: nat)
    ensures Bit(v, i + 1) == Bit(v / 2, i)
  {
    Halve(v, Pow2(i));
  }

  lemma FirstDigit(v: nat)
    ensures Bit(v, 0) <==> v % 2 == 1
  {
    assert v / Pow2(0) == v;
  }

  lemma {:induction false} Ones(n: nat, i: nat)
    requires i < n
    ensures Bit(Pow2(n) - 1, i)
    decreases i
  {
    if i == 0 {
      FirstDigit(Pow2(n) - 1);
    } else {
      BitNext(Pow2(n) - 1, i - 1);
      assert (Pow2(n) - 1) / 2 == Pow2(n - 1) - 1;
      Ones(n - 1, i - 1);
    }
  }

  datatype Logic = And | Or | Xor {
    predicate Holds(a: bool, b: bool) {
      match this
      case And => a && b
      case Or => a || b
      case Xor => a != b
    }
  }

  // ---- Bytes ----

  function Value8(b: bv8): nat { b as int }

  function And8(x: bv8, y: bv8): bv8 { x & y }
  function Or8(x: bv8, y: bv8): bv8 { x | y }
  function Xor8(x: bv8, y: bv8): bv8 { x ^ y }

  function Combine8(op: Logic, x: bv8, y: bv8): bv8 {
    match op
    case And => And8(x, y)
    case Or => Or8(x, y)
    case Xor => Xor8(x, y)
  }

  /** The last binary digit, and the others. */
  predicate Odd8(b: bv8) { b & 1 == 1 }
  function Rest8(b: bv8): bv8 { b >> 1 }

  lemma Parts8(b: bv8)
    ensures (b >> 1) & 0x80 == 0 && b == if b & 1 == 1 then ((b >> 1) << 1) | 1 else (b >> 1) << 1
  {
  }

  lemma Double8(c: bv8)
    requires c & 0x80 == 0
    ensures Value8(c << 1) == 2 * Value8(c) && Value8((c << 1) | 1) == 2 * Value8(c) + 1
  {
  }

  lemma Half8(b: bv8)
    ensures Value8(b) / 2 == Value8(Rest8(b)) && (Value8(b) % 2 == 1 <==> Odd8(b))
  {
    hide Value8;
    Parts8(b);
    Double8(b >> 1);
  }

  lemma Digit8(b: bv8, i: nat)
    ensures Bit(Value8(b), i) == if i == 0 then Odd8(b) else Bit(Value8(Rest8(b)), i - 1)
  {
    hide Value8, Odd8, Rest8;
    Half8(b);
    if i > 0 { BitNext(Value8(b), i - 1); } else { FirstDigit(Value8(b)); }
  }

  lemma ShiftAnd8(x: bv8, y: bv8)
    ensures Rest8(And8(x, y)) == And8(Rest8(x), Rest8(y)) && Odd8(And8(x, y)) == (Odd8(x) && Odd8(y))
  {
  }

  lemma ShiftOr8(x: bv8, y: bv8)
    ensures Rest8(Or8(x, y)) == Or8(Rest8(x), Rest8(y)) && Odd8(Or8(x, y)) == (Odd8(x) || Odd8(y))
  {
  }

  lemma ShiftXor8(x: bv8, y: bv8)
    ensures Rest8(Xor8(x, y)) == Xor8(Rest8(x), Rest8(y)) && Odd8(Xor8(x, y)) == (Odd8(x) != Odd8(y))
  {
  }

  lemma Shift8(op: Logic, x: bv8, y: bv8)
    ensures Rest8(Combine8(op, x, y)) == Combine8(op, Rest8(x), Rest8(y))
    ensures Odd8(Combine8(op, x, y)) == op.Holds(Odd8(x), Odd8(y))
  {
    hide Odd8, Rest8, And8, Or8, Xor8;
    match op
    case And => ShiftAnd8(x, y);
    case Or => ShiftOr8(x, y);
    case Xor => ShiftXor8(x, y);
  }

  /** The operations work digit by digit. */
  lemma {:induction false} Digits8(op: Logic, x: bv8, y: bv8, i: nat)
    ensures Bit(Value8(Combine8(op, x, y)), i) == op.Holds(Bit(Value8(x), i), Bit(Value8(y), i))
    decreases i
  {
    hide Value8, Bit, Odd8, Rest8, Combine8;
    Shift8(op, x, y);
    Digit8(x, i);
    Digit8(y, i);
    Digit8(Combine8(op, x, y), i);
    if i > 0 { Digits8(op, Rest8(x), Rest8(y), i - 1); }
  }

  // ---- 32-bit words ----

  function Value32(b: bv32): nat { b as int }

  function And32(x: bv32, y: bv32): bv32 { x & y }
  function Or32(x: bv32, y: bv32): bv32 { x | y }
  function Xor32(x: bv32, y: bv32): bv32 { x ^ y }

  function Combine32(op: Logic, x: bv32, y: bv32): bv32 {
    match op
    case And => And32(x, y)
    case Or => Or32(x, y)
    case Xor => Xor32(x, y)
  }

  /** The last binary digit, and the others. */
  predicate Odd32(b: bv32) { b & 1 == 1 }
  function Rest32(b: bv32): bv32 { b >> 1 }

  lemma Parts32(b: bv32)
    ensures (b >> 1) & 0x8000_0000 == 0 && b == if b & 1 == 1 then ((b >> 1) << 1) | 1 else (b >> 1) << 1
  {
  }

  lemma Double32(c: bv32)
    requires c & 0x8000_0000 == 0
    ensures Value32(c << 1) == 2 * Value32(c) && Value32((c << 1) | 1) == 2 * Value32(c) + 1
  {
  }

  lemma Half32(b: bv32)
    ensures Value32(b) / 2 == Value32(Rest32(b)) && (Value32(b) % 2 == 1 <==> Odd32(b))
  {
    hide Value32;
    Parts32(b);
    Double32(b >> 1);
  }

  lemma Digit32(b: bv32, i: nat)
    ensures Bit(Value32(b), i) == if i == 0 then Odd32(b) else Bit(Value32(Rest32(b)), i - 1)
  {
    hide Value32, Odd32, Rest32;
    Half32(b);
    if i > 0 { BitNext(Value32(b), i - 1); } else { FirstDigit(Value32(b)); }
  }

  lemma ShiftAnd32(x: bv32, y: bv32)
    ensures Rest32(And32(x, y)) == And32(Rest32(x), Rest32(y)) && Odd32(And32(x, y)) == (Odd32(x) && Odd32(y))
  {
  }

  lemma ShiftOr32(x: bv32, y: bv32)
    ensures Rest32(Or32(x, y)) == Or32(Rest32(x), Rest32(y)) && Odd32(Or32(x, y)) == (Odd32(x) || Odd32(y))
  {
  }

  lemma ShiftXor32(x: bv32, y: bv32)
    ensures Rest32(Xor32(x, y)) == Xor32(Rest32(x), Rest32(y)) && Odd32(Xor32(x, y)) == (Odd32(x) != Odd32(y))
  {
  }

  lemma Shift32(op: Logic, x: bv32, y: bv32)
    ensures Rest32(Combine32(op, x, y)) == Combine32(op, Rest32(x), Rest32(y))
    ensures Odd32(Combine32(op, x, y)) == op.Holds(Odd32(x), Odd32(y))
  {
    hide Odd32, Rest32, And32, Or32, Xor32;
    match op
    case And => ShiftAnd32(x, y);
    case Or => ShiftOr32(x, y);
    case Xor => ShiftXor32(x, y);
  }

  /** The operations work digit by digit. */
  lemma {:induction false} Digits32(op: Logic, x: bv32, y: bv32, i: nat)
    ensures Bit(Value32(Combine32(op, x, y)), i) == op.Holds(Bit(Value32(x), i), Bit(Value32(y), i))
    decreases i
  {
    hide Value32, Bit, Odd32, Rest32, Combine32;
    Shift32(op, x, y);
    Digit32(x, i);
    Digit32(y, i);
    Digit32(Combine32(op, x, y), i);
    if i > 0 { Digits32(op, Rest32(x), Rest32(y), i - 1); }
  }
}
