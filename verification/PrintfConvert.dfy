/** Number formatting in UARTprintf: the power search, the padding and the digits that go into a
    16-byte buffer. */
module PrintfConvert {
  import opened Bytes

  const BUFFER_SIZE: nat := 16
  const HEX: string := "0123456789abcdef"

  // ---- Numerals ----

  function Pow(b: nat, n: nat): nat { if n == 0 then 1 else b * Pow(b, n - 1) }

  function Digit(k: nat): (c: char)
    requires k < 16
    ensures DigitValue(c) == k && c != '-' && c != ' '
  {
    HEX[k]
  }

  function Numeral(v: nat, b: nat): string
    requires 2 <= b <= 16
  {
    if v < b then [Digit(v)] else Numeral(v / b, b) + [Digit(v % b)]
  }

  function DigitValue(c: char): nat
  {
    if '0' <= c <= '9' then (c - '0') as nat else if 'a' <= c <= 'f' then (c - 'a') as nat + 10 else 0
  }

  function Denote(s: string, b: nat): nat { if s == [] then 0 else Denote(s[..|s| - 1], b) * b + DigitValue(s[|s| - 1]) }

  lemma DenoteAppend(s: string, c: char, b: nat)
    ensures Denote(s + [c], b) == Denote(s, b) * b + DigitValue(c)
  {
    assert (s + [c])[..|s|] == s;
  }

  lemma {:induction false} NumeralDenotes(v: nat, b: nat)
    requires 2 <= b <= 16
    ensures Denote(Numeral(v, b), b) == v
    decreases v
  {
    if v < b {
      DenoteAppend([], Digit(v), b);
      assert [] + [Digit(v)] == [Digit(v)];
    } else {
      NumeralDenotes(v / b, b);
      DenoteAppend(Numeral(v / b, b), Digit(v % b), b);
      DivMod(v, b);
    }
  }

  lemma DivMod(v: nat, b: nat)
    requires b > 0
    ensures v / b * b + v % b == v
  {
  }

  lemma {:induction false} NumeralIsClean(v: nat, b: nat)
    requires 2 <= b <= 16
    ensures Numeral(v, b) != [] && '-' !in Numeral(v, b) && ' ' !in Numeral(v, b)
    decreases v
  {
    if v >= b {
      NumeralIsClean(v / b, b);
      assert v / b >= 1 && Numeral(v, b) == Numeral(v / b, b) + [Digit(v % b)];
      hide Numeral;
    }
  }

  lemma {:induction false} LeadingZeros(n: nat, s: string, b: nat)
    ensures Denote(Repeat('0', n) + s, b) == Denote(s, b)
    decreases |s|, n
  {
    if s == [] {
      if n > 0 {
        var z := Repeat('0', n);
        assert (z + s)[..n - 1] == Repeat('0', n - 1) + s;
        LeadingZeros(n - 1, s, b);
      } else {
        assert Repeat('0', n) + s == s;
      }
    } else {
      var t := Repeat('0', n) + s;
      assert t[..|t| - 1] == Repeat('0', n) + s[..|s| - 1];
      LeadingZeros(n, s[..|s| - 1], b);
    }
  }

  // ---- The layout of a field ----

  /** The padding, from the 32-bit count that the search and the sign have decremented. */
  function Padding(width: u32, digits: nat, neg: bool): nat {
    var count := (width - (digits - 1) - (if neg then 1 else 0)) % U32_MOD;
    if 1 < count < 16 then count - 1 else 0
  }

  function Sign(neg: bool): string { if neg then "-" else "" }

  /** With zeros the sign comes before the padding, with blanks behind it. */
  function Head(fill: char, neg: bool, pad: nat): (r: string)
    ensures |r| == pad + if neg then 1 else 0
  {
    if fill == '0' then Sign(neg) + Repeat(fill, pad) else Repeat(fill, pad) + Sign(neg)
  }

  function Layout(fill: char, neg: bool, pad: nat, digits: string): string { Head(fill, neg, pad) + digits }

  function Output(value: u32, b: nat, neg: bool, width: u32, fill: char): string
    requires 2 <= b <= 16
  {
    Layout(fill, neg, Padding(width, |Numeral(value, b)|, neg), Numeral(value, b))
  }

  /** Reading a field: blanks, an optional sign, digits. */
  function Parse(s: string, b: nat): int {
    if s == [] then 0
    else if s[0] == ' ' then Parse(s[1..], b)
    else if s[0] == '-' then 0 - Denote(s[1..], b)
    else Denote(s, b)
  }

  lemma {:induction false} SkipBlanks(n: nat, s: string, b: nat)
    ensures Parse(Repeat(' ', n) + s, b) == Parse(s, b)
    decreases n
  {
    var t := Repeat(' ', n) + s;
    if n > 0 {
      assert t[1..] == Repeat(' ', n - 1) + s;
      SkipBlanks(n - 1, s, b);
    } else {
      assert t == s;
    }
  }

  lemma ZeroFilledReadsBack(neg: bool, pad: nat, digits: string, b: nat)
    requires digits != [] && digits[0] != '-' && digits[0] != ' '
    ensures Parse(Sign(neg) + Repeat('0', pad) + digits, b) == if neg then 0 - Denote(digits, b) else Denote(digits, b)
  {
    LeadingZeros(pad, digits, b);
    var s := Repeat('0', pad) + digits;
    assert s[0] != ' ' && s[0] != '-';
    assert Sign(neg) + Repeat('0', pad) + digits == Sign(neg) + s;
    if neg { assert (Sign(neg) + s)[1..] == s; } else { assert Sign(neg) + s == s; }
  }

  lemma BlankFilledReadsBack(neg: bool, pad: nat, digits: string, b: nat)
    requires digits != [] && digits[0] != '-' && digits[0] != ' '
    ensures Parse(Repeat(' ', pad) + Sign(neg) + digits, b) == if neg then 0 - Denote(digits, b) else Denote(digits, b)
  {
    var s := Sign(neg) + digits;
    assert Repeat(' ', pad) + Sign(neg) + digits == Repeat(' ', pad) + s;
    SkipBlanks(pad, s, b);
    if neg { assert s[1..] == digits; } else { assert s == digits; }
  }

  /** Every field reads back as the number it was made from, whatever its padding. */
  lemma OutputReadsBack(value: u32, b: nat, neg: bool, width: u32, fill: char)
    requires 2 <= b <= 16 && (fill == ' ' || fill == '0')
    ensures Parse(Output(value, b, neg, width, fill), b) == if neg then 0 - value as int else value
  {
    var digits := Numeral(value, b);
    var pad := Padding(width, |digits|, neg);
    NumeralDenotes(value, b);
    NumeralIsClean(value, b);
    if fill == '0' { ZeroFilledReadsBack(neg, pad, digits, b); } else { BlankFilledReadsBack(neg, pad, digits, b); }
  }

  /** Where everything stands: the digits at the end, the sign in front of zeros or behind blanks, and the
      fill character in every other place. */
  lemma OutputShape(value: u32, b: nat, neg: bool, width: u32, fill: char)
    requires 2 <= b <= 16
    ensures var o, digits := Output(value, b, neg, width, fill), Numeral(value, b);
            && |o| >= |digits| + (if neg then 1 else 0) && o[|o| - |digits|..] == digits
            && var sign := if fill == '0' then 0 else |o| - |digits| - 1;
               && (neg ==> 0 <= sign && o[sign] == '-')
               && forall k :: 0 <= k < |o| - |digits| && !(neg && k == sign) ==> o[k] == fill
  {
  }

  /** The length of a field: the width, as long as at most 14 characters are missing. */
  lemma OutputLength(value: u32, b: nat, neg: bool, width: u32, fill: char)
    requires b == 10 || b == 16
    ensures var least := |Numeral(value, b)| + (if neg then 1 else 0);
            && |Output(value, b, neg, width, fill)| == (if least < width <= least + 14 then width else least)
            && (width <= 15 ==> |Output(value, b, neg, width, fill)| == Max(width, least))
  {
    DigitBound(value, b);
    PaddingIs(width, |Numeral(value, b)|, neg);
  }

  lemma PaddingIs(width: u32, d: nat, neg: bool)
    requires 1 <= d <= 10
    ensures var least := d + (if neg then 1 else 0);
            Padding(width, d, neg) == if least < width <= least + 14 then width - least else 0
  {
    var k := width - (d - 1) - (if neg then 1 else 0);
    assert k % U32_MOD == if k < 0 then k + U32_MOD else k;
  }

  /** The field fits the buffer exactly when the width is not one that pads beyond it. */
  lemma FitsBuffer(value: u32, b: nat, neg: bool, width: u32, fill: char)
    requires b == 10 || b == 16
    ensures var least := |Numeral(value, b)| + (if neg then 1 else 0);
            |Output(value, b, neg, width, fill)| <= BUFFER_SIZE <==> !(17 <= width <= least + 14)
  {
    OutputLength(value, b, neg, width, fill);
    DigitBound(value, b);
  }

  /** Three digits in a field of 17 characters are one character too many for the buffer. */
  lemma ThreeDigitsOverrun(fill: char)
    ensures |Output(100, 10, false, 17, fill)| == 17 == BUFFER_SIZE + 1
  {
    assert Numeral(1, 10) == [Digit(1)] && Numeral(10, 10) == [Digit(1), Digit(0)];
    assert |Numeral(100, 10)| == 3;
    OutputLength(100, 10, false, 17, fill);
  }

  lemma {:induction false} NumeralSize(v: nat, b: nat, n: nat)
    requires 2 <= b <= 16 && n >= 1 && v < Pow(b, n)
    ensures 1 <= |Numeral(v, b)| <= n
    decreases n
  {
    if v >= b {
      if n == 1 { assert Pow(b, 1) == b * Pow(b, 0); }
      assert v / b < Pow(b, n - 1) by { DivBelow(v, b, Pow(b, n - 1)); }
      NumeralSize(v / b, b, n - 1);
    }
  }

  lemma DivBelow(v: nat, b: nat, p: nat)
    requires b > 0 && v < b * p
    ensures v / b < p
  {
    var e := v / b - p;
    assert e * b + v % b < 0;
    assert e >= 0 ==> e * b >= 0;
  }

  lemma DigitBound(value: u32, b: nat)
    requires b == 10 || b == 16
    ensures 1 <= |Numeral(value, b)| <= 10
  {
    TenDigits(b);
    NumeralSize(value, b, 10);
  }

  lemma TenDigits(b: nat)
    requires b == 10 || b == 16
    ensures Pow(b, 10) >= U32_MOD
  {
    assert Pow(b, 1) == b;
    assert Pow(b, 2) == b * b;
    assert Pow(b, 4) == b * b * b * b by { assert Pow(b, 3) == b * Pow(b, 2); }
    if b == 10 { assert Pow(b, 4) == 10000; } else { assert Pow(b, 4) == 65536; }
    assert Pow(b, 6) == b * (b * Pow(b, 4)) by { assert Pow(b, 5) == b * Pow(b, 4); }
    assert Pow(b, 8) == b * (b * Pow(b, 6)) by { assert Pow(b, 7) == b * Pow(b, 6); }
    assert Pow(b, 10) == b * (b * Pow(b, 8)) by { assert Pow(b, 9) == b * Pow(b, 8); }
  }

  // ---- The conversion ----

  lemma Fits(idx: nat, b: nat)
    requires b > 0
    ensures idx * b / b == idx
  {
    Quotient(idx * b, b, idx, 0);
  }

  lemma Overflows(idx: nat, b: nat, p: nat)
    requires b > 0 && p < idx * b
    ensures p / b < idx
  {
    var e := p / b - idx;
    assert e * b + p % b < 0;
    assert e >= 0 ==> e * b >= 0;
  }

  /** The guard of the search: in 32-bit arithmetic a product that overflows fails the second test. */
  lemma GuardIsExact(idx: u32, b: nat, value: u32)
    requires 2 <= b <= 16 && idx >= 1
    ensures var p := idx * b % U32_MOD; (p <= value && p / b == idx) <==> idx * b <= value
  {
    var m := idx * b;
    if m < U32_MOD { Fits(idx, b); } else { Overflows(idx, b, m % U32_MOD); }
  }

  lemma DivDiv(v: nat, p: nat, b: nat)
    requires p > 0 && b > 0
    ensures v / (p * b) == v / p / b
  {
    var q := v / p / b;
    var r1, r2 := v % p, v / p % b;
    assert v == (q * b + r2) * p + r1;
    assert (q * b + r2) * p == q * (p * b) + r2 * p;
    assert r2 * p <= (b - 1) * p;
    assert 0 <= r2 * p + r1 < p * b;
    Quotient(v, p * b, q, r2 * p + r1);
  }

  lemma Quotient(v: int, d: nat, q: int, r: int)
    requires d > 0 && v == q * d + r && 0 <= r < d
    ensures v / d == q
  {
    var e := q - v / d;
    assert e * d == v % d - r;
    assert e >= 1 ==> e * d >= d;
    assert e <= -1 ==> e * d <= 0 - d;
  }

  /** The search: the largest power of the base not above the value, one decrement per step. */
  method Search(value: u32, b: nat, width: u32) returns (idx: u32, count: u32, ghost n: nat)
    requires 2 <= b <= 16
    ensures idx == Pow(b, n) && idx <= Max(value, 1) && value < idx * b
    ensures count == (width - n) % U32_MOD
  {
    idx, count, n := 1, width, 0;
    GuardIsExact(idx, b, value);
    while idx * b % U32_MOD <= value && idx * b % U32_MOD / b == idx
      invariant 1 <= idx == Pow(b, n) && idx <= Max(value, 1)
      invariant count == (width - n) % U32_MOD
      decreases value - idx
    {
      SearchStep(idx, b, value, n);
      CountStep(width, n, count);
      idx, count, n := idx * b, (count + U32_MOD - 1) % U32_MOD, n + 1;
    }
    GuardIsExact(idx, b, value);
  }

  lemma SearchStep(idx: u32, b: nat, value: u32, n: nat)
    requires 2 <= b <= 16 && 1 <= idx == Pow(b, n)
    requires idx * b % U32_MOD <= value && idx * b % U32_MOD / b == idx
    ensures idx < idx * b <= value && idx * b == Pow(b, n + 1)
  {
    GuardIsExact(idx, b, value);
    Grows(idx, b);
  }

  lemma Grows(x: nat, b: nat)
    requires b >= 2 && x >= 1
    ensures x < x * b
  {
    assert x * b == x * 2 + x * (b - 2);
    assert x * (b - 2) >= 0;
  }

  lemma CountStep(width: u32, n: nat, count: u32)
    requires count == (width - n) % U32_MOD
    ensures (count + U32_MOD - 1) % U32_MOD == (width - (n + 1)) % U32_MOD
  {
  }

  lemma {:induction false} DigitsOfPower(value: nat, b: nat, n: nat)
    requires 2 <= b <= 16 && Pow(b, n) <= Max(value, 1) && value < Pow(b, n) * b
    ensures |Numeral(value, b)| == n + 1
    decreases n
  {
    if n > 0 {
      var p := Pow(b, n - 1);
      PowPositive(b, n - 1);
      DigitsStep(value, b, p);
      DigitsOfPower(value / b, b, n - 1);
    }
  }

  lemma DigitsStep(value: nat, b: nat, p: nat)
    requires 2 <= b && p >= 1 && b * p <= Max(value, 1) && value < b * p * b
    ensures value >= b && p <= value / b < p * b
  {
    assert b * p == b + b * (p - 1);
    assert b * (p - 1) >= 0;
    DivAbove(value, b, p);
    Regroup(b, p);
    DivBelow(value, b, p * b);
  }

  lemma Regroup(b: nat, p: nat)
    ensures b * p * b == b * (p * b)
  {
  }

  lemma {:induction false} PowPositive(b: nat, n: nat)
    requires b >= 1
    ensures Pow(b, n) >= 1
    decreases n
  {
    if n > 0 { PowPositive(b, n - 1); }
  }

  lemma DivAbove(v: nat, b: nat, p: nat)
    requires b > 0 && v >= b * p
    ensures v / b >= p
  {
    var e := p - v / b;
    assert e * b <= v % b;
    assert e >= 1 ==> e * b >= b;
  }

  lemma NumeralParts(value: nat, b: nat)
    requires 2 <= b <= 16
    ensures var d := Numeral(value, b);
            d[|d| - 1] == Digit(value % b) && (|d| > 1 ==> value >= b && d[..|d| - 1] == Numeral(value / b, b))
  {
    if value < b { Quotient(value, b, 0, value); }
  }

  /** The digit at position k is the one the division by a power of the base extracts. */
  lemma {:induction false} NumeralAt(value: nat, b: nat, n: nat, k: nat)
    requires 2 <= b <= 16 && |Numeral(value, b)| == n + 1 && k <= n
    ensures Pow(b, n - k) >= 1 && Numeral(value, b)[k] == Digit(value / Pow(b, n - k) % b)
    decreases n
  {
    PowPositive(b, n - k);
    NumeralParts(value, b);
    if k < n {
      var d := Numeral(value, b);
      assert d[k] == d[..n][k];
      NumeralAt(value / b, b, n - 1, k);
      DivDiv(value, b, Pow(b, n - 1 - k));
      PowStep(b, n - k);
    }
  }

  lemma PowStep(b: nat, n: nat)
    requires n >= 1
    ensures Pow(b, n) == b * Pow(b, n - 1)
  {
  }

  /** The digit loop. */
  method PutDigits(value: u32, b: nat, power: u32, ghost n: nat, buf: array<char>, at: nat) returns (pos: nat)
    requires 2 <= b <= 16 && power == Pow(b, n) && |Numeral(value, b)| == n + 1 && at + n + 1 <= buf.Length
    modifies buf
    ensures pos == at + n + 1 && buf[..pos] == old(buf[..at]) + Numeral(value, b)
  {
    ghost var digits := Numeral(value, b);
    ghost var k := 0;
    var idx := power;
    pos := at;
    while idx != 0
      invariant k <= n + 1 && idx == (if k <= n then Pow(b, n - k) else 0) && pos == at + k
      invariant buf[..pos] == old(buf[..at]) + digits[..k]
      decreases n + 1 - k
    {
      NumeralAt(value, b, n, k);
      buf[pos] := Digit(value / idx % b);
      assert digits[..k + 1] == digits[..k] + [digits[k]];
      NextPower(b, n, k);
      pos, idx, k := pos + 1, idx / b, k + 1;
    }
    assert k == n + 1 by { if k <= n { PowPositive(b, n - k); } }
    assert digits[..n + 1] == digits;
  }

  lemma NextPower(b: nat, n: nat, k: nat)
    requires b >= 2 && k <= n
    ensures Pow(b, n - k) / b == if k + 1 <= n then Pow(b, n - (k + 1)) else 0
  {
    if k < n { Fits(Pow(b, n - k - 1), b); }
  }

  /** The padding loop. */
  method PutPadding(count: u32, fill: char, buf: array<char>, at: nat) returns (pos: nat, ghost pad: nat)
    requires at + (if 1 < count < 16 then count - 1 else 0) <= buf.Length
    modifies buf
    ensures pad == (if 1 < count < 16 then count - 1 else 0) && pos == at + pad
    ensures buf[..pos] == old(buf[..at]) + Repeat(fill, pad)
  {
    pos, pad := at, 0;
    if count > 1 && count < 16 {
      var left := count - 1;
      while left != 0
        invariant 0 <= left <= count - 1 && pad == count - 1 - left && pos == at + pad
        invariant buf[..pos] == old(buf[..at]) + Repeat(fill, pad)
      {
        buf[pos] := fill;
        assert Repeat(fill, pad + 1) == Repeat(fill, pad) + [fill];
        pos, left, pad := pos + 1, left - 1, pad + 1;
      }
    }
  }

  /** Sign and padding. */
  method PutHead(neg: bool, count: u32, fill: char, ghost pad: nat, buf: array<char>) returns (pos: nat)
    requires (fill == ' ' || fill == '0') && pad == (if 1 < count < 16 then count - 1 else 0)
    requires pad + (if neg then 1 else 0) <= buf.Length
    modifies buf
    ensures pos <= buf.Length && buf[..pos] == Head(fill, neg, pad)
  {
    var minus := neg;
    pos := 0;
    if minus && fill == '0' {
      buf[pos] := '-';
      pos := pos + 1;
      minus := false;
    }
    ghost var front := buf[..pos];
    assert front == if neg && fill == '0' then "-" else "";
    ghost var padded;
    pos, padded := PutPadding(count, fill, buf, pos);
    assert buf[..pos] == front + Repeat(fill, pad);
    if minus {
      ghost var blanks := buf[..pos];
      buf[pos] := '-';
      pos := pos + 1;
      assert buf[..pos] == blanks + "-";
    }
  }

  /** The `convert` part of UARTprintf, for a width whose field fits the buffer. */
  method Convert(value: u32, b: nat, neg: bool, width: u32, fill: char, buf: array<char>) returns (pos: nat)
    requires (b == 10 || b == 16) && (fill == ' ' || fill == '0') && |Output(value, b, neg, width, fill)| <= buf.Length
    modifies buf
    ensures pos <= buf.Length && buf[..pos] == Output(value, b, neg, width, fill)
  {
    var idx, count;
    ghost var n;
    idx, count, n := Search(value, b, width);
    DigitsOfPower(value, b, n);
    if neg {
      CountStep(width, n, count);
      count := (count + U32_MOD - 1) % U32_MOD;
    }
    assert count == (width - n - (if neg then 1 else 0)) % U32_MOD;
    pos := PutHead(neg, count, fill, Padding(width, n + 1, neg), buf);
    ghost var head := buf[..pos];
    pos := PutDigits(value, b, idx, n, buf, pos);
    assert buf[..pos] == head + Numeral(value, b);
  }

  /** %d: the sign of the 32-bit value is taken off before the conversion. */
  method PrintDecimal(value: u32, width: u32, fill: char, buf: array<char>) returns (pos: nat)
    requires fill == ' ' || fill == '0'
    requires |Output(Magnitude(value), 10, Signed(value) < 0, width, fill)| <= buf.Length
    modifies buf
    ensures pos <= buf.Length && buf[..pos] == Output(Magnitude(value), 10, Signed(value) < 0, width, fill)
    ensures Parse(buf[..pos], 10) == Signed(value)
  {
    var v: u32, neg := value, false;
    if value >= 0x8000_0000 {
      v, neg := U32_MOD - value, true;
    }
    OutputReadsBack(v, 10, neg, width, fill);
    pos := Convert(v, 10, neg, width, fill, buf);
  }

  function Signed(value: u32): int { if value >= 0x8000_0000 then value as int - U32_MOD else value }

  function Magnitude(value: u32): u32 { if value >= 0x8000_0000 then U32_MOD - value else value }
}
