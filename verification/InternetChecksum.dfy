/** The Internet checksum of uIP: the carrying loop, the fields it fills and verifies, and the
    incremental updates, for either byte order of the host. */
module InternetChecksum {
  import opened Bytes

  // ---- The sum of RFC 1071 ----

  /** The 16-bit words of the data, most significant byte first; an odd byte is padded with zero. */
  function WordSum(data: seq<u8>): nat {
    if data == [] then 0
    else if |data| == 1 then Word16(data[0], 0)
    else Word16(data[0], data[1]) + WordSum(data[2..])
  }

  /** Section 2 of RFC 1071: add the carries back in until none is left. */
  function AddCarries(n: nat): u16
    decreases n
  {
    if n < U16_MOD then n else AddCarries(n / U16_MOD + n % U16_MOD)
  }

  /** The same value in closed form. */
  function Fold(n: nat): u16 { if n == 0 then 0 else (n - 1) % 65535 + 1 }

  lemma FoldShift(n: nat, k: nat)
    requires n >= 1
    ensures Fold(n + 65535 * k) == Fold(n)
  {
  }

  lemma {:induction false} FoldIsAddCarries(n: nat)
    ensures Fold(n) == AddCarries(n)
    decreases n
  {
    if n >= U16_MOD {
      var m := n / U16_MOD + n % U16_MOD;
      assert n == m + 65535 * (n / U16_MOD);
      FoldShift(m, n / U16_MOD);
      FoldIsAddCarries(m);
    }
  }

  /** One step of the loop: a 16-bit addition whose carry is added back. */
  function AddCarrying(sum: u16, t: u16): u16 {
    var s := (sum + t) % U16_MOD;
    if s < t then s + 1 else s
  }

  lemma AddCarryingIsFold(sum: u16, t: u16)
    ensures AddCarrying(sum, t) == if sum == 0 && t == 0 then 0 else Fold(sum + t)
  {
  }

  lemma FoldFold(n: nat, t: nat)
    ensures Fold(Fold(n) + t) == Fold(n + t)
  {
    if n > 0 {
      assert n == Fold(n) + 65535 * ((n - 1) / 65535);
      FoldShift(Fold(n) + t, (n - 1) / 65535);
    }
  }

  lemma {:induction false} WordSumAppend(a: seq<u8>, b: seq<u8>)
    requires |a| % 2 == 0
    ensures WordSum(a + b) == WordSum(a) + WordSum(b)
    decreases |a|
  {
    if a == [] {
      assert a + b == b;
    } else {
      assert (a + b)[2..] == a[2..] + b;
      WordSumAppend(a[2..], b);
    }
  }

  /** The carrying loop over buf[at..at + len]; the end pointer of an empty region is below its start. */
  method Chksum(sum: u16, buf: array<u8>, at: nat, len: nat) returns (r: u16)
    requires at + len <= buf.Length
    ensures r == Fold(sum + WordSum(buf[at..at + len]))
  {
    ghost var data := buf[at..at + len];
    r := sum;
    var i, last := 0, len - 1;
    while i < last
      invariant 0 <= i <= len && i % 2 == 0
      invariant r == Fold(sum + WordSum(data[..i]))
    {
      var t: u16 := Word16(buf[at + i], buf[at + i + 1]);
      LoopStep(sum, data, i, r);
      AddCarryingIsFold(r, t);
      r := (r + t) % U16_MOD;
      if r < t { r := r + 1; }
      i := i + 2;
    }
    if i == last {
      var t: u16 := Word16(buf[at + i], 0);
      LastStep(sum, data, i, r);
      AddCarryingIsFold(r, t);
      r := (r + t) % U16_MOD;
      if r < t { r := r + 1; }
      assert data[..len] == data;
    } else {
      assert data[..i] == data;
    }
  }

  lemma LoopStep(sum: u16, data: seq<u8>, i: nat, r: u16)
    requires i + 1 < |data| && i % 2 == 0 && r == Fold(sum + WordSum(data[..i]))
    ensures Fold(r + Word16(data[i], data[i + 1])) == Fold(sum + WordSum(data[..i + 2]))
  {
    WordSumAppend(data[..i], data[i..i + 2]);
    assert data[..i + 2] == data[..i] + data[i..i + 2];
    FoldFold(sum + WordSum(data[..i]), Word16(data[i], data[i + 1]));
  }

  lemma LastStep(sum: u16, data: seq<u8>, i: nat, r: u16)
    requires i + 1 == |data| && i % 2 == 0 && r == Fold(sum + WordSum(data[..i]))
    ensures Fold(r + Word16(data[i], 0)) == Fold(sum + WordSum(data))
  {
    WordSumAppend(data[..i], data[i..]);
    assert data == data[..i] + data[i..];
    FoldFold(sum + WordSum(data[..i]), Word16(data[i], 0));
  }

  /** Summing piece by piece: every piece but the last of even length. */
  lemma Pieces(sum: u16, a: seq<u8>, b: seq<u8>)
    requires |a| % 2 == 0
    ensures Fold(Fold(sum + WordSum(a)) + WordSum(b)) == Fold(sum + WordSum(a + b))
  {
    WordSumAppend(a, b);
    FoldFold(sum + WordSum(a), WordSum(b));
  }

  // ---- Byte order of the host ----

  lemma SwapComplement(x: u16)
    ensures Swap(65535 - x) == 65535 - Swap(x)
  {
    var h, l := x / 256, x % 256;
    assert 65535 - x == (255 - h) * 256 + (255 - l);
  }

  /** In the arithmetic of the checksum a swap is a multiplication by 256. */
  lemma SwapIsShift(x: u16)
    ensures 256 * x == Swap(x) + 65535 * (x / 256)
  {
  }

  function Word(p: seq<u8>, i: nat): u16
    requires i + 1 < |p|
  {
    Word16(p[i], p[i + 1])
  }

  function PutWord(p: seq<u8>, i: nat, w: u16): (q: seq<u8>)
    requires i + 1 < |p|
    ensures |q| == |p| && Word(q, i) == w
  {
    p[i := w / 256][i + 1 := w % 256]
  }

  /** A 16-bit field as the host reads it. */
  function Load(order: Order, p: seq<u8>, i: nat): u16
    requires i + 1 < |p|
  {
    Htons(order, Word(p, i))
  }

  method StoreWord(order: Order, buf: array<u8>, i: nat, v: u16)
    requires i + 1 < buf.Length
    modifies buf
    ensures buf[..] == PutWord(old(buf[..]), i, Htons(order, v))
  {
    if order.Big? {
      buf[i] := v / 256;
      buf[i + 1] := v % 256;
    } else {
      buf[i] := v % 256;
      buf[i + 1] := v / 256;
    }
  }

  lemma {:induction false} WordSumPut(p: seq<u8>, i: nat, w: u16)
    requires i % 2 == 0 && i + 1 < |p|
    ensures WordSum(PutWord(p, i, w)) == WordSum(p) - Word(p, i) + w
  {
    var q := PutWord(p, i, w);
    assert p == p[..i] + p[i..] && q == p[..i] + q[i..];
    WordSumAppend(p[..i], p[i..]);
    WordSumAppend(p[..i], q[i..]);
    assert q[i..][2..] == p[i..][2..];
  }

  // ---- Filling and verifying ----

  /** What uip_ipchksum and upper_layer_chksum return for a folded sum. */
  function Reported(order: Order, s: u16): u16 { if s == 0 then 0xffff else Htons(order, s) }

  /** The test of the receiver: the reported sum, with the field in place, is 0xffff. */
  predicate Verifies(data: seq<u8>) { Reported(Big, Fold(WordSum(data))) == 0xffff }

  lemma FoldFull(n: nat)
    requires n > 0
    ensures Fold(n) == 65535 <==> n % 65535 == 0
  {
    var q, r := (n - 1) / 65535, (n - 1) % 65535;
    assert n == 65535 * q + (r + 1);
    if r == 65534 { assert n == 65535 * (q + 1); } else { assert n / 65535 == q; }
  }

  lemma VerifiesAnyOrder(data: seq<u8>, order: Order)
    ensures Verifies(data) <==> Reported(order, Fold(WordSum(data))) == 0xffff
    ensures Verifies(data) <==> WordSum(data) % 65535 == 0
  {
    SwapTwice(Fold(WordSum(data)));
    if WordSum(data) > 0 { FoldFull(WordSum(data)); }
  }

  /** The complement of what the host reports, as the word that reaches the packet. */
  lemma StoredComplement(order: Order, s: u16)
    ensures Htons(order, 65535 - Reported(order, s)) == if s == 0 then 0 else 65535 - s
  {
    SwapComplement(s);
    SwapComplement(Swap(s));
    SwapTwice(s);
    SwapTwice(65535 - s);
  }

  lemma ComplementCancels(n: nat)
    requires n > 0
    ensures (n + 65535 - Fold(n)) % 65535 == 0
  {
    assert n + 65535 - Fold(n) == 65535 * ((n - 1) / 65535 + 1);
  }

  /** A zeroed field filled with the complement of the sum makes the data verify. */
  lemma FilledVerifies(p: seq<u8>, i: nat, w: u16)
    requires i % 2 == 0 && i + 1 < |p| && Word(p, i) == 0
    requires w == if Fold(WordSum(p)) == 0 then 0 else 65535 - Fold(WordSum(p))
    ensures Verifies(PutWord(p, i, w))
  {
    WordSumPut(p, i, w);
    VerifiesAnyOrder(PutWord(p, i, w), Big);
    if WordSum(p) > 0 { ComplementCancels(WordSum(p)); }
  }
}
