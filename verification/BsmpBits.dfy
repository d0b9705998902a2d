/** What the six operation bytes do to the binary digits of stored values. */
module BsmpBits {
  import opened Bits
  import opened Bytes
  import opened Bsmp
  import opened BsmpGroups
  import opened BsmpInvariant

  predicate IsOperation(code: u8) { code as char in "AOSXTC" }

  /** The digit that an operation leaves where the value has `was` and the mask has `mask`: AND keeps the
      digits in the mask, OR and SET make them one, CLEAR makes them zero, XOR and TOGGLE flip them. */
  predicate NewDigit(code: u8, was: bool, mask: bool)
    requires IsOperation(code)
  {
    match code as char
    case 'A' => was && mask
    case 'O' => was || mask
    case 'S' => was || mask
    case 'C' => was && !mask
    case _ => was != mask
  }

  ghost predicate Changed(code: u8, d: u8, m: u8, r: u8) {
    IsOperation(code) && forall i :: 0 <= i < 8 ==> Bit(r, i) == NewDigit(code, Bit(d, i), Bit(m, i))
  }

  ghost predicate AllChanged(code: u8, d: seq<u8>, m: seq<u8>, r: seq<u8>) {
    |d| == |m| == |r| && forall j :: 0 <= j < |d| ==> Changed(code, d[j], m[j], r[j])
  }

  lemma Byte(v: u8)
    ensures Value8(v as bv8) == v
  {
    assert v % 256 == v;
  }

  lemma Complement8(b: bv8)
    ensures !b == Xor8(b, 0xff) && Value8(0xff) == 0xff
  {
  }

  lemma Not8(b: bv8, i: nat)
    requires i < 8
    ensures Bit(Value8(!b), i) == !Bit(Value8(b), i)
  {
    hide Value8, Bit, Xor8;
    Complement8(b);
    Digits8(Logic.Xor, b, 0xff, i);
    AllOnes(i);
  }

  lemma AllOnes(i: nat)
    requires i < 8
    ensures Bit(0xff, i)
  {
    assert Pow2(8) == 256;
    Ones(8, i);
  }

  lemma ApplyParts(op: BinOp, d: u8, m: u8)
    ensures var x, y := d as bv8, m as bv8;
            ApplyByte(op, d, m) == Value8(match op case And => And8(x, y) case Or => Or8(x, y) case Xor => Xor8(x, y) case Clear => And8(x, !y))
  {
  }

  lemma ByteMeaning(code: u8, d: u8, m: u8)
    requires OpOf(code).Some?
    ensures Changed(code, d, m, ApplyByte(OpOf(code).value, d, m))
  {
    forall i | 0 <= i < 8
      ensures Bit(ApplyByte(OpOf(code).value, d, m), i) == NewDigit(code, Bit(d, i), Bit(m, i)) {
      DigitMeaning(code, d, m, i);
    }
  }

  lemma DigitMeaning(code: u8, d: u8, m: u8, i: nat)
    requires OpOf(code).Some? && i < 8
    ensures IsOperation(code) && Bit(ApplyByte(OpOf(code).value, d, m), i) == NewDigit(code, Bit(d, i), Bit(m, i))
  {
    hide ApplyByte, Bit, Value8, And8, Or8, Xor8;
    var x, y := d as bv8, m as bv8;
    ApplyParts(OpOf(code).value, d, m);
    Byte(d);
    Byte(m);
    Digits8(Logic.And, x, y, i);
    Digits8(Logic.Or, x, y, i);
    Digits8(Logic.Xor, x, y, i);
    Digits8(Logic.And, x, !y, i);
    Not8(y, i);
  }

  /** The table knows exactly the six letters. */
  lemma KnownOperations(code: u8)
    ensures OpOf(code).Some? <==> IsOperation(code)
  {
  }

  /** A mask operation changes the digits of every byte of the variable as its letter says, and nothing else. */
  lemma VarBinOpMeaning(s: Server, p: seq<u8>)
    requires Inv(s) && VarBinOp(s, p).reply.code == OK
    ensures |p| >= 3 && p[0] < |s.vars|
    ensures var t, id := VarBinOp(s, p).server, p[0];
            && t == s.(vars := s.vars[id := s.vars[id].(data := t.vars[id].data)])
            && AllChanged(p[1], s.vars[id].data, p[2..], t.vars[id].data)
  {
    var id := p[0];
    MaskMeaning(p[1], s.vars[id].data, p[2..]);
  }

  lemma MaskMeaning(code: u8, d: seq<u8>, m: seq<u8>)
    requires OpOf(code).Some? && |d| == |m|
    ensures AllChanged(code, d, m, ApplyMask(OpOf(code).value, d, m))
  {
    forall j | 0 <= j < |d| ensures Changed(code, d[j], m[j], ApplyMask(OpOf(code).value, d, m)[j]) {
      ByteMeaning(code, d[j], m[j]);
    }
  }

  /** So does a group operation, on the values of the members in order. */
  lemma GroupBinOpMeaning(s: Server, p: seq<u8>)
    requires Inv(s) && 2 <= |p| && GroupBinOp(s, p).reply.code == OK
    ensures p[0] < |s.groups|
    ensures var t, ids := GroupBinOp(s, p).server, s.groups[p[0]].ids;
            && MembersOk(t.vars, ids) && t == s.(vars := t.vars) && |t.vars| == |s.vars|
            && AllChanged(p[1], Values(s.vars, ids), p[2..], Values(t.vars, ids))
            && forall i :: 0 <= i < |s.vars| && i !in ids ==> t.vars[i] == s.vars[i]
  {
    GroupBinOpIsOneMask(s, p);
    MaskMeaning(p[1], Values(s.vars, s.groups[p[0]].ids), p[2..]);
  }
}
