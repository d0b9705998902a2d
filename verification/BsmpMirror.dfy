/** What a BSMP client learns about the tables of its server, and when that is the truth. */
module BsmpMirror {
  import opened Bytes
  import S = Bsmp
  import I = BsmpInvariant

  // ---- The client's tables ----

  datatype VarInfo = VarInfo(id: u8, writable: bool, size: u8)
  datatype GroupInfo = GroupInfo(id: u8, writable: bool, size: u16, count: u8, ids: seq<u8>)
  datatype CurveInfo = CurveInfo(id: u8, writable: bool, nblocks: nat, blockSize: u16, checksum: seq<u8>)
  datatype FuncInfo = FuncInfo(id: u8, inputSize: u8, outputSize: u8)
  datatype Tables = Tables(vars: seq<VarInfo>, groups: seq<GroupInfo>, curves: seq<CurveInfo>, funcs: seq<FuncInfo>)

  /** What the tables should say. */
  function TrueVar(id: u8, v: S.Var): VarInfo { VarInfo(id, v.writable, v.size) }
  function TrueGroup(id: u8, g: S.Group): GroupInfo
    requires |g.ids| < 256
  {
    GroupInfo(id, g.writable, g.size, |g.ids|, g.ids)
  }
  function TrueCurve(id: u8, c: S.Curve): CurveInfo { CurveInfo(id, c.writable, c.nblocks, c.blockSize, c.checksum) }
  function TrueFunc(id: u8, f: S.Func): FuncInfo { FuncInfo(id, f.inputSize, f.outputSize) }

  ghost function TrueTables(s: S.Server): Tables
    requires I.Inv(s)
  {
    assert forall i :: 0 <= i < |s.groups| ==> I.GroupOk(s.vars, s.groups[i]);
    Tables(
      seq(|s.vars|, i requires 0 <= i < |s.vars| => TrueVar(i, s.vars[i])),
      seq(|s.groups|, i requires 0 <= i < |s.groups| && |s.groups[i].ids| < 256 => TrueGroup(i, s.groups[i])),
      seq(|s.curves|, i requires 0 <= i < |s.curves| => TrueCurve(i, s.curves[i])),
      seq(|s.funcs|, i requires 0 <= i < |s.funcs| => TrueFunc(i, s.funcs[i])))
  }

  // ---- Decoding of the list messages ----

  function DecodeVar(id: u8, b: u8): VarInfo { VarInfo(id, b >= 128, if b % 128 == 0 then 128 else b % 128) }

  /** The 16-bit sum of the sizes the client knows. */
  function KnownSize(vars: seq<VarInfo>, ids: seq<u8>): u16
    requires forall k :: 0 <= k < |ids| ==> ids[k] < |vars|
  {
    if ids == [] then 0 else (KnownSize(vars, ids[..|ids| - 1]) + vars[ids[|ids| - 1]].size) % U16_MOD
  }

  function DecodeGroup(id: u8, b: u8, ids: seq<u8>, vars: seq<VarInfo>): GroupInfo
    requires forall k :: 0 <= k < |ids| ==> ids[k] < |vars|
  {
    GroupInfo(id, b >= 128, KnownSize(vars, ids), b % 128, ids)
  }

  function DecodeCurve(id: u8, b: seq<u8>, checksum: seq<u8>): CurveInfo
    requires |b| == 5
  {
    var n := Word16(b[3], b[4]);
    CurveInfo(id, b[0] != 0, if n == 0 then S.CURVE_MAX_BLOCKS else n, Word16(b[1], b[2]), checksum)
  }

  function DecodeFunc(id: u8, b: u8): FuncInfo { FuncInfo(id, b / 16, b % 16) }

  function LearnedVars(s: S.Server): seq<VarInfo>
    requires |s.vars| <= S.MAX_VARIABLES
  {
    seq(|s.vars|, i requires 0 <= i < |s.vars| => DecodeVar(i, S.VarByte(s.vars[i])))
  }

  ghost function LearnedGroups(s: S.Server): seq<GroupInfo>
    requires I.Inv(s)
  {
    assert forall i :: 0 <= i < |s.groups| ==> I.GroupOk(s.vars, s.groups[i]);
    seq(|s.groups|, i requires 0 <= i < |s.groups| && S.MembersOk(s.vars, s.groups[i].ids)
                    => DecodeGroup(i, S.GroupByte(s.groups[i]), s.groups[i].ids, LearnedVars(s)))
  }

  function LearnedCurves(s: S.Server): seq<CurveInfo>
    requires |s.curves| <= S.MAX_CURVES
  {
    seq(|s.curves|, i requires 0 <= i < |s.curves| => DecodeCurve(i, S.CurveBytes(s.curves[i]), s.curves[i].checksum))
  }

  function LearnedFuncs(s: S.Server): seq<FuncInfo>
    requires |s.funcs| <= S.MAX_FUNCTIONS
  {
    seq(|s.funcs|, i requires 0 <= i < |s.funcs| => DecodeFunc(i, S.FuncByte(s.funcs[i])))
  }

  /** What a client that asked for every list knows. */
  ghost function Learned(s: S.Server): Tables
    requires I.Inv(s)
  {
    Tables(LearnedVars(s), LearnedGroups(s), LearnedCurves(s), LearnedFuncs(s))
  }

  // ---- When the mirror is exact ----

  /** The servers the list encodings can describe. */
  ghost predicate Representable(s: S.Server) {
    && |s.vars| <= 127
    && (forall i :: 0 <= i < |s.vars| ==> s.vars[i].size >= 1)
    && (forall i :: 0 <= i < |s.curves| ==> s.curves[i].nblocks >= 1)
  }

  lemma VarDecodes(id: u8, v: S.Var)
    requires S.VarOk(v)
    ensures DecodeVar(id, S.VarByte(v)) == TrueVar(id, v) <==> v.size >= 1
  {
  }

  lemma FuncDecodes(id: u8, f: S.Func)
    requires S.FuncOk(f)
    ensures DecodeFunc(id, S.FuncByte(f)) == TrueFunc(id, f)
  {
  }

  lemma WordBytes(x: u16)
    ensures Word16(x / 256, x % 256) == x
  {
  }

  lemma CurveDecodes(id: u8, c: S.Curve)
    requires S.CurveOk(c)
    ensures DecodeCurve(id, S.CurveBytes(c), c.checksum) == TrueCurve(id, c) <==> c.nblocks >= 1
  {
    WordBytes(c.blockSize);
    if c.nblocks < S.CURVE_MAX_BLOCKS { WordBytes(c.nblocks); }
  }

  lemma {:induction false} KnownSizeIs(s: S.Server, ids: seq<u8>)
    requires I.Inv(s) && S.MembersOk(s.vars, ids) && |ids| <= S.MAX_VARIABLES
    requires forall i :: 0 <= i < |s.vars| ==> s.vars[i].size >= 1
    ensures KnownSize(LearnedVars(s), ids) == S.SumSizes(s.vars, ids) <= |ids| * S.VAR_MAX_SIZE
    decreases |ids|
  {
    if ids != [] {
      var front, last := ids[..|ids| - 1], ids[|ids| - 1];
      KnownSizeIs(s, front);
      assert S.VarOk(s.vars[last]);
      VarDecodes(last, s.vars[last]);
      assert LearnedVars(s)[last].size == s.vars[last].size <= S.VAR_MAX_SIZE;
    }
  }

  lemma GroupByteDecodes(g: S.Group)
    requires |g.ids| <= 127
    ensures S.GroupByte(g) >= 128 <==> g.writable
    ensures S.GroupByte(g) % 128 == |g.ids|
  {
  }

  lemma GroupDecodes(s: S.Server, i: nat)
    requires I.Inv(s) && i < |s.groups| && Representable(s)
    ensures |s.groups[i].ids| < 256 && LearnedGroups(s)[i] == TrueGroup(i, s.groups[i])
  {
    var g := s.groups[i];
    assert I.GroupOk(s.vars, g);
    I.IncreasingBound(g.ids, |s.vars|);
    GroupByteDecodes(g);
    KnownSizeIs(s, g.ids);
    assert LearnedGroups(s)[i] == DecodeGroup(i, S.GroupByte(g), g.ids, LearnedVars(s));
  }

  /** With 128 variables the count byte of GROUP_ALL wraps. */
  lemma FullTableIsLost(s: S.Server)
    requires I.Inv(s) && |s.vars| == 128
    ensures Learned(s) != TrueTables(s)
  {
    assert LearnedGroups(s)[S.GROUP_ALL].count == 0;
    assert TrueTables(s).groups[S.GROUP_ALL].count == 128;
  }

  lemma EmptyVarIsLost(s: S.Server, i: nat)
    requires I.Inv(s) && i < |s.vars| && s.vars[i].size == 0
    ensures Learned(s) != TrueTables(s)
  {
    assert LearnedVars(s)[i].size == 128 && TrueTables(s).vars[i].size == 0;
  }

  lemma EmptyCurveIsLost(s: S.Server, i: nat)
    requires I.Inv(s) && i < |s.curves| && s.curves[i].nblocks == 0
    ensures Learned(s) != TrueTables(s)
  {
    assert LearnedCurves(s)[i].nblocks == S.CURVE_MAX_BLOCKS && TrueTables(s).curves[i].nblocks == 0;
  }

  lemma MirrorFails(s: S.Server)
    requires I.Inv(s) && !Representable(s)
    ensures Learned(s) != TrueTables(s)
  {
    if |s.vars| == 128 {
      FullTableIsLost(s);
    } else if i :| 0 <= i < |s.vars| && s.vars[i].size == 0 {
      EmptyVarIsLost(s, i);
    } else {
      var i :| 0 <= i < |s.curves| && s.curves[i].nblocks == 0;
      EmptyCurveIsLost(s, i);
    }
  }

  lemma MirrorHolds(s: S.Server)
    requires I.Inv(s) && Representable(s)
    ensures Learned(s) == TrueTables(s)
  {
    var l, t := Learned(s), TrueTables(s);
    forall i | 0 <= i < |s.vars| ensures l.vars[i] == t.vars[i] {
      assert S.VarOk(s.vars[i]);
      VarDecodes(i, s.vars[i]);
    }
    forall i | 0 <= i < |s.groups| ensures l.groups[i] == t.groups[i] { GroupDecodes(s, i); }
    forall i | 0 <= i < |s.curves| ensures l.curves[i] == t.curves[i] {
      assert S.CurveOk(s.curves[i]);
      CurveDecodes(i, s.curves[i]);
    }
    forall i | 0 <= i < |s.funcs| ensures l.funcs[i] == t.funcs[i] {
      assert S.FuncOk(s.funcs[i]);
      FuncDecodes(i, s.funcs[i]);
    }
  }

  /** The client's tables are the server's exactly when there are at most 127 variables, all of at
      least one byte, and every curve has a block. */
  lemma MirrorIsExact(s: S.Server)
    requires I.Inv(s)
    ensures Learned(s) == TrueTables(s) <==> Representable(s)
  {
    if Representable(s) { MirrorHolds(s); } else { MirrorFails(s); }
  }

  lemma MirrorDependsOn(s: S.Server, t: S.Server)
    requires I.Inv(s) && I.Inv(t) && t.vars == s.vars && t.curves == s.curves && Learned(s) == TrueTables(s)
    ensures Learned(t) == TrueTables(t)
  {
    MirrorIsExact(s);
    MirrorHolds(t);
  }

  /** Creating a group keeps the mirror. */
  lemma GroupCreateKeepsMirror(s: S.Server, p: seq<u8>)
    requires I.Inv(s) && Learned(s) == TrueTables(s)
    ensures var t := S.GroupCreate(s, p).server; I.Inv(t) && Learned(t) == TrueTables(t)
  {
    I.GroupCreateKeepsInv(s, p);
    OnlyGroups(s, p);
    MirrorDependsOn(s, S.GroupCreate(s, p).server);
  }

  lemma OnlyGroups(s: S.Server, p: seq<u8>)
    ensures var t := S.GroupCreate(s, p).server; t == s.(groups := t.groups)
  {
  }

  lemma RejectedCreate(s: S.Server, p: seq<u8>)
    ensures S.GroupCreate(s, p).reply.code != S.OK ==> S.GroupCreate(s, p).server == s
  {
  }

  /** Removing the groups keeps the mirror. */
  lemma GroupRemoveKeepsMirror(s: S.Server, p: seq<u8>)
    requires I.Inv(s) && Learned(s) == TrueTables(s)
    ensures var t := S.GroupRemoveAll(s, p).server; I.Inv(t) && Learned(t) == TrueTables(t)
  {
    GroupRemoveKeepsInv(s, p);
    MirrorDependsOn(s, S.GroupRemoveAll(s, p).server);
  }

  lemma GroupRemoveKeepsInv(s: S.Server, p: seq<u8>)
    requires I.Inv(s)
    ensures I.Inv(S.GroupRemoveAll(s, p).server)
  {
  }
}
