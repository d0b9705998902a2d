/** Group commands do exactly what the per-variable commands do, member by member. */
module BsmpGroups {
  import opened Bytes
  import opened Bsmp
  import opened BsmpInvariant

  // ---- Single variables ----

  /** A variable written without a refusal reads back as written, and nothing else changes. */
  lemma VarReadBack(s: Server, p: seq<u8>)
    requires VarWrite(s, p).reply.code == OK
    ensures |p| >= 2 && VarRead(VarWrite(s, p).server, [p[0]]) == Msg(VAR_VALUE, p[1..])
    ensures var t := VarWrite(s, p).server;
            t == s.(vars := t.vars) && |t.vars| == |s.vars| && forall i :: 0 <= i < |s.vars| && i != p[0] ==> t.vars[i] == s.vars[i]
  {
  }

  /** The combined command is a write followed by a read. */
  lemma WriteReadIsBoth(s: Server, w: u8, r: u8, x: seq<u8>)
    requires x != [] && w < |s.vars| && r < |s.vars|
    ensures var o, t := VarWriteRead(s, [w, r] + x), VarWrite(s, [w] + x);
            o == if t.reply.code == OK then Outcome(t.server, VarRead(t.server, [r])) else t
  {
    assert ([w, r] + x)[2..] == x && ([w] + x)[1..] == x;
  }

  // ---- group_write as a sequence of variable writes ----

  /** Variable writes to the first k members, each with its own slice of the payload. */
  function VarWrites(s: Server, ids: seq<u8>, payload: seq<u8>, k: nat): Server
    requires MembersOk(s.vars, ids) && k <= |ids| && |payload| == SumSizes(s.vars, ids)
  {
    if k == 0 then s
    else VarWrite(VarWrites(s, ids, payload, k - 1), [ids[k - 1]] + Slice(s.vars, ids, payload, k - 1)).server
  }

  /** A variable write with a value of the right size, on a writable variable. */
  lemma VarWriteOne(s: Server, id: u8, x: seq<u8>)
    requires id < |s.vars| && VarOk(s.vars[id]) && s.vars[id].writable && |x| == s.vars[id].size
    ensures VarWrite(s, [id] + x).server == if s.vars[id].accepts(x) then Assign(s, id, x) else s
  {
    var p := [id] + x;
    assert p[1..] == x;
    if x == [] { assert s.vars[id].(data := x) == s.vars[id] && s.vars[id := s.vars[id]] == s.vars; }
  }

  lemma {:induction false} WriteMembersIsVarWrites(s: Server, ids: seq<u8>, payload: seq<u8>, k: nat)
    requires Inv(s) && MembersOk(s.vars, ids) && AllWritable(s.vars, ids)
    requires k <= |ids| && |payload| == SumSizes(s.vars, ids)
    ensures s.(vars := WriteMembers(s.vars, ids, payload, k)) == VarWrites(s, ids, payload, k)
    decreases k
  {
    if k > 0 {
      WriteMembersIsVarWrites(s, ids, payload, k - 1);
      WriteMembersShape(s.vars, ids, payload, k - 1);
      var before := WriteMembers(s.vars, ids, payload, k - 1);
      VarWriteOne(s.(vars := before), ids[k - 1], Slice(s.vars, ids, payload, k - 1));
    }
  }

  /** group_write has the effect of writing every member with its own payload slice, in id order;
      a member whose checker refuses its slice is skipped. */
  lemma GroupWriteIsVarWrites(s: Server, p: seq<u8>)
    requires Inv(s) && 2 <= |p| && p[0] < |s.groups|
    requires |p| == 1 + s.groups[p[0]].size && s.groups[p[0]].writable
    ensures GroupWrite(s, p).server == VarWrites(s, s.groups[p[0]].ids, p[1..], |s.groups[p[0]].ids|)
    ensures GroupWrite(s, p).reply.code == OK || GroupWrite(s, p).reply.code == INVALID_VALUE
  {
    var g := s.groups[p[0]];
    assert GroupOk(s.vars, g);
    WriteMembersIsVarWrites(s, g.ids, p[1..], |g.ids|);
  }

  // ---- Values of a group ----

  lemma {:induction false} ValuesUpdate(vars: seq<Var>, ids: seq<u8>, id: u8, v: Var)
    requires MembersOk(vars, ids) && id < |vars| && id !in ids
    ensures Values(vars[id := v], ids) == Values(vars, ids)
    decreases |ids|
  {
    if ids != [] { ValuesUpdate(vars, ids[..|ids| - 1], id, v); }
  }

  lemma NotBefore(ids: seq<u8>, k: nat)
    requires Increasing(ids) && k < |ids|
    ensures ids[k] !in ids[..k] && ids[..k + 1] == ids[..k] + [ids[k]]
  {
  }

  lemma ValuesNext(vars: seq<Var>, ids: seq<u8>, k: nat)
    requires MembersOk(vars, ids) && k < |ids|
    ensures Values(vars, ids[..k + 1]) == Values(vars, ids[..k]) + vars[ids[k]].data
    ensures SumSizes(vars, ids[..k + 1]) == SumSizes(vars, ids[..k]) + vars[ids[k]].size
    ensures SumSizes(vars, ids[..k + 1]) <= SumSizes(vars, ids)
  {
    assert ids[..k + 1][..k] == ids[..k];
    SumSizesPrefix(vars, ids, k + 1);
  }

  lemma SliceNext(vars: seq<Var>, ids: seq<u8>, payload: seq<u8>, k: nat)
    requires MembersOk(vars, ids) && k < |ids| && |payload| == SumSizes(vars, ids)
    ensures SumSizes(vars, ids[..k]) <= SumSizes(vars, ids[..k + 1]) <= |payload|
    ensures payload[..SumSizes(vars, ids[..k + 1])] == payload[..SumSizes(vars, ids[..k])] + Slice(vars, ids, payload, k)
  {
    ValuesNext(vars, ids, k);
  }

  /** One more member given the value x: its value comes behind those of the earlier members. */
  lemma ValuesGrow(vars: seq<Var>, ids: seq<u8>, k: nat, x: seq<u8>)
    requires MembersOk(vars, ids) && Increasing(ids) && k < |ids|
    ensures Values(vars[ids[k] := vars[ids[k]].(data := x)], ids[..k + 1]) == Values(vars, ids[..k]) + x
  {
    var w := vars[ids[k] := vars[ids[k]].(data := x)];
    NotBefore(ids, k);
    ValuesUpdate(vars, ids[..k], ids[k], vars[ids[k]].(data := x));
    ValuesNext(w, ids, k);
  }

  lemma {:induction false} WrittenValues(vars: seq<Var>, ids: seq<u8>, payload: seq<u8>, k: nat)
    requires MembersOk(vars, ids) && Increasing(ids) && k <= |ids| && |payload| == SumSizes(vars, ids)
    requires AllAccepted(vars, ids, payload, k)
    ensures SumSizes(vars, ids[..k]) <= |payload|
    ensures Values(WriteMembers(vars, ids, payload, k), ids[..k]) == payload[..SumSizes(vars, ids[..k])]
    decreases k
  {
    if k > 0 {
      WrittenValues(vars, ids, payload, k - 1);
      SliceNext(vars, ids, payload, k - 1);
      ValuesGrow(WriteMembers(vars, ids, payload, k - 1), ids, k - 1, Slice(vars, ids, payload, k - 1));
    }
  }

  lemma GroupWriteValues(s: Server, p: seq<u8>)
    requires Inv(s) && 1 <= |p| && GroupWrite(s, p).reply.code == OK
    ensures p[0] < |s.groups|
    ensures var t := GroupWrite(s, p).server;
            t == s.(vars := t.vars) && |t.vars| == |s.vars| && Values(t.vars, s.groups[p[0]].ids) == p[1..]
  {
    var g := s.groups[p[0]];
    assert GroupOk(s.vars, g);
    WrittenValues(s.vars, g.ids, p[1..], |g.ids|);
    assert g.ids[..|g.ids|] == g.ids;
  }

  /** Reading a group after writing it without a refusal returns the payload. */
  lemma GroupReadBack(s: Server, p: seq<u8>)
    requires Inv(s) && 1 <= |p| && GroupWrite(s, p).reply.code == OK
    ensures Inv(GroupWrite(s, p).server)
    ensures GroupRead(GroupWrite(s, p).server, [p[0]]) == Msg(GROUP_VALUES, p[1..])
  {
    GroupWriteKeepsInv(s, p);
    GroupWriteValues(s, p);
  }

  // ---- group_bin_op ----

  lemma {:induction false} MaskedOnly(op: BinOp, vars: seq<Var>, ids: seq<u8>, mask: seq<u8>, k: nat, i: nat)
    requires MembersOk(vars, ids) && k <= |ids| && |mask| == SumSizes(vars, ids)
    requires forall j :: 0 <= j < |vars| ==> |vars[j].data| == vars[j].size
    requires i < |vars| && i !in ids[..k]
    ensures MaskMembers(op, vars, ids, mask, k)[i] == vars[i]
    decreases k
  {
    if k > 0 {
      assert ids[..k][k - 1] == ids[k - 1];
      assert forall j :: 0 <= j < k - 1 ==> ids[..k][j] == ids[..k - 1][j];
      MaskedOnly(op, vars, ids, mask, k - 1, i);
    }
  }

  lemma {:induction false} MaskedValues(op: BinOp, vars: seq<Var>, ids: seq<u8>, mask: seq<u8>, k: nat)
    requires MembersOk(vars, ids) && Increasing(ids) && k <= |ids| && |mask| == SumSizes(vars, ids)
    requires forall j :: 0 <= j < |vars| ==> |vars[j].data| == vars[j].size
    ensures SumSizes(vars, ids[..k]) <= |mask| && |Values(vars, ids[..k])| == SumSizes(vars, ids[..k])
    ensures Values(MaskMembers(op, vars, ids, mask, k), ids[..k])
         == ApplyMask(op, Values(vars, ids[..k]), mask[..SumSizes(vars, ids[..k])])
    decreases k
  {
    if k > 0 {
      MaskedValues(op, vars, ids, mask, k - 1);
      MaskedNext(op, vars, ids, mask, k);
    }
  }

  /** One more member masked. */
  lemma MaskedNext(op: BinOp, vars: seq<Var>, ids: seq<u8>, mask: seq<u8>, k: nat)
    requires MembersOk(vars, ids) && Increasing(ids) && 0 < k <= |ids| && |mask| == SumSizes(vars, ids)
    requires forall j :: 0 <= j < |vars| ==> |vars[j].data| == vars[j].size
    requires SumSizes(vars, ids[..k - 1]) <= |mask| && |Values(vars, ids[..k - 1])| == SumSizes(vars, ids[..k - 1])
    requires Values(MaskMembers(op, vars, ids, mask, k - 1), ids[..k - 1])
          == ApplyMask(op, Values(vars, ids[..k - 1]), mask[..SumSizes(vars, ids[..k - 1])])
    ensures SumSizes(vars, ids[..k]) <= |mask| && |Values(vars, ids[..k])| == SumSizes(vars, ids[..k])
    ensures Values(MaskMembers(op, vars, ids, mask, k), ids[..k])
         == ApplyMask(op, Values(vars, ids[..k]), mask[..SumSizes(vars, ids[..k])])
  {
    hide ApplyByte, ApplyMask, Values, SumSizes, Slice, Increasing;
    var before := MaskMembers(op, vars, ids, mask, k - 1);
    var x, id := Slice(vars, ids, mask, k - 1), ids[k - 1];
    NotBefore(ids, k - 1);
    MaskedOnly(op, vars, ids, mask, k - 1, id);
    SliceNext(vars, ids, mask, k - 1);
    ValuesNext(vars, ids, k - 1);
    ValuesGrow(before, ids, k - 1, ApplyMask(op, vars[id].data, x));
    MaskAppend(op, Values(vars, ids[..k - 1]), vars[id].data, mask[..SumSizes(vars, ids[..k - 1])], x);
  }

  lemma MaskAppend(op: BinOp, a: seq<u8>, b: seq<u8>, m: seq<u8>, n: seq<u8>)
    requires |a| == |m| && |b| == |n|
    ensures ApplyMask(op, a + b, m + n) == ApplyMask(op, a, m) + ApplyMask(op, b, n)
  {
  }

  /** group_bin_op is one mask operation on the concatenated values, and touches nothing else. */
  lemma GroupBinOpIsOneMask(s: Server, p: seq<u8>)
    requires Inv(s) && 2 <= |p| && GroupBinOp(s, p).reply.code == OK
    ensures p[0] < |s.groups| && OpOf(p[1]).Some?
    ensures var ids := s.groups[p[0]].ids;
            var t := GroupBinOp(s, p).server;
            && |t.vars| == |s.vars|
            && |Values(s.vars, ids)| == |p[2..]|
            && Values(t.vars, ids) == ApplyMask(OpOf(p[1]).value, Values(s.vars, ids), p[2..])
            && (forall i :: 0 <= i < |s.vars| && i !in ids ==> t.vars[i] == s.vars[i])
            && t == s.(vars := t.vars)
  {
    var g := s.groups[p[0]];
    assert GroupOk(s.vars, g);
    MaskedValues(OpOf(p[1]).value, s.vars, g.ids, p[2..], |g.ids|);
    assert g.ids[..|g.ids|] == g.ids && p[2..][..|p[2..]|] == p[2..];
    forall i | 0 <= i < |s.vars| && i !in g.ids ensures GroupBinOp(s, p).server.vars[i] == s.vars[i] {
      MaskedOnly(OpOf(p[1]).value, s.vars, g.ids, p[2..], |g.ids|, i);
    }
  }

  lemma ByteOfBits(b: bv8)
    ensures (b as int) as bv8 == b
  {
  }

  lemma BitsOfByte(d: u8)
    ensures (d as bv8) as int == d
  {
    assert d % 256 == d;
  }

  lemma XorCancels(x: bv8, y: bv8)
    ensures (x ^ y) ^ y == x
  {
  }

  lemma XorTwice(d: u8, m: u8)
    ensures ApplyByte(Xor, ApplyByte(Xor, d, m), m) == d
  {
    ByteOfBits((d as bv8) ^ (m as bv8));
    BitsOfByte(d);
    XorCancels(d as bv8, m as bv8);
  }

  lemma {:induction false} EqualValues(v: seq<Var>, w: seq<Var>, ids: seq<u8>)
    requires SameShape(v, w) && MembersOk(v, ids) && Values(v, ids) == Values(w, ids)
    requires forall k :: 0 <= k < |v| ==> |v[k].data| == v[k].size && |w[k].data| == w[k].size
    ensures forall k :: 0 <= k < |ids| ==> v[ids[k]].data == w[ids[k]].data
    decreases |ids|
  {
    if ids != [] {
      var n := |ids| - 1;
      ValuesLength(v, ids[..n]);
      ValuesLength(w, ids[..n]);
      SumSizesShape(v, w, ids[..n]);
      var a, b := Values(v, ids[..n]), Values(w, ids[..n]);
      assert a == Values(v, ids)[..|a|] && b == Values(w, ids)[..|b|];
      assert v[ids[n]].data == Values(v, ids)[|a|..] && w[ids[n]].data == Values(w, ids)[|b|..];
      EqualValues(v, w, ids[..n]);
      forall k | 0 <= k < |ids| ensures v[ids[k]].data == w[ids[k]].data {
        if k < n { assert ids[..n][k] == ids[k]; }
      }
    }
  }

  lemma MaskTwice(a: seq<u8>, m: seq<u8>)
    requires |a| == |m|
    ensures ApplyMask(Xor, ApplyMask(Xor, a, m), m) == a
  {
    forall i | 0 <= i < |a| ensures ApplyMask(Xor, ApplyMask(Xor, a, m), m)[i] == a[i] { XorTwice(a[i], m[i]); }
  }

  /** Variables that agree on the members' values and outside the members are the same. */
  lemma SameVars(v: seq<Var>, w: seq<Var>, ids: seq<u8>)
    requires SameShape(v, w) && MembersOk(v, ids) && Values(v, ids) == Values(w, ids)
    requires forall k :: 0 <= k < |v| ==> |v[k].data| == v[k].size && |w[k].data| == w[k].size && w[k] == v[k].(data := w[k].data)
    requires forall i :: 0 <= i < |v| && i !in ids ==> w[i] == v[i]
    ensures v == w
  {
    EqualValues(v, w, ids);
    forall i | 0 <= i < |v| ensures w[i] == v[i] {
      if i in ids { var k :| 0 <= k < |ids| && ids[k] == i; }
    }
  }

  lemma SecondToggle(s: Server, t: Server, p: seq<u8>)
    requires Inv(s) && Inv(t) && 2 <= |p| && GroupBinOp(s, p).reply.code == OK && t.groups == s.groups
    ensures GroupBinOp(t, p).reply == Msg(OK, [])
  {
  }

  /** Toggling the same bits twice restores the server. */
  lemma ToggleTwice(s: Server, p: seq<u8>)
    requires Inv(s) && 2 <= |p| && OpOf(p[1]) == Some(Xor) && GroupBinOp(s, p).reply.code == OK
    ensures Inv(GroupBinOp(s, p).server)
    ensures GroupBinOp(GroupBinOp(s, p).server, p) == Outcome(s, Msg(OK, []))
  {
    var t := GroupBinOp(s, p).server;
    GroupBinOpKeepsInv(s, p);
    GroupBinOpIsOneMask(s, p);
    SecondToggle(s, t, p);
    TogglePair(s, t, p);
  }

  lemma TogglePair(s: Server, t: Server, p: seq<u8>)
    requires Inv(s) && Inv(t) && 2 <= |p| && OpOf(p[1]) == Some(Xor) && GroupBinOp(s, p).reply.code == OK
    requires t == GroupBinOp(s, p).server && GroupBinOp(t, p).reply.code == OK
    ensures GroupBinOp(t, p).server == s
  {
    var u := GroupBinOp(t, p).server;
    var ids := s.groups[p[0]].ids;
    GroupBinOpIsOneMask(s, p);
    GroupBinOpIsOneMask(t, p);
    MaskTwice(Values(s.vars, ids), p[2..]);
    ToggledShape(s, p);
    ToggledShape(t, p);
    SameVars(s.vars, u.vars, ids);
  }

  lemma ToggledShape(s: Server, p: seq<u8>)
    requires Inv(s) && 2 <= |p| && GroupBinOp(s, p).reply.code == OK
    ensures var t := GroupBinOp(s, p).server;
            && SameShape(s.vars, t.vars)
            && forall i :: 0 <= i < |s.vars| ==> t.vars[i] == s.vars[i].(data := t.vars[i].data) && |t.vars[i].data| == t.vars[i].size
  {
    var t := GroupBinOp(s, p).server;
    forall i | 0 <= i < |s.vars| ensures t.vars[i] == s.vars[i].(data := t.vars[i].data) && |t.vars[i].data| == t.vars[i].size {
      assert VarOk(s.vars[i]);
    }
  }
}
