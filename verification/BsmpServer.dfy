/** The BSMP server object: its tables, the response buffer and the command handlers, each proved
    against the corresponding function of Bsmp.dfy. */
module BsmpServer {
  import opened Bytes
  import S = Bsmp
  import I = BsmpInvariant
  import G = BsmpGroups
  import M = Md5
  import opened Md5Transform

  /** A registered variable; `handle` is the identity of the C structure. */
  datatype VarRef = VarRef(handle: object, id: u8, writable: bool, size: u8, data: array<u8>, accepts: seq<u8> -> bool)

  /** A registered curve over a store of blocks. */
  datatype CurveRef = CurveRef(handle: object, id: u8, writable: bool, nblocks: nat, blockSize: u16,
                               checksum: array<u8>, store: array<seq<u8>>)

  ghost function VarState(v: VarRef): S.Var
    reads v.data
  {
    S.Var(v.writable, v.size, v.data[..], v.accepts)
  }

  ghost function CurveState(c: CurveRef): S.Curve
    reads c.checksum, c.store
  {
    S.Curve(c.writable, c.nblocks, c.blockSize, c.checksum[..], c.store[..])
  }

  ghost predicate VarsIn(vs: seq<VarRef>, owned: set<object>) { forall i :: 0 <= i < |vs| ==> vs[i].data in owned }

  ghost predicate CurvesIn(cs: seq<CurveRef>, owned: set<object>) {
    forall i :: 0 <= i < |cs| ==> cs[i].checksum in owned && cs[i].store in owned
  }

  ghost function VarStates(vs: seq<VarRef>, owned: set<object>): (r: seq<S.Var>)
    reads owned
    requires VarsIn(vs, owned)
    ensures |r| == |vs| && forall i :: 0 <= i < |vs| ==> r[i] == VarState(vs[i])
  {
    seq(|vs|, i requires 0 <= i < |vs| && VarsIn(vs, owned) reads owned => VarState(vs[i]))
  }

  ghost function CurveStates(cs: seq<CurveRef>, owned: set<object>): (r: seq<S.Curve>)
    reads owned
    requires CurvesIn(cs, owned)
    ensures |r| == |cs| && forall i :: 0 <= i < |cs| ==> r[i] == CurveState(cs[i])
  {
    seq(|cs|, i requires 0 <= i < |cs| && CurvesIn(cs, owned) reads owned => CurveState(cs[i]))
  }

  /** The checksum function of the server. */
  ghost function Md5With(w: WordOps): (f: seq<u8> -> seq<u8>)
    ensures forall x :: |f(x)| == S.CSUM_SIZE
  {
    (x: seq<u8>) => M.Digest(w, x)
  }

  /** The moving payload pointer reaches exactly the slice of member k. */
  lemma MemberSlice(vars: seq<S.Var>, ids: seq<u8>, payload: seq<u8>, k: nat)
    requires S.MembersOk(vars, ids) && k < |ids| && |payload| == S.SumSizes(vars, ids)
    ensures var at, size := S.SumSizes(vars, ids[..k]), vars[ids[k]].size as int;
      && at + size <= |payload| && payload[at..at + size] == S.Slice(vars, ids, payload, k)
      && at + size == S.SumSizes(vars, ids[..k + 1])
  {
    G.ValuesNext(vars, ids, k);
  }

  /** Writing members changes values only. */
  lemma {:induction false} SameVarInfo(vars: seq<S.Var>, ids: seq<u8>, payload: seq<u8>, k: nat, id: u8)
    requires S.MembersOk(vars, ids) && k <= |ids| && |payload| == S.SumSizes(vars, ids) && id < |vars|
    ensures var w := S.WriteMembers(vars, ids, payload, k)[id]; w == vars[id].(data := w.data)
    decreases k
  {
    if k > 0 { SameVarInfo(vars, ids, payload, k - 1, id); }
  }

  lemma EmptyGroup(vars: seq<S.Var>)
    ensures S.SumSizes(vars, []) == 0 && S.Values(vars, []) == []
  {
  }

  lemma NoGroup(vars: seq<S.Var>)
    ensures S.MembersOk(vars, []) && S.Increasing([]) && S.BuildGroup(vars, []) == S.EMPTY_GROUP
  {
  }

  lemma BadId(vars: seq<S.Var>, p: seq<u8>, i: nat)
    requires i < |p| && (p[i] >= |vars| || (i > 0 && p[i] <= p[i - 1]))
    ensures !(S.MembersOk(vars, p) && S.Increasing(p))
  {
  }

  lemma GrowMembers(vars: seq<S.Var>, p: seq<u8>, i: nat)
    requires i < |p| && S.MembersOk(vars, p[..i]) && S.Increasing(p[..i]) && p[i] < |vars|
    requires i > 0 ==> p[i - 1] < p[i]
    ensures S.MembersOk(vars, p[..i + 1]) && S.Increasing(p[..i + 1])
  {
    assert p[..i + 1] == p[..i] + [p[i]];
    I.IncreasingAppend(p[..i], p[i]);
  }

  lemma GrowGroup(vars: seq<S.Var>, p: seq<u8>, i: nat)
    requires i < |p| && S.MembersOk(vars, p[..i]) && S.MembersOk(vars, p[..i + 1]) && p[i] < |vars|
    ensures S.BuildGroup(vars, p[..i + 1]) == S.AddVar(S.BuildGroup(vars, p[..i]), p[i], vars[p[i]])
    ensures S.BuildGroup(vars, p[..i + 1]).ids == S.BuildGroup(vars, p[..i]).ids + [p[i]]
  {
    var q := p[..i + 1];
    assert q[..|q| - 1] == p[..i] && q[|q| - 1] == p[i];
  }

  lemma CurveListNext(cs: seq<S.Curve>, i: nat)
    requires i < |cs|
    ensures S.CurveList(cs[..i + 1]) == S.CurveList(cs[..i]) + S.CurveBytes(cs[i])
  {
    assert cs[..i + 1][..i] == cs[..i];
  }

  /** What is left to do before block i of the checksum loop, given what was read. */
  ghost predicate Progress(c: S.Curve, busy: S.Busy, i: nat, read: seq<u8>) {
    && |c.blocks| == c.nblocks && i <= c.nblocks
    && read + S.Checksummed(c, i) == S.Checksummed(c, 0)
    && S.ReadRefused(c, i, busy) == S.ReadRefused(c, 0, busy)
  }

  lemma ProgressEnds(c: S.Curve, busy: S.Busy, read: seq<u8>)
    requires |c.blocks| == c.nblocks
    ensures Progress(c, busy, 0, [])
    ensures Progress(c, busy, c.nblocks, read) ==> read == S.Checksummed(c, 0) && !S.ReadRefused(c, 0, busy)
  {
    assert [] + S.Checksummed(c, 0) == S.Checksummed(c, 0);
    assert S.Checksummed(c, c.nblocks) == [] && read + [] == read;
  }

  lemma ProgressRefused(c: S.Curve, busy: S.Busy, i: nat, read: seq<u8>)
    requires Progress(c, busy, i, read) && i < c.nblocks && busy.read(i)
    ensures S.ReadRefused(c, 0, busy)
  {
  }

  /** One iteration of the checksum loop. */
  lemma Progressed(c: S.Curve, busy: S.Busy, i: nat, read: seq<u8>)
    requires Progress(c, busy, i, read) && i < c.nblocks && !busy.read(i)
    ensures |c.blocks[i]| >= c.nblocks ==> Progress(c, busy, i + 1, read + c.blocks[i])
    ensures |c.blocks[i]| < c.nblocks ==> !S.ReadRefused(c, 0, busy) && read + c.blocks[i] == S.Checksummed(c, 0)
  {
    assert |c.blocks[i]| >= c.nblocks ==>
      read + (c.blocks[i] + S.Checksummed(c, i + 1)) == (read + c.blocks[i]) + S.Checksummed(c, i + 1);
  }

  /** binops_and, binops_or, binops_xor, binops_clear: from the last byte down. */
  method ApplyMaskInPlace(op: S.BinOp, data: array<u8>, mask: seq<u8>, size: u8)
    requires data.Length == |mask| == size
    modifies data
    ensures data[..] == S.ApplyMask(op, old(data[..]), mask)
  {
    var k := size;
    while k > 0
      invariant 0 <= k <= size
      invariant forall j :: 0 <= j < k ==> data[j] == old(data[j])
      invariant forall j :: k <= j < size ==> data[j] == S.ApplyByte(op, old(data[j]), mask[j])
    {
      k := k - 1;
      data[k] := S.ApplyByte(op, data[k], mask[k]);
    }
  }

  class Server {
    var vars: seq<VarRef>
    const groupList: array<S.Group>
    var groupCount: nat
    var curves: seq<CurveRef>
    var funcs: seq<S.Func>
    var funcHandles: seq<object>
    const ops: WordOps           // the word operations of MD5
    const payload: array<u8>     // the payload area of the response packet
    var code: u8
    var payloadSize: nat
    ghost var owned: set<object> // the storage of the registered entities

    /** Separation: every entity has its own storage, and entities know their positions. */
    ghost predicate Valid()
      reads this
    {
      && groupList.Length == S.MAX_GROUPS && groupCount <= S.MAX_GROUPS
      && payload.Length == 65535 && payloadSize <= payload.Length
      && payload !in owned && groupList !in owned && this !in owned
      && VarsIn(vars, owned) && CurvesIn(curves, owned) && |funcHandles| == |funcs|
      && (forall i :: 0 <= i < |vars| ==> vars[i].id == i && vars[i].data.Length == vars[i].size)
      && (forall i, j :: 0 <= i < j < |vars| ==> vars[i].data != vars[j].data)
      && (forall i :: 0 <= i < |curves| ==>
            curves[i].id == i && curves[i].store.Length == curves[i].nblocks && curves[i].checksum.Length == S.CSUM_SIZE)
      && (forall i, j :: 0 <= i < j < |curves| ==> curves[i].checksum != curves[j].checksum && curves[i].store != curves[j].store)
      && (forall i, j :: 0 <= i < |vars| && 0 <= j < |curves| ==> vars[i].data != curves[j].checksum)
    }

    ghost function State(): S.Server
      reads this, groupList, owned
      requires Valid()
    {
      S.Server(VarStates(vars, owned), groupList[..groupCount], CurveStates(curves, owned), funcs)
    }

    ghost function Reply(): S.Msg
      reads this, payload
      requires Valid()
    {
      S.Msg(code, payload[..payloadSize])
    }

    /** MESSAGE_SET_ANSWER */
    method Answer(c: u8)
      requires Valid()
      modifies this`code, this`payloadSize
      ensures Valid() && State() == old(State()) && Reply() == S.Msg(c, [])
    {
      code, payloadSize := c, 0;
    }

    /** Answer with a payload copied in one piece. */
    method AnswerWith(c: u8, data: seq<u8>)
      requires Valid() && |data| <= 65535
      modifies this`code, this`payloadSize, payload
      ensures Valid() && State() == old(State()) && Reply() == S.Msg(c, data)
    {
      code := c;
      Copy(payload, 0, data);
      payloadSize := |data|;
    }

    // ---- Variables ----

    method VarQueryList(p: seq<u8>)
      requires Valid() && |vars| <= S.MAX_VARIABLES
      modifies this`code, this`payloadSize, payload
      ensures Valid() && State() == old(State()) && Reply() == S.VarQueryList(old(State()), p)
    {
      if p != [] { Answer(S.INVALID_PAYLOAD_SIZE); return; }
      Answer(S.VAR_LIST);
      ghost var vs := VarStates(vars, owned);
      for i := 0 to |vars|
        invariant code == S.VAR_LIST && forall j :: 0 <= j < i ==> payload[j] == S.VarByte(vs[j])
      {
        payload[i] := vars[i].size % 128;
        if vars[i].writable { payload[i] := payload[i] + 128; }
      }
      payloadSize := |vars|;
      assert payload[..payloadSize] == S.VarQueryList(old(State()), p).payload;
    }

    method VarRead(p: seq<u8>)
      requires Valid()
      modifies this`code, this`payloadSize, payload
      ensures Valid() && State() == old(State()) && Reply() == S.VarRead(old(State()), p)
    {
      if |p| != 1 { Answer(S.INVALID_PAYLOAD_SIZE); return; }
      if p[0] >= |vars| { Answer(S.INVALID_ID); return; }
      AnswerWith(S.VAR_VALUE, vars[p[0]].data[..]);
    }

    /** memcpy(var->data, value, size) */
    method Store(id: u8, value: seq<u8>)
      requires Valid() && id < |vars| && |value| == vars[id].size
      modifies vars[id].data
      ensures Valid() && State() == S.Assign(old(State()), id, value)
    {
      Copy(vars[id].data, 0, value);
      assert vars[id].data[..] == value;
      assert forall i :: 0 <= i < |vars| && i != id ==> vars[i].data[..] == old(vars[i].data[..]);
      assert CurveStates(curves, owned) == old(CurveStates(curves, owned));
      assert VarStates(vars, owned) == S.Assign(old(State()), id, value).vars;
    }

    method VarWrite(p: seq<u8>)
      requires Valid()
      modifies this`code, this`payloadSize, owned
      ensures Valid() && State() == S.VarWrite(old(State()), p).server && Reply() == S.VarWrite(old(State()), p).reply
    {
      if |p| < 2 { Answer(S.INVALID_PAYLOAD_SIZE); return; }
      if p[0] >= |vars| { Answer(S.INVALID_ID); return; }
      var v := vars[p[0]];
      if |p| != 1 + v.size { Answer(S.INVALID_PAYLOAD_SIZE); return; }
      if !v.writable { Answer(S.READ_ONLY); return; }
      if !v.accepts(p[1..]) { Answer(S.INVALID_VALUE); return; }
      Store(p[0], p[1..]);
      Answer(S.OK);
    }

    method VarWriteRead(p: seq<u8>)
      requires Valid()
      modifies this`code, this`payloadSize, payload, owned
      ensures Valid() && State() == S.VarWriteRead(old(State()), p).server && Reply() == S.VarWriteRead(old(State()), p).reply
    {
      if |p| < 3 { Answer(S.INVALID_PAYLOAD_SIZE); return; }
      if p[0] >= |vars| || p[1] >= |vars| { Answer(S.INVALID_ID); return; }
      var v := vars[p[0]];
      if |p| != 2 + v.size { Answer(S.INVALID_PAYLOAD_SIZE); return; }
      if !v.writable { Answer(S.READ_ONLY); return; }
      if !v.accepts(p[2..]) { Answer(S.INVALID_VALUE); return; }
      Store(p[0], p[2..]);
      AnswerWith(S.VAR_VALUE, vars[p[1]].data[..]);
    }

    /** bin_op[operation](var->data, mask, size) */
    method MaskVar(op: S.BinOp, id: u8, mask: seq<u8>)
      requires Valid() && id < |vars| && |mask| == vars[id].size
      modifies vars[id].data
      ensures Valid() && State() == S.Assign(old(State()), id, S.ApplyMask(op, old(State()).vars[id].data, mask))
    {
      ApplyMaskInPlace(op, vars[id].data, mask, vars[id].size);
      assert forall i :: 0 <= i < |vars| && i != id ==> vars[i].data[..] == old(vars[i].data[..]);
      assert CurveStates(curves, owned) == old(CurveStates(curves, owned));
      assert VarStates(vars, owned) == S.Assign(old(State()), id, S.ApplyMask(op, old(State()).vars[id].data, mask)).vars;
    }

    method VarBinOp(p: seq<u8>)
      requires Valid()
      modifies this`code, this`payloadSize, owned
      ensures Valid() && State() == S.VarBinOp(old(State()), p).server && Reply() == S.VarBinOp(old(State()), p).reply
    {
      if |p| < 3 { Answer(S.INVALID_PAYLOAD_SIZE); return; }
      if p[0] >= |vars| { Answer(S.INVALID_ID); return; }
      var v := vars[p[0]];
      var op := S.OpOf(p[1]);
      if op == None { Answer(S.OP_NOT_SUPPORTED); return; }
      if |p| != 2 + v.size { Answer(S.INVALID_PAYLOAD_SIZE); return; }
      if !v.writable { Answer(S.READ_ONLY); return; }
      MaskVar(op.value, p[0], p[2..]);
      Answer(S.OK);
    }

    // ---- Groups ----

    method GroupQueryList(p: seq<u8>)
      requires Valid()
      modifies this`code, this`payloadSize, payload
      ensures Valid() && State() == old(State()) && Reply() == S.GroupQueryList(old(State()), p)
    {
      if p != [] { Answer(S.INVALID_PAYLOAD_SIZE); return; }
      Answer(S.GROUP_LIST);
      for i := 0 to groupCount
        invariant code == S.GROUP_LIST && forall j :: 0 <= j < i ==> payload[j] == S.GroupByte(groupList[j])
      {
        payload[i] := if groupList[i].writable then 128 else 0;
        payload[i] := (payload[i] + |groupList[i].ids|) % 256;
      }
      payloadSize := groupCount;
      assert payload[..payloadSize] == S.GroupQueryList(old(State()), p).payload;
    }

    method GroupQuery(p: seq<u8>)
      requires Valid() && forall i :: 0 <= i < groupCount ==> |groupList[i].ids| <= S.MAX_VARIABLES
      modifies this`code, this`payloadSize, payload
      ensures Valid() && State() == old(State()) && Reply() == S.GroupQuery(old(State()), p)
    {
      if |p| != 1 { Answer(S.INVALID_PAYLOAD_SIZE); return; }
      if p[0] >= groupCount { Answer(S.INVALID_ID); return; }
      Answer(S.GROUP);
      var ids := groupList[p[0]].ids;
      for i := 0 to |ids|
        invariant code == S.GROUP && payload[..i] == ids[..i]
      {
        payload[i] := ids[i];
      }
      payloadSize := |ids|;
      assert payload[..payloadSize] == ids;
    }

    method GroupRead(p: seq<u8>)
      requires Valid() && S.GroupsSound(State().vars, State().groups)
      modifies this`code, this`payloadSize, payload
      ensures Valid() && State() == old(State()) && Reply() == S.GroupRead(old(State()), p)
    {
      if |p| != 1 { Answer(S.INVALID_PAYLOAD_SIZE); return; }
      if p[0] >= groupCount { Answer(S.INVALID_ID); return; }
      var g := groupList[p[0]];
      assert g == State().groups[p[0]];
      Answer(S.GROUP_VALUES);
      ReadLoop(g.ids, g.size);
    }

    /** The member loop of group_read. */
    method ReadLoop(ids: seq<u8>, size: u16)
      requires Valid() && S.MembersOk(State().vars, ids) && S.SumSizes(State().vars, ids) == size
      modifies this`payloadSize, payload
      ensures Valid() && State() == old(State()) && Reply() == S.Msg(code, S.Values(old(State()).vars, ids))
    {
      hide S.SumSizes, S.Values;
      ghost var vs := State().vars;
      EmptyGroup(vs);
      var at := 0;
      for i := 0 to |ids|
        invariant at == |S.Values(vs, ids[..i])| == S.SumSizes(vs, ids[..i])
        invariant at <= payload.Length && payload[..at] == S.Values(vs, ids[..i])
      {
        var v := vars[ids[i]];
        assert vs[ids[i]].data == v.data[..] && vs[ids[i]].size == v.size;
        G.ValuesNext(vs, ids, i);
        Copy(payload, at, v.data[..]);
        at := at + v.size;
      }
      payloadSize := size;
      assert ids[..|ids|] == ids;
    }

    method GroupWrite(p: seq<u8>)
      requires Valid() && S.GroupsSound(State().vars, State().groups)
      modifies this`code, this`payloadSize, owned
      ensures Valid() && State() == S.GroupWrite(old(State()), p).server && Reply() == S.GroupWrite(old(State()), p).reply
    {
      if |p| < 2 { Answer(S.INVALID_PAYLOAD_SIZE); return; }
      if p[0] >= groupCount { Answer(S.INVALID_ID); return; }
      var g := groupList[p[0]];
      assert g == State().groups[p[0]];
      if |p| != 1 + g.size { Answer(S.INVALID_PAYLOAD_SIZE); return; }
      if !g.writable { Answer(S.READ_ONLY); return; }
      var checkFailed := WriteLoop(g.ids, p[1..]);
      Answer(if checkFailed then S.INVALID_VALUE else S.OK);
    }

    /** The member loop of group_write. */
    method WriteLoop(ids: seq<u8>, payloadIn: seq<u8>) returns (checkFailed: bool)
      requires Valid() && S.MembersOk(State().vars, ids) && |payloadIn| == S.SumSizes(State().vars, ids)
      modifies owned
      ensures Valid() && State() == old(State()).(vars := S.WriteMembers(old(State()).vars, ids, payloadIn, |ids|))
      ensures checkFailed == !S.AllAccepted(old(State()).vars, ids, payloadIn, |ids|)
    {
      ghost var s := State();
      checkFailed := false;
      var at := 0;
      for i := 0 to |ids|
        invariant Valid() && State() == s.(vars := S.WriteMembers(s.vars, ids, payloadIn, i))
        invariant at == S.SumSizes(s.vars, ids[..i])
        invariant checkFailed == !S.AllAccepted(s.vars, ids, payloadIn, i)
      {
        var refused := WriteMember(ids, payloadIn, i, at, s);
        if refused { checkFailed := true; }
        at := at + vars[ids[i]].size;
      }
      assert ids[..|ids|] == ids;
    }

    /** One member of group_write: check its slice, then store it. */
    method WriteMember(ids: seq<u8>, payloadIn: seq<u8>, i: nat, at: nat, ghost s: S.Server) returns (refused: bool)
      requires S.MembersOk(s.vars, ids) && |payloadIn| == S.SumSizes(s.vars, ids)
      requires i < |ids| && at == S.SumSizes(s.vars, ids[..i])
      requires Valid() && State() == s.(vars := S.WriteMembers(s.vars, ids, payloadIn, i))
      modifies owned
      ensures Valid() && State() == s.(vars := S.WriteMembers(s.vars, ids, payloadIn, i + 1))
      ensures at + vars[ids[i]].size == S.SumSizes(s.vars, ids[..i + 1])
      ensures refused == !s.vars[ids[i]].accepts(S.Slice(s.vars, ids, payloadIn, i))
    {
      var v := vars[ids[i]];
      MemberSlice(s.vars, ids, payloadIn, i);
      SameVarInfo(s.vars, ids, payloadIn, i, ids[i]);
      assert VarState(v) == State().vars[ids[i]];
      var x := payloadIn[at..at + v.size];
      refused := !v.accepts(x);
      if !refused {
        Store(ids[i], x);
      }
    }

    method GroupBinOp(p: seq<u8>)
      requires Valid() && S.GroupsSound(State().vars, State().groups)
      modifies this`code, this`payloadSize, owned
      ensures Valid() && State() == S.GroupBinOp(old(State()), p).server && Reply() == S.GroupBinOp(old(State()), p).reply
    {
      if |p| < 2 { Answer(S.INVALID_PAYLOAD_SIZE); return; }
      if p[0] >= groupCount { Answer(S.INVALID_ID); return; }
      var g := groupList[p[0]];
      assert g == State().groups[p[0]];
      var op := S.OpOf(p[1]);
      if op == None { Answer(S.OP_NOT_SUPPORTED); return; }
      if |p| != 2 + g.size { Answer(S.INVALID_PAYLOAD_SIZE); return; }
      if !g.writable { Answer(S.READ_ONLY); return; }
      MaskLoop(op.value, g.ids, p[2..]);
      Answer(S.OK);
    }

    /** The member loop of group_bin_op. */
    method MaskLoop(op: S.BinOp, ids: seq<u8>, mask: seq<u8>)
      requires Valid() && S.MembersOk(State().vars, ids) && |mask| == S.SumSizes(State().vars, ids)
      modifies owned
      ensures Valid() && State() == old(State()).(vars := S.MaskMembers(op, old(State()).vars, ids, mask, |ids|))
    {
      ghost var s := State();
      var at := 0;
      for i := 0 to |ids|
        invariant Valid() && State() == s.(vars := S.MaskMembers(op, s.vars, ids, mask, i))
        invariant at == S.SumSizes(s.vars, ids[..i])
      {
        MaskMember(op, ids, mask, i, at, s);
        at := at + vars[ids[i]].size;
      }
      assert ids[..|ids|] == ids;
    }

    /** One member of group_bin_op. */
    method MaskMember(op: S.BinOp, ids: seq<u8>, mask: seq<u8>, i: nat, at: nat, ghost s: S.Server)
      requires S.MembersOk(s.vars, ids) && |mask| == S.SumSizes(s.vars, ids)
      requires forall j :: 0 <= j < |s.vars| ==> |s.vars[j].data| == s.vars[j].size
      requires i < |ids| && at == S.SumSizes(s.vars, ids[..i])
      requires Valid() && State() == s.(vars := S.MaskMembers(op, s.vars, ids, mask, i))
      modifies owned
      ensures Valid() && State() == s.(vars := S.MaskMembers(op, s.vars, ids, mask, i + 1))
      ensures at + vars[ids[i]].size == S.SumSizes(s.vars, ids[..i + 1])
    {
      hide S.SumSizes, S.ApplyMask, S.Slice;
      var v := vars[ids[i]];
      MemberSlice(s.vars, ids, mask, i);
      assert VarState(v) == State().vars[ids[i]];
      MaskVar(op, ids[i], mask[at..at + v.size]);
    }

    method GroupCreate(p: seq<u8>)
      requires Valid() && |vars| <= S.MAX_VARIABLES
      modifies this`code, this`payloadSize, this`groupCount, groupList
      ensures Valid() && State() == S.GroupCreate(old(State()), p).server && Reply() == S.GroupCreate(old(State()), p).reply
    {
      hide S.BuildGroup, S.MembersOk, S.Increasing;
      if |p| < 1 || |p| > |vars| { Answer(S.INVALID_PAYLOAD_SIZE); return; }
      if groupCount == S.MAX_GROUPS { Answer(S.INSUFFICIENT_MEMORY); return; }
      var created := FillGroup(p);
      if !created { Answer(S.INVALID_ID); return; }
      groupCount := groupCount + 1;
      assert groupList[..groupCount] == old(State()).groups + [groupList[old(groupCount)]];
      Answer(S.OK);
    }

    /** Populate the entry behind the live groups; stop at the first bad id. */
    method FillGroup(p: seq<u8>) returns (created: bool)
      requires Valid() && groupCount < S.MAX_GROUPS
      modifies groupList
      ensures State() == old(State())
      ensures created == (S.MembersOk(old(State()).vars, p) && S.Increasing(p))
      ensures created ==> groupList[groupCount] == S.BuildGroup(old(State()).vars, p)
    {
      hide S.SumSizes, S.BuildGroup, S.AddVar, S.MembersOk, S.Increasing;
      ghost var vs := State().vars;
      NoGroup(vs);
      assert p[..0] == [];
      var at := groupCount;
      groupList[at] := S.EMPTY_GROUP;
      for i := 0 to |p|
        invariant groupList[..at] == old(groupList[..groupCount])
        invariant S.MembersOk(vs, p[..i]) && S.Increasing(p[..i])
        invariant groupList[at] == S.BuildGroup(vs, p[..i]) && groupList[at].ids == p[..i]
      {
        var id := p[i];
        if id >= |vars| || (i > 0 && id <= groupList[at].ids[i - 1]) {
          BadId(vs, p, i);
          return false;
        }
        GroupAddVar(at, vars[id]);
        GrowMembers(vs, p, i);
        GrowGroup(vs, p, i);
        assert p[..i + 1] == p[..i] + [p[i]];
      }
      assert p[..|p|] == p;
      return true;
    }

    /** group_add_var */
    method GroupAddVar(k: nat, v: VarRef)
      requires k < groupList.Length
      modifies groupList
      ensures groupList[k] == S.AddVar(old(groupList[k]), v.id, VarState(v))
      ensures forall i :: 0 <= i < groupList.Length && i != k ==> groupList[i] == old(groupList[i])
    {
      var g := groupList[k];
      groupList[k] := S.Group(g.writable && v.writable, (g.size + v.size) % U16_MOD, g.ids + [v.id]);
    }

    method GroupRemoveAll(p: seq<u8>)
      requires Valid() && groupCount >= S.GROUP_STANDARD_COUNT
      modifies this`code, this`payloadSize, this`groupCount
      ensures Valid() && State() == S.GroupRemoveAll(old(State()), p).server && Reply() == S.GroupRemoveAll(old(State()), p).reply
    {
      if p != [] { Answer(S.INVALID_PAYLOAD_SIZE); return; }
      groupCount := S.GROUP_STANDARD_COUNT;
      Answer(S.OK);
    }

    // ---- Curves ----

    method CurveQueryList(p: seq<u8>)
      requires Valid() && |curves| <= S.MAX_CURVES
      modifies this`code, this`payloadSize, payload
      ensures Valid() && State() == old(State()) && Reply() == S.CurveQueryList(old(State()), p)
    {
      if p != [] { Answer(S.INVALID_PAYLOAD_SIZE); return; }
      Answer(S.CURVE_LIST);
      CurveLoop();
    }

    /** The loop of curve_query_list. */
    method CurveLoop()
      requires Valid() && |curves| <= S.MAX_CURVES
      modifies this`payloadSize, payload
      ensures Valid() && State() == old(State()) && Reply() == S.Msg(code, S.CurveList(State().curves))
    {
      hide S.CurveList;
      ghost var s := State();
      PutCurves(s.curves);
      assert CurveStates(curves, owned) == s.curves && VarStates(vars, owned) == s.vars;
      payloadSize := |curves| * 5;
    }

    method PutCurves(ghost cs: seq<S.Curve>)
      requires payload.Length == 65535 && |cs| == |curves| <= S.MAX_CURVES
      requires forall i :: 0 <= i < |cs| ==>
        cs[i].writable == curves[i].writable && cs[i].nblocks == curves[i].nblocks && cs[i].blockSize == curves[i].blockSize
      modifies payload
      ensures payload[..5 * |curves|] == S.CurveList(cs)
    {
      var at := 0;
      for i := 0 to |curves|
        invariant at == 5 * i && payload[..at] == S.CurveList(cs[..i])
      {
        PutCurve(at, curves[i], cs[i]);
        at := at + 5;
        CurveListNext(cs, i);
      }
      assert cs[..|curves|] == cs;
    }

    method PutCurve(at: nat, c: CurveRef, ghost state: S.Curve)
      requires at + 5 <= payload.Length
      requires state.writable == c.writable && state.nblocks == c.nblocks && state.blockSize == c.blockSize
      modifies payload
      ensures payload[..at + 5] == old(payload[..at]) + S.CurveBytes(state)
    {
      payload[at] := if c.writable then 1 else 0;
      payload[at + 1] := c.blockSize / 256;
      payload[at + 2] := c.blockSize % 256;
      payload[at + 3] := c.nblocks / 256 % 256;
      payload[at + 4] := c.nblocks % 256;
    }

    method CurveQueryCsum(p: seq<u8>)
      requires Valid()
      modifies this`code, this`payloadSize, payload
      ensures Valid() && State() == old(State()) && Reply() == S.CurveQueryCsum(old(State()), p)
    {
      if |p| != 1 { Answer(S.INVALID_PAYLOAD_SIZE); return; }
      if p[0] >= |curves| { Answer(S.INVALID_ID); return; }
      AnswerWith(S.CURVE_CSUM, curves[p[0]].checksum[..]);
    }

    method CurveBlockRequest(p: seq<u8>, busy: S.Busy)
      requires Valid() && forall i, k :: 0 <= i < |curves| && 0 <= k < curves[i].store.Length ==> |curves[i].store[k]| <= S.CURVE_BLOCK_MAX_SIZE
      modifies this`code, this`payloadSize, payload
      ensures Valid() && State() == old(State()) && Reply() == S.CurveBlockRequest(old(State()), p, busy)
    {
      if |p| != 3 { Answer(S.INVALID_PAYLOAD_SIZE); return; }
      if p[0] >= |curves| { Answer(S.INVALID_ID); return; }
      var c := curves[p[0]];
      var offset := Word16(p[1], p[2]);
      if offset >= c.nblocks { Answer(S.INVALID_VALUE); return; }
      if busy.read(offset) { Answer(S.RESOURCE_BUSY); return; }
      AnswerWith(S.CURVE_BLOCK, p + c.store[offset]);
    }

    /** write_block, then memset(checksum, 0) */
    method StoreBlock(id: u8, at: nat, block: seq<u8>)
      requires Valid() && id < |curves| && at < curves[id].nblocks
      modifies curves[id].store, curves[id].checksum
      ensures Valid()
      ensures var c := old(State()).curves[id];
              var w := c.(blocks := c.blocks[at := block], checksum := S.NO_CHECKSUM);
              State() == old(State()).(curves := old(State()).curves[id := w])
    {
      ghost var s := State();
      var c := curves[id];
      c.store[at] := block;
      for k := 0 to S.CSUM_SIZE
        invariant forall j :: 0 <= j < k ==> c.checksum[j] == 0
        invariant c.store[..] == s.curves[id].blocks[at := block]
      {
        c.checksum[k] := 0;
      }
      assert c.checksum[..] == S.NO_CHECKSUM;
      assert VarStates(vars, owned) == s.vars;
      assert CurveStates(curves, owned) == s.curves[id := CurveState(c)];
    }

    method CurveBlockWrite(p: seq<u8>, busy: S.Busy)
      requires Valid()
      modifies this`code, this`payloadSize, owned
      ensures Valid() && State() == S.CurveBlockWrite(old(State()), p, busy).server && Reply() == S.CurveBlockWrite(old(State()), p, busy).reply
    {
      if |p| < 4 { Answer(S.INVALID_PAYLOAD_SIZE); return; }
      if p[0] >= |curves| { Answer(S.INVALID_ID); return; }
      var c := curves[p[0]];
      if |p| > c.blockSize + 3 { Answer(S.INVALID_PAYLOAD_SIZE); return; }
      var offset := Word16(p[1], p[2]);
      if offset >= c.nblocks { Answer(S.INVALID_VALUE); return; }
      if !c.writable { Answer(S.READ_ONLY); return; }
      if busy.write { Answer(S.RESOURCE_BUSY); return; }
      StoreBlock(p[0], offset, p[3..]);
      Answer(S.OK);
    }

    /** The checksum loop: feed the blocks to MD5 until one is shorter than the number of blocks. */
    method Recalculate(c: CurveRef, busy: S.Busy) returns (ok: bool)
      requires c.store.Length == c.nblocks && c.checksum.Length == S.CSUM_SIZE
      requires forall k :: 0 <= k < c.store.Length ==> |c.store[k]| <= S.CURVE_BLOCK_MAX_SIZE
      modifies c.checksum
      ensures ok == !S.ReadRefused(old(CurveState(c)), 0, busy)
      ensures c.checksum[..] == if ok then M.Digest(ops, S.Checksummed(old(CurveState(c)), 0)) else old(c.checksum[..])
    {
      var ctx := new M.Context(ops);
      ghost var read;
      ok, read := ReadBlocks(ctx, c, busy, CurveState(c));
      if ok { ctx.Final(c.checksum, read); }
    }

    method ReadBlocks(ctx: M.Context, c: CurveRef, busy: S.Busy, ghost state: S.Curve) returns (ok: bool, ghost read: seq<u8>)
      requires ctx.Holds([]) && c.nblocks == state.nblocks == c.store.Length && c.store[..] == state.blocks
      requires forall k :: 0 <= k < c.store.Length ==> |c.store[k]| <= S.CURVE_BLOCK_MAX_SIZE
      modifies ctx.state, ctx.count, ctx.buffer
      ensures ok == !S.ReadRefused(state, 0, busy)
      ensures ok ==> ctx.Holds(read) && read == S.Checksummed(state, 0)
    {
      hide S.Checksummed, S.ReadRefused, Progress, M.Absorb, M.BitCount;
      read := [];
      ProgressEnds(state, busy, []);
      var i := 0;
      while i < c.nblocks
        invariant i <= c.nblocks && ctx.Holds(read)
        invariant Progress(state, busy, i, read)
      {
        if busy.read(i) {
          ProgressRefused(state, busy, i, read);
          return false, read;
        }
        Progressed(state, busy, i, read);
        assert c.store[i] == state.blocks[i];
        ctx.Update(c.store[i], read);
        read := read + c.store[i];
        if |c.store[i]| < c.nblocks { return true, read; }
        i := i + 1;
      }
      ProgressEnds(state, busy, read);
      ok := true;
    }

    method CurveRecalcCsum(p: seq<u8>, busy: S.Busy)
      requires Valid() && forall i, k :: 0 <= i < |curves| && 0 <= k < curves[i].store.Length ==> |curves[i].store[k]| <= S.CURVE_BLOCK_MAX_SIZE
      modifies this`code, this`payloadSize, payload, owned
      ensures Valid()
      ensures var o := S.CurveRecalcCsum(old(State()), p, busy, Md5With(ops)); State() == o.server && Reply() == o.reply
    {
      if |p| != 1 { Answer(S.INVALID_PAYLOAD_SIZE); return; }
      if p[0] >= |curves| { Answer(S.INVALID_ID); return; }
      var c := curves[p[0]];
      var ok := RecalculateCurve(p[0], busy);
      if !ok { Answer(S.RESOURCE_BUSY); return; }
      AnswerWith(S.CURVE_CSUM, c.checksum[..]);
    }

    /** The effect of Recalculate on the whole server. */
    method RecalculateCurve(id: u8, busy: S.Busy) returns (ok: bool)
      requires Valid() && id < |curves|
      requires forall k :: 0 <= k < curves[id].store.Length ==> |curves[id].store[k]| <= S.CURVE_BLOCK_MAX_SIZE
      modifies curves[id].checksum
      ensures Valid() && ok == !S.ReadRefused(old(State()).curves[id], 0, busy)
      ensures var c := old(State()).curves[id];
              var d := if ok then M.Digest(ops, S.Checksummed(c, 0)) else c.checksum;
              State() == old(State()).(curves := old(State()).curves[id := c.(checksum := d)])
    {
      ghost var s := State();
      ok := Recalculate(curves[id], busy);
      assert VarStates(vars, owned) == s.vars;
      assert CurveStates(curves, owned) == s.curves[id := CurveState(curves[id])];
    }

    // ---- Functions and version ----

    method FuncQueryList(p: seq<u8>)
      requires Valid() && |funcs| <= S.MAX_FUNCTIONS
      modifies this`code, this`payloadSize, payload
      ensures Valid() && State() == old(State()) && Reply() == S.FuncQueryList(old(State()), p)
    {
      if p != [] { Answer(S.INVALID_PAYLOAD_SIZE); return; }
      Answer(S.FUNC_LIST);
      for i := 0 to |funcs|
        invariant code == S.FUNC_LIST && forall j :: 0 <= j < i ==> payload[j] == S.FuncByte(funcs[j])
      {
        payload[i] := funcs[i].inputSize * 16 % 256 + funcs[i].outputSize % 16;
      }
      payloadSize := |funcs|;
      assert payload[..payloadSize] == S.FuncQueryList(old(State()), p).payload;
    }

    method FuncExecute(p: seq<u8>)
      requires Valid() && forall i, x :: 0 <= i < |funcs| ==> |funcs[i].exec(x).output| <= S.FUNC_MAX_OUTPUT
      modifies this`code, this`payloadSize, payload
      ensures Valid() && State() == old(State()) && Reply() == S.FuncExecute(old(State()), p)
    {
      if p == [] { Answer(S.INVALID_PAYLOAD_SIZE); return; }
      if p[0] >= |funcs| { Answer(S.INVALID_ID); return; }
      var f := funcs[p[0]];
      if |p| != 1 + f.inputSize { Answer(S.INVALID_PAYLOAD_SIZE); return; }
      var r := f.exec(p[1..]);
      if r.ret != 0 {
        AnswerWith(S.FUNC_ERROR, [r.ret]);
      } else {
        AnswerWith(S.FUNC_RETURN, r.output);
      }
    }

    method QueryVersion(p: seq<u8>)
      requires Valid()
      modifies this`code, this`payloadSize, payload
      ensures Valid() && State() == old(State()) && Reply() == S.QueryVersion(old(State()), p)
    {
      if p != [] { Answer(S.INVALID_PAYLOAD_SIZE); return; }
      AnswerWith(S.VERSION, [2, 20, 0]);
    }

    // ---- Initialisation and registration ----

    /** bsmp_server_init */
    constructor (w: WordOps)
      ensures Valid() && ops == w && owned == {} && State() == S.InitServer()
      ensures fresh(groupList) && fresh(payload)
    {
      vars, curves, funcs, funcHandles := [], [], [], [];
      groupList := new S.Group[S.MAX_GROUPS](_ => S.EMPTY_GROUP);
      groupCount := S.GROUP_STANDARD_COUNT;
      ops := w;
      payload := new u8[65535];
      code, payloadSize := 0, 0;
      owned := {};
    }

    ghost predicate HasVar(handle: object)
      reads this
    {
      exists i :: 0 <= i < |vars| && vars[i].handle == handle
    }

    ghost predicate HasCurve(handle: object)
      reads this
    {
      exists i :: 0 <= i < |curves| && curves[i].handle == handle
    }

    /** bsmp_register_variable; a new variable brings storage of its own. */
    method RegisterVariable(v: VarRef) returns (err: S.Err)
      requires Valid() && groupCount >= S.GROUP_STANDARD_COUNT && v.data.Length == v.size
      requires HasVar(v.handle) || (v.data !in owned && v.data != payload)
      modifies this`vars, this`owned, groupList
      ensures Valid() && groupCount == old(groupCount)
      ensures var (e, t) := S.RegisterVar(old(State()), old(VarState(v)));
              var known := e == S.Success && old(HasVar(v.handle));
              err == (if known then S.Duplicate else e) && State() == (if known then old(State()) else t)
    {
      if v.size > S.VAR_MAX_SIZE { return S.OutOfRange; }
      if |vars| >= S.MAX_VARIABLES { return S.OutOfMemory; }
      for i := 0 to |vars|
        invariant forall j :: 0 <= j < i ==> vars[j].handle != v.handle
      {
        if vars[i].handle == v.handle { return S.Duplicate; }
      }
      AppendVar(v.(id := |vars|));
      err := S.Success;
    }

    method AddRef(v: VarRef)
      requires Valid() && v.data.Length == v.size && v.id == |vars| && v.data !in owned && v.data != payload
      modifies this`vars, this`owned
      ensures Valid() && State() == old(State()).(vars := old(State()).vars + [old(VarState(v))])
    {
      ghost var s := State();
      vars, owned := vars + [v], owned + {v.data};
      assert VarStates(vars, owned) == s.vars + [VarState(v)];
    }

    method AppendVar(v: VarRef)
      requires Valid() && groupCount >= S.GROUP_STANDARD_COUNT && v.data.Length == v.size <= S.VAR_MAX_SIZE
      requires v.id == |vars| < S.MAX_VARIABLES && v.data !in owned && v.data != payload
      modifies this`vars, this`owned, groupList
      ensures Valid() && State() == S.RegisterVar(old(State()), old(VarState(v))).1
    {
      hide S.AddVar;
      AddRef(v);
      GroupAddVar(S.GROUP_ALL, v);
      GroupAddVar(if v.writable then S.GROUP_WRITE else S.GROUP_READ, v);
    }

    /** bsmp_register_curve; a new curve brings storage of its own. */
    method RegisterCurve(c: CurveRef) returns (err: S.Err)
      requires Valid() && c.store.Length == c.nblocks && c.checksum.Length == S.CSUM_SIZE
      requires HasCurve(c.handle) || (c.store !in owned && c.checksum !in owned && c.checksum != payload)
      modifies this`curves, this`owned
      ensures Valid()
      ensures var (e, t) := S.RegisterCurve(old(State()), old(CurveState(c)));
              var known := e == S.Success && old(HasCurve(c.handle));
              err == (if known then S.Duplicate else e) && State() == (if known then old(State()) else t)
    {
      if c.nblocks > S.CURVE_MAX_BLOCKS || c.blockSize > S.CURVE_BLOCK_MAX_SIZE { return S.ParamInvalid; }
      if |curves| >= S.MAX_CURVES { return S.OutOfMemory; }
      for i := 0 to |curves|
        invariant forall j :: 0 <= j < i ==> curves[j].handle != c.handle
      {
        if curves[i].handle == c.handle { return S.Duplicate; }
      }
      ghost var s := State();
      curves, owned := curves + [c.(id := |curves|)], owned + {c.store, c.checksum};
      assert CurveStates(curves, owned) == s.curves + [CurveState(c)];
      assert VarStates(vars, owned) == s.vars;
      err := S.Success;
    }

    /** bsmp_register_function */
    method RegisterFunction(handle: object, f: S.Func) returns (err: S.Err)
      requires Valid()
      modifies this`funcs, this`funcHandles
      ensures Valid()
      ensures var (e, t) := S.RegisterFunc(old(State()), f);
              var known := e == S.Success && handle in old(funcHandles);
              err == (if known then S.Duplicate else e) && State() == (if known then old(State()) else t)
    {
      if f.inputSize > S.FUNC_MAX_INPUT || f.outputSize > S.FUNC_MAX_OUTPUT { return S.OutOfRange; }
      if |funcs| >= S.MAX_FUNCTIONS { return S.OutOfMemory; }
      for i := 0 to |funcs|
        invariant forall j :: 0 <= j < i ==> funcHandles[j] != handle
      {
        if funcHandles[i] == handle { return S.Duplicate; }
      }
      funcs, funcHandles := funcs + [f], funcHandles + [handle];
      err := S.Success;
    }

    // ---- Packets ----

    /** The handlers that only read the tables. */
    method Query(command: u8, p: seq<u8>, busy: S.Busy)
      requires Valid() && I.Inv(State())
      modifies this`code, this`payloadSize, payload
      ensures Valid() && State() == old(State()) && Reply() == S.Query(old(State()), command, p, busy)
    {
      TableBounds();
      match command
      case 0x00 => QueryVersion(p);
      case 0x02 => VarQueryList(p);
      case 0x10 => VarRead(p);
      case 0x04 => GroupQueryList(p);
      case 0x06 => GroupQuery(p);
      case 0x12 => GroupRead(p);
      case 0x08 => CurveQueryList(p);
      case 0x0A => CurveQueryCsum(p);
      case 0x40 => CurveBlockRequest(p, busy);
      case 0x0C => FuncQueryList(p);
      case 0x50 => FuncExecute(p);
      case _ => Answer(S.OP_NOT_SUPPORTED);
    }

    /** The command table. */
    method Dispatch(command: u8, p: seq<u8>, busy: S.Busy)
      requires Valid() && I.Inv(State())
      modifies this`code, this`payloadSize, this`groupCount, groupList, payload, owned
      ensures Valid()
      ensures var o := S.Dispatch(old(State()), command, p, busy, Md5With(ops)); State() == o.server && Reply() == o.reply
    {
      TableBounds();
      match command
      case 0x20 => VarWrite(p);
      case 0x24 => VarBinOp(p);
      case 0x28 => VarWriteRead(p);
      case 0x22 => GroupWrite(p);
      case 0x26 => GroupBinOp(p);
      case 0x30 => GroupCreate(p);
      case 0x32 => GroupRemoveAll(p);
      case 0x41 => CurveBlockWrite(p, busy);
      case 0x42 => CurveRecalcCsum(p, busy);
      case _ => Query(command, p, busy);
    }

    /** bsmp_process_packet */
    method ProcessPacket(request: seq<u8>, busy: S.Busy) returns (response: seq<u8>)
      requires Valid() && I.Inv(State())
      modifies this`code, this`payloadSize, this`groupCount, groupList, payload, owned
      ensures Valid() && I.Inv(State())
      ensures (State(), response) == S.ProcessPacket(old(State()), request, busy, Md5With(ops))
    {
      hide S.Dispatch, I.Inv, S.Encode;
      if |request| < 3 || |request| != Word16(request[1], request[2]) + 3 {
        Answer(S.MALFORMED_MESSAGE);
      } else {
        I.DispatchKeepsInv(State(), request[0], request[3..], busy, Md5With(ops));
        Dispatch(request[0], request[3..], busy);
      }
      response := Respond();
    }

    /** The response packet: header and payload. */
    method Respond() returns (response: seq<u8>)
      requires Valid()
      ensures response == S.Encode(Reply())
    {
      var high: u8, low: u8 := payloadSize / 256 % 256, payloadSize % 256;
      response := [code, high, low] + payload[..payloadSize];
    }

    /** What the handlers need of the tables. */
    lemma TableBounds()
      requires Valid() && I.Inv(State())
      ensures |vars| <= S.MAX_VARIABLES && |curves| <= S.MAX_CURVES && |funcs| <= S.MAX_FUNCTIONS
      ensures S.GROUP_STANDARD_COUNT <= groupCount && S.GroupsSound(State().vars, State().groups)
      ensures forall i :: 0 <= i < groupCount ==> |groupList[i].ids| <= S.MAX_VARIABLES
      ensures forall i, k :: 0 <= i < |curves| && 0 <= k < curves[i].store.Length ==> |curves[i].store[k]| <= S.CURVE_BLOCK_MAX_SIZE
      ensures forall i, x :: 0 <= i < |funcs| ==> |funcs[i].exec(x).output| <= S.FUNC_MAX_OUTPUT
    {
      var s := State();
      forall i | 0 <= i < groupCount ensures |groupList[i].ids| <= S.MAX_VARIABLES {
        assert I.GroupOk(s.vars, s.groups[i]);
      }
      forall i, k | 0 <= i < |curves| && 0 <= k < curves[i].store.Length ensures |curves[i].store[k]| <= S.CURVE_BLOCK_MAX_SIZE {
        assert S.CurveOk(s.curves[i]) && s.curves[i].blocks[k] == curves[i].store[k];
      }
      forall i, x | 0 <= i < |funcs| ensures |funcs[i].exec(x).output| <= S.FUNC_MAX_OUTPUT {
        assert S.FuncOk(s.funcs[i]);
      }
    }
  }
}
