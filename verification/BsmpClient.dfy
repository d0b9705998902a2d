/** The BSMP client, joined to the server by a faithful link: the server's object and the function
    used here are the same by BsmpServer.Server.ProcessPacket. */
module BsmpClient {
  import opened Bytes
  import S = Bsmp
  import I = BsmpInvariant
  import G = BsmpGroups
  import B = BsmpBits
  import opened BsmpMirror
  import opened BsmpTransfer

  const NEVER_BUSY := S.Busy(_ => false, false)

  /** The commands that can change the server. */
  const UPDATES: set<u8> := {S.VAR_WRITE, S.VAR_BIN_OP, S.VAR_WRITE_READ, S.CMD_GROUP_WRITE, S.GROUP_BIN_OP,
                             S.GROUP_CREATE, S.GROUP_REMOVE_ALL, S.CURVE_BLOCK, S.CURVE_RECALC_CSUM}

  lemma QueryOnly(s: S.Server, code: u8, p: seq<u8>, busy: S.Busy, md5: seq<u8> -> seq<u8>)
    requires S.TablesOk(s) && |s.groups| >= S.GROUP_STANDARD_COUNT && code !in UPDATES
    ensures S.Dispatch(s, code, p, busy, md5) == S.Outcome(s, S.Query(s, code, p, busy))
  {
  }

  lemma RecalcAnswer(s: S.Server, id: u8, busy: S.Busy, md5: seq<u8> -> seq<u8>)
    requires forall k :: 0 <= k < |s.curves| ==> |s.curves[k].blocks| == s.curves[k].nblocks
    ensures S.CurveRecalcCsum(s, [id], busy, md5).reply.code != S.OK
  {
  }

  lemma OnlyVars(s: S.Server, p: seq<u8>)
    requires S.GroupsSound(s.vars, s.groups)
    ensures var t := S.GroupWrite(s, p).server; t == s.(vars := t.vars)
  {
  }

  // ---- Lists of curves on the wire ----

  lemma {:induction false} CurveListAt(cs: seq<S.Curve>, i: nat)
    requires i < |cs|
    ensures |S.CurveList(cs)| == 5 * |cs| && S.CurveList(cs)[5 * i..5 * i + 5] == S.CurveBytes(cs[i])
    decreases |cs|
  {
    var n := |cs| - 1;
    I.CurveListLength(cs);
    I.CurveListLength(cs[..n]);
    if i < n { CurveListAt(cs[..n], i); }
  }

  /** The link's encoding is undone by the decoding of both sides. */
  lemma PacketDecodes(m: S.Msg)
    requires |m.payload| < U16_MOD
    ensures var r := S.Encode(m); r[0] == m.code && Word16(r[1], r[2]) == |m.payload| && r[3..] == m.payload
  {
    WordBytes(|m.payload|);
  }

  /** A server without the command is version 1.0. */
  method VersionOf(m: S.Msg) returns (v: (u8, u8, u8))
    requires m.code == S.OP_NOT_SUPPORTED || |m.payload| >= 3
    ensures v == if m.code == S.OP_NOT_SUPPORTED then (1, 0, 0) else (m.payload[0], m.payload[1], m.payload[2])
  {
    if m.code == S.OP_NOT_SUPPORTED {
      v := (1, 0, 0);
    } else {
      v := (m.payload[0], m.payload[1], m.payload[2]);
    }
  }

  /** The loop of update_vars_list. */
  method VarsOf(payload: seq<u8>) returns (list: seq<VarInfo>)
    requires |payload| <= S.MAX_VARIABLES
    ensures |list| == |payload| && forall i :: 0 <= i < |list| ==> list[i] == DecodeVar(i, payload[i])
  {
    list := [];
    for i := 0 to |payload|
      invariant |list| == i && forall j :: 0 <= j < i ==> list[j] == DecodeVar(j, payload[j])
    {
      var size := payload[i] % 128;
      if size == 0 { size := S.VAR_MAX_SIZE; }
      list := list + [VarInfo(i, payload[i] >= 128, size)];
    }
  }

  /** The loop of update_funcs_list. */
  method FuncsOf(payload: seq<u8>) returns (list: seq<FuncInfo>)
    requires |payload| <= S.MAX_FUNCTIONS
    ensures |list| == |payload| && forall i :: 0 <= i < |list| ==> list[i] == DecodeFunc(i, payload[i])
  {
    list := [];
    for i := 0 to |payload|
      invariant |list| == i && forall j :: 0 <= j < i ==> list[j] == DecodeFunc(j, payload[j])
    {
      list := list + [FuncInfo(i, payload[i] / 16, payload[i] % 16)];
    }
  }

  /** The size loop of update_groups_list. */
  method AddSizes(vars: seq<VarInfo>, ids: seq<u8>) returns (size: u16)
    requires forall k :: 0 <= k < |ids| ==> ids[k] < |vars|
    ensures size == KnownSize(vars, ids)
  {
    size := 0;
    for j := 0 to |ids|
      invariant size == KnownSize(vars, ids[..j])
    {
      assert ids[..j + 1][..j] == ids[..j];
      size := (size + vars[ids[j]].size) % U16_MOD;
    }
    assert ids[..|ids|] == ids;
  }

  lemma LearnedGroupsPrefix(s: S.Server, i: nat)
    requires I.Inv(s)
    ensures |LearnedGroups(s)| == |s.groups|
    ensures i < |s.groups| ==>
              && S.MembersOk(s.vars, s.groups[i].ids) && |LearnedVars(s)| == |s.vars|
              && LearnedGroups(s)[..i + 1]
                == LearnedGroups(s)[..i] + [DecodeGroup(i, S.GroupByte(s.groups[i]), s.groups[i].ids, LearnedVars(s))]
  {
    assert i < |s.groups| ==> I.GroupOk(s.vars, s.groups[i]);
  }

  lemma LearnedPrefix(s: S.Server, i: nat)
    requires |s.curves| <= S.MAX_CURVES
    ensures |LearnedCurves(s)| == |s.curves|
    ensures i < |s.curves| ==>
              LearnedCurves(s)[..i + 1]
                == LearnedCurves(s)[..i] + [DecodeCurve(i, S.CurveBytes(s.curves[i]), s.curves[i].checksum)]
  {
  }

  /** What the server does with one block that fits. */
  lemma BlockWritten(s: S.Server, id: u8, offset: u16, data: seq<u8>, busy: S.Busy)
    requires forall k :: 0 <= k < |s.curves| ==> |s.curves[k].blocks| == s.curves[k].nblocks
    requires id < |s.curves| && offset < s.curves[id].nblocks && S.CurveOk(s.curves[id]) && |data| <= s.curves[id].blockSize
    ensures var o := S.CurveBlockWrite(s, [id, offset / 256, offset % 256] + data, busy);
            && (o.reply.code == S.OK <==> s.curves[id].writable && !busy.write && data != [])
            && (o.reply.code == S.OK ==> o.server == PutBlock(s, id, offset, data) && S.CurveOk(o.server.curves[id]))
            && (o.reply.code != S.OK ==> o.server == s)
  {
    WordBytes(offset);
    assert ([id, offset / 256, offset % 256] + data)[3..] == data;
  }

  // ---- Single variables and functions ----

  /** The letters of the operations, in the order of the client's enumeration. */
  const LETTERS: string := "AOXSCT"

  lemma LetterIsOperation(op: nat)
    requires op < |LETTERS|
    ensures B.IsOperation(LETTERS[op] as int) && S.OpOf(LETTERS[op] as int).Some?
  {
  }

  /** The enumeration is and, or, exclusive or, set, clear, toggle. */
  lemma LettersMean(op: nat, was: bool, mask: bool)
    requires op < |LETTERS|
    ensures |LETTERS| == 6 && B.IsOperation(LETTERS[op] as int)
    ensures B.NewDigit(LETTERS[op] as int, was, mask)
       == if op == 0 then was && mask else if op == 4 then was && !mask else if op == 2 || op == 5 then was != mask else was || mask
  {
  }

  lemma VarLearned(id: u8, v: S.Var)
    requires S.VarOk(v)
    ensures DecodeVar(id, S.VarByte(v)) == VarInfo(id, v.writable, if v.size == 0 then 128 else v.size)
  {
  }

  /** A value that the variable can hold. */
  predicate Holds(v: S.Var, x: seq<u8>) { |x| == v.size && v.accepts(x) && x != [] }

  /** What the server does with a value. */
  lemma VarWritten(s: S.Server, id: u8, x: seq<u8>)
    requires id < |s.vars|
    ensures var o := S.VarWrite(s, [id] + x);
            && (o.reply.code == S.OK <==> s.vars[id].writable && Holds(s.vars[id], x))
            && o.server == if o.reply.code == S.OK then S.Assign(s, id, x) else s
  {
    assert ([id] + x)[1..] == x;
  }

  lemma VarWrittenAndRead(s: S.Server, w: u8, r: u8, x: seq<u8>)
    requires w < |s.vars| && r < |s.vars|
    ensures var o := S.VarWriteRead(s, [w, r] + x);
            && (o.reply.code == S.VAR_VALUE <==> s.vars[w].writable && Holds(s.vars[w], x))
            && o.server == (if o.reply.code == S.VAR_VALUE then S.Assign(s, w, x) else s)
            && (o.reply.code == S.VAR_VALUE ==> o.reply.payload == if r == w then x else s.vars[r].data)
  {
    assert ([w, r] + x)[2..] == x;
  }

  /** Every binary digit of the variable is as the operation makes it, and nothing else has changed. */
  ghost predicate VarMasked(s: S.Server, t: S.Server, i: nat, op: nat, mask: seq<u8>) {
    && op < |LETTERS| && i < |s.vars| == |t.vars| && t == S.Assign(s, i, t.vars[i].data)
    && B.AllChanged(LETTERS[op] as int, s.vars[i].data, mask, t.vars[i].data)
  }

  /** Likewise for the values of a group, one after the other. */
  ghost predicate GroupMasked(s: S.Server, t: S.Server, k: nat, op: nat, mask: seq<u8>) {
    && op < |LETTERS| && k < |s.groups| && |s.vars| == |t.vars| && t == s.(vars := t.vars)
    && var ids := s.groups[k].ids;
       && S.MembersOk(s.vars, ids) && S.MembersOk(t.vars, ids)
       && B.AllChanged(LETTERS[op] as int, S.Values(s.vars, ids), mask, S.Values(t.vars, ids))
       && forall i :: 0 <= i < |s.vars| && i !in ids ==> t.vars[i] == s.vars[i]
  }

  /** What the server does with a mask. */
  lemma MaskedVar(s: S.Server, id: u8, op: nat, mask: seq<u8>)
    requires I.Inv(s) && id < |s.vars| && op < |LETTERS|
    ensures var o := S.VarBinOp(s, [id, LETTERS[op] as int] + mask);
            && (o.reply.code == S.OK <==> s.vars[id].writable && |mask| == s.vars[id].size && mask != [])
            && if o.reply.code == S.OK then VarMasked(s, o.server, id, op, mask) else o.server == s
  {
    var p := [id, LETTERS[op] as int] + mask;
    assert p[2..] == mask;
    LetterIsOperation(op);
    hide B.AllChanged, B.IsOperation, S.ApplyMask;
    if S.VarBinOp(s, p).reply.code == S.OK { B.VarBinOpMeaning(s, p); }
  }

  lemma MaskedGroup(s: S.Server, id: u8, op: nat, mask: seq<u8>)
    requires I.Inv(s) && id < |s.groups| && |mask| == s.groups[id].size && op < |LETTERS|
    ensures var o := S.GroupBinOp(s, [id, LETTERS[op] as int] + mask);
            && (o.reply.code == S.OK <==> s.groups[id].writable) && |mask| + 2 < U16_MOD
            && if o.reply.code == S.OK then GroupMasked(s, o.server, id, op, mask) else o.server == s
  {
    var p := [id, LETTERS[op] as int] + mask;
    assert p[2..] == mask;
    LetterIsOperation(op);
    assert I.GroupOk(s.vars, s.groups[id]);
    I.SumSizesBound(s.vars, s.groups[id].ids);
    hide B.AllChanged, B.IsOperation, S.MaskMembers, S.Values, I.GroupOk;
    if S.GroupBinOp(s, p).reply.code == S.OK { B.GroupBinOpMeaning(s, p); }
  }

  lemma FuncExecuted(s: S.Server, id: u8, input: seq<u8>)
    requires id < |s.funcs| && |input| == s.funcs[id].inputSize
    ensures var m, f := S.FuncExecute(s, [id] + input), s.funcs[id].exec(input);
            if f.ret == 0 then m == S.Msg(S.FUNC_RETURN, f.output) else m == S.Msg(S.FUNC_ERROR, [f.ret])
  {
    assert ([id] + input)[1..] == input;
  }

  class Client {
    const md5: seq<u8> -> seq<u8> // the checksum function of the server
    var remote: S.Server          // the server at the other end of the link
    var version: (u8, u8, u8)
    var vars: seq<VarInfo>
    var groups: seq<GroupInfo>
    var curves: seq<CurveInfo>
    var funcs: seq<FuncInfo>

    ghost predicate Linked()
      reads this
    {
      I.Inv(remote) && forall x :: |md5(x)| == S.CSUM_SIZE
    }

    ghost function Known(): Tables
      reads this
    {
      Tables(vars, groups, curves, funcs)
    }

    constructor (server: S.Server, checksum: seq<u8> -> seq<u8>)
      requires I.Inv(server) && forall x :: |checksum(x)| == S.CSUM_SIZE
      ensures remote == server && md5 == checksum && Linked() && Known() == Tables([], [], [], [])
    {
      remote, md5 := server, checksum;
      version, vars, groups, curves, funcs := (0, 0, 0), [], [], [], [];
    }

    /** command: one request and its response over a faithful link. */
    method Command(code: u8, p: seq<u8>, busy: S.Busy) returns (m: S.Msg)
      requires Linked() && |p| < U16_MOD
      modifies this`remote
      ensures Linked()
      ensures var o := S.Dispatch(old(remote), code, p, busy, md5); remote == o.server && m == o.reply
    {
      PacketDecodes(S.Msg(code, p));
      I.ResponseFits(remote, code, p, busy, md5);
      I.DispatchKeepsInv(remote, code, p, busy, md5);
      PacketDecodes(S.Dispatch(remote, code, p, busy, md5).reply);
      var (server, response) := S.ProcessPacket(remote, S.Encode(S.Msg(code, p)), busy, md5);
      remote := server;
      m := S.Msg(response[0], response[3..3 + Word16(response[1], response[2])]);
    }

    /** A command that leaves the server as it is. */
    method Ask(code: u8, p: seq<u8>, busy: S.Busy) returns (m: S.Msg)
      requires Linked() && |p| < U16_MOD
      requires code !in UPDATES
      modifies this`remote
      ensures Linked() && remote == old(remote)
      ensures m == S.Query(remote, code, p, busy)
    {
      QueryOnly(remote, code, p, busy, md5);
      m := Command(code, p, busy);
    }

    method AskVersion() returns (m: S.Msg)
      requires Linked()
      modifies this`remote
      ensures Linked() && remote == old(remote) && m == S.QueryVersion(remote, [])
    {
      m := Ask(S.QUERY_VERSION, [], NEVER_BUSY);
    }

    method AskVars() returns (m: S.Msg)
      requires Linked()
      modifies this`remote
      ensures Linked() && remote == old(remote) && m == S.VarQueryList(remote, [])
    {
      m := Ask(S.VAR_QUERY_LIST, [], NEVER_BUSY);
    }

    method AskGroups() returns (m: S.Msg)
      requires Linked()
      modifies this`remote
      ensures Linked() && remote == old(remote) && m == S.GroupQueryList(remote, [])
    {
      m := Ask(S.GROUP_QUERY_LIST, [], NEVER_BUSY);
    }

    method AskGroup(id: u8) returns (m: S.Msg)
      requires Linked()
      modifies this`remote
      ensures Linked() && remote == old(remote) && m == S.GroupQuery(remote, [id])
    {
      m := Ask(S.GROUP_QUERY, [id], NEVER_BUSY);
    }

    method AskCurves() returns (m: S.Msg)
      requires Linked()
      modifies this`remote
      ensures Linked() && remote == old(remote) && m == S.CurveQueryList(remote, [])
    {
      m := Ask(S.CURVE_QUERY_LIST, [], NEVER_BUSY);
    }

    method AskChecksum(id: u8) returns (m: S.Msg)
      requires Linked()
      modifies this`remote
      ensures Linked() && remote == old(remote) && m == S.CurveQueryCsum(remote, [id])
    {
      m := Ask(S.CURVE_QUERY_CSUM, [id], NEVER_BUSY);
    }

    method AskFuncs() returns (m: S.Msg)
      requires Linked()
      modifies this`remote
      ensures Linked() && remote == old(remote) && m == S.FuncQueryList(remote, [])
    {
      m := Ask(S.FUNC_QUERY_LIST, [], NEVER_BUSY);
    }

    // ---- The lists ----

    /** get_version */
    method GetVersion() returns (err: S.Err)
      requires Linked()
      modifies this`remote, this`version
      ensures Linked() && remote == old(remote)
      ensures err == S.Success && version == (2, 20, 0)
    {
      var m := AskVersion();
      version := VersionOf(m);
      err := S.Success;
    }

    /** update_vars_list */
    method UpdateVars() returns (err: S.Err)
      requires Linked()
      modifies this`remote, this`vars
      ensures Linked() && remote == old(remote)
      ensures err == S.Success && vars == LearnedVars(remote)
    {
      var m := AskVars();
      if m.code != S.VAR_LIST { return S.Comm; }
      vars := VarsOf(m.payload);
      err := S.Success;
    }

    /** update_funcs_list */
    method UpdateFuncs() returns (err: S.Err)
      requires Linked()
      modifies this`remote, this`funcs
      ensures Linked() && remote == old(remote)
      ensures err == S.Success && funcs == LearnedFuncs(remote)
    {
      var m := AskFuncs();
      if m.code != S.FUNC_LIST { return S.Comm; }
      funcs := FuncsOf(m.payload);
      err := S.Success;
    }

    /** update_curves_list */
    method UpdateCurves() returns (err: S.Err)
      requires Linked()
      modifies this`remote, this`curves
      ensures Linked() && remote == old(remote)
      ensures err == S.Success && curves == LearnedCurves(remote)
    {
      assert |remote.curves| <= S.MAX_CURVES;
      var m := AskCurves();
      if m.code != S.CURVE_LIST { return S.Comm; }
      ghost var s := remote;
      I.CurveListLength(s.curves);
      LearnedPrefix(s, 0);
      hide I.Inv, S.CurveList, S.CurveOk, S.CurveBytes, DecodeCurve, LearnedCurves;
      curves := [];
      var at := 0;
      for i := 0 to |m.payload| / 5
        invariant Linked() && remote == s
        invariant at == 5 * i && curves == LearnedCurves(s)[..i]
      {
        CurveListAt(s.curves, i);
        LearnedPrefix(s, i);
        var c := LearnCurve(i, m.payload[at..at + 5]);
        at := at + 5;
        curves := curves + [c];
      }
      err := S.Success;
    }

    /** One curve of the list, with its checksum. */
    method LearnCurve(i: u8, b: seq<u8>) returns (c: CurveInfo)
      requires Linked() && i < |remote.curves| && |b| == 5
      modifies this`remote
      ensures Linked() && remote == old(remote) && c == DecodeCurve(i, b, remote.curves[i].checksum)
    {
      var csum := AskChecksum(i);
      var checksum := if csum.code == S.CURVE_CSUM then csum.payload else S.NO_CHECKSUM;
      c := DecodeCurve(i, b, checksum);
    }

    /** One group of the list, with its members. */
    method LearnGroup(i: u8, b: u8) returns (err: S.Err, g: GroupInfo)
      requires Linked() && i < |remote.groups| && |vars| == |remote.vars|
      modifies this`remote
      ensures Linked() && remote == old(remote) && err == S.Success
      ensures S.MembersOk(remote.vars, remote.groups[i].ids) && g == DecodeGroup(i, b, remote.groups[i].ids, vars)
    {
      g := GroupInfo(i, b >= 128, 0, b % 128, []);
      var answer := AskGroup(i);
      if answer.code != S.GROUP { return S.Comm, g; }
      assert I.GroupOk(remote.vars, remote.groups[i]);
      var size := AddSizes(vars, answer.payload);
      return S.Success, g.(size := size, ids := answer.payload);
    }

    /** update_groups_list */
    method UpdateGroups() returns (err: S.Err)
      requires Linked() && vars == LearnedVars(remote)
      modifies this`remote, this`groups
      ensures Linked() && remote == old(remote)
      ensures err == S.Success && groups == LearnedGroups(remote)
    {
      var m := AskGroups();
      if m.code != S.GROUP_LIST { return S.Comm; }
      ghost var s := remote;
      assert |vars| == |s.vars|;
      LearnedGroupsPrefix(s, 0);
      hide I.Inv, LearnedGroups, LearnedVars, DecodeGroup, S.GroupByte;
      groups := [];
      var list := [];
      for i := 0 to |m.payload|
        invariant Linked() && remote == s && groups == []
        invariant list == LearnedGroups(s)[..i]
      {
        LearnedGroupsPrefix(s, i);
        var g;
        err, g := LearnGroup(i, m.payload[i]);
        if err != S.Success { return; }
        list := list + [g];
      }
      groups := list;
      err := S.Success;
    }

    /** bsmp_client_init */
    method Init() returns (err: S.Err)
      requires Linked()
      modifies this`remote, this`version, this`vars, this`groups, this`curves, this`funcs
      ensures Linked() && remote == old(remote)
      ensures err == S.Success && Known() == Learned(remote)
      ensures Known() == TrueTables(remote) <==> Representable(remote)
    {
      hide I.Inv;
      vars, groups, curves, funcs := [], [], [], [];
      err := GetVersion();
      if err != S.Success { return; }
      err := UpdateVars();
      if err != S.Success { return; }
      err := UpdateGroups();
      if err != S.Success { return; }
      err := UpdateCurves();
      if err != S.Success { return; }
      err := UpdateFuncs();
      if err != S.Success { return; }
      MirrorIsExact(remote);
    }

    // ---- Single variables ----

    /** What Init leaves the client with: all is true, except that an empty variable is taken for one of 128 bytes. */
    lemma KnownVar(i: nat)
      requires Linked() && Known() == Learned(remote)
      ensures |vars| == |remote.vars|
      ensures i < |vars| ==>
                var v := remote.vars[i];
                vars[i].id == i && vars[i].writable == v.writable && vars[i].size == if v.size == 0 then 128 else v.size
    {
      hide DecodeVar, S.VarByte, S.CurveOk, S.FuncOk, S.GroupsSound, I.GroupOk, LearnedGroups, LearnedCurves, LearnedFuncs;
      if i < |vars| {
        assert S.VarOk(remote.vars[i]);
        VarLearned(i, remote.vars[i]);
      }
    }

    lemma KnownFunc(k: nat)
      requires Linked() && Known() == Learned(remote)
      ensures |funcs| == |remote.funcs|
      ensures k < |funcs| ==>
                && S.FuncOk(remote.funcs[k]) && funcs[k].id == k
                && funcs[k].inputSize == remote.funcs[k].inputSize && funcs[k].outputSize == remote.funcs[k].outputSize
    {
      if k < |funcs| {
        assert S.FuncOk(remote.funcs[k]);
        FuncDecodes(k, remote.funcs[k]);
      }
    }

    /** bsmp_read_var */
    method ReadVar(i: nat) returns (err: S.Err, value: seq<u8>)
      requires Linked() && Known() == Learned(remote)
      modifies this`remote
      ensures Linked() && remote == old(remote)
      ensures err == if i < |vars| then S.Success else S.ParamInvalid
      ensures err == S.Success ==> value == remote.vars[i].data
    {
      hide I.Inv, Learned;
      KnownVar(i);
      if i >= |vars| { return S.ParamInvalid, []; }
      var m := AskVar(vars[i].id);
      if m.code != S.VAR_VALUE { return S.Comm, []; }
      return S.Success, m.payload;
    }

    method AskVar(id: u8) returns (m: S.Msg)
      requires Linked()
      modifies this`remote
      ensures Linked() && remote == old(remote) && m == S.VarRead(remote, [id])
    {
      m := Ask(S.VAR_READ, [id], NEVER_BUSY);
    }

    /** bsmp_write_var: success means that the variable is writable, its checker agrees and it holds the value. */
    method WriteVar(i: nat, value: seq<u8>) returns (err: S.Err)
      requires Linked() && Known() == Learned(remote) && (i < |vars| ==> |value| == vars[i].size)
      modifies this`remote
      ensures Linked()
      ensures err == S.ParamInvalid <==> i >= |vars| || !old(remote).vars[i].writable
      ensures err == S.Success <==> err != S.ParamInvalid && Holds(old(remote).vars[i], value)
      ensures remote == if err == S.Success then S.Assign(old(remote), i, value) else old(remote)
    {
      hide I.Inv, Learned, S.VarWrite, S.Assign;
      KnownVar(i);
      if i >= |vars| { return S.ParamInvalid; }
      if !vars[i].writable { return S.ParamInvalid; }
      VarWritten(remote, i, value);
      var m := TellVar([vars[i].id] + value);
      if m.code != S.OK { return S.Comm; }
      err := S.Success;
    }

    method TellVar(p: seq<u8>) returns (m: S.Msg)
      requires Linked() && |p| < U16_MOD
      modifies this`remote
      ensures Linked() && S.Outcome(remote, m) == S.VarWrite(old(remote), p)
    {
      hide S.VarWrite;
      m := Command(S.VAR_WRITE, p, NEVER_BUSY);
    }

    /** bsmp_write_read_vars: the write, and then the value of the other variable. */
    method WriteReadVars(w: nat, value: seq<u8>, r: nat) returns (err: S.Err, read: seq<u8>)
      requires Linked() && Known() == Learned(remote) && (w < |vars| ==> |value| == vars[w].size)
      modifies this`remote
      ensures Linked()
      ensures err == S.ParamInvalid <==> w >= |vars| || !old(remote).vars[w].writable || r >= |vars|
      ensures err == S.Success <==> err != S.ParamInvalid && Holds(old(remote).vars[w], value)
      ensures remote == if err == S.Success then S.Assign(old(remote), w, value) else old(remote)
      ensures err == S.Success ==> read == if r == w then value else old(remote).vars[r].data
    {
      hide I.Inv, Learned, S.VarWriteRead, S.Assign;
      KnownVar(w);
      KnownVar(r);
      if w >= |vars| || !vars[w].writable { return S.ParamInvalid, []; }
      if r >= |vars| { return S.ParamInvalid, []; }
      VarWrittenAndRead(remote, w, r, value);
      var m := TellVars([vars[w].id, vars[r].id] + value);
      if m.code != S.VAR_VALUE { return S.Comm, []; }
      return S.Success, m.payload;
    }

    method TellVars(p: seq<u8>) returns (m: S.Msg)
      requires Linked() && |p| < U16_MOD
      modifies this`remote
      ensures Linked() && S.Outcome(remote, m) == S.VarWriteRead(old(remote), p)
    {
      hide S.VarWriteRead;
      m := Command(S.VAR_WRITE_READ, p, NEVER_BUSY);
    }

    /** bsmp_bin_op_var: success means that every binary digit of the variable is as the operation makes it. */
    method BinOpVar(op: nat, i: nat, mask: seq<u8>) returns (err: S.Err)
      requires Linked() && Known() == Learned(remote) && (i < |vars| ==> |mask| == vars[i].size)
      modifies this`remote
      ensures Linked()
      ensures err == S.ParamInvalid <==> i >= |vars| || !old(remote).vars[i].writable
      ensures err == S.OutOfRange <==> err != S.ParamInvalid && op >= |LETTERS|
      ensures err == S.Success <==> err != S.ParamInvalid && err != S.OutOfRange && |mask| == old(remote).vars[i].size
      ensures if err == S.Success then VarMasked(old(remote), remote, i, op, mask) else remote == old(remote)
    {
      hide I.Inv, Learned, S.VarBinOp, VarMasked;
      KnownVar(i);
      if i >= |vars| { return S.ParamInvalid; }
      if !vars[i].writable { return S.ParamInvalid; }
      if op >= |LETTERS| { return S.OutOfRange; }
      MaskedVar(remote, i, op, mask);
      var m := TellMask([vars[i].id, LETTERS[op] as int] + mask);
      if m.code != S.OK { return S.Comm; }
      err := S.Success;
    }

    method TellMask(p: seq<u8>) returns (m: S.Msg)
      requires Linked() && |p| < U16_MOD
      modifies this`remote
      ensures Linked()
      ensures (forall k :: 0 <= k < |old(remote).vars| ==> |old(remote).vars[k].data| == old(remote).vars[k].size)
              && S.Outcome(remote, m) == S.VarBinOp(old(remote), p)
    {
      assert forall k :: 0 <= k < |remote.vars| ==> S.VarOk(remote.vars[k]);
      hide S.VarBinOp;
      m := Command(S.VAR_BIN_OP, p, NEVER_BUSY);
    }

    lemma KnownGroup(k: nat)
      requires Linked() && Known() == TrueTables(remote)
      ensures |groups| == |remote.groups|
      ensures k < |groups| ==>
                var g := remote.groups[k];
                groups[k].id == k && groups[k].writable == g.writable && groups[k].size == g.size
    {
      assert k < |groups| ==> I.GroupOk(remote.vars, remote.groups[k]);
    }

    /** bsmp_bin_op_group: likewise for the values of all members; the other variables stay. */
    method BinOpGroup(op: nat, k: nat, mask: seq<u8>) returns (err: S.Err)
      requires Linked() && Known() == TrueTables(remote) && (k < |groups| ==> |mask| == groups[k].size)
      modifies this`remote
      ensures Linked()
      ensures err == S.ParamInvalid <==> k >= |groups| || !old(remote).groups[k].writable
      ensures err == S.OutOfRange <==> err != S.ParamInvalid && op >= |LETTERS|
      ensures err == S.Success <==> err != S.ParamInvalid && err != S.OutOfRange
      ensures if err == S.Success then GroupMasked(old(remote), remote, k, op, mask) else remote == old(remote)
    {
      hide I.Inv, I.GroupOk, S.GroupBinOp, GroupMasked, S.GroupsSound, TrueTables;
      KnownGroup(k);
      if k >= |groups| { return S.ParamInvalid; }
      if !groups[k].writable { return S.ParamInvalid; }
      if op >= |LETTERS| { return S.OutOfRange; }
      MaskedGroup(remote, k, op, mask);
      var m := TellGroupMask([groups[k].id, LETTERS[op] as int] + mask);
      if m.code != S.OK { return S.Comm; }
      err := S.Success;
    }

    method TellGroupMask(p: seq<u8>) returns (m: S.Msg)
      requires Linked() && |p| < U16_MOD
      modifies this`remote
      ensures Linked()
      ensures (forall k :: 0 <= k < |old(remote).vars| ==> |old(remote).vars[k].data| == old(remote).vars[k].size)
              && S.GroupsSound(old(remote).vars, old(remote).groups) && S.Outcome(remote, m) == S.GroupBinOp(old(remote), p)
    {
      assert forall k :: 0 <= k < |remote.vars| ==> S.VarOk(remote.vars[k]);
      hide S.GroupBinOp;
      m := Command(S.GROUP_BIN_OP, p, NEVER_BUSY);
    }

    // ---- Functions ----

    /** bsmp_func_execute: the error is the return code of the function, and the output is its output
        exactly when that is zero. */
    method ExecuteFunc(k: nat, input: seq<u8>) returns (err: S.Err, error: u8, output: seq<u8>)
      requires Linked() && Known() == Learned(remote) && (k < |funcs| ==> |input| == funcs[k].inputSize)
      modifies this`remote
      ensures Linked() && remote == old(remote)
      ensures err == if k < |funcs| then S.Success else S.ParamInvalid
      ensures err == S.Success ==>
                var f := remote.funcs[k].exec(input);
                error == f.ret && output == if f.ret == 0 then f.output else []
    {
      hide I.Inv, Learned, S.FuncExecute;
      KnownFunc(k);
      error, output := 0, [];
      if k >= |funcs| { return S.ParamInvalid, error, output; }
      FuncExecuted(remote, k, input);
      assert |remote.funcs[k].exec(input).output| == funcs[k].outputSize;
      var m := AskFunc([funcs[k].id] + input);
      if m.code == S.FUNC_RETURN { return S.Success, 0, m.payload[..funcs[k].outputSize]; }
      if m.code == S.FUNC_ERROR { return S.Success, m.payload[0], []; }
      err := S.Comm;
    }

    method AskFunc(p: seq<u8>) returns (m: S.Msg)
      requires Linked() && |p| < U16_MOD
      modifies this`remote
      ensures Linked() && remote == old(remote) && m == S.FuncExecute(remote, p)
    {
      hide S.FuncExecute;
      m := Ask(S.FUNC_EXECUTE, p, NEVER_BUSY);
    }

    // ---- Groups ----

    /** bsmp_create_group, for the variables at the given positions of the client's table */
    method CreateGroup(list: seq<u8>) returns (err: S.Err)
      requires Linked() && |list| < U16_MOD && Known() == Learned(remote)
      modifies this`remote, this`groups
      ensures Linked() && Known() == Learned(remote)
      ensures err == S.ParamInvalid <==> list == [] || exists k :: 0 <= k < |list| && list[k] >= |vars|
      ensures err == S.Success <==> err != S.ParamInvalid && S.GroupCreate(old(remote), list).reply.code == S.OK
      ensures remote == if err == S.Success then S.GroupCreate(old(remote), list).server else old(remote)
    {
      var p := [];
      for k := 0 to |list|
        invariant p == list[..k] && forall j :: 0 <= j < k ==> list[j] < |vars|
      {
        if list[k] >= |vars| { return S.ParamInvalid; }
        p := p + [vars[list[k]].id];
      }
      assert p == list;
      if p == [] { return S.ParamInvalid; }
      OnlyGroups(remote, p);
      RejectedCreate(remote, p);
      var m := AskCreate(p);
      if m.code != S.OK { return S.Comm; }
      err := S.Success;
      var _ := UpdateGroups();
    }

    method AskCreate(p: seq<u8>) returns (m: S.Msg)
      requires Linked() && |p| < U16_MOD
      modifies this`remote
      ensures Linked() && remote == S.GroupCreate(old(remote), p).server && m == S.GroupCreate(old(remote), p).reply
    {
      m := Command(S.GROUP_CREATE, p, NEVER_BUSY);
    }

    /** bsmp_remove_all_groups */
    method RemoveAllGroups() returns (err: S.Err)
      requires Linked() && Known() == Learned(remote)
      modifies this`remote, this`groups
      ensures Linked() && Known() == Learned(remote)
      ensures err == S.Success && remote == old(remote).(groups := old(remote).groups[..S.GROUP_STANDARD_COUNT])
    {
      var m := AskRemove();
      if m.code != S.OK { return S.Comm; }
      err := S.Success;
      var _ := UpdateGroups();
    }

    method AskRemove() returns (m: S.Msg)
      requires Linked()
      modifies this`remote
      ensures Linked() && m == S.Msg(S.OK, [])
      ensures remote == old(remote).(groups := old(remote).groups[..S.GROUP_STANDARD_COUNT])
    {
      m := Command(S.GROUP_REMOVE_ALL, [], NEVER_BUSY);
    }

    /** bsmp_read_group */
    method ReadGroup(k: nat) returns (err: S.Err, values: seq<u8>)
      requires Linked() && Known() == TrueTables(remote) && k < |groups|
      modifies this`remote
      ensures Linked() && remote == old(remote) && err == S.Success
      ensures S.MembersOk(remote.vars, remote.groups[k].ids) && values == S.Values(remote.vars, remote.groups[k].ids)
    {
      assert I.GroupOk(remote.vars, remote.groups[k]);
      var m := AskValues(groups[k].id);
      if m.code != S.GROUP_VALUES { return S.Comm, []; }
      return S.Success, m.payload;
    }

    method AskValues(id: u8) returns (m: S.Msg)
      requires Linked()
      modifies this`remote
      ensures Linked() && remote == old(remote)
      ensures S.GroupsSound(remote.vars, remote.groups) && m == S.GroupRead(remote, [id])
    {
      m := Ask(S.CMD_GROUP_READ, [id], NEVER_BUSY);
    }

    /** bsmp_write_group: a reported success means that the group now has exactly these values. */
    method WriteGroup(k: nat, values: seq<u8>) returns (err: S.Err)
      requires Linked() && Known() == TrueTables(remote) && k < |groups| && |values| == groups[k].size
      modifies this`remote
      ensures Linked()
      ensures remote == old(remote).(vars := remote.vars) && (err == S.ParamInvalid ==> remote == old(remote))
      ensures err == S.ParamInvalid <==> !old(remote).groups[k].writable
      ensures err == S.Success ==> S.MembersOk(remote.vars, remote.groups[k].ids) && S.Values(remote.vars, remote.groups[k].ids) == values
    {
      if !groups[k].writable { return S.ParamInvalid; }
      ghost var s := remote;
      assert I.GroupOk(s.vars, s.groups[k]);
      I.SumSizesBound(s.vars, s.groups[k].ids);
      var p := [groups[k].id] + values;
      assert p[1..] == values;
      var m := TellGroup(p);
      if m.code != S.OK { return S.Comm; }
      G.GroupWriteValues(s, p);
      err := S.Success;
    }

    method TellGroup(p: seq<u8>) returns (m: S.Msg)
      requires Linked() && |p| < U16_MOD
      modifies this`remote
      ensures Linked() && remote == old(remote).(vars := remote.vars)
      ensures S.GroupsSound(old(remote).vars, old(remote).groups) && S.Outcome(remote, m) == S.GroupWrite(old(remote), p)
    {
      OnlyVars(remote, p);
      hide S.GroupWrite;
      m := Command(S.CMD_GROUP_WRITE, p, NEVER_BUSY);
    }

    // ---- Curves ----

    /** What the block commands need to know about a curve. */
    ghost predicate CurveKnown(i: nat)
      reads this
    {
      && i < |curves| <= |remote.curves| && curves[i].id == i && S.CurveOk(remote.curves[i])
      && curves[i].writable == remote.curves[i].writable
      && curves[i].nblocks == remote.curves[i].nblocks && curves[i].blockSize == remote.curves[i].blockSize
    }

    lemma KnownCurve(i: nat)
      requires CurveKnown(i)
      ensures i < |curves| <= |remote.curves|
      ensures var c, d := remote.curves[i], curves[i];
              |c.blocks| == c.nblocks == d.nblocks && c.writable == d.writable && c.blockSize == d.blockSize
    {
    }

    /** The tables of Init suffice, unless the curve has no block. */
    lemma InitKnowsCurves(i: nat)
      requires I.Inv(remote) && Known() == Learned(remote) && i < |curves| && remote.curves[i].nblocks >= 1
      ensures CurveKnown(i)
    {
      assert S.CurveOk(remote.curves[i]);
      CurveDecodes(i, remote.curves[i]);
    }

    /** bsmp_request_curve_block */
    method RequestBlock(i: nat, offset: u16, busy: S.Busy) returns (err: S.Err, data: seq<u8>)
      requires Linked() && CurveKnown(i) && offset < curves[i].nblocks
      modifies this`remote
      ensures Linked() && remote == old(remote)
      ensures err == if busy.read(offset) then S.Comm else S.Success
      ensures err == S.Success ==> data == remote.curves[i].blocks[offset] && |data| <= curves[i].blockSize
    {
      WordBytes(offset);
      var m := AskBlock([curves[i].id, offset / 256, offset % 256], busy);
      if m.code != S.CURVE_BLOCK { return S.Comm, []; }
      return S.Success, m.payload[3..];
    }

    method AskBlock(p: seq<u8>, busy: S.Busy) returns (m: S.Msg)
      requires Linked() && |p| == 3
      modifies this`remote
      ensures Linked() && remote == old(remote)
      ensures (forall k :: 0 <= k < |remote.curves| ==> |remote.curves[k].blocks| == remote.curves[k].nblocks)
              && m == S.CurveBlockRequest(remote, p, busy)
    {
      m := Ask(S.CURVE_BLOCK_REQUEST, p, busy);
    }

    /** bsmp_read_curve into a buffer that holds the whole curve */
    method ReadCurve(i: nat, buf: array<u8>, busy: nat -> S.Busy) returns (err: S.Err, len: nat)
      requires Linked() && CurveKnown(i) && curves[i].nblocks <= 65535
      requires curves[i].nblocks * curves[i].blockSize <= buf.Length
      modifies this`remote, buf
      ensures Linked() && remote == old(remote)
      ensures err == if Refused(remote.curves[i], 0, busy) then S.Comm else S.Success
      ensures err == S.Success ==> len <= buf.Length && buf[..len] == Received(remote.curves[i], 0)
      ensures err != S.Success ==> len == 0
    {
      hide I.Inv;
      ghost var c := remote.curves[i];
      var n, bs := curves[i].nblocks, curves[i].blockSize;
      len := 0;
      var blk: u16 := 0;
      while blk < n
        invariant blk <= n && Linked() && remote == old(remote)
        invariant len == blk * bs && len <= n * bs
        invariant buf[..len] + Received(c, blk) == Received(c, 0)
        invariant Refused(c, blk, busy) == Refused(c, 0, busy)
      {
        var data;
        err, data := RequestBlock(i, blk, busy(blk));
        if err != S.Success { return err, 0; }
        OffsetNext(blk, n, bs);
        ReceivedNext(c, blk, buf[..len], busy);
        Copy(buf, len, data);
        len := len + |data|;
        if |data| < bs { return S.Success, len; }
        blk := blk + 1;
      }
      err := S.Success;
    }

    /** bsmp_send_curve_block */
    method SendBlock(i: nat, offset: u16, data: seq<u8>, busy: S.Busy) returns (err: S.Err)
      requires Linked() && CurveKnown(i) && offset < curves[i].nblocks && |data| <= curves[i].blockSize
      modifies this`remote
      ensures Linked() && CurveKnown(i)
      ensures err == S.Success <==> old(remote).curves[i].writable && !busy.write && data != []
      ensures remote == if err == S.Success then PutBlock(old(remote), i, offset, data) else old(remote)
    {
      if !curves[i].writable { return S.ParamInvalid; }
      if offset > curves[i].nblocks { return S.OutOfRange; }
      if |data| > curves[i].blockSize { return S.OutOfRange; }
      hide I.Inv, S.CurveBlockWrite, PutBlock, S.CurveOk;
      BlockWritten(remote, i, offset, data, busy);
      var m := TellBlock([curves[i].id, offset / 256, offset % 256] + data, busy);
      if m.code != S.OK { return S.Comm; }
      err := S.Success;
    }

    method TellBlock(p: seq<u8>, busy: S.Busy) returns (m: S.Msg)
      requires Linked() && |p| < U16_MOD
      modifies this`remote
      ensures Linked()
      ensures (forall k :: 0 <= k < |old(remote).curves| ==> |old(remote).curves[k].blocks| == old(remote).curves[k].nblocks)
              && S.Outcome(remote, m) == S.CurveBlockWrite(old(remote), p, busy)
    {
      m := Command(S.CURVE_BLOCK, p, busy);
    }

    /** One round of the loop of bsmp_write_curve: as much of the data as a block holds. */
    method SendNext(i: nat, blk: u16, buf: seq<u8>, at: nat, ghost s: S.Server, ghost writing: nat -> S.Busy, busy: S.Busy)
        returns (err: S.Err, blklen: nat)
      requires Linked() && CurveKnown(i) && blk < curves[i].nblocks && busy == writing(blk)
      requires Progress(s, i, remote, buf, at, blk, writing) && s.curves[i].writable == curves[i].writable
      requires s.curves[i].nblocks == curves[i].nblocks && s.curves[i].blockSize == curves[i].blockSize
      modifies this`remote
      ensures Linked() && CurveKnown(i) && at + blklen <= |buf|
      ensures if err == S.Success then Progress(s, i, remote, buf, at + blklen, blk + 1, writing)
              else Written(s, i, remote, buf, blk, writing)
    {
      hide I.Inv, S.CurveOk, PutBlock, PutBlocks, Sent, Accepted, Overwritten, Written;
      ghost var t := remote;
      var bs := curves[i].blockSize;
      blklen := if |buf| - at < bs then |buf| - at else bs;
      err := SendBlock(i, blk, buf[at..at + blklen], busy);
      if err != S.Success {
        ProgressStops(s, i, t, buf, at, blk, writing);
      } else {
        ProgressNext(s, i, t, buf, at, blk, writing, blklen);
      }
    }

    /** bsmp_write_curve: n blocks arrive, and the rest of the curve keeps its contents. */
    method WriteCurve(i: nat, buf: seq<u8>, busy: nat -> S.Busy) returns (err: S.Err, ghost n: nat)
      requires Linked() && CurveKnown(i) && curves[i].nblocks <= 65535
      modifies this`remote
      ensures Linked() && CurveKnown(i) && n <= curves[i].nblocks
      ensures err == S.Success <==> n == curves[i].nblocks
      ensures Written(old(remote), i, remote, buf, n, busy)
    {
      hide I.Inv, S.CurveOk, Progress, Written, Linked, CurveKnown;
      ghost var s := remote;
      KnownCurve(i);
      ProgressStarts(s, i, buf, busy);
      var count := curves[i].nblocks;
      n := 0;
      var at: nat := 0;
      var blk: u16 := 0;
      while blk < count
        invariant blk == n <= count && Linked() && CurveKnown(i) && at <= |buf| && Progress(s, i, remote, buf, at, n, busy)
      {
        var blklen;
        err, blklen := SendNext(i, blk, buf, at, s, busy, busy(blk));
        if err != S.Success { return; }
        at := at + blklen;
        blk := blk + 1;
        n := n + 1;
      }
      ProgressStops(s, i, remote, buf, at, n, busy);
      err := S.Success;
    }

    /** A curve written and read back, from tables as Init leaves them: both calls succeed and the same
        bytes come back exactly when the curve is writable, the store accepts and returns every block,
        and the data fills all blocks but the last, and the last one at least in part. */
    method WriteThenRead(i: nat, data: seq<u8>, buf: array<u8>, writing: nat -> S.Busy, reading: nat -> S.Busy)
        returns (w: S.Err, r: S.Err, len: nat)
      requires Linked() && Known() == Learned(remote) && i < |curves|
      requires 1 <= remote.curves[i].nblocks <= 65535 && remote.curves[i].nblocks * remote.curves[i].blockSize <= buf.Length
      modifies this`remote, buf
      ensures Linked() && len <= buf.Length
      ensures var c := old(remote).curves[i];
              w == S.Success && r == S.Success && buf[..len] == data
              <==> Accessible(c, writing, reading) && Fills(c, data)
    {
      InitKnowsCurves(i);
      ghost var s, c := remote, remote.curves[i];
      assert |c.blocks| == c.nblocks && curves[i].nblocks == c.nblocks && curves[i].blockSize == c.blockSize;
      hide I.Inv, Learned, Refused, Received, Accessible, Fills, AllWritten, Overwritten, Written, S.CurveOk, Sent;
      ghost var n;
      w, n := WriteCurve(i, data, writing);
      WrittenWhole(s, i, remote, data, n, writing);
      AccessibleRoundTrip(c, data, writing, reading);
      r, len := ReadCurve(i, buf, reading);
    }

    /** bsmp_recalc_checksum: the server's answer is never the one the client waits for. */
    method RecalcChecksum(i: nat, busy: S.Busy) returns (err: S.Err)
      requires Linked() && CurveKnown(i)
      modifies this`remote
      ensures Linked() && err == S.Comm
      ensures var c := old(remote).curves[i];
              remote == if S.ReadRefused(c, 0, busy) then old(remote)
                        else old(remote).(curves := old(remote).curves[i := c.(checksum := md5(S.Checksummed(c, 0)))])
    {
      var m := TellRecalc(curves[i].id, busy);
      if m.code != S.OK { return S.Comm; }
      assert false; // the table is never fetched again
    }

    method TellRecalc(id: u8, busy: S.Busy) returns (m: S.Msg)
      requires Linked() && id < |remote.curves|
      modifies this`remote
      ensures Linked() && m.code != S.OK
      ensures (forall k :: 0 <= k < |old(remote).curves| ==> |old(remote).curves[k].blocks| == old(remote).curves[k].nblocks)
              && S.Outcome(remote, m) == S.CurveRecalcCsum(old(remote), [id], busy, md5)
    {
      RecalcAnswer(remote, id, busy, md5);
      hide S.CurveRecalcCsum;
      m := Command(S.CURVE_RECALC_CSUM, [id], busy);
    }
  }
}
