/** The BSMP server as a function: registrations and the handler of every command. */
module Bsmp {
  import opened Bytes

  const MAX_VARIABLES: nat := 128
  const MAX_GROUPS: nat := 8
  const MAX_CURVES: nat := 128
  const MAX_FUNCTIONS: nat := 128
  const VAR_MAX_SIZE: nat := 128
  const CURVE_MAX_BLOCKS: nat := 65536
  const CURVE_BLOCK_MAX_SIZE: nat := 65520
  const FUNC_MAX_INPUT: nat := 15
  const FUNC_MAX_OUTPUT: nat := 15
  const GROUP_ALL: nat := 0
  const GROUP_READ: nat := 1
  const GROUP_WRITE: nat := 2
  const GROUP_STANDARD_COUNT: nat := 3
  const CSUM_SIZE: nat := 16

  // ---- Entities ----

  /** A variable: its checker sees the proposed value. An absent checker accepts everything. */
  datatype Var = Var(writable: bool, size: u8, data: seq<u8>, accepts: seq<u8> -> bool)

  datatype Group = Group(writable: bool, size: u16, ids: seq<u8>)

  /** A curve over an abstract store of blocks. */
  datatype Curve = Curve(writable: bool, nblocks: nat, blockSize: u16, checksum: seq<u8>, blocks: seq<seq<u8>>)

  datatype FuncResult = FuncResult(ret: u8, output: seq<u8>)
  datatype Func = Func(inputSize: u8, outputSize: u8, exec: seq<u8> -> FuncResult)

  datatype Server = Server(vars: seq<Var>, groups: seq<Group>, curves: seq<Curve>, funcs: seq<Func>)

  datatype Err = Success | ParamInvalid | OutOfRange | OutOfMemory | Duplicate | Comm

  datatype Msg = Msg(code: u8, payload: seq<u8>)
  datatype Outcome = Outcome(server: Server, reply: Msg)

  /** Which accesses to the curve store the user callbacks refuse during one command. */
  datatype Busy = Busy(read: nat -> bool, write: bool)

  // ---- Command codes ----

  const QUERY_VERSION: u8 := 0x00
  const VERSION: u8 := 0x01
  const VAR_QUERY_LIST: u8 := 0x02
  const VAR_LIST: u8 := 0x03
  const GROUP_QUERY_LIST: u8 := 0x04
  const GROUP_LIST: u8 := 0x05
  const GROUP_QUERY: u8 := 0x06
  const GROUP: u8 := 0x07
  const CURVE_QUERY_LIST: u8 := 0x08
  const CURVE_LIST: u8 := 0x09
  const CURVE_QUERY_CSUM: u8 := 0x0A
  const CURVE_CSUM: u8 := 0x0B
  const FUNC_QUERY_LIST: u8 := 0x0C
  const FUNC_LIST: u8 := 0x0D
  const VAR_READ: u8 := 0x10
  const VAR_VALUE: u8 := 0x11
  const CMD_GROUP_READ: u8 := 0x12
  const GROUP_VALUES: u8 := 0x13
  const VAR_WRITE: u8 := 0x20
  const CMD_GROUP_WRITE: u8 := 0x22
  const VAR_BIN_OP: u8 := 0x24
  const GROUP_BIN_OP: u8 := 0x26
  const VAR_WRITE_READ: u8 := 0x28
  const GROUP_CREATE: u8 := 0x30
  const GROUP_REMOVE_ALL: u8 := 0x32
  const CURVE_BLOCK_REQUEST: u8 := 0x40
  const CURVE_BLOCK: u8 := 0x41
  const CURVE_RECALC_CSUM: u8 := 0x42
  const FUNC_EXECUTE: u8 := 0x50
  const FUNC_RETURN: u8 := 0x51
  const FUNC_ERROR: u8 := 0x53
  const OK: u8 := 0xE0
  const MALFORMED_MESSAGE: u8 := 0xE1
  const OP_NOT_SUPPORTED: u8 := 0xE2
  const INVALID_ID: u8 := 0xE3
  const INVALID_VALUE: u8 := 0xE4
  const INVALID_PAYLOAD_SIZE: u8 := 0xE5
  const READ_ONLY: u8 := 0xE6
  const INSUFFICIENT_MEMORY: u8 := 0xE7
  const RESOURCE_BUSY: u8 := 0xE8

  // ---- Validity of the tables ----

  ghost predicate VarOk(v: Var) { v.size <= VAR_MAX_SIZE && |v.data| == v.size }

  ghost predicate CurveOk(c: Curve) {
    && c.nblocks <= CURVE_MAX_BLOCKS && c.blockSize <= CURVE_BLOCK_MAX_SIZE
    && |c.checksum| == CSUM_SIZE && |c.blocks| == c.nblocks
    && forall k :: 0 <= k < |c.blocks| ==> |c.blocks[k]| <= c.blockSize
  }

  ghost predicate FuncOk(f: Func) {
    && f.inputSize <= FUNC_MAX_INPUT && f.outputSize <= FUNC_MAX_OUTPUT
    && forall x :: |f.exec(x).output| == f.outputSize
  }

  ghost predicate TablesOk(s: Server) {
    && |s.vars| <= MAX_VARIABLES && |s.groups| <= MAX_GROUPS && |s.curves| <= MAX_CURVES && |s.funcs| <= MAX_FUNCTIONS
    && (forall k :: 0 <= k < |s.vars| ==> VarOk(s.vars[k]))
    && GroupsSound(s.vars, s.groups)
    && (forall k :: 0 <= k < |s.curves| ==> CurveOk(s.curves[k]))
    && (forall k :: 0 <= k < |s.funcs| ==> FuncOk(s.funcs[k]))
  }

  /** The members exist and the stored size is theirs. */
  ghost predicate GroupsSound(vars: seq<Var>, groups: seq<Group>) {
    forall k :: 0 <= k < |groups| ==> MembersOk(vars, groups[k].ids) && groups[k].size == SumSizes(vars, groups[k].ids)
  }

  predicate MembersOk(vars: seq<Var>, ids: seq<u8>) { forall k :: 0 <= k < |ids| ==> ids[k] < |vars| }

  function SumSizes(vars: seq<Var>, ids: seq<u8>): nat
    requires MembersOk(vars, ids)
  {
    if ids == [] then 0 else SumSizes(vars, ids[..|ids| - 1]) + vars[ids[|ids| - 1]].size
  }

  predicate AllWritable(vars: seq<Var>, ids: seq<u8>)
    requires MembersOk(vars, ids)
  {
    forall k :: 0 <= k < |ids| ==> vars[ids[k]].writable
  }

  // ---- Registration ----

  const EMPTY_GROUP := Group(true, 0, [])

  function InitServer(): Server { Server([], [EMPTY_GROUP, EMPTY_GROUP, EMPTY_GROUP], [], []) }

  /** group_add_var */
  function AddVar(g: Group, id: u8, v: Var): Group
  {
    Group(g.writable && v.writable, (g.size + v.size) % U16_MOD, g.ids + [id])
  }

  /** bsmp_register_variable for a variable that is not registered yet */
  function RegisterVar(s: Server, v: Var): (Err, Server)
    requires |s.groups| >= GROUP_STANDARD_COUNT
  {
    if v.size > VAR_MAX_SIZE then (OutOfRange, s)
    else if |s.vars| >= MAX_VARIABLES then (OutOfMemory, s)
    else
      var id := |s.vars|;
      var second := if v.writable then GROUP_WRITE else GROUP_READ;
      var gs := s.groups[GROUP_ALL := AddVar(s.groups[GROUP_ALL], id, v)];
      (Success, s.(vars := s.vars + [v], groups := gs[second := AddVar(gs[second], id, v)]))
  }

  function RegisterCurve(s: Server, c: Curve): (Err, Server)
  {
    if c.nblocks > CURVE_MAX_BLOCKS || c.blockSize > CURVE_BLOCK_MAX_SIZE then (ParamInvalid, s)
    else if |s.curves| >= MAX_CURVES then (OutOfMemory, s)
    else (Success, s.(curves := s.curves + [c]))
  }

  function RegisterFunc(s: Server, f: Func): (Err, Server)
  {
    if f.inputSize > FUNC_MAX_INPUT || f.outputSize > FUNC_MAX_OUTPUT then (OutOfRange, s)
    else if |s.funcs| >= MAX_FUNCTIONS then (OutOfMemory, s)
    else (Success, s.(funcs := s.funcs + [f]))
  }

  // ---- Binary operations ----

  datatype BinOp = And | Or | Xor | Clear

  /** The table indexed by the operation byte. */
  function OpOf(code: u8): Option<BinOp> {
    if code == 65 then Some(And)            // 'A'
    else if code == 88 then Some(Xor)       // 'X'
    else if code == 79 then Some(Or)        // 'O'
    else if code == 67 then Some(Clear)     // 'C'
    else if code == 83 then Some(Or)        // 'S'
    else if code == 84 then Some(Xor)       // 'T'
    else None
  }

  function ApplyByte(op: BinOp, d: u8, m: u8): u8 {
    var x, y := d as bv8, m as bv8;
    match op
    case And => (x & y) as int
    case Or => (x | y) as int
    case Xor => (x ^ y) as int
    case Clear => (x & !y) as int
  }

  function ApplyMask(op: BinOp, data: seq<u8>, mask: seq<u8>): (r: seq<u8>)
    requires |data| == |mask|
    ensures |r| == |data|
  {
    seq(|data|, i requires 0 <= i < |data| => ApplyByte(op, data[i], mask[i]))
  }

  // ---- Handlers ----

  function Fail(s: Server, code: u8): Outcome { Outcome(s, Msg(code, [])) }

  function QueryVersion(s: Server, p: seq<u8>): Msg {
    if p != [] then Msg(INVALID_PAYLOAD_SIZE, []) else Msg(VERSION, [2, 20, 0])
  }

  function VarByte(v: Var): u8 { (v.size % 128) + (if v.writable then 128 else 0) }

  function VarQueryList(s: Server, p: seq<u8>): Msg {
    if p != [] then Msg(INVALID_PAYLOAD_SIZE, [])
    else Msg(VAR_LIST, seq(|s.vars|, i requires 0 <= i < |s.vars| => VarByte(s.vars[i])))
  }

  function VarRead(s: Server, p: seq<u8>): Msg {
    if |p| != 1 then Msg(INVALID_PAYLOAD_SIZE, [])
    else if p[0] >= |s.vars| then Msg(INVALID_ID, [])
    else Msg(VAR_VALUE, s.vars[p[0]].data)
  }

  function Assign(s: Server, id: nat, data: seq<u8>): Server
    requires id < |s.vars|
  {
    s.(vars := s.vars[id := s.vars[id].(data := data)])
  }

  function VarWrite(s: Server, p: seq<u8>): Outcome {
    if |p| < 2 then Fail(s, INVALID_PAYLOAD_SIZE)
    else if p[0] >= |s.vars| then Fail(s, INVALID_ID)
    else
      var v := s.vars[p[0]];
      if |p| != 1 + v.size then Fail(s, INVALID_PAYLOAD_SIZE)
      else if !v.writable then Fail(s, READ_ONLY)
      else if !v.accepts(p[1..]) then Fail(s, INVALID_VALUE)
      else Outcome(Assign(s, p[0], p[1..]), Msg(OK, []))
  }

  function VarWriteRead(s: Server, p: seq<u8>): Outcome {
    if |p| < 3 then Fail(s, INVALID_PAYLOAD_SIZE)
    else if p[0] >= |s.vars| || p[1] >= |s.vars| then Fail(s, INVALID_ID)
    else
      var v := s.vars[p[0]];
      if |p| != 2 + v.size then Fail(s, INVALID_PAYLOAD_SIZE)
      else if !v.writable then Fail(s, READ_ONLY)
      else if !v.accepts(p[2..]) then Fail(s, INVALID_VALUE)
      else
        var s' := Assign(s, p[0], p[2..]);
        Outcome(s', Msg(VAR_VALUE, s'.vars[p[1]].data))
  }

  function VarBinOp(s: Server, p: seq<u8>): Outcome
    requires forall k :: 0 <= k < |s.vars| ==> |s.vars[k].data| == s.vars[k].size
  {
    if |p| < 3 then Fail(s, INVALID_PAYLOAD_SIZE)
    else if p[0] >= |s.vars| then Fail(s, INVALID_ID)
    else if OpOf(p[1]) == None then Fail(s, OP_NOT_SUPPORTED)
    else
      var v := s.vars[p[0]];
      if |p| != 2 + v.size then Fail(s, INVALID_PAYLOAD_SIZE)
      else if !v.writable then Fail(s, READ_ONLY)
      else Outcome(Assign(s, p[0], ApplyMask(OpOf(p[1]).value, v.data, p[2..])), Msg(OK, []))
  }

  /** Writability and count share a byte; the addition is an 8-bit one. */
  function GroupByte(g: Group): u8 { ((if g.writable then 128 else 0) + |g.ids|) % 256 }

  function GroupQueryList(s: Server, p: seq<u8>): Msg {
    if p != [] then Msg(INVALID_PAYLOAD_SIZE, [])
    else Msg(GROUP_LIST, seq(|s.groups|, i requires 0 <= i < |s.groups| => GroupByte(s.groups[i])))
  }

  function GroupQuery(s: Server, p: seq<u8>): Msg {
    if |p| != 1 then Msg(INVALID_PAYLOAD_SIZE, [])
    else if p[0] >= |s.groups| then Msg(INVALID_ID, [])
    else Msg(GROUP, s.groups[p[0]].ids)
  }

  /** The values of the members, one after the other. */
  function Values(vars: seq<Var>, ids: seq<u8>): seq<u8>
    requires MembersOk(vars, ids)
  {
    if ids == [] then [] else Values(vars, ids[..|ids| - 1]) + vars[ids[|ids| - 1]].data
  }

  function GroupRead(s: Server, p: seq<u8>): Msg
    requires GroupsSound(s.vars, s.groups)
  {
    if |p| != 1 then Msg(INVALID_PAYLOAD_SIZE, [])
    else if p[0] >= |s.groups| then Msg(INVALID_ID, [])
    else Msg(GROUP_VALUES, Values(s.vars, s.groups[p[0]].ids))
  }

  /** The part of a group payload that belongs to member k. */
  function Slice(vars: seq<Var>, ids: seq<u8>, payload: seq<u8>, k: nat): (x: seq<u8>)
    requires MembersOk(vars, ids) && k < |ids| && |payload| == SumSizes(vars, ids)
    ensures |x| == vars[ids[k]].size
  {
    SumSizesPrefix(vars, ids, k + 1);
    var at := SumSizes(vars, ids[..k]);
    assert ids[..k + 1][..k] == ids[..k];
    payload[at..at + vars[ids[k]].size]
  }

  lemma {:induction false} SumSizesPrefix(vars: seq<Var>, ids: seq<u8>, k: nat)
    requires MembersOk(vars, ids) && k <= |ids|
    ensures SumSizes(vars, ids[..k]) <= SumSizes(vars, ids)
    decreases |ids|
  {
    if k == |ids| { assert ids[..k] == ids; }
    else {
      SumSizesPrefix(vars, ids[..|ids| - 1], k);
      assert ids[..|ids| - 1][..k] == ids[..k];
    }
  }

  /** The member loop of group_write over the first k members. */
  function WriteMembers(vars: seq<Var>, ids: seq<u8>, payload: seq<u8>, k: nat): (r: seq<Var>)
    requires MembersOk(vars, ids) && k <= |ids| && |payload| == SumSizes(vars, ids)
    ensures |r| == |vars|
  {
    if k == 0 then vars
    else
      var before := WriteMembers(vars, ids, payload, k - 1);
      var x := Slice(vars, ids, payload, k - 1);
      var id := ids[k - 1];
      if vars[id].accepts(x) then before[id := before[id].(data := x)] else before
  }

  predicate AllAccepted(vars: seq<Var>, ids: seq<u8>, payload: seq<u8>, k: nat)
    requires MembersOk(vars, ids) && k <= |ids| && |payload| == SumSizes(vars, ids)
  {
    forall j :: 0 <= j < k ==> vars[ids[j]].accepts(Slice(vars, ids, payload, j))
  }

  function GroupWrite(s: Server, p: seq<u8>): Outcome
    requires GroupsSound(s.vars, s.groups)
  {
    if |p| < 2 then Fail(s, INVALID_PAYLOAD_SIZE)
    else if p[0] >= |s.groups| then Fail(s, INVALID_ID)
    else
      var g := s.groups[p[0]];
      if |p| != 1 + g.size then Fail(s, INVALID_PAYLOAD_SIZE)
      else if !g.writable then Fail(s, READ_ONLY)
      else
        var code := if AllAccepted(s.vars, g.ids, p[1..], |g.ids|) then OK else INVALID_VALUE;
        Outcome(s.(vars := WriteMembers(s.vars, g.ids, p[1..], |g.ids|)), Msg(code, []))
  }

  /** The member loop of group_bin_op over the first k members. */
  function MaskMembers(op: BinOp, vars: seq<Var>, ids: seq<u8>, mask: seq<u8>, k: nat): (r: seq<Var>)
    requires MembersOk(vars, ids) && k <= |ids| && |mask| == SumSizes(vars, ids)
    requires forall j :: 0 <= j < |vars| ==> |vars[j].data| == vars[j].size
    ensures |r| == |vars|
    ensures forall j :: 0 <= j < |vars| ==> r[j] == vars[j].(data := r[j].data) && |r[j].data| == r[j].size
  {
    if k == 0 then vars
    else
      var before := MaskMembers(op, vars, ids, mask, k - 1);
      var id := ids[k - 1];
      before[id := before[id].(data := ApplyMask(op, before[id].data, Slice(vars, ids, mask, k - 1)))]
  }

  function GroupBinOp(s: Server, p: seq<u8>): Outcome
    requires GroupsSound(s.vars, s.groups)
    requires forall k :: 0 <= k < |s.vars| ==> |s.vars[k].data| == s.vars[k].size
  {
    if |p| < 2 then Fail(s, INVALID_PAYLOAD_SIZE)
    else if p[0] >= |s.groups| then Fail(s, INVALID_ID)
    else if OpOf(p[1]) == None then Fail(s, OP_NOT_SUPPORTED)
    else
      var g := s.groups[p[0]];
      if |p| != 2 + g.size then Fail(s, INVALID_PAYLOAD_SIZE)
      else if !g.writable then Fail(s, READ_ONLY)
      else Outcome(s.(vars := MaskMembers(OpOf(p[1]).value, s.vars, g.ids, p[2..], |g.ids|)), Msg(OK, []))
  }

  /** Groups list their members in strictly increasing order. */
  predicate Increasing(ids: seq<u8>) { forall i, j :: 0 <= i < j < |ids| ==> ids[i] < ids[j] }

  function BuildGroup(vars: seq<Var>, ids: seq<u8>): Group
    requires MembersOk(vars, ids)
  {
    if ids == [] then EMPTY_GROUP
    else var id := ids[|ids| - 1]; AddVar(BuildGroup(vars, ids[..|ids| - 1]), id, vars[id])
  }

  function GroupCreate(s: Server, p: seq<u8>): Outcome {
    if |p| < 1 || |p| > |s.vars| then Fail(s, INVALID_PAYLOAD_SIZE)
    else if |s.groups| == MAX_GROUPS then Fail(s, INSUFFICIENT_MEMORY)
    else if !MembersOk(s.vars, p) || !Increasing(p) then Fail(s, INVALID_ID)
    else Outcome(s.(groups := s.groups + [BuildGroup(s.vars, p)]), Msg(OK, []))
  }

  function GroupRemoveAll(s: Server, p: seq<u8>): Outcome
    requires |s.groups| >= GROUP_STANDARD_COUNT
  {
    if p != [] then Fail(s, INVALID_PAYLOAD_SIZE)
    else Outcome(s.(groups := s.groups[..GROUP_STANDARD_COUNT]), Msg(OK, []))
  }

  function CurveBytes(c: Curve): seq<u8> {
    [if c.writable then 1 else 0, c.blockSize / 256, c.blockSize % 256, c.nblocks / 256 % 256, c.nblocks % 256]
  }

  function CurveList(cs: seq<Curve>): seq<u8> {
    if cs == [] then [] else CurveList(cs[..|cs| - 1]) + CurveBytes(cs[|cs| - 1])
  }

  function CurveQueryList(s: Server, p: seq<u8>): Msg {
    if p != [] then Msg(INVALID_PAYLOAD_SIZE, []) else Msg(CURVE_LIST, CurveList(s.curves))
  }

  function CurveQueryCsum(s: Server, p: seq<u8>): Msg {
    if |p| != 1 then Msg(INVALID_PAYLOAD_SIZE, [])
    else if p[0] >= |s.curves| then Msg(INVALID_ID, [])
    else Msg(CURVE_CSUM, s.curves[p[0]].checksum)
  }

  function CurveBlockRequest(s: Server, p: seq<u8>, busy: Busy): Msg
    requires forall k :: 0 <= k < |s.curves| ==> |s.curves[k].blocks| == s.curves[k].nblocks
  {
    if |p| != 3 then Msg(INVALID_PAYLOAD_SIZE, [])
    else if p[0] >= |s.curves| then Msg(INVALID_ID, [])
    else
      var c, at := s.curves[p[0]], Word16(p[1], p[2]);
      if at >= c.nblocks then Msg(INVALID_VALUE, [])
      else if busy.read(at) then Msg(RESOURCE_BUSY, [])
      else Msg(CURVE_BLOCK, p + c.blocks[at])
  }

  const NO_CHECKSUM: seq<u8> := Repeat(0, CSUM_SIZE)

  function CurveBlockWrite(s: Server, p: seq<u8>, busy: Busy): Outcome
    requires forall k :: 0 <= k < |s.curves| ==> |s.curves[k].blocks| == s.curves[k].nblocks
  {
    if |p| < 4 then Fail(s, INVALID_PAYLOAD_SIZE)
    else if p[0] >= |s.curves| then Fail(s, INVALID_ID)
    else
      var c, at := s.curves[p[0]], Word16(p[1], p[2]);
      if |p| > c.blockSize + 3 then Fail(s, INVALID_PAYLOAD_SIZE)
      else if at >= c.nblocks then Fail(s, INVALID_VALUE)
      else if !c.writable then Fail(s, READ_ONLY)
      else if busy.write then Fail(s, RESOURCE_BUSY)
      else Outcome(s.(curves := s.curves[p[0] := c.(blocks := c.blocks[at := p[3..]], checksum := NO_CHECKSUM)]), Msg(OK, []))
  }

  /** The bytes the checksum loop reads from block k on: it stops after a block shorter than the
      number of blocks. */
  function Checksummed(c: Curve, k: nat): seq<u8>
    requires |c.blocks| == c.nblocks && k <= c.nblocks
    decreases c.nblocks - k
  {
    if k == c.nblocks then []
    else if |c.blocks[k]| < c.nblocks then c.blocks[k]
    else c.blocks[k] + Checksummed(c, k + 1)
  }

  /** Does the checksum loop meet a refused read from block k on? */
  predicate ReadRefused(c: Curve, k: nat, busy: Busy)
    requires |c.blocks| == c.nblocks && k <= c.nblocks
    decreases c.nblocks - k
  {
    k < c.nblocks && (busy.read(k) || (|c.blocks[k]| >= c.nblocks && ReadRefused(c, k + 1, busy)))
  }

  function CurveRecalcCsum(s: Server, p: seq<u8>, busy: Busy, md5: seq<u8> -> seq<u8>): Outcome
    requires forall k :: 0 <= k < |s.curves| ==> |s.curves[k].blocks| == s.curves[k].nblocks
  {
    if |p| != 1 then Fail(s, INVALID_PAYLOAD_SIZE)
    else if p[0] >= |s.curves| then Fail(s, INVALID_ID)
    else
      var c := s.curves[p[0]];
      if ReadRefused(c, 0, busy) then Fail(s, RESOURCE_BUSY)
      else
        var d := md5(Checksummed(c, 0));
        Outcome(s.(curves := s.curves[p[0] := c.(checksum := d)]), Msg(CURVE_CSUM, d))
  }

  function FuncByte(f: Func): u8 { f.inputSize * 16 % 256 + f.outputSize % 16 }

  function FuncQueryList(s: Server, p: seq<u8>): Msg {
    if p != [] then Msg(INVALID_PAYLOAD_SIZE, [])
    else Msg(FUNC_LIST, seq(|s.funcs|, i requires 0 <= i < |s.funcs| => FuncByte(s.funcs[i])))
  }

  function FuncExecute(s: Server, p: seq<u8>): Msg {
    if p == [] then Msg(INVALID_PAYLOAD_SIZE, [])
    else if p[0] >= |s.funcs| then Msg(INVALID_ID, [])
    else
      var f := s.funcs[p[0]];
      if |p| != 1 + f.inputSize then Msg(INVALID_PAYLOAD_SIZE, [])
      else
        var r := f.exec(p[1..]);
        if r.ret != 0 then Msg(FUNC_ERROR, [r.ret]) else Msg(FUNC_RETURN, r.output)
  }

  // ---- Dispatch and packets ----

  /** The commands that leave the server as it is. */
  function Query(s: Server, code: u8, p: seq<u8>, busy: Busy): Msg
    requires TablesOk(s)
  {
    if code == QUERY_VERSION then QueryVersion(s, p)
    else if code == VAR_QUERY_LIST then VarQueryList(s, p)
    else if code == VAR_READ then VarRead(s, p)
    else if code == GROUP_QUERY_LIST then GroupQueryList(s, p)
    else if code == GROUP_QUERY then GroupQuery(s, p)
    else if code == CMD_GROUP_READ then GroupRead(s, p)
    else if code == CURVE_QUERY_LIST then CurveQueryList(s, p)
    else if code == CURVE_QUERY_CSUM then CurveQueryCsum(s, p)
    else if code == CURVE_BLOCK_REQUEST then CurveBlockRequest(s, p, busy)
    else if code == FUNC_QUERY_LIST then FuncQueryList(s, p)
    else if code == FUNC_EXECUTE then FuncExecute(s, p)
    else Msg(OP_NOT_SUPPORTED, [])
  }

  /** The command table. */
  function Dispatch(s: Server, code: u8, p: seq<u8>, busy: Busy, md5: seq<u8> -> seq<u8>): Outcome
    requires TablesOk(s) && |s.groups| >= GROUP_STANDARD_COUNT
  {
    if code == VAR_WRITE then VarWrite(s, p)
    else if code == VAR_BIN_OP then VarBinOp(s, p)
    else if code == VAR_WRITE_READ then VarWriteRead(s, p)
    else if code == CMD_GROUP_WRITE then GroupWrite(s, p)
    else if code == GROUP_BIN_OP then GroupBinOp(s, p)
    else if code == GROUP_CREATE then GroupCreate(s, p)
    else if code == GROUP_REMOVE_ALL then GroupRemoveAll(s, p)
    else if code == CURVE_BLOCK then CurveBlockWrite(s, p, busy)
    else if code == CURVE_RECALC_CSUM then CurveRecalcCsum(s, p, busy, md5)
    else Outcome(s, Query(s, code, p, busy))
  }

  function Encode(m: Msg): seq<u8> { [m.code, |m.payload| / 256 % 256, |m.payload| % 256] + m.payload }

  /** bsmp_process_packet on raw bytes */
  function ProcessPacket(s: Server, request: seq<u8>, busy: Busy, md5: seq<u8> -> seq<u8>): (Server, seq<u8>)
    requires TablesOk(s) && |s.groups| >= GROUP_STANDARD_COUNT
  {
    if |request| < 3 || |request| != 3 + Word16(request[1], request[2]) then (s, Encode(Msg(MALFORMED_MESSAGE, [])))
    else
      var o := Dispatch(s, request[0], request[3..], busy, md5);
      (o.server, Encode(o.reply))
  }
}
