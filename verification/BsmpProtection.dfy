/** What no packet can do: read-only variables and curves keep their values, checked variables hold only
    what their checker accepted, and every refusal has its reason. */
module BsmpProtection {
  import opened Bytes
  import opened Bsmp
  import opened BsmpInvariant
  import opened BsmpGroups

  // ---- Read-only variables and curves ----

  ghost predicate VarsProtected(s: Server, t: Server) {
    |t.vars| == |s.vars| && forall i :: 0 <= i < |s.vars| && !s.vars[i].writable ==> t.vars[i] == s.vars[i]
  }

  /** The checksum is not part of what is protected: recalculating it is no write. */
  ghost predicate CurvesProtected(s: Server, t: Server) {
    |t.curves| == |s.curves| && forall i :: 0 <= i < |s.curves| && !s.curves[i].writable ==> t.curves[i].blocks == s.curves[i].blocks
  }

  lemma VarCommandsProtect(s: Server, p: seq<u8>)
    requires Inv(s)
    ensures VarsProtected(s, VarWrite(s, p).server) && VarsProtected(s, VarBinOp(s, p).server) && VarsProtected(s, VarWriteRead(s, p).server)
  {
    hide ApplyMask;
  }

  lemma {:induction false} WriteMembersTouches(vars: seq<Var>, ids: seq<u8>, payload: seq<u8>, k: nat, i: nat)
    requires MembersOk(vars, ids) && k <= |ids| && |payload| == SumSizes(vars, ids) && i < |vars| && i !in ids
    ensures WriteMembers(vars, ids, payload, k)[i] == vars[i]
    decreases k
  {
    if k > 0 { WriteMembersTouches(vars, ids, payload, k - 1, i); }
  }

  lemma GroupWriteProtects(s: Server, p: seq<u8>)
    requires Inv(s)
    ensures VarsProtected(s, GroupWrite(s, p).server)
  {
    var t := GroupWrite(s, p).server;
    forall i | 0 <= i < |s.vars| && !s.vars[i].writable ensures t.vars[i] == s.vars[i] {
      if t != s {
        assert GroupOk(s.vars, s.groups[p[0]]);
        WriteMembersTouches(s.vars, s.groups[p[0]].ids, p[1..], |s.groups[p[0]].ids|, i);
      }
    }
  }

  lemma GroupBinOpProtects(s: Server, p: seq<u8>)
    requires Inv(s)
    ensures VarsProtected(s, GroupBinOp(s, p).server)
  {
    var t := GroupBinOp(s, p).server;
    if t != s {
      GroupBinOpIsOneMask(s, p);
      assert GroupOk(s.vars, s.groups[p[0]]);
    }
  }

  lemma CurveCommandsProtect(s: Server, p: seq<u8>, busy: Busy, md5: seq<u8> -> seq<u8>)
    requires Inv(s)
    ensures CurvesProtected(s, CurveBlockWrite(s, p, busy).server) && CurvesProtected(s, CurveRecalcCsum(s, p, busy, md5).server)
    ensures CurveBlockWrite(s, p, busy).server.vars == s.vars == CurveRecalcCsum(s, p, busy, md5).server.vars
  {
    hide Checksummed;
  }

  /** No packet changes a read-only variable or a block of a read-only curve. */
  lemma ReadOnlyStays(s: Server, code: u8, p: seq<u8>, busy: Busy, md5: seq<u8> -> seq<u8>)
    requires Inv(s)
    ensures var t := Dispatch(s, code, p, busy, md5).server; VarsProtected(s, t) && CurvesProtected(s, t)
  {
    OnlyItsTable(s, code, p, busy, md5);
    hide VarWrite, VarBinOp, VarWriteRead, GroupWrite, GroupBinOp, GroupCreate, CurveBlockWrite, CurveRecalcCsum, Query;
    VarCommandsProtect(s, p);
    GroupWriteProtects(s, p);
    GroupBinOpProtects(s, p);
    CurveCommandsProtect(s, p, busy, md5);
  }

  /** Every command leaves alone the tables it has nothing to do with. */
  lemma OnlyItsTable(s: Server, code: u8, p: seq<u8>, busy: Busy, md5: seq<u8> -> seq<u8>)
    requires Inv(s)
    ensures var t := Dispatch(s, code, p, busy, md5).server;
            && t.funcs == s.funcs
            && (code != GROUP_CREATE && code != GROUP_REMOVE_ALL ==> t.groups == s.groups)
            && (code != CURVE_BLOCK && code != CURVE_RECALC_CSUM ==> t.curves == s.curves)
            && (code !in {VAR_WRITE, VAR_BIN_OP, VAR_WRITE_READ, CMD_GROUP_WRITE, GROUP_BIN_OP} ==> t.vars == s.vars)
  {
    hide ApplyMask, WriteMembers, MaskMembers, Checksummed, Query, BuildGroup;
  }

  /** The server after a list of registrations and packets. */
  ghost function Run(s: Server, es: seq<Event>, md5: seq<u8> -> seq<u8>): Server
    decreases |es|
  {
    if es == [] then s else After(Run(s, es[..|es| - 1], md5), Latest(es), md5)
  }

  /** What was registered before keeps its place; what is read-only keeps its value. */
  ghost predicate Kept(s: Server, t: Server) {
    && |s.vars| <= |t.vars| && |s.curves| <= |t.curves|
    && (forall i :: 0 <= i < |s.vars| ==> t.vars[i].writable == s.vars[i].writable)
    && (forall i :: 0 <= i < |s.curves| ==> t.curves[i].writable == s.curves[i].writable)
    && (forall i :: 0 <= i < |s.vars| && !s.vars[i].writable ==> t.vars[i] == s.vars[i])
    && (forall i :: 0 <= i < |s.curves| && !s.curves[i].writable ==> t.curves[i].blocks == s.curves[i].blocks)
  }

  lemma AccessStays(s: Server, code: u8, p: seq<u8>, busy: Busy, md5: seq<u8> -> seq<u8>)
    requires Inv(s)
    ensures var t := Dispatch(s, code, p, busy, md5).server;
            && |t.vars| == |s.vars| && (forall i :: 0 <= i < |s.vars| ==> t.vars[i].writable == s.vars[i].writable)
            && |t.curves| == |s.curves| && (forall i :: 0 <= i < |s.curves| ==> t.curves[i].writable == s.curves[i].writable)
  {
    hide ApplyMask, WriteMembers, MaskMembers, Checksummed, Query, BuildGroup, GroupWrite, CurveRecalcCsum, GroupsSound, GroupOk;
    OnlyItsTable(s, code, p, busy, md5);
    if code == CMD_GROUP_WRITE { GroupWriteAccess(s, p); }
    if code == CURVE_RECALC_CSUM { RecalcAccess(s, p, busy, md5); }
  }

  lemma GroupWriteAccess(s: Server, p: seq<u8>)
    requires Inv(s)
    ensures var t := GroupWrite(s, p).server;
            |t.vars| == |s.vars| && forall i :: 0 <= i < |s.vars| ==> t.vars[i].writable == s.vars[i].writable
  {
    hide WriteMembers;
    if |p| >= 2 && p[0] < |s.groups| && |p| == 1 + s.groups[p[0]].size {
      WriteMembersShape(s.vars, s.groups[p[0]].ids, p[1..], |s.groups[p[0]].ids|);
    }
  }

  lemma RecalcAccess(s: Server, p: seq<u8>, busy: Busy, md5: seq<u8> -> seq<u8>)
    requires Inv(s)
    ensures var t := CurveRecalcCsum(s, p, busy, md5).server;
            |t.curves| == |s.curves| && forall i :: 0 <= i < |s.curves| ==> t.curves[i].writable == s.curves[i].writable
  {
    hide Checksummed, ReadRefused;
  }

  lemma PacketKeeps(s: Server, r: seq<u8>, busy: Busy, md5: seq<u8> -> seq<u8>)
    requires Inv(s)
    ensures Kept(s, ProcessPacket(s, r, busy, md5).0)
  {
    hide Dispatch, Encode, GroupsSound, GroupOk;
    if 3 <= |r| == 3 + Word16(r[1], r[2]) {
      ReadOnlyStays(s, r[0], r[3..], busy, md5);
      AccessStays(s, r[0], r[3..], busy, md5);
    }
  }

  lemma EventKeeps(s: Server, e: Event, md5: seq<u8> -> seq<u8>)
    requires Inv(s)
    ensures Kept(s, After(s, e, md5))
  {
    hide ProcessPacket, GroupsSound, GroupOk;
    if e.Packet? { PacketKeeps(s, e.request, e.busy, md5); }
  }

  /** Over any run, whatever is registered and whatever packets arrive, a read-only variable keeps its
      value and a read-only curve its blocks. */
  lemma {:induction false} ReadOnlyForever(s: Server, es: seq<Event>, md5: seq<u8> -> seq<u8>)
    requires Inv(s) && (forall k :: 0 <= k < |es| ==> WellFormed(es[k])) && forall x :: |md5(x)| == CSUM_SIZE
    ensures Inv(Run(s, es, md5)) && Kept(s, Run(s, es, md5))
    decreases |es|
  {
    if es != [] {
      var t := Run(s, es[..|es| - 1], md5);
      ReadOnlyForever(s, es[..|es| - 1], md5);
      EventKeeps(t, Latest(es), md5);
      EventKeepsInv(t, Latest(es), md5);
    }
  }

  /** A registration succeeds exactly if the entity has a size that the protocol can tell and there are fewer
      than 128 of its kind; then it is the last of its table, and otherwise nothing changes. */
  lemma RegistrationIsExact(s: Server, v: Var, c: Curve, f: Func)
    requires Inv(s)
    ensures var (err, t) := RegisterVar(s, v);
            && err == (if v.size > 128 then OutOfRange else if |s.vars| >= 128 then OutOfMemory else Success)
            && t.vars == (if err == Success then s.vars + [v] else s.vars) && (err != Success ==> t == s) && t.curves == s.curves && t.funcs == s.funcs
    ensures var (err, t) := RegisterCurve(s, c);
            && err == (if c.nblocks > 65536 || c.blockSize > 65520 then ParamInvalid else if |s.curves| >= 128 then OutOfMemory else Success)
            && t == s.(curves := if err == Success then s.curves + [c] else s.curves)
    ensures var (err, t) := RegisterFunc(s, f);
            && err == (if f.inputSize > 15 || f.outputSize > 15 then OutOfRange else if |s.funcs| >= 128 then OutOfMemory else Success)
            && t == s.(funcs := if err == Success then s.funcs + [f] else s.funcs)
  {
    hide AddVar;
  }

  // ---- Checked variables ----

  ghost predicate Accepted(s: Server) { forall i :: 0 <= i < |s.vars| ==> s.vars[i].accepts(s.vars[i].data) }

  lemma {:induction false} WriteMembersAccepts(vars: seq<Var>, ids: seq<u8>, payload: seq<u8>, k: nat, i: nat)
    requires MembersOk(vars, ids) && k <= |ids| && |payload| == SumSizes(vars, ids) && i < |vars|
    ensures var w := WriteMembers(vars, ids, payload, k)[i];
            w == vars[i].(data := w.data) && (w.data == vars[i].data || vars[i].accepts(w.data))
    decreases k
  {
    if k > 0 { WriteMembersAccepts(vars, ids, payload, k - 1, i); }
  }

  lemma GroupWriteAccepts(s: Server, p: seq<u8>)
    requires Inv(s) && Accepted(s)
    ensures Accepted(GroupWrite(s, p).server)
  {
    var t := GroupWrite(s, p).server;
    forall i | 0 <= i < |t.vars| ensures t.vars[i].accepts(t.vars[i].data) {
      if t != s { WriteMembersAccepts(s.vars, s.groups[p[0]].ids, p[1..], |s.groups[p[0]].ids|, i); }
    }
  }

  /** Except for the mask operations, no command stores a value that the checker of its variable refuses. */
  lemma AcceptedStays(s: Server, code: u8, p: seq<u8>, busy: Busy, md5: seq<u8> -> seq<u8>)
    requires Inv(s) && Accepted(s) && code != VAR_BIN_OP && code != GROUP_BIN_OP
    ensures Accepted(Dispatch(s, code, p, busy, md5).server)
  {
    OnlyItsTable(s, code, p, busy, md5);
    GroupWriteAccepts(s, p);
    hide GroupWrite, Query, BuildGroup, Checksummed;
  }

  /** A mask operation asks no checker: one that accepts only zero does not keep a one from being stored. */
  lemma MaskSkipsChecker()
    ensures var v := Var(true, 1, [0], (x: seq<u8>) => x == [0]);
            var s := Server([v], [], [], []);
            && Accepted(s) && VarBinOp(s, [0, 79, 1]).reply.code == OK && !Accepted(VarBinOp(s, [0, 79, 1]).server)
  {
    var v := Var(true, 1, [0], (x: seq<u8>) => x == [0]);
    var s := Server([v], [], [], []);
    var t := VarBinOp(s, [0, 79, 1]).server;
    assert [0 as u8, 79, 1][2..] == [1];
    assert ApplyByte(Or, 0, 1) == 1;
    assert t.vars[0].data[0] == 1 && t.vars[0].accepts == v.accepts;
  }

  // ---- Why a command is refused ----

  const LISTS: set<u8> := {QUERY_VERSION, VAR_QUERY_LIST, GROUP_QUERY_LIST, CURVE_QUERY_LIST, FUNC_QUERY_LIST}

  /** How many entities the first byte of the payload can name. */
  function Targets(s: Server, code: u8): Option<nat> {
    if code in {VAR_READ, VAR_WRITE, VAR_BIN_OP, VAR_WRITE_READ} then Some(|s.vars|)
    else if code in {GROUP_QUERY, CMD_GROUP_READ, CMD_GROUP_WRITE, GROUP_BIN_OP} then Some(|s.groups|)
    else if code in {CURVE_QUERY_CSUM, CURVE_BLOCK_REQUEST, CURVE_BLOCK, CURVE_RECALC_CSUM} then Some(|s.curves|)
    else if code == FUNC_EXECUTE then Some(|s.funcs|)
    else None
  }

  predicate Known(code: u8) {
    code in LISTS || code == GROUP_CREATE || code == GROUP_REMOVE_ALL
    || code in {VAR_READ, VAR_WRITE, VAR_BIN_OP, VAR_WRITE_READ, GROUP_QUERY, CMD_GROUP_READ, CMD_GROUP_WRITE, GROUP_BIN_OP,
                CURVE_QUERY_CSUM, CURVE_BLOCK_REQUEST, CURVE_BLOCK, CURVE_RECALC_CSUM, FUNC_EXECUTE}
  }

  /** The target of the command exists. */
  predicate Named(s: Server, code: u8, p: seq<u8>) { p != [] && Targets(s, code).Some? && p[0] < Targets(s, code).value }

  /** The number of bytes the payload must have. */
  function Size(s: Server, code: u8, p: seq<u8>): nat
    requires Named(s, code, p)
  {
    match code
    case 0x20 => 1 + s.vars[p[0]].size
    case 0x24 => 2 + s.vars[p[0]].size
    case 0x28 => 2 + s.vars[p[0]].size
    case 0x22 => 1 + s.groups[p[0]].size
    case 0x26 => 2 + s.groups[p[0]].size
    case 0x40 => 3
    case 0x50 => 1 + s.funcs[p[0]].inputSize
    case 0x41 => |p|
    case _ => 1
  }

  /** The fewest bytes of a payload that is looked at. */
  function Least(code: u8): nat {
    match code
    case 0x20 => 2
    case 0x24 => 3
    case 0x28 => 3
    case 0x22 => 2
    case 0x26 => 2
    case 0x40 => 3
    case 0x41 => 4
    case _ => 1
  }

  predicate WrongSize(s: Server, code: u8, p: seq<u8>) {
    if code in LISTS || code == GROUP_REMOVE_ALL then p != []
    else if code == GROUP_CREATE then p == [] || |p| > |s.vars|
    else if code in {VAR_READ, GROUP_QUERY, CMD_GROUP_READ, CURVE_QUERY_CSUM, CURVE_RECALC_CSUM} then |p| != 1
    else if code == CURVE_BLOCK_REQUEST then |p| != 3
    else |p| < Least(code) || (Named(s, code, p) && (|p| != Size(s, code, p) || (code == CURVE_BLOCK && |p| > 3 + s.curves[p[0]].blockSize)))
  }

  predicate WrongId(s: Server, code: u8, p: seq<u8>) {
    || (Targets(s, code).Some? && p != [] && !Named(s, code, p))
    || (code == VAR_WRITE_READ && |p| >= 2 && p[1] >= |s.vars|)
    || (code == GROUP_CREATE && (!MembersOk(s.vars, p) || !Increasing(p)))
  }

  predicate Unwritable(s: Server, code: u8, p: seq<u8>)
    requires GroupsSound(s.vars, s.groups)
  {
    Named(s, code, p) &&
      if code in {VAR_WRITE, VAR_BIN_OP, VAR_WRITE_READ} then !s.vars[p[0]].writable
      else if code in {CMD_GROUP_WRITE, GROUP_BIN_OP} then exists k :: k in s.groups[p[0]].ids && !s.vars[k].writable
      else code == CURVE_BLOCK && !s.curves[p[0]].writable
  }

  /** An offset behind the end of the curve, or a value that its checker refuses. */
  predicate WrongValue(s: Server, code: u8, p: seq<u8>)
    requires GroupsSound(s.vars, s.groups)
  {
    Named(s, code, p) &&
      match code
      case 0x20 => |p| == Size(s, code, p) && !s.vars[p[0]].accepts(p[1..])
      case 0x28 => |p| == Size(s, code, p) && !s.vars[p[0]].accepts(p[2..])
      case 0x22 => |p| == Size(s, code, p) && !AllAccepted(s.vars, s.groups[p[0]].ids, p[1..], |s.groups[p[0]].ids|)
      case 0x40 => |p| >= 3 && Word16(p[1], p[2]) >= s.curves[p[0]].nblocks
      case 0x41 => |p| >= 3 && Word16(p[1], p[2]) >= s.curves[p[0]].nblocks
      case _ => false
  }

  ghost predicate Busily(s: Server, code: u8, p: seq<u8>, busy: Busy)
    requires forall k :: 0 <= k < |s.curves| ==> |s.curves[k].blocks| == s.curves[k].nblocks
  {
    Named(s, code, p) &&
      match code
      case 0x40 => |p| >= 3 && busy.read(Word16(p[1], p[2]))
      case 0x41 => busy.write
      case 0x42 => ReadRefused(s.curves[p[0]], 0, busy)
      case _ => false
  }

  predicate Unknown(code: u8, p: seq<u8>) {
    !Known(code) || (code in {VAR_BIN_OP, GROUP_BIN_OP} && |p| >= 2 && p[1] as char !in "AOSXTC")
  }

  /** The error code says what is wrong. */
  ghost predicate Reason(s: Server, code: u8, p: seq<u8>, busy: Busy, e: u8)
    requires TablesOk(s)
  {
    match e
    case 0xE2 => Unknown(code, p)
    case 0xE3 => WrongId(s, code, p)
    case 0xE4 => WrongValue(s, code, p)
    case 0xE5 => WrongSize(s, code, p)
    case 0xE6 => Unwritable(s, code, p)
    case 0xE7 => code == GROUP_CREATE && |s.groups| == 8
    case 0xE8 => Busily(s, code, p, busy)
    case _ => false
  }

  predicate IsError(e: u8) { 0xE1 <= e <= 0xE8 }

  /** An error has its reason and changes nothing, but for the members of a group that were written beside
      one whose value is refused; where there is no error there is no reason for one. */
  ghost predicate Justified(s: Server, code: u8, p: seq<u8>, busy: Busy, o: Outcome)
    requires TablesOk(s)
  {
    if IsError(o.reply.code) then
      && Reason(s, code, p, busy, o.reply.code) && o.reply.payload == []
      && (o.server == s || (code == CMD_GROUP_WRITE && o.reply.code == INVALID_VALUE))
    else
      forall e :: !Reason(s, code, p, busy, e)
  }

  lemma VarReadReasons(s: Server, p: seq<u8>, busy: Busy)
    requires Inv(s)
    ensures Justified(s, VAR_READ, p, busy, Outcome(s, VarRead(s, p)))
  {
  }

  lemma VarWriteReasons(s: Server, p: seq<u8>, busy: Busy)
    requires Inv(s)
    ensures Justified(s, VAR_WRITE, p, busy, VarWrite(s, p))
  {
  }

  lemma VarWriteReadReasons(s: Server, p: seq<u8>, busy: Busy)
    requires Inv(s)
    ensures Justified(s, VAR_WRITE_READ, p, busy, VarWriteRead(s, p))
  {
  }

  lemma VarBinOpReasons(s: Server, p: seq<u8>, busy: Busy)
    requires Inv(s)
    ensures Justified(s, VAR_BIN_OP, p, busy, VarBinOp(s, p))
  {
    hide ApplyMask;
  }

  lemma WritableGroup(s: Server, g: Group)
    requires Inv(s) && g in s.groups
    ensures g.writable <==> forall k :: k in g.ids && k < |s.vars| ==> s.vars[k].writable
  {
    var i :| 0 <= i < |s.groups| && s.groups[i] == g;
    assert GroupOk(s.vars, s.groups[i]);
  }

  lemma GroupWriteReasons(s: Server, p: seq<u8>, busy: Busy)
    requires Inv(s)
    ensures Justified(s, CMD_GROUP_WRITE, p, busy, GroupWrite(s, p))
  {
    hide WriteMembers, AllAccepted, AllWritable, SumSizes, VarOk, CurveOk, FuncOk;
    if p != [] && p[0] < |s.groups| { WritableGroup(s, s.groups[p[0]]); }
  }

  lemma GroupBinOpReasons(s: Server, p: seq<u8>, busy: Busy)
    requires Inv(s)
    ensures Justified(s, GROUP_BIN_OP, p, busy, GroupBinOp(s, p))
  {
    hide MaskMembers, AllWritable, SumSizes, CurveOk, FuncOk;
    if p != [] && p[0] < |s.groups| { WritableGroup(s, s.groups[p[0]]); }
  }

  lemma GroupQueryReasons(s: Server, p: seq<u8>, busy: Busy)
    requires Inv(s)
    ensures Justified(s, GROUP_QUERY, p, busy, Outcome(s, GroupQuery(s, p)))
  {
  }

  lemma GroupReadReasons(s: Server, p: seq<u8>, busy: Busy)
    requires Inv(s)
    ensures Justified(s, CMD_GROUP_READ, p, busy, Outcome(s, GroupRead(s, p)))
  {
    hide Values;
  }

  lemma GroupCreateReasons(s: Server, p: seq<u8>, busy: Busy)
    requires Inv(s)
    ensures Justified(s, GROUP_CREATE, p, busy, GroupCreate(s, p))
  {
    hide BuildGroup;
  }

  lemma GroupRemoveReasons(s: Server, p: seq<u8>, busy: Busy)
    requires Inv(s)
    ensures Justified(s, GROUP_REMOVE_ALL, p, busy, GroupRemoveAll(s, p))
  {
  }

  lemma CurveQueryReasons(s: Server, p: seq<u8>, busy: Busy)
    requires Inv(s)
    ensures Justified(s, CURVE_QUERY_CSUM, p, busy, Outcome(s, CurveQueryCsum(s, p)))
  {
  }

  lemma CurveRequestReasons(s: Server, p: seq<u8>, busy: Busy)
    requires Inv(s)
    ensures Justified(s, CURVE_BLOCK_REQUEST, p, busy, Outcome(s, CurveBlockRequest(s, p, busy)))
  {
  }

  lemma CurveWriteReasons(s: Server, p: seq<u8>, busy: Busy)
    requires Inv(s)
    ensures Justified(s, CURVE_BLOCK, p, busy, CurveBlockWrite(s, p, busy))
  {
  }

  lemma CurveRecalcReasons(s: Server, p: seq<u8>, busy: Busy, md5: seq<u8> -> seq<u8>)
    requires Inv(s)
    ensures Justified(s, CURVE_RECALC_CSUM, p, busy, CurveRecalcCsum(s, p, busy, md5))
  {
    hide Checksummed, ReadRefused;
  }

  lemma ListReasons(s: Server, code: u8, p: seq<u8>, busy: Busy, m: Msg)
    requires Inv(s) && code in LISTS
    requires if p != [] then m == Msg(INVALID_PAYLOAD_SIZE, []) else !IsError(m.code)
    ensures Justified(s, code, p, busy, Outcome(s, m))
  {
  }

  lemma FuncReasons(s: Server, p: seq<u8>, busy: Busy)
    requires Inv(s)
    ensures Justified(s, FUNC_EXECUTE, p, busy, Outcome(s, FuncExecute(s, p)))
  {
  }

  lemma ListAnswers(s: Server, p: seq<u8>, busy: Busy)
    requires Inv(s)
    ensures Justified(s, QUERY_VERSION, p, busy, Outcome(s, QueryVersion(s, p)))
    ensures Justified(s, VAR_QUERY_LIST, p, busy, Outcome(s, VarQueryList(s, p)))
    ensures Justified(s, GROUP_QUERY_LIST, p, busy, Outcome(s, GroupQueryList(s, p)))
    ensures Justified(s, CURVE_QUERY_LIST, p, busy, Outcome(s, CurveQueryList(s, p)))
    ensures Justified(s, FUNC_QUERY_LIST, p, busy, Outcome(s, FuncQueryList(s, p)))
  {
    hide Justified, CurveList;
    ListReasons(s, QUERY_VERSION, p, busy, QueryVersion(s, p));
    ListReasons(s, VAR_QUERY_LIST, p, busy, VarQueryList(s, p));
    ListReasons(s, GROUP_QUERY_LIST, p, busy, GroupQueryList(s, p));
    ListReasons(s, CURVE_QUERY_LIST, p, busy, CurveQueryList(s, p));
    ListReasons(s, FUNC_QUERY_LIST, p, busy, FuncQueryList(s, p));
  }

  /** For every command and every payload: the answer is an error if and only if there is a reason, and the
      error is one of the reasons. */
  lemma RefusalsAreTrue(s: Server, code: u8, p: seq<u8>, busy: Busy, md5: seq<u8> -> seq<u8>)
    requires Inv(s)
    ensures Justified(s, code, p, busy, Dispatch(s, code, p, busy, md5))
  {
    hide Justified, VarRead, VarWrite, VarWriteRead, VarBinOp, GroupWrite, GroupBinOp, GroupQuery, GroupRead, GroupCreate, GroupRemoveAll,
      CurveQueryCsum, CurveBlockRequest, CurveBlockWrite, CurveRecalcCsum, QueryVersion, VarQueryList, GroupQueryList, CurveQueryList,
      FuncQueryList, FuncExecute;
    VarReadReasons(s, p, busy);
    VarWriteReasons(s, p, busy);
    VarWriteReadReasons(s, p, busy);
    VarBinOpReasons(s, p, busy);
    GroupWriteReasons(s, p, busy);
    GroupBinOpReasons(s, p, busy);
    GroupQueryReasons(s, p, busy);
    GroupReadReasons(s, p, busy);
    GroupCreateReasons(s, p, busy);
    GroupRemoveReasons(s, p, busy);
    CurveQueryReasons(s, p, busy);
    CurveRequestReasons(s, p, busy);
    CurveWriteReasons(s, p, busy);
    CurveRecalcReasons(s, p, busy, md5);
    ListAnswers(s, p, busy);
    FuncReasons(s, p, busy);
    if !Known(code) { UnknownReason(s, code, p, busy, md5); }
  }

  lemma UnknownReason(s: Server, code: u8, p: seq<u8>, busy: Busy, md5: seq<u8> -> seq<u8>)
    requires Inv(s) && !Known(code)
    ensures Justified(s, code, p, busy, Dispatch(s, code, p, busy, md5))
  {
    assert Dispatch(s, code, p, busy, md5) == Outcome(s, Msg(OP_NOT_SUPPORTED, []));
  }

  /** The code of an answer that is no error, as a number on the wire. */
  function AnswerTo(code: u8): Option<u8> {
    if code in {0x00, 0x02, 0x04, 0x06, 0x08, 0x0a, 0x0c, 0x10, 0x12, 0x40, 0x50} then Some(code + 1)
    else if code == 0x28 then Some(0x11)
    else if code == 0x42 then Some(0x0b)
    else if code in {0x20, 0x22, 0x24, 0x26, 0x30, 0x32, 0x41} then Some(0xe0)
    else None
  }

  /** A request is answered by the code behind its own where it asks for something, by 0xE0 where it only
      changes something, and by an error; a combined write and read is answered like a read, a recalculated
      checksum like one that was asked for, and a function that fails by 0x53. */
  lemma AnswerCodes(s: Server, code: u8, p: seq<u8>, busy: Busy, md5: seq<u8> -> seq<u8>)
    requires Inv(s)
    ensures var c := Dispatch(s, code, p, busy, md5).reply.code;
            (!(0xe1 <= c <= 0xe8) ==> AnswerTo(code) == Some(c) || (code == 0x50 && c == 0x53)) && (AnswerTo(code) == None ==> c == 0xe2)
  {
    hide Values, CurveList, Checksummed, ReadRefused, WriteMembers, MaskMembers, ApplyMask, BuildGroup, AllAccepted, GroupsSound;
  }

  /** A packet whose length field is not the length of its payload is answered by 0xE1 and changes nothing;
      every other one is dispatched. */
  lemma LengthIsChecked(s: Server, request: seq<u8>, busy: Busy, md5: seq<u8> -> seq<u8>)
    requires Inv(s)
    ensures var (t, response) := ProcessPacket(s, request, busy, md5);
            if |request| >= 3 && |request[3..]| == Word16(request[1], request[2]) then
              var o := Dispatch(s, request[0], request[3..], busy, md5);
              t == o.server && |response| == 3 + |o.reply.payload| && response[0] == o.reply.code && response[3..] == o.reply.payload
            else t == s && response == [0xe1, 0, 0]
  {
    hide Dispatch;
  }
}
