/** The derived data of the server agrees with its variables after any registrations and packets. */
module BsmpInvariant {
  import opened Bytes
  import opened Bsmp

  /** The positions of the variables with the given writability, in order. */
  function IdsWith(vars: seq<Var>, w: bool): seq<u8>
    requires |vars| <= MAX_VARIABLES
  {
    if vars == [] then []
    else
      var n := |vars| - 1;
      IdsWith(vars[..n], w) + (if vars[n].writable == w then [n] else [])
  }

  function AllIds(n: nat): seq<u8>
    requires n <= MAX_VARIABLES
  {
    seq(n, i requires 0 <= i < n => i)
  }

  /** A group with its derived data in order. */
  ghost predicate GroupOk(vars: seq<Var>, g: Group) {
    && MembersOk(vars, g.ids) && Increasing(g.ids) && |g.ids| <= MAX_VARIABLES
    && g.size == SumSizes(vars, g.ids) && g.writable == AllWritable(vars, g.ids)
  }

  /** The standard groups hold all, the read-only and the writable variables. */
  ghost predicate StandardGroups(vars: seq<Var>, groups: seq<Group>)
    requires |vars| <= MAX_VARIABLES && GROUP_STANDARD_COUNT <= |groups|
  {
    && groups[GROUP_ALL].ids == AllIds(|vars|)
    && groups[GROUP_READ].ids == IdsWith(vars, false)
    && groups[GROUP_WRITE].ids == IdsWith(vars, true)
  }

  ghost predicate Inv(s: Server) {
    && TablesOk(s)
    && GROUP_STANDARD_COUNT <= |s.groups|
    && StandardGroups(s.vars, s.groups)
    && (forall k :: 0 <= k < |s.groups| ==> GroupOk(s.vars, s.groups[k]))
    && (forall k :: GROUP_STANDARD_COUNT <= k < |s.groups| ==> s.groups[k].ids != [])
  }

  lemma {:induction false} IdsWithMembers(vars: seq<Var>, w: bool)
    requires |vars| <= MAX_VARIABLES
    ensures forall id: u8 :: id in IdsWith(vars, w) <==> id < |vars| && vars[id].writable == w
    decreases |vars|
  {
    if vars != [] { IdsWithMembers(vars[..|vars| - 1], w); }
  }

  lemma {:induction false} IdsWithIncreasing(vars: seq<Var>, w: bool)
    requires |vars| <= MAX_VARIABLES
    ensures Increasing(IdsWith(vars, w))
    decreases |vars|
  {
    if vars != [] {
      var n := |vars| - 1;
      var before := IdsWith(vars[..n], w);
      IdsWithIncreasing(vars[..n], w);
      assert before != [] ==> before[|before| - 1] < n by {
        IdsWithMembers(vars[..n], w);
        assert before != [] ==> before[|before| - 1] in before;
      }
      if vars[n].writable == w { IncreasingAppend(before, n); }
    }
  }

  /** READ and WRITE partition the variables and keep their order. */
  lemma IdsWithExact(vars: seq<Var>, w: bool)
    requires |vars| <= MAX_VARIABLES
    ensures forall id: u8 :: id in IdsWith(vars, w) <==> id < |vars| && vars[id].writable == w
    ensures Increasing(IdsWith(vars, w))
  {
    IdsWithMembers(vars, w);
    IdsWithIncreasing(vars, w);
  }

  /** Derived data depends only on sizes and writability. */
  predicate SameShape(v: seq<Var>, w: seq<Var>) {
    |v| == |w| && forall k :: 0 <= k < |v| ==> v[k].size == w[k].size && v[k].writable == w[k].writable
  }

  lemma {:induction false} SumSizesShape(v: seq<Var>, w: seq<Var>, ids: seq<u8>)
    requires SameShape(v, w) && MembersOk(v, ids)
    ensures SumSizes(v, ids) == SumSizes(w, ids)
    decreases |ids|
  {
    if ids != [] { SumSizesShape(v, w, ids[..|ids| - 1]); }
  }

  lemma {:induction false} IdsWithShape(v: seq<Var>, w: seq<Var>, b: bool)
    requires SameShape(v, w) && |v| <= MAX_VARIABLES
    ensures IdsWith(v, b) == IdsWith(w, b)
    decreases |v|
  {
    if v != [] { IdsWithShape(v[..|v| - 1], w[..|v| - 1], b); }
  }

  lemma ShapeKeepsInv(s: Server, w: seq<Var>)
    requires Inv(s) && SameShape(s.vars, w) && forall k :: 0 <= k < |w| ==> VarOk(w[k])
    ensures Inv(s.(vars := w))
  {
    hide SumSizes, IdsWith;
    forall k | 0 <= k < |s.groups| ensures GroupOk(w, s.groups[k]) {
      assert GroupOk(s.vars, s.groups[k]);
      SumSizesShape(s.vars, w, s.groups[k].ids);
    }
    IdsWithShape(s.vars, w, true);
    IdsWithShape(s.vars, w, false);
  }

  lemma AssignKeepsInv(s: Server, id: u8, data: seq<u8>)
    requires Inv(s) && id < |s.vars| && |data| == s.vars[id].size
    ensures Inv(Assign(s, id, data))
  {
    var w := s.vars[id := s.vars[id].(data := data)];
    assert forall k :: 0 <= k < |w| ==> VarOk(s.vars[k]);
    ShapeKeepsInv(s, w);
  }

  // ---- Registration ----

  lemma InitInv()
    ensures Inv(InitServer())
  {
  }

  lemma {:induction false} SumSizesBound(vars: seq<Var>, ids: seq<u8>)
    requires MembersOk(vars, ids) && forall k :: 0 <= k < |vars| ==> VarOk(vars[k])
    ensures SumSizes(vars, ids) <= |ids| * VAR_MAX_SIZE
    decreases |ids|
  {
    if ids != [] { SumSizesBound(vars, ids[..|ids| - 1]); }
  }

  lemma {:induction false} SumSizesExtend(vars: seq<Var>, more: seq<Var>, ids: seq<u8>)
    requires MembersOk(vars, ids) && vars <= more
    ensures MembersOk(more, ids) && SumSizes(more, ids) == SumSizes(vars, ids)
    decreases |ids|
  {
    if ids != [] { SumSizesExtend(vars, more, ids[..|ids| - 1]); }
  }

  lemma {:induction false} IncreasingBound(ids: seq<u8>, bound: nat)
    requires Increasing(ids) && forall k :: 0 <= k < |ids| ==> ids[k] < bound
    ensures |ids| <= bound
    decreases |ids|
  {
    if ids != [] { IncreasingBound(ids[..|ids| - 1], ids[|ids| - 1]); }
  }

  lemma SumSizesAppend(vars: seq<Var>, ids: seq<u8>, id: u8)
    requires MembersOk(vars, ids) && id < |vars|
    ensures MembersOk(vars, ids + [id])
    ensures SumSizes(vars, ids + [id]) == SumSizes(vars, ids) + vars[id].size
  {
    assert (ids + [id])[..|ids|] == ids;
  }

  lemma IncreasingAppend(ids: seq<u8>, id: u8)
    requires Increasing(ids) && (ids != [] ==> ids[|ids| - 1] < id)
    ensures Increasing(ids + [id])
  {
  }

  /** group_add_var keeps the derived data, and the 16-bit size never wraps. */
  lemma AddVarOk(vars: seq<Var>, more: seq<Var>, g: Group, id: u8)
    requires GroupOk(vars, g) && vars <= more && |more| <= MAX_VARIABLES && id < |more|
    requires forall k :: 0 <= k < |more| ==> VarOk(more[k])
    requires g.ids != [] ==> g.ids[|g.ids| - 1] < id
    ensures GroupOk(more, AddVar(g, id, more[id]))
  {
    hide SumSizes;
    SumSizesExtend(vars, more, g.ids);
    SumSizesAppend(more, g.ids, id);
    SumSizesBound(more, g.ids + [id]);
    IncreasingAppend(g.ids, id);
    IncreasingBound(g.ids + [id], |more|);
    assert |g.ids + [id]| * VAR_MAX_SIZE <= 128 * 128;
    assert AllWritable(more, g.ids + [id]) == (AllWritable(vars, g.ids) && more[id].writable) by {
      assert forall k :: 0 <= k < |g.ids| ==> (g.ids + [id])[k] == g.ids[k];
      assert (g.ids + [id])[|g.ids|] == id;
    }
  }

  lemma StandardGroupsExtend(vars: seq<Var>, v: Var, groups: seq<Group>)
    requires |vars| < MAX_VARIABLES && GROUP_STANDARD_COUNT <= |groups| && StandardGroups(vars, groups)
    ensures var id := |vars|;
            var second := if v.writable then GROUP_WRITE else GROUP_READ;
            var gs := groups[GROUP_ALL := AddVar(groups[GROUP_ALL], id, v)];
            StandardGroups(vars + [v], gs[second := AddVar(gs[second], id, v)])
  {
    var id := |vars|;
    assert (vars + [v])[..id] == vars;
    assert AllIds(id + 1) == AllIds(id) + [id];
  }

  lemma RegisterVarGroups(s: Server, v: Var, k: nat)
    requires Inv(s) && VarOk(v) && |s.vars| < MAX_VARIABLES && k < |s.groups|
    ensures GroupOk(s.vars + [v], RegisterVar(s, v).1.groups[k])
  {
    var id, more := |s.vars|, s.vars + [v];
    var g := s.groups[k];
    assert GroupOk(s.vars, g);
    assert forall j :: 0 <= j < |more| ==> VarOk(more[j]);
    if RegisterVar(s, v).1.groups[k] == g {
      SumSizesExtend(s.vars, more, g.ids);
      assert forall j :: 0 <= j < |g.ids| ==> more[g.ids[j]] == s.vars[g.ids[j]];
    } else {
      AddVarOk(s.vars, more, g, id);
    }
  }

  lemma RegisterVarKeepsInv(s: Server, v: Var)
    requires Inv(s) && |v.data| == v.size
    ensures Inv(RegisterVar(s, v).1)
  {
    hide SumSizes, IdsWith, AllWritable, Increasing, AddVar;
    var (e, t) := RegisterVar(s, v);
    if e == Success {
      StandardGroupsExtend(s.vars, v, s.groups);
      forall k | 0 <= k < |s.groups| ensures GroupOk(t.vars, t.groups[k]) && (k >= GROUP_STANDARD_COUNT ==> t.groups[k] == s.groups[k]) {
        RegisterVarGroups(s, v, k);
      }
      assert forall k :: 0 <= k < |t.vars| ==> VarOk(t.vars[k]);
    }
  }

  lemma RegisterOthersKeepInv(s: Server, c: Curve, f: Func)
    requires Inv(s)
    ensures |c.checksum| == CSUM_SIZE && |c.blocks| == c.nblocks && (forall k :: 0 <= k < |c.blocks| ==> |c.blocks[k]| <= c.blockSize)
            ==> Inv(RegisterCurve(s, c).1)
    ensures (forall x :: |f.exec(x).output| == f.outputSize) ==> Inv(RegisterFunc(s, f).1)
  {
  }

  // ---- Packets ----

  lemma BuildGroupStep(vars: seq<Var>, ids: seq<u8>)
    requires MembersOk(vars, ids) && ids != []
    ensures var front, id := ids[..|ids| - 1], ids[|ids| - 1];
            BuildGroup(vars, ids) == AddVar(BuildGroup(vars, front), id, vars[id])
  {
  }

  lemma FrontOf(vars: seq<Var>, ids: seq<u8>)
    requires MembersOk(vars, ids) && Increasing(ids) && ids != []
    ensures var front, id := ids[..|ids| - 1], ids[|ids| - 1];
            && MembersOk(vars, front) && Increasing(front) && id < |vars| && ids == front + [id]
            && (front != [] ==> front[|front| - 1] < id)
  {
  }

  lemma {:induction false} BuildGroupOk(vars: seq<Var>, ids: seq<u8>)
    requires MembersOk(vars, ids) && Increasing(ids) && |vars| <= MAX_VARIABLES
    requires forall k :: 0 <= k < |vars| ==> VarOk(vars[k])
    ensures GroupOk(vars, BuildGroup(vars, ids)) && BuildGroup(vars, ids).ids == ids
    decreases |ids|
  {
    if ids != [] {
      var front, id := ids[..|ids| - 1], ids[|ids| - 1];
      FrontOf(vars, ids);
      BuildGroupOk(vars, front);
      AddVarOk(vars, vars, BuildGroup(vars, front), id);
      BuildGroupStep(vars, ids);
    }
  }

  lemma NewGroupKeepsInv(s: Server, g: Group)
    requires Inv(s) && GroupOk(s.vars, g) && g.ids != [] && |s.groups| < MAX_GROUPS
    ensures Inv(s.(groups := s.groups + [g]))
  {
    hide SumSizes, IdsWith, AllWritable;
    var gs := s.groups + [g];
    forall k | 0 <= k < |gs| ensures GroupOk(s.vars, gs[k]) {
      assert k < |s.groups| ==> GroupOk(s.vars, s.groups[k]);
    }
  }

  /** A created group comes after the live ones; a rejected one changes nothing. */
  lemma GroupCreateKeepsInv(s: Server, p: seq<u8>)
    requires Inv(s)
    ensures Inv(GroupCreate(s, p).server)
    ensures GroupCreate(s, p).reply.code == OK ==> GroupCreate(s, p).server.groups[..|s.groups|] == s.groups
    ensures GroupCreate(s, p).reply.code != OK ==> GroupCreate(s, p).server == s
  {
    hide BuildGroup, SumSizes, IdsWith, AllWritable;
    if 1 <= |p| <= |s.vars| && |s.groups| != MAX_GROUPS && MembersOk(s.vars, p) && Increasing(p) {
      BuildGroupOk(s.vars, p);
      NewGroupKeepsInv(s, BuildGroup(s.vars, p));
    }
  }

  lemma {:induction false} WriteMembersShape(vars: seq<Var>, ids: seq<u8>, payload: seq<u8>, k: nat)
    requires MembersOk(vars, ids) && k <= |ids| && |payload| == SumSizes(vars, ids)
    requires forall j :: 0 <= j < |vars| ==> VarOk(vars[j])
    ensures var w := WriteMembers(vars, ids, payload, k);
            SameShape(vars, w) && forall j :: 0 <= j < |w| ==> VarOk(w[j]) && w[j].accepts == vars[j].accepts
    decreases k
  {
    if k > 0 { WriteMembersShape(vars, ids, payload, k - 1); }
  }

  lemma VarWriteKeepsInv(s: Server, p: seq<u8>)
    requires Inv(s)
    ensures Inv(VarWrite(s, p).server)
  {
    if |p| >= 2 && p[0] < |s.vars| && |p| == 1 + s.vars[p[0]].size { AssignKeepsInv(s, p[0], p[1..]); }
  }

  lemma VarWriteReadKeepsInv(s: Server, p: seq<u8>)
    requires Inv(s)
    ensures Inv(VarWriteRead(s, p).server)
  {
    if |p| >= 2 && p[0] < |s.vars| && |p| == 2 + s.vars[p[0]].size { AssignKeepsInv(s, p[0], p[2..]); }
  }

  lemma VarBinOpKeepsInv(s: Server, p: seq<u8>)
    requires Inv(s)
    ensures Inv(VarBinOp(s, p).server)
  {
    if |p| >= 2 && p[0] < |s.vars| && |p| == 2 + s.vars[p[0]].size && OpOf(p[1]).Some? {
      assert VarOk(s.vars[p[0]]);
      AssignKeepsInv(s, p[0], ApplyMask(OpOf(p[1]).value, s.vars[p[0]].data, p[2..]));
    }
  }

  lemma GroupWriteKeepsInv(s: Server, p: seq<u8>)
    requires Inv(s)
    ensures Inv(GroupWrite(s, p).server)
  {
    if |p| >= 2 && p[0] < |s.groups| && |p| == 1 + s.groups[p[0]].size {
      var g := s.groups[p[0]];
      WriteMembersShape(s.vars, g.ids, p[1..], |g.ids|);
      ShapeKeepsInv(s, WriteMembers(s.vars, g.ids, p[1..], |g.ids|));
    }
  }

  lemma GroupBinOpKeepsInv(s: Server, p: seq<u8>)
    requires Inv(s)
    ensures Inv(GroupBinOp(s, p).server)
  {
    if |p| >= 2 && p[0] < |s.groups| && |p| == 2 + s.groups[p[0]].size && OpOf(p[1]).Some? {
      var g := s.groups[p[0]];
      var w := MaskMembers(OpOf(p[1]).value, s.vars, g.ids, p[2..], |g.ids|);
      assert forall k :: 0 <= k < |w| ==> VarOk(s.vars[k]);
      ShapeKeepsInv(s, w);
    }
  }

  lemma CurveUpdateKeepsInv(s: Server, id: u8, c: Curve)
    requires Inv(s) && id < |s.curves| && CurveOk(c)
    ensures Inv(s.(curves := s.curves[id := c]))
  {
  }

  lemma CurveBlockWriteKeepsInv(s: Server, p: seq<u8>, busy: Busy)
    requires Inv(s)
    ensures Inv(CurveBlockWrite(s, p, busy).server)
  {
    var t := CurveBlockWrite(s, p, busy).server;
    if t != s {
      var c := t.curves[p[0]];
      assert CurveOk(s.curves[p[0]]);
      assert CurveOk(c);
      CurveUpdateKeepsInv(s, p[0], c);
    }
  }

  lemma CurveRecalcKeepsInv(s: Server, p: seq<u8>, busy: Busy, md5: seq<u8> -> seq<u8>)
    requires Inv(s) && forall x :: |md5(x)| == CSUM_SIZE
    ensures Inv(CurveRecalcCsum(s, p, busy, md5).server)
  {
    var t := CurveRecalcCsum(s, p, busy, md5).server;
    if t != s {
      assert CurveOk(s.curves[p[0]]);
      CurveUpdateKeepsInv(s, p[0], t.curves[p[0]]);
    }
  }

  /** Every packet keeps the invariant. */
  lemma DispatchKeepsInv(s: Server, code: u8, p: seq<u8>, busy: Busy, md5: seq<u8> -> seq<u8>)
    requires Inv(s) && forall x :: |md5(x)| == CSUM_SIZE
    ensures Inv(Dispatch(s, code, p, busy, md5).server)
  {
    hide CurveBlockWrite, CurveRecalcCsum, Query, VarWrite, VarBinOp, VarWriteRead, GroupWrite, GroupBinOp, GroupCreate;
    if code == VAR_WRITE { VarWriteKeepsInv(s, p); }
    else if code == VAR_BIN_OP { VarBinOpKeepsInv(s, p); }
    else if code == VAR_WRITE_READ { VarWriteReadKeepsInv(s, p); }
    else if code == CMD_GROUP_WRITE { GroupWriteKeepsInv(s, p); }
    else if code == GROUP_BIN_OP { GroupBinOpKeepsInv(s, p); }
    else if code == GROUP_CREATE { GroupCreateKeepsInv(s, p); }
    else if code == CURVE_BLOCK { CurveBlockWriteKeepsInv(s, p, busy); }
    else if code == CURVE_RECALC_CSUM { CurveRecalcKeepsInv(s, p, busy, md5); }
  }

  lemma {:induction false} ValuesLength(vars: seq<Var>, ids: seq<u8>)
    requires MembersOk(vars, ids) && forall k :: 0 <= k < |vars| ==> |vars[k].data| == vars[k].size
    ensures |Values(vars, ids)| == SumSizes(vars, ids)
    decreases |ids|
  {
    if ids != [] { ValuesLength(vars, ids[..|ids| - 1]); }
  }

  lemma {:induction false} CurveListLength(cs: seq<Curve>)
    ensures |CurveList(cs)| == 5 * |cs|
    decreases |cs|
  {
    if cs != [] { CurveListLength(cs[..|cs| - 1]); }
  }

  lemma QueryFits(s: Server, code: u8, p: seq<u8>, busy: Busy)
    requires Inv(s)
    ensures |Query(s, code, p, busy).payload| < U16_MOD
  {
    hide Values, SumSizes, CurveList, IdsWith, AllWritable;
    if code == CMD_GROUP_READ && |p| == 1 && p[0] < |s.groups| {
      ValuesLength(s.vars, s.groups[p[0]].ids);
    } else if code == GROUP_QUERY && |p| == 1 && p[0] < |s.groups| {
      assert GroupOk(s.vars, s.groups[p[0]]);
    } else if code == CURVE_QUERY_LIST {
      CurveListLength(s.curves);
    }
  }

  lemma VarReplyFits(s: Server, p: seq<u8>)
    requires Inv(s)
    ensures |VarWrite(s, p).reply.payload| == |VarBinOp(s, p).reply.payload| == 0
    ensures |VarWriteRead(s, p).reply.payload| <= VAR_MAX_SIZE
  {
    hide SumSizes, IdsWith, AllWritable, ApplyMask;
    if |p| >= 1 && p[0] < |s.vars| { assert VarOk(s.vars[p[0]]); }
  }

  lemma GroupReplyFits(s: Server, p: seq<u8>)
    requires Inv(s)
    ensures |GroupWrite(s, p).reply.payload| == |GroupBinOp(s, p).reply.payload| == 0
    ensures |GroupCreate(s, p).reply.payload| == |GroupRemoveAll(s, p).reply.payload| == 0
  {
    hide SumSizes, IdsWith, AllWritable, WriteMembers, MaskMembers, BuildGroup;
  }

  lemma CurveReplyFits(s: Server, p: seq<u8>, busy: Busy, md5: seq<u8> -> seq<u8>)
    requires Inv(s) && forall x :: |md5(x)| == CSUM_SIZE
    ensures |CurveBlockWrite(s, p, busy).reply.payload| == 0
    ensures |CurveRecalcCsum(s, p, busy, md5).reply.payload| <= CSUM_SIZE
  {
    hide SumSizes, IdsWith, AllWritable, Checksummed;
  }

  /** The 16-bit length of a response never overflows. */
  lemma ResponseFits(s: Server, code: u8, p: seq<u8>, busy: Busy, md5: seq<u8> -> seq<u8>)
    requires Inv(s) && forall x :: |md5(x)| == CSUM_SIZE
    ensures |Dispatch(s, code, p, busy, md5).reply.payload| < U16_MOD
  {
    hide Query, VarWrite, VarBinOp, VarWriteRead, GroupWrite, GroupBinOp, GroupCreate, GroupRemoveAll, CurveBlockWrite, CurveRecalcCsum;
    VarReplyFits(s, p);
    GroupReplyFits(s, p);
    CurveReplyFits(s, p, busy, md5);
    QueryFits(s, code, p, busy);
  }

  // ---- Whole runs ----

  datatype Event =
    | AddVariable(v: Var)
    | AddCurve(c: Curve)
    | AddFunction(f: Func)
    | Packet(request: seq<u8>, busy: Busy)

  ghost predicate WellFormed(e: Event) {
    match e
    case AddVariable(v) => |v.data| == v.size
    case AddCurve(c) => |c.checksum| == CSUM_SIZE && |c.blocks| == c.nblocks && (forall k :: 0 <= k < |c.blocks| ==> |c.blocks[k]| <= c.blockSize)
    case AddFunction(f) => forall x :: |f.exec(x).output| == f.outputSize
    case Packet(_, _) => true
  }

  /** The server after an event; without tables in order nothing happens, which ReachableInv rules out. */
  ghost function After(s: Server, e: Event, md5: seq<u8> -> seq<u8>): Server {
    if !TablesOk(s) || |s.groups| < GROUP_STANDARD_COUNT then s
    else
      match e
      case AddVariable(v) => RegisterVar(s, v).1
      case AddCurve(c) => RegisterCurve(s, c).1
      case AddFunction(f) => RegisterFunc(s, f).1
      case Packet(r, busy) => ProcessPacket(s, r, busy, md5).0
  }

  lemma EventKeepsInv(s: Server, e: Event, md5: seq<u8> -> seq<u8>)
    requires Inv(s) && WellFormed(e) && forall x :: |md5(x)| == CSUM_SIZE
    ensures Inv(After(s, e, md5))
  {
    match e
    case AddVariable(v) => RegisterVarKeepsInv(s, v);
    case AddCurve(c) => RegisterOthersKeepInv(s, c, Func(0, 0, (x: seq<u8>) => FuncResult(0, [])));
    case AddFunction(f) => RegisterOthersKeepInv(s, Curve(false, 0, 0, NO_CHECKSUM, []), f);
    case Packet(r, busy) =>
      if 3 <= |r| == 3 + Word16(r[1], r[2]) { DispatchKeepsInv(s, r[0], r[3..], busy, md5); }
  }

  function Latest(es: seq<Event>): Event
    requires es != []
  {
    es[|es| - 1]
  }

  ghost predicate Reachable(s: Server, es: seq<Event>, md5: seq<u8> -> seq<u8>)
    decreases |es|
  {
    if es == [] then s == InitServer()
    else
      exists t :: Reachable(t, es[..|es| - 1], md5) && WellFormed(Latest(es)) && s == After(t, Latest(es), md5)
  }

  lemma {:induction false} ReachableInv(s: Server, es: seq<Event>, md5: seq<u8> -> seq<u8>)
    requires Reachable(s, es, md5) && forall x :: |md5(x)| == CSUM_SIZE
    ensures Inv(s)
    decreases |es|
  {
    if es == [] {
      InitInv();
    } else {
      var t :| Reachable(t, es[..|es| - 1], md5) && WellFormed(Latest(es)) && s == After(t, Latest(es), md5);
      ReachableInv(t, es[..|es| - 1], md5);
      EventKeepsInv(t, Latest(es), md5);
    }
  }
}
