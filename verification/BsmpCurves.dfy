/** The stored checksum of a curve agrees with its blocks, and which blocks it covers. */
module BsmpCurves {
  import opened Bytes
  import opened Bsmp
  import opened BsmpInvariant

  // ---- The cache over whole runs ----

  /** Unknown (all zero), or the digest of what the checksum loop reads now. */
  ghost predicate CacheOk(c: Curve, md5: seq<u8> -> seq<u8>)
    requires |c.blocks| == c.nblocks
  {
    c.checksum == NO_CHECKSUM || c.checksum == md5(Checksummed(c, 0))
  }

  ghost predicate CachesOk(s: Server, md5: seq<u8> -> seq<u8>)
    requires TablesOk(s)
  {
    forall k :: 0 <= k < |s.curves| ==> CacheOk(s.curves[k], md5)
  }

  /** A curve may be registered with no checksum or with the right one. */
  ghost predicate Honest(e: Event, md5: seq<u8> -> seq<u8>)
    requires WellFormed(e)
  {
    e.AddCurve? ==> CacheOk(e.c, md5)
  }

  /** Only two commands touch curves. */
  lemma OtherCommandsKeepCurves(s: Server, code: u8, p: seq<u8>, busy: Busy, md5: seq<u8> -> seq<u8>)
    requires TablesOk(s) && |s.groups| >= GROUP_STANDARD_COUNT && code != CURVE_BLOCK && code != CURVE_RECALC_CSUM
    ensures Dispatch(s, code, p, busy, md5).server.curves == s.curves
  {
  }

  lemma CurveCount(s: Server, p: seq<u8>, busy: Busy, md5: seq<u8> -> seq<u8>)
    requires forall j :: 0 <= j < |s.curves| ==> |s.curves[j].blocks| == s.curves[j].nblocks
    ensures |CurveBlockWrite(s, p, busy).server.curves| == |s.curves| == |CurveRecalcCsum(s, p, busy, md5).server.curves|
  {
  }

  lemma BlockWriteKeepsCaches(cs: seq<Curve>, s: Server, p: seq<u8>, busy: Busy, md5: seq<u8> -> seq<u8>, k: nat)
    requires s.curves == cs && k < |cs|
    requires forall j :: 0 <= j < |cs| ==> |cs[j].blocks| == cs[j].nblocks
    requires CacheOk(cs[k], md5)
    ensures var ds := CurveBlockWrite(s, p, busy).server.curves;
            |ds| == |cs| && |ds[k].blocks| == ds[k].nblocks && CacheOk(ds[k], md5)
  {
  }

  lemma RecalcKeepsCaches(cs: seq<Curve>, s: Server, p: seq<u8>, busy: Busy, md5: seq<u8> -> seq<u8>, k: nat)
    requires s.curves == cs && k < |cs|
    requires forall j :: 0 <= j < |cs| ==> |cs[j].blocks| == cs[j].nblocks
    requires CacheOk(cs[k], md5)
    ensures var ds := CurveRecalcCsum(s, p, busy, md5).server.curves;
            |ds| == |cs| && |ds[k].blocks| == ds[k].nblocks && CacheOk(ds[k], md5)
  {
    SameBlocks(cs[k], cs[k].(checksum := md5(Checksummed(cs[k], 0))), 0);
  }

  lemma DispatchKeepsCaches(s: Server, code: u8, p: seq<u8>, busy: Busy, md5: seq<u8> -> seq<u8>)
    requires Inv(s) && Inv(Dispatch(s, code, p, busy, md5).server) && CachesOk(s, md5)
    ensures CachesOk(Dispatch(s, code, p, busy, md5).server, md5)
  {
    CurveCount(s, p, busy, md5);
    hide CurveBlockWrite, CurveRecalcCsum, Query, VarWrite, VarBinOp, VarWriteRead, GroupWrite, GroupBinOp, GroupCreate, GroupRemoveAll;
    if code == CURVE_BLOCK {
      forall k | 0 <= k < |s.curves| { BlockWriteKeepsCaches(s.curves, s, p, busy, md5, k); }
    } else if code == CURVE_RECALC_CSUM {
      forall k | 0 <= k < |s.curves| { RecalcKeepsCaches(s.curves, s, p, busy, md5, k); }
    } else {
      OtherCommandsKeepCurves(s, code, p, busy, md5);
    }
  }

  /** The checksum field does not feed into the checksum. */
  lemma {:induction false} SameBlocks(c: Curve, d: Curve, k: nat)
    requires |c.blocks| == c.nblocks && k <= c.nblocks && d == c.(checksum := d.checksum)
    ensures Checksummed(c, k) == Checksummed(d, k)
    decreases c.nblocks - k
  {
    if k < c.nblocks { SameBlocks(c, d, k + 1); }
  }

  lemma PacketKeepsCaches(s: Server, r: seq<u8>, busy: Busy, md5: seq<u8> -> seq<u8>)
    requires Inv(s) && CachesOk(s, md5) && forall x :: |md5(x)| == CSUM_SIZE
    ensures Inv(ProcessPacket(s, r, busy, md5).0) && CachesOk(ProcessPacket(s, r, busy, md5).0, md5)
  {
    if 3 <= |r| == 3 + Word16(r[1], r[2]) {
      DispatchKeepsInv(s, r[0], r[3..], busy, md5);
      DispatchKeepsCaches(s, r[0], r[3..], busy, md5);
    }
  }

  /** The answer to a recalculation is what a query is told afterwards: the checksum of what the loop reads. */
  lemma RecalcAnswersStored(s: Server, id: u8, busy: Busy, md5: seq<u8> -> seq<u8>)
    requires Inv(s) && id < |s.curves| && |s.curves[id].blocks| == s.curves[id].nblocks && !ReadRefused(s.curves[id], 0, busy)
    ensures var o := CurveRecalcCsum(s, [id], busy, md5);
            o.reply == CurveQueryCsum(o.server, [id]) == Msg(CURVE_CSUM, md5(Checksummed(s.curves[id], 0)))
  {
    assert forall k :: 0 <= k < |s.curves| ==> CurveOk(s.curves[k]);
    hide Checksummed, ReadRefused;
  }

  lemma AddCurveKeepsCaches(s: Server, c: Curve, md5: seq<u8> -> seq<u8>)
    requires TablesOk(s) && TablesOk(RegisterCurve(s, c).1) && CachesOk(s, md5)
    requires |c.blocks| == c.nblocks && CacheOk(c, md5)
    ensures CachesOk(RegisterCurve(s, c).1, md5)
  {
  }

  lemma EventKeepsCaches(s: Server, e: Event, md5: seq<u8> -> seq<u8>)
    requires Inv(s) && WellFormed(e) && Honest(e, md5) && CachesOk(s, md5) && forall x :: |md5(x)| == CSUM_SIZE
    ensures Inv(After(s, e, md5)) && CachesOk(After(s, e, md5), md5)
  {
    hide Dispatch, Encode, ProcessPacket, SumSizes, IdsWith, AllWritable, Increasing, AddVar, CachesOk;
    EventKeepsInv(s, e, md5);
    match e
    case Packet(r, busy) => PacketKeepsCaches(s, r, busy, md5);
    case AddCurve(c) => AddCurveKeepsCaches(s, c, md5);
    case AddVariable(v) => SameCurves(s, After(s, e, md5), md5);
    case AddFunction(f) => SameCurves(s, After(s, e, md5), md5);
  }

  lemma SameCurves(s: Server, t: Server, md5: seq<u8> -> seq<u8>)
    requires TablesOk(s) && TablesOk(t) && t.curves == s.curves && CachesOk(s, md5)
    ensures CachesOk(t, md5)
  {
  }

  /** After any registrations and packets every stored checksum is unknown or right. */
  lemma {:induction false} CacheAgrees(s: Server, es: seq<Event>, md5: seq<u8> -> seq<u8>)
    requires Reachable(s, es, md5) && forall x :: |md5(x)| == CSUM_SIZE
    requires forall k :: 0 <= k < |es| ==> WellFormed(es[k]) && Honest(es[k], md5)
    ensures Inv(s) && CachesOk(s, md5)
    decreases |es|
  {
    ReachableInv(s, es, md5);
    if es != [] {
      var n := |es| - 1;
      var t :| Reachable(t, es[..n], md5) && WellFormed(Latest(es)) && s == After(t, Latest(es), md5);
      CacheAgrees(t, es[..n], md5);
      EventKeepsCaches(t, es[n], md5);
    }
  }

  /** What a client that asks for the checksum is told. */
  lemma AnsweredChecksum(s: Server, es: seq<Event>, md5: seq<u8> -> seq<u8>, id: u8)
    requires Reachable(s, es, md5) && id < |s.curves| && forall x :: |md5(x)| == CSUM_SIZE
    requires forall k :: 0 <= k < |es| ==> WellFormed(es[k]) && Honest(es[k], md5)
    ensures Inv(s)
    ensures var m := CurveQueryCsum(s, [id]);
            m.code == CURVE_CSUM && (m.payload == NO_CHECKSUM || m.payload == md5(Checksummed(s.curves[id], 0)))
  {
    CacheAgrees(s, es, md5);
    assert CacheOk(s.curves[id], md5);
  }

  // ---- Which blocks the checksum covers ----

  /** The contents of a curve from block k on. */
  function Contents(c: Curve, k: nat): seq<u8>
    requires |c.blocks| == c.nblocks && k <= c.nblocks
    decreases c.nblocks - k
  {
    if k == c.nblocks then [] else c.blocks[k] + Contents(c, k + 1)
  }

  /** No data behind a block that is shorter than the number of blocks. */
  ghost predicate ShortBlocksLast(c: Curve, k: nat)
    requires |c.blocks| == c.nblocks
  {
    forall i, j :: k <= i < j < c.nblocks && |c.blocks[i]| < c.nblocks ==> c.blocks[j] == []
  }

  lemma {:induction false} EmptyContents(c: Curve, k: nat)
    requires |c.blocks| == c.nblocks && k <= c.nblocks
    ensures Contents(c, k) == [] <==> forall j :: k <= j < c.nblocks ==> c.blocks[j] == []
    decreases c.nblocks - k
  {
    if k < c.nblocks {
      EmptyContents(c, k + 1);
      assert Contents(c, k) == [] <==> c.blocks[k] == [] && Contents(c, k + 1) == [] by {
        assert |Contents(c, k)| == |c.blocks[k]| + |Contents(c, k + 1)|;
      }
    }
  }

  lemma {:induction false} CoversFrom(c: Curve, k: nat)
    requires |c.blocks| == c.nblocks && k <= c.nblocks
    ensures Checksummed(c, k) == Contents(c, k) <==> ShortBlocksLast(c, k)
    decreases c.nblocks - k
  {
    if k < c.nblocks {
      CoversFrom(c, k + 1);
      EmptyContents(c, k + 1);
      var b, rest := c.blocks[k], Contents(c, k + 1);
      if |b| < c.nblocks {
        assert b == b + rest <==> rest == [] by { assert |b + rest| == |b| + |rest|; }
        if rest == [] { AllShortLast(c, k); }
      } else {
        var read := Checksummed(c, k + 1);
        assert (b + read)[|b|..] == read && (b + rest)[|b|..] == rest;
      }
    }
  }

  lemma AllShortLast(c: Curve, k: nat)
    requires |c.blocks| == c.nblocks && k < c.nblocks
    requires forall j :: k + 1 <= j < c.nblocks ==> c.blocks[j] == []
    ensures ShortBlocksLast(c, k)
  {
  }

  /** The checksum covers the whole curve exactly when no data lies behind a block with fewer bytes
      than the curve has blocks. The loop compares the bytes read with the number of blocks, where
      the block size would be meant. */
  lemma ChecksumCoversCurve(c: Curve)
    requires |c.blocks| == c.nblocks
    ensures Checksummed(c, 0) == Contents(c, 0) <==> ShortBlocksLast(c, 0)
  {
    CoversFrom(c, 0);
  }

  /** In particular when every block but the last has at least as many bytes as there are blocks. */
  lemma LongBlocksAreCovered(c: Curve)
    requires |c.blocks| == c.nblocks && forall k :: 0 <= k < c.nblocks - 1 ==> |c.blocks[k]| >= c.nblocks
    ensures Checksummed(c, 0) == Contents(c, 0)
  {
    CoversFrom(c, 0);
  }

  const TWO_BLOCKS := Curve(true, 2, 1, NO_CHECKSUM, [[1], [2]])

  /** A registered curve whose second block the checksum leaves out. */
  lemma SecondBlockLeftOut(md5: seq<u8> -> seq<u8>)
    ensures var s := InitServer().(curves := [TWO_BLOCKS]);
            Reachable(s, [AddCurve(TWO_BLOCKS)], md5)
    ensures Checksummed(TWO_BLOCKS, 0) == [1] && Contents(TWO_BLOCKS, 0) == [1, 2]
  {
    var s, es := InitServer(), [AddCurve(TWO_BLOCKS)];
    InitInv();
    assert es[..|es| - 1] == [] && Reachable(s, [], md5);
    assert After(s, Latest(es), md5) == s.(curves := [TWO_BLOCKS]) && WellFormed(Latest(es));
    assert Checksummed(TWO_BLOCKS, 2) == [] && Contents(TWO_BLOCKS, 2) == [];
    assert Contents(TWO_BLOCKS, 1) == [2];
  }
}
