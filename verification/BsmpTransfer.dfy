/** The transfer of a whole curve in blocks. */
module BsmpTransfer {
  import opened Bytes
  import S = Bsmp

  // ---- Whole curves ----

  /** The blocks a client can send from data: full blocks, then a rest; an empty block is refused. */
  function Sent(data: seq<u8>, bs: nat, n: nat): (r: seq<seq<u8>>)
    ensures |r| <= n
    decreases n
  {
    if n == 0 || data == [] || bs == 0 then []
    else [data[..Min(bs, |data|)]] + Sent(data[Min(bs, |data|)..], bs, n - 1)
  }

  /** A curve after its first blocks were replaced. */
  function Overwritten(c: S.Curve, blocks: seq<seq<u8>>): S.Curve
    requires |blocks| <= |c.blocks|
  {
    c.(blocks := blocks + c.blocks[|blocks|..], checksum := if blocks == [] then c.checksum else S.NO_CHECKSUM)
  }

  /** What a reader gets from block k on: it stops after a block that is not full. */
  function Received(c: S.Curve, k: nat): seq<u8>
    requires |c.blocks| == c.nblocks && k <= c.nblocks
    decreases c.nblocks - k
  {
    if k == c.nblocks then []
    else if |c.blocks[k]| < c.blockSize then c.blocks[k]
    else c.blocks[k] + Received(c, k + 1)
  }

  /** Does the reader meet a refused read from block k on? */
  predicate Refused(c: S.Curve, k: nat, busy: nat -> S.Busy)
    requires |c.blocks| == c.nblocks && k <= c.nblocks
    decreases c.nblocks - k
  {
    k < c.nblocks && (busy(k).read(k) || (|c.blocks[k]| >= c.blockSize && Refused(c, k + 1, busy)))
  }

  /** All n blocks can be filled exactly when there are more than n - 1 blocks of data. */
  lemma {:induction false} SentAll(data: seq<u8>, bs: nat, n: nat)
    requires n >= 1
    ensures |Sent(data, bs, n)| == n <==> bs >= 1 && |data| > (n - 1) * bs
    decreases n
  {
    if data != [] && bs >= 1 {
      if n > 1 {
        SentAll(data[Min(bs, |data|)..], bs, n - 1);
        assert (n - 1) * bs == (n - 2) * bs + bs;
      }
    } else if bs >= 1 {
      assert (n - 1) * bs >= 0;
    }
  }

  lemma Succ(n: int, bs: int)
    ensures n * bs == (n - 1) * bs + bs
  {
  }

  lemma {:induction false} Monotone(a: nat, b: nat, bs: nat)
    requires a <= b
    ensures a * bs <= b * bs
    decreases b
  {
    if a < b {
      Monotone(a, b - 1, bs);
      Succ(b, bs);
    }
  }

  lemma {:induction false} ReceivedIsSent(c: S.Curve, k: nat, data: seq<u8>)
    requires |c.blocks| == c.nblocks && k <= c.nblocks && c.blockSize >= 1
    requires c.blocks[k..] == Sent(data, c.blockSize, c.nblocks - k)
    ensures var m := (c.nblocks - k) * c.blockSize; m >= 0 && Received(c, k) == data[..Min(m, |data|)]
    decreases c.nblocks - k
  {
    var n, bs := c.nblocks - k, c.blockSize as int;
    if n > 0 {
      var head, rest := data[..Min(bs, |data|)], data[Min(bs, |data|)..];
      assert c.blocks[k] == c.blocks[k..][0] == head;
      assert c.blocks[k + 1..] == c.blocks[k..][1..] == Sent(rest, bs, n - 1);
      ReceivedIsSent(c, k + 1, rest);
      Succ(n, bs);
      if |head| == bs { assert data[..Min(n * bs, |data|)] == head + rest[..Min((n - 1) * bs, |rest|)]; }
    }
  }

  /** The data fills all blocks but the last, and the last one at least in part. */
  predicate Fills(c: S.Curve, data: seq<u8>) {
    (c.nblocks - 1) * c.blockSize < |data| <= c.nblocks * c.blockSize
  }

  /** Writing a curve succeeds and reading it returns the same bytes exactly when the data fills all
      but the last block and the last one at least in part. */
  lemma CurveRoundTrip(c: S.Curve, data: seq<u8>)
    requires |c.blocks| == c.nblocks && c.nblocks >= 1
    ensures var sent := Sent(data, c.blockSize, c.nblocks);
            |sent| == c.nblocks && Received(Overwritten(c, sent), 0) == data <==> Fills(c, data)
  {
    var n, bs := c.nblocks, c.blockSize as int;
    var sent := Sent(data, bs, n);
    SentAll(data, bs, n);
    if bs == 0 {
      assert n * bs == 0 && (n - 1) * bs == 0;
    } else if |sent| == n {
      var w := Overwritten(c, sent);
      assert w.blocks[0..] == sent;
      ReceivedIsSent(w, 0, data);
      assert data[..|data|] == data;
    }
  }

  /** All blocks sent but the last are full. */
  lemma {:induction false} SentFull(data: seq<u8>, bs: nat, n: nat, k: nat)
    requires k + 1 < |Sent(data, bs, n)|
    ensures |Sent(data, bs, n)[k]| == bs
    decreases n
  {
    var rest := data[Min(bs, |data|)..];
    if k > 0 { SentFull(rest, bs, n - 1, k - 1); }
  }

  /** The reader of a curve whose blocks are full up to the last is refused exactly when some block is. */
  lemma {:induction false} RefusedAnywhere(c: S.Curve, k: nat, busy: nat -> S.Busy)
    requires |c.blocks| == c.nblocks && k <= c.nblocks
    requires forall j :: 0 <= j && j + 1 < c.nblocks ==> |c.blocks[j]| == c.blockSize
    ensures Refused(c, k, busy) <==> exists j :: k <= j < c.nblocks && busy(j).read(j)
    decreases c.nblocks - k
  {
    if k < c.nblocks {
      RefusedAnywhere(c, k + 1, busy);
    }
  }

  /** The store accepts the first n blocks. */
  ghost predicate Accepted(c: S.Curve, n: nat, writing: nat -> S.Busy) {
    (n > 0 ==> c.writable) && forall k: nat :: k < n ==> !writing(k).write
  }

  /** The data has a block for each of the curve, and every one is accepted. */
  ghost predicate AllWritten(c: S.Curve, data: seq<u8>, writing: nat -> S.Busy) {
    |Sent(data, c.blockSize, c.nblocks)| == c.nblocks && Accepted(c, c.nblocks, writing)
  }

  /** Every block of the curve can be written, and every block read. */
  ghost predicate Accessible(c: S.Curve, writing: nat -> S.Busy, reading: nat -> S.Busy) {
    c.writable && forall k: nat :: k < c.nblocks ==> !writing(k).write && !reading(k).read(k)
  }

  /** Writing and then reading back succeeds with the same bytes exactly when all blocks are accessible
      and the data fills all but the last block and the last one at least in part. */
  lemma AccessibleRoundTrip(c: S.Curve, data: seq<u8>, writing: nat -> S.Busy, reading: nat -> S.Busy)
    requires |c.blocks| == c.nblocks && c.nblocks >= 1
    ensures var d := Overwritten(c, Sent(data, c.blockSize, c.nblocks));
            AllWritten(c, data, writing) && !Refused(d, 0, reading) && Received(d, 0) == data
            <==> Accessible(c, writing, reading) && Fills(c, data)
  {
    var sent := Sent(data, c.blockSize, c.nblocks);
    CurveRoundTrip(c, data);
    if |sent| == c.nblocks {
      var d := Overwritten(c, sent);
      assert d.blocks == sent;
      forall j | 0 <= j && j + 1 < c.nblocks ensures |d.blocks[j]| == c.blockSize { SentFull(data, c.blockSize, c.nblocks, j); }
      RefusedAnywhere(d, 0, reading);
    }
  }

  /** The server after one block of a curve was written. */
  function PutBlock(s: S.Server, i: nat, at: nat, block: seq<u8>): S.Server
    requires i < |s.curves| && at < |s.curves[i].blocks|
  {
    var c := s.curves[i];
    s.(curves := s.curves[i := c.(blocks := c.blocks[at := block], checksum := S.NO_CHECKSUM)])
  }

  /** The server after the first blocks of a curve were written. */
  function PutBlocks(s: S.Server, i: nat, blocks: seq<seq<u8>>): S.Server
    requires i < |s.curves| && |blocks| <= |s.curves[i].blocks|
  {
    s.(curves := s.curves[i := Overwritten(s.curves[i], blocks)])
  }

  lemma PutNone(s: S.Server, i: nat)
    requires i < |s.curves|
    ensures PutBlocks(s, i, []) == s
  {
    assert Overwritten(s.curves[i], []) == s.curves[i];
  }

  lemma PutNext(s: S.Server, i: nat, blocks: seq<seq<u8>>, block: seq<u8>)
    requires i < |s.curves| && |blocks| < |s.curves[i].blocks|
    ensures PutBlock(PutBlocks(s, i, blocks), i, |blocks|, block) == PutBlocks(s, i, blocks + [block])
  {
    var c := s.curves[i];
    assert (blocks + c.blocks[|blocks|..])[|blocks| := block] == blocks + [block] + c.blocks[|blocks| + 1..];
  }

  /** One step of the writing loop. */
  lemma SentNext(sent: seq<seq<u8>>, n: nat, rest: seq<u8>, bs: nat, left: nat)
    requires n <= |sent| && sent[n..] == Sent(rest, bs, left) && left >= 1 && rest != [] && bs >= 1
    ensures var m := Min(bs, |rest|);
            n < |sent| && sent[..n + 1] == sent[..n] + [rest[..m]] && sent[n + 1..] == Sent(rest[m..], bs, left - 1)
  {
    assert sent[n] == sent[n..][0] && sent[n + 1..] == sent[n..][1..];
  }

  /** The invariant of the writing loop: s has become t by n blocks, the data from `at` on is left. */
  ghost predicate Progress(s: S.Server, i: nat, t: S.Server, buf: seq<u8>, at: nat, n: nat, writing: nat -> S.Busy) {
    && i < |s.curves| && at <= |buf| && n <= s.curves[i].nblocks == |s.curves[i].blocks|
    && var c := s.curves[i];
       var sent := Sent(buf, c.blockSize, c.nblocks);
       && n <= |sent| && sent[n..] == Sent(buf[at..], c.blockSize, c.nblocks - n)
       && t == PutBlocks(s, i, sent[..n]) && Accepted(c, n, writing)
  }

  lemma ProgressStarts(s: S.Server, i: nat, buf: seq<u8>, writing: nat -> S.Busy)
    requires i < |s.curves| && s.curves[i].nblocks == |s.curves[i].blocks|
    ensures Progress(s, i, s, buf, 0, 0, writing)
  {
    PutNone(s, i);
  }

  lemma ProgressNext(s: S.Server, i: nat, t: S.Server, buf: seq<u8>, at: nat, n: nat, writing: nat -> S.Busy, blklen: nat)
    requires Progress(s, i, t, buf, at, n, writing) && n < s.curves[i].nblocks
    requires var bs := s.curves[i].blockSize as int; 0 < blklen == (if |buf| - at < bs then |buf| - at else bs)
    requires s.curves[i].writable && !writing(n).write
    ensures i < |t.curves| && n < |t.curves[i].blocks|
    ensures Progress(s, i, PutBlock(t, i, n, buf[at..at + blklen]), buf, at + blklen, n + 1, writing)
  {
    var c := s.curves[i];
    var sent := Sent(buf, c.blockSize, c.nblocks);
    assert buf[at..][..blklen] == buf[at..at + blklen] && buf[at..][blklen..] == buf[at + blklen..];
    SentNext(sent, n, buf[at..], c.blockSize, c.nblocks - n);
    PutNext(s, i, sent[..n], buf[at..at + blklen]);
  }

  /** What a writer leaves behind: n blocks arrived, the rest of the curve and the server is as before,
      and when a block is missing the data was at its end or the block was not accepted. */
  ghost predicate Written(s: S.Server, i: nat, t: S.Server, buf: seq<u8>, n: nat, writing: nat -> S.Busy) {
    && i < |s.curves| && n <= s.curves[i].nblocks == |s.curves[i].blocks|
    && var c := s.curves[i];
       var sent := Sent(buf, c.blockSize, c.nblocks);
       && n <= |sent| && t == PutBlocks(s, i, sent[..n]) && Accepted(c, n, writing)
       && (n < c.nblocks ==> n == |sent| || !c.writable || writing(n).write)
  }

  /** Where the loop stops. */
  lemma ProgressStops(s: S.Server, i: nat, t: S.Server, buf: seq<u8>, at: nat, n: nat, writing: nat -> S.Busy)
    requires Progress(s, i, t, buf, at, n, writing)
    requires var c := s.curves[i]; n == c.nblocks || at == |buf| || c.blockSize == 0 || !c.writable || writing(n).write
    ensures Written(s, i, t, buf, n, writing)
  {
  }

  /** All blocks arrive exactly when the data has one for each and all are accepted. */
  lemma WrittenWhole(s: S.Server, i: nat, t: S.Server, data: seq<u8>, n: nat, writing: nat -> S.Busy)
    requires Written(s, i, t, data, n, writing) && s.curves[i].nblocks >= 1
    ensures var c := s.curves[i];
            var sent := Sent(data, c.blockSize, c.nblocks);
            && (n == c.nblocks <==> AllWritten(c, data, writing))
            && (n == c.nblocks ==> i < |t.curves| && t.curves[i] == Overwritten(c, sent))
  {
    var c := s.curves[i];
    var sent := Sent(data, c.blockSize, c.nblocks);
    if n == c.nblocks { assert sent[..n] == sent; }
  }

  /** One step of the reading loop. */
  lemma ReceivedNext(c: S.Curve, k: nat, got: seq<u8>, busy: nat -> S.Busy)
    requires |c.blocks| == c.nblocks && k < c.nblocks
    requires got + Received(c, k) == Received(c, 0) && Refused(c, k, busy) == Refused(c, 0, busy) && !busy(k).read(k)
    ensures |c.blocks[k]| < c.blockSize ==> got + c.blocks[k] == Received(c, 0) && !Refused(c, 0, busy)
    ensures |c.blocks[k]| >= c.blockSize ==>
              got + c.blocks[k] + Received(c, k + 1) == Received(c, 0) && Refused(c, k + 1, busy) == Refused(c, 0, busy)
  {
    if |c.blocks[k]| >= c.blockSize {
      assert got + c.blocks[k] + Received(c, k + 1) == got + (c.blocks[k] + Received(c, k + 1));
    }
  }

  /** The offset of block blk stays inside a buffer of n blocks. */
  lemma OffsetNext(blk: nat, n: nat, bs: nat)
    requires blk < n
    ensures (blk + 1) * bs == blk * bs + bs <= n * bs
  {
    Succ(blk + 1, bs);
    Monotone(blk + 1, n, bs);
  }
}
