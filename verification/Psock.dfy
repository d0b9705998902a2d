/** Delimited reading with a protosocket: a resumable reader over segments whose boundaries must not
    show in the records it produces. */
module Psock {
  import opened Bytes

  // ---- Records of a stream ----

  /** The bytes after the last marker. */
  function Rest(s: seq<u8>, c: u8): seq<u8> {
    if s == [] then []
    else if s[|s| - 1] == c then []
    else Rest(s[..|s| - 1], c) + [s[|s| - 1]]
  }

  /** The records of a stream, each with its marker. */
  function Records(s: seq<u8>, c: u8): seq<seq<u8>> {
    if s == [] then []
    else
      var front := s[..|s| - 1];
      if s[|s| - 1] == c then Records(front, c) + [Rest(front, c) + [c]] else Records(front, c)
  }

  function Join(rs: seq<seq<u8>>): seq<u8> { if rs == [] then [] else Join(rs[..|rs| - 1]) + rs[|rs| - 1] }

  lemma {:induction false} RestHasNoMarker(s: seq<u8>, c: u8)
    ensures c !in Rest(s, c)
    decreases |s|
  {
    if s != [] { RestHasNoMarker(s[..|s| - 1], c); }
  }

  lemma {:induction false} RecordsEndAtMarkers(s: seq<u8>, c: u8, k: nat)
    requires k < |Records(s, c)|
    ensures var r := Records(s, c)[k]; r != [] && r[|r| - 1] == c && c !in r[..|r| - 1]
    decreases |s|
  {
    var front := s[..|s| - 1];
    if k < |Records(front, c)| {
      RecordsEndAtMarkers(front, c, k);
    } else {
      RestHasNoMarker(front, c);
      assert (Rest(front, c) + [c])[..|Rest(front, c)|] == Rest(front, c);
    }
  }

  lemma JoinAppend(rs: seq<seq<u8>>, r: seq<u8>)
    ensures Join(rs + [r]) == Join(rs) + r
  {
    assert (rs + [r])[..|rs|] == rs;
  }

  lemma Regroup(a: seq<u8>, b: seq<u8>, x: seq<u8>)
    ensures a + (b + x) == (a + b) + x
  {
  }

  lemma {:induction false} JoinedRecords(s: seq<u8>, c: u8)
    ensures Join(Records(s, c)) + Rest(s, c) == s
    decreases |s|
  {
    if s != [] {
      var front, x := s[..|s| - 1], s[|s| - 1];
      assert s == front + [x];
      JoinedRecords(front, c);
      Regroup(Join(Records(front, c)), Rest(front, c), [x]);
      if x == c { MarkerJoins(s, c); }
    }
  }

  lemma MarkerJoins(s: seq<u8>, c: u8)
    requires s != [] && s[|s| - 1] == c
    ensures var front := s[..|s| - 1];
            Join(Records(s, c)) + Rest(s, c) == Join(Records(front, c)) + (Rest(front, c) + [c])
  {
    var front := s[..|s| - 1];
    var rs, r := Records(front, c), Rest(front, c) + [c];
    assert Records(s, c) == rs + [r] && Rest(s, c) == [];
    hide Records, Rest;
    JoinAppend(rs, r);
  }

  /** The records and the rest are the stream, cut behind every marker and nowhere else. */
  lemma RecordsCutStream(s: seq<u8>, c: u8)
    ensures Join(Records(s, c)) + Rest(s, c) == s
    ensures c !in Rest(s, c)
    ensures forall k :: 0 <= k < |Records(s, c)| ==> Terminated(Records(s, c)[k], c)
  {
    JoinedRecords(s, c);
    RestHasNoMarker(s, c);
    forall k | 0 <= k < |Records(s, c)| ensures Terminated(Records(s, c)[k], c) { RecordsEndAtMarkers(s, c, k); }
  }

  /** Ends at the marker, its first occurrence. */
  predicate Terminated(r: seq<u8>, c: u8) { r != [] && r[|r| - 1] == c && c !in r[..|r| - 1] }

  lemma {:induction false} NoMarker(s: seq<u8>, x: seq<u8>, c: u8)
    requires c !in x
    ensures Records(s + x, c) == Records(s, c) && Rest(s + x, c) == Rest(s, c) + x
    decreases |x|
  {
    if x == [] {
      assert s + x == s;
    } else {
      var y := x[..|x| - 1];
      assert (s + x)[..|s + x| - 1] == s + y;
      NoMarker(s, y, c);
    }
  }

  lemma LastMarker(t: seq<u8>, front: seq<u8>, c: u8)
    requires t == front + [c]
    ensures Records(t, c) == Records(front, c) + [Rest(front, c) + [c]] && Rest(t, c) == []
  {
    assert t[..|t| - 1] == front;
  }

  lemma WholeRecord(rs: seq<seq<u8>>, r: seq<u8>, y: seq<u8>, x: seq<u8>, c: u8)
    requires x == y + [c]
    ensures rs + [(r + y) + [c]] == rs + [r + x]
  {
    Regroup(r, y, [c]);
  }

  /** The bytes up to a marker complete a record. */
  lemma OneMarker(s: seq<u8>, x: seq<u8>, c: u8)
    requires Terminated(x, c)
    ensures Records(s + x, c) == Records(s, c) + [Rest(s, c) + x] && Rest(s + x, c) == []
  {
    var y := x[..|x| - 1];
    hide Records, Rest;
    assert x == y + [c];
    Regroup(s, y, [c]);
    LastMarker(s + x, s + y, c);
    NoMarker(s, y, c);
    WholeRecord(Records(s, c), Rest(s, c), y, x, c);
  }

  function Cut(r: seq<u8>, n: nat): seq<u8> { r[..Min(|r|, n)] }

  function CutAll(rs: seq<seq<u8>>, n: nat): (r: seq<seq<u8>>)
    ensures |r| == |rs|
  {
    seq(|rs|, k requires 0 <= k < |rs| => Cut(rs[k], n))
  }

  /** A record that fits is kept, a longer one fills the buffer. */
  lemma CutKeeps(r: seq<u8>, n: nat)
    ensures Cut(r, n) <= r && |Cut(r, n)| == Min(|r|, n)
    ensures Cut(r, n) == r <==> |r| <= n
  {
  }

  lemma CutAppend(rs: seq<seq<u8>>, r: seq<u8>, n: nat)
    ensures CutAll(rs + [r], n) == CutAll(rs, n) + [Cut(r, n)]
  {
  }

  // ---- The protosocket ----

  const BUF_NOT_FOUND: u8 := 0
  const BUF_FULL: u8 := 1
  const BUF_FOUND: u8 := 2

  datatype State = Unset | Read | BlockedNewdata

  class Socket {
    const buf: array<u8>
    const marker: u8
    var ptr: nat       // where the next byte is stored
    var left: u16
    var readptr: nat   // position in the segment
    var readlen: u16
    var state: State
    var waiting: bool  // the continuation: inside the read, waiting for data
    ghost var stream: seq<u8> // everything consumed

    /** The buffer has the first bytes of the record so far. */
    ghost predicate Holding(record: seq<u8>)
      reads this, buf
    {
      ptr == Min(|record|, buf.Length) && left == buf.Length - ptr && buf[..ptr] == Cut(record, buf.Length)
    }

    ghost predicate Valid()
      reads this, buf
    {
      && 1 <= buf.Length < U16_MOD && left <= buf.Length
      && (if waiting then Holding(Rest(stream, marker)) else Rest(stream, marker) == [])
      && (readlen > 0 ==> state == Read && !waiting)
    }

    /** psock_init */
    constructor (bufsize: u16, c: u8)
      requires bufsize >= 1
      ensures Valid() && Idle() && stream == [] && buf.Length == bufsize && marker == c && fresh(buf)
    {
      buf := new u8[bufsize](_ => 0);
      marker := c;
      state, readlen, readptr := Unset, 0, 0;
      ptr, left := 0, bufsize;
      waiting, stream := false, [];
    }

    /** Between activations everything of the last segment has been read. */
    ghost predicate Idle()
      reads this
    {
      readlen == 0 && state != Read
    }

    /** psock_datalen */
    function DataLen(): int
      reads this
    {
      buf.Length - left
    }

    /** buf_bufto: store up to the marker; when the buffer is full, skip up to the marker. */
    method BufTo(data: seq<u8>, ghost record: seq<u8>) returns (code: u8)
      requires 1 <= buf.Length < U16_MOD && Holding(record) && readptr + readlen == |data|
      modifies this`ptr, this`left, this`readptr, this`readlen, buf
      ensures old(readptr) <= readptr && readptr + readlen == |data|
      ensures var x := data[old(readptr)..readptr];
              && Holding(record + x)
              && (if code == BUF_FOUND || code == BUF_FOUND + BUF_FULL
                  then Terminated(x, marker)
                  else readlen == 0 && marker !in x)
      ensures code <= 3
    {
      ghost var start := readptr;
      while left > 0 && readlen > 0
        invariant start <= readptr && readptr + readlen == |data|
        invariant Holding(record + data[start..readptr]) && marker !in data[start..readptr]
      {
        var c := data[readptr];
        ghost var x := data[start..readptr];
        assert data[start..readptr + 1] == x + [c];
        HoldMore(record, x, c);
        buf[ptr] := c;
        readptr, ptr, readlen, left := readptr + 1, ptr + 1, readlen - 1, left - 1;
        assert buf[..ptr] == buf[..ptr - 1] + [c];
        if c == marker {
          assert data[start..readptr][..readptr - start - 1] == x;
          return BUF_FOUND;
        }
      }
      if readlen == 0 {
        assert data[start..readptr] == data[start..];
        return BUF_NOT_FOUND;
      }
      code := SkipTo(data, record, start);
    }

    /** The second loop of buf_bufto: the buffer is full, the rest of the record is dropped. */
    method SkipTo(data: seq<u8>, ghost record: seq<u8>, ghost start: nat) returns (code: u8)
      requires left == 0 && start <= readptr && readptr + readlen == |data|
      requires Holding(record + data[start..readptr]) && marker !in data[start..readptr]
      modifies this`readptr, this`readlen
      ensures start <= readptr && readptr + readlen == |data|
      ensures var x := data[start..readptr];
              && Holding(record + x)
              && (if code == BUF_FOUND + BUF_FULL then Terminated(x, marker) else code == BUF_FULL && readlen == 0 && marker !in x)
    {
      while readlen > 0
        invariant start <= readptr && readptr + readlen == |data| && left == 0
        invariant Holding(record + data[start..readptr]) && marker !in data[start..readptr]
      {
        var c := data[readptr];
        ghost var x := data[start..readptr];
        assert data[start..readptr + 1] == x + [c];
        HoldMore(record, x, c);
        readlen, readptr := readlen - 1, readptr + 1;
        if c == marker {
          assert data[start..readptr][..readptr - start - 1] == x;
          return BUF_FOUND + BUF_FULL;
        }
      }
      code := BUF_FULL;
    }

    lemma HoldMore(record: seq<u8>, x: seq<u8>, c: u8)
      ensures record + (x + [c]) == record + x + [c]
      ensures |record + x| < buf.Length ==> Cut(record + (x + [c]), buf.Length) == Cut(record + x, buf.Length) + [c]
      ensures |record + x| >= buf.Length ==> Cut(record + (x + [c]), buf.Length) == Cut(record + x, buf.Length)
    {
      assert record + (x + [c]) == record + x + [c];
    }

    /** psock_newdata */
    method NewData(newdata: bool) returns (r: bool)
      modifies this`state
      ensures r <==> readlen > 0 || (old(state) != Read && newdata)
      ensures state == if readlen == 0 && old(state) == Read then BlockedNewdata else old(state)
    {
      if readlen > 0 {
        r := true;
      } else if state == Read {
        state := BlockedNewdata;
        r := false;
      } else {
        r := newdata;
      }
    }

    /** What one call of psock_readto can read: the rest of the segment, or a new segment. */
    ghost function Available(newdata: bool, appdata: seq<u8>): seq<u8>
      reads this
      requires readlen > 0 ==> readptr + readlen == |appdata|
    {
      if readlen > 0 then appdata[readptr..] else if state != Read && newdata then appdata else []
    }

    /** One call of buf_bufto in psock_readto. */
    method Consume(appdata: seq<u8>) returns (found: bool, ghost r: seq<u8>)
      requires 1 <= buf.Length < U16_MOD && Holding(Rest(stream, marker)) && readptr + readlen == |appdata|
      modifies this`ptr, this`left, this`readptr, this`readlen, this`stream, buf
      ensures readptr + readlen == |appdata| && stream + appdata[readptr..] == old(stream) + appdata[old(readptr)..]
      ensures found ==> readlen < old(readlen)
      ensures found ==> Records(stream, marker) == Records(old(stream), marker) + [r] && Rest(stream, marker) == [] && Holding(r)
      ensures !found ==> readlen == 0 && Records(stream, marker) == Records(old(stream), marker) && Holding(Rest(stream, marker))
    {
      ghost var from := readptr;
      var code := BufTo(appdata, Rest(stream, marker));
      ghost var x := appdata[from..readptr];
      assert appdata[from..] == x + appdata[readptr..];
      r := Rest(stream, marker) + x;
      found := code == BUF_FOUND || code == BUF_FOUND + BUF_FULL;
      if found { OneMarker(stream, x, marker); } else { NoMarker(stream, x, marker); }
      assert stream + x + appdata[readptr..] == stream + (x + appdata[readptr..]);
      stream := stream + x;
    }

    /** psock_readto: ended with a record in the buffer, or waiting with everything consumed. */
    method ReadTo(newdata: bool, appdata: seq<u8>) returns (ended: bool, ghost r: seq<u8>)
      requires Valid() && |appdata| < U16_MOD && (readlen > 0 ==> readptr + readlen == |appdata|)
      modifies this, buf
      ensures Valid() && (readlen > 0 ==> readptr + readlen == |appdata|)
      ensures ended ==> readptr + readlen == |appdata| && state == Read
      ensures ended ==> stream + appdata[readptr..] == old(stream) + old(Available(newdata, appdata))
      ensures ended ==> Records(stream, marker) == Records(old(stream), marker) + [r] && buf[..DataLen()] == Cut(r, buf.Length)
      ensures ended && old(state) == Read ==> readlen < old(readlen)
      ensures !ended ==> Idle() && stream == old(stream) + old(Available(newdata, appdata))
      ensures !ended ==> Records(stream, marker) == Records(old(stream), marker)
    {
      r := [];
      if !waiting { ptr, left := 0, buf.Length; }
      ended := false;
      while !ended
        invariant 1 <= buf.Length < U16_MOD && left <= buf.Length
        invariant readlen > 0 ==> readptr + readlen == |appdata| && state == Read
        invariant !ended ==> Holding(Rest(stream, marker)) && Records(stream, marker) == Records(old(stream), marker)
        invariant !ended ==> stream + Available(newdata, appdata) == old(stream) + old(Available(newdata, appdata))
        invariant ended ==> readptr + readlen == |appdata| && state == Read && Rest(stream, marker) == [] && Holding(r)
        invariant ended ==> stream + appdata[readptr..] == old(stream) + old(Available(newdata, appdata))
        invariant ended ==> Records(stream, marker) == Records(old(stream), marker) + [r]
        invariant old(state) == Read && !ended ==> state == Read && (readlen == old(readlen) || readlen == 0)
        invariant old(state) == Read && ended ==> readlen < old(readlen)
        decreases !ended, (if readlen > 0 then 1 else 0) + (if state == Read then 0 else 2)
      {
        if readlen == 0 {
          waiting := true;
          var ready := NewData(newdata);
          if !ready { return false, []; }
          state, readptr, readlen := Read, 0, |appdata|;
        }
        ended, r := Consume(appdata);
      }
      waiting := false;
    }

    /** One activation of an application that reads records back to back. */
    method Activate(newdata: bool, appdata: seq<u8>) returns (got: seq<seq<u8>>)
      requires Valid() && Idle() && |appdata| < U16_MOD
      modifies this, buf
      ensures Valid() && Idle() && stream == old(stream) + (if newdata then appdata else [])
      ensures CutAll(Records(stream, marker), buf.Length) == CutAll(Records(old(stream), marker), buf.Length) + got
    {
      hide Records, Rest, CutAll, Cut;
      got := [];
      ghost var all := old(stream) + (if newdata then appdata else []);
      var ended, r := ReadTo(newdata, appdata);
      CutAppend(Records(old(stream), marker), r, buf.Length);
      while ended
        invariant Valid() && (ended ==> state == Read && readptr + readlen == |appdata|)
        invariant ended ==> stream + appdata[readptr..] == all && buf[..DataLen()] == Cut(r, buf.Length)
        invariant !ended ==> Idle() && stream == all
        invariant CutAll(Records(stream, marker), buf.Length)
               == CutAll(Records(old(stream), marker), buf.Length) + got + (if ended then [Cut(r, buf.Length)] else [])
        decreases ended, readlen
      {
        got := got + [buf[..DataLen()]];
        ghost var before := Records(stream, marker);
        ended, r := ReadTo(newdata, appdata);
        CutAppend(before, r, buf.Length);
      }
    }
  }

  /** All the data of a connection. */
  function Data(segments: seq<Option<seq<u8>>>): seq<u8> {
    if segments == [] then []
    else Data(segments[..|segments| - 1]) + (match segments[|segments| - 1] case Some(x) => x case None => [])
  }

  /** Whatever the segments, and whatever other events come between them, the application gets the
      records of the whole stream, each cut to the size of the buffer. */
  method ReadRecords(segments: seq<Option<seq<u8>>>, bufsize: u16, marker: u8) returns (got: seq<seq<u8>>)
    requires bufsize >= 1 && forall k :: 0 <= k < |segments| && segments[k].Some? ==> |segments[k].value| < U16_MOD
    ensures got == CutAll(Records(Data(segments), marker), bufsize)
  {
    var s := new Socket(bufsize, marker);
    got := [];
    for k := 0 to |segments|
      invariant s.Valid() && s.Idle() && s.stream == Data(segments[..k]) && fresh(s) && fresh(s.buf)
      invariant s.marker == marker && s.buf.Length == bufsize
      invariant got == CutAll(Records(s.stream, marker), bufsize)
    {
      assert segments[..k + 1][..k] == segments[..k];
      var appdata := if segments[k].Some? then segments[k].value else [];
      var more := s.Activate(segments[k].Some?, appdata);
      got := got + more;
    }
    assert segments[..|segments|] == segments;
  }
}
