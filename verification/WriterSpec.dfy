/**
 * What the two output streams of a request do, byte by byte: content gathers until the
 * buffer is full, then goes out as one padded record.
 */
module WriterSpec {
  import opened Wire
  import opened Links

  /** What the writers of a request share: the connection and fields of FCGX_Request. */
  datatype Shared = Shared(link: Link, id: int, appStatus: int, nWriters: int)

  /**
   * One writer: the bytes it holds back, how many it can hold back, and its flags. While `raw`
   * is false the bytes are content and become a record; during FCGX_FClose it is true, the
   * space of the header counts as well, and the bytes go out as they are. Once FCGX_FClose
   * has been called nothing is held back any more.
   */
  datatype Writer = Writer(
    typ: byte, capacity: nat, held: seq<byte>, written: bool, closed: bool, finished: bool, errno: int, raw: bool)
  {
    predicate Valid() {
      && 16 <= capacity <= MAX_LENGTH + 1 && (!raw ==> capacity <= MAX_LENGTH && capacity % 8 == 0)
      && |held| <= capacity
      && (finished ==> held == [] && closed && !written && !raw)
      && (closed && !finished ==> errno != 0)
    }

    /** Free bytes in the buffer. */
    function Free(): nat
      requires Valid()
    {
      if finished then 0 else capacity - |held|
    }
  }

  datatype Writing = Writing(w: Writer, shared: Shared) {
    predicate Sound() {
      w.Valid() && 0 <= shared.id <= MAX_LENGTH
    }

    /** Between public calls. */
    predicate Valid() {
      Sound() && !w.raw
    }
  }

  /** What EmptyBuffProc writes: the bytes held, as a record unless the stream is being closed. */
  function Body(x: Writing): seq<byte>
    requires x.Sound()
  {
    if x.w.raw || x.w.held == [] then x.w.held else Padded(x.w.typ, x.shared.id, x.w.held).Bytes()
  }

  function FirstError(errno: int, e: int): int {
    if errno == 0 then e else errno
  }

  /** What stays in the buffer when a write fails: all of it, padding included. */
  function Kept(x: Writing): seq<byte>
    requires x.Sound()
  {
    if x.w.raw || x.w.held == [] then x.w.held
    else var record := Padded(x.w.typ, x.shared.id, x.w.held); record.content + record.padding
  }

  /** The write in EmptyBuffProc. */
  function WriteOut(x: Writing): (y: Writing)
    requires x.Sound() && !x.w.finished
    ensures y.Sound() && !y.w.finished && y.w.raw == x.w.raw && y.w.capacity == x.w.capacity
    ensures y.shared == x.shared.(link := y.shared.link) && y.w.typ == x.w.typ
    ensures y.w.held == [] || (y.w.closed && y.w.errno != 0)
  {
    if x.w.held == [] then x
    else
      var sent := Send(x.shared.link, Body(x));
      var shared := x.shared.(link := sent.link);
      if sent.ok then Writing(x.w.(held := [], written := true), shared)
      else Writing(x.w.(held := Kept(x), written := true, closed := true,
                        errno := FirstError(x.w.errno, x.shared.link.writeErrno)), shared)
  }

  /** EmptyBuffProc without closing. */
  function Empty(x: Writing): (y: Writing)
    requires x.Sound() && !x.w.closed
    ensures y.Sound() && !y.w.finished && y.w.raw == x.w.raw && y.w.capacity == x.w.capacity
    ensures y.shared == x.shared.(link := y.shared.link) && y.w.typ == x.w.typ
    ensures y.w.closed || y.w.held == []
  {
    WriteOut(x)
  }

  datatype Put = Put(x: Writing, ok: bool)

  /** FCGX_PutChar */
  function PutByte(x: Writing, c: byte): (p: Put)
    requires x.Sound()
    ensures p.x.Sound() && p.x.w.finished == x.w.finished && p.x.w.raw == x.w.raw && p.x.w.capacity == x.w.capacity
    ensures p.x.shared == x.shared.(link := p.x.shared.link) && p.x.w.typ == x.w.typ
  {
    if x.w.Free() > 0 then Put(x.(w := x.w.(held := x.w.held + [c])), true)
    else if x.w.closed then Put(x, false)
    else
      var y := Empty(x);
      if y.w.Free() > 0 then Put(y.(w := y.w.(held := y.w.held + [c])), true)
      else Put(y, false)
  }

  /** FCGX_PutStr: PutChar for each byte, up to the first that is not taken. */
  function PutAll(x: Writing, bs: seq<byte>): (p: Put)
    requires x.Sound()
    ensures p.x.Sound() && p.x.w.finished == x.w.finished && p.x.w.raw == x.w.raw && p.x.w.capacity == x.w.capacity
    ensures p.x.shared == x.shared.(link := p.x.shared.link) && p.x.w.typ == x.w.typ
    decreases |bs|
  {
    if bs == [] then Put(x, true)
    else
      var p := PutByte(x, bs[0]);
      if p.ok then PutAll(p.x, bs[1..]) else p
  }

  /** FCGX_FFlush */
  function Flush(x: Writing): (y: Writing)
    requires x.Valid()
    ensures y.Valid()
  {
    if x.w.closed then x else Empty(x)
  }

  /** A stream that never carried a byte needs no EOF record if it is STDERR. */
  predicate NeedsEof(x: Writing) {
    !(x.w.typ == STDERR && x.w.held == [] && !x.w.written)
  }

  /** EOF for the stream, and END_REQUEST, as WriteCloseRecords spells them. */
  function EofBytes(x: Writing): seq<byte>
    requires x.Sound()
  {
    MakeHeader(x.w.typ, x.shared.id, 0, 0)
  }

  function EndBytes(x: Writing): seq<byte>
    requires x.Sound()
  {
    MakeHeader(END_REQUEST, x.shared.id, 8, 0) + MakeEndRequestBody(x.shared.appStatus, REQUEST_COMPLETE)
  }

  /** The records WriteCloseRecords adds: EOF for the stream, END_REQUEST after the last. */
  function CloseRecords(x: Writing): (rs: seq<Record>)
    requires x.Sound()
    ensures AllFit(rs)
  {
    (if NeedsEof(x) then [Padded(x.w.typ, x.shared.id, [])] else [])
    + (if x.shared.nWriters == 1 then [EndRequest(x.shared.id, x.shared.appStatus, REQUEST_COMPLETE)] else [])
  }

  /** The buffer in raw mode, with what it holds encapsulated. */
  function Closing(x: Writing): (y: Writing)
    requires x.Valid() && !x.w.finished
    ensures y.Sound() && y.w.raw && !y.w.finished && y.w.closed == x.w.closed && y.w.errno == x.w.errno
  {
    x.(w := x.w.(raw := true, held := Body(x), capacity := x.w.capacity + HEADER_LEN))
  }

  /** WriteCloseRecords, of a buffer in raw mode. */
  function CloseTail(x: Writing, y: Writing): (z: Writing)
    requires x.Sound() && y.Sound()
    ensures z.Sound() && z.w.raw == y.w.raw && z.w.finished == y.w.finished
    ensures z.shared == y.shared.(link := z.shared.link)
  {
    var a := if NeedsEof(x) then PutAll(y, EofBytes(x)).x else y;
    if x.shared.nWriters == 1 then PutAll(a, EndBytes(x)).x else a
  }

  /** FCGX_FClose */
  function Close(x: Writing): (y: Writing)
    requires x.Valid()
    ensures y.Valid() && y.w.finished && y.w.typ == x.w.typ
  {
    if x.w.finished then x
    else
      var z := WriteOut(CloseTail(x, Closing(x)));
      Writing(x.w.(held := [], written := false, closed := true, finished := true, errno := z.w.errno),
              x.shared.(link := z.shared.link, nWriters := x.shared.nWriters - 1))
  }

  /** x with some bytes more in its buffer. */
  function Holding(x: Writing, bs: seq<byte>): Writing {
    x.(w := x.w.(held := x.w.held + bs))
  }

  /** Bytes that fit the buffer are taken at once. */
  lemma {:induction false} PutAllBulk(x: Writing, bs: seq<byte>, m: nat)
    requires x.Sound() && m <= |bs| && m <= x.w.Free()
    ensures Holding(x, bs[..m]).Sound() && PutAll(x, bs) == PutAll(Holding(x, bs[..m]), bs[m..])
    decreases m
  {
    hide Empty, WriteOut, Body, Kept;
    if m == 0 {
      assert Holding(x, bs[..0]) == x && bs[0..] == bs;
    } else {
      var one := Holding(x, [bs[0]]);
      PutAllBulk(one, bs[1..], m - 1);
      assert bs[1..][m - 1..] == bs[m..];
      assert x.w.held + [bs[0]] + bs[1..][..m - 1] == x.w.held + bs[..m];
    }
  }

  /** Emptying a full buffer ahead of a put does not change what the put does. */
  lemma PutAllAfterEmpty(x: Writing, bs: seq<byte>)
    requires x.Sound() && bs != [] && x.w.Free() == 0
    ensures x.w.closed ==> PutAll(x, bs) == Put(x, false)
    ensures !x.w.closed ==> PutAll(x, bs) == PutAll(Empty(x), bs)
  {
    hide Kept, Body;
  }

  /** The closing records as WriteCloseRecords spells them. */
  lemma CloseBytes(x: Writing)
    requires x.Sound()
    ensures Bytes(CloseRecords(x)) ==
            (if NeedsEof(x) then EofBytes(x) else []) + (if x.shared.nWriters == 1 then EndBytes(x) else [])
  {
    var eof := Padded(x.w.typ, x.shared.id, []);
    var end := EndRequest(x.shared.id, x.shared.appStatus, REQUEST_COMPLETE);
    assert eof.Bytes() == EofBytes(x);
    assert end.Bytes() == EndBytes(x);
    hide EofBytes, EndBytes, Record.Bytes, Padded, EndRequest;
    BytesOfOne(eof);
    BytesOfOne(end);
    if NeedsEof(x) && x.shared.nWriters == 1 {
      BytesAppend([eof], [end]);
    }
  }

  lemma BytesOfOne(r: Record)
    requires r.Fits()
    ensures AllFit([r]) && Bytes([r]) == r.Bytes()
  {
    assert [r][1..] == [];
    assert r.Bytes() + [] == r.Bytes();
  }

  // Closing a stream.

  /**
   * Puts in raw mode: buffer and connection together come to one write of everything, until a
   * write fails.
   */
  ghost predicate Amounts(x: Writing, bs: seq<byte>, y: Writing)
    requires x.Sound() && y.Sound()
  {
    var sent := Send(x.shared.link, x.w.held + bs);
    && OnlyWritten(x.shared.link, y.shared.link)
    && y.w.errno == (if y.w.closed then FirstError(x.w.errno, x.shared.link.writeErrno) else x.w.errno)
    && if y.w.closed then !sent.ok && y.shared.link.failed > x.shared.link.failed
       else Send(y.shared.link, y.w.held) == sent
            && y.shared.link.failed == x.shared.link.failed
  }

  lemma RawPut(x: Writing, c: byte)
    requires x.Sound() && x.w.raw && !x.w.closed
    ensures var p := PutByte(x, c); Amounts(x, [c], p.x) && p.ok == !p.x.w.closed && p.x.w.raw
  {
    if x.w.Free() == 0 {
      SendJoin(x.shared.link, x.w.held, [c]);
      assert [] + [c] == [c];
    }
  }

  lemma AmountsTwice(x: Writing, a: seq<byte>, y: Writing, b: seq<byte>, z: Writing)
    requires x.Sound() && y.Sound() && z.Sound() && !y.w.closed
    requires Amounts(x, a, y) && Amounts(y, b, z)
    ensures Amounts(x, a + b, z)
  {
    SendJoin(y.shared.link, y.w.held, b);
    SendJoin(x.shared.link, x.w.held + a, b);
    assert x.w.held + (a + b) == x.w.held + a + b;
  }

  lemma AmountsStopped(x: Writing, a: seq<byte>, y: Writing, b: seq<byte>)
    requires x.Sound() && y.Sound() && y.w.closed && Amounts(x, a, y)
    ensures Amounts(x, a + b, y)
  {
    SendJoin(x.shared.link, x.w.held + a, b);
    assert x.w.held + (a + b) == x.w.held + a + b;
  }

  lemma {:induction false} RawPuts(x: Writing, bs: seq<byte>)
    requires x.Sound() && x.w.raw && !x.w.closed
    ensures var p := PutAll(x, bs); Amounts(x, bs, p.x) && p.ok == !p.x.w.closed
    decreases |bs|
  {
    hide PutByte, Amounts;
    if bs == [] {
      AmountsNothing(x);
    } else {
      var p := PutByte(x, bs[0]);
      RawPut(x, bs[0]);
      assert [bs[0]] + bs[1..] == bs;
      if p.ok {
        RawPuts(p.x, bs[1..]);
        AmountsTwice(x, [bs[0]], p.x, bs[1..], PutAll(p.x, bs[1..]).x);
      } else {
        AmountsStopped(x, [bs[0]], p.x, bs[1..]);
      }
    }
  }

  lemma AmountsNothing(x: Writing)
    requires x.Sound() && !x.w.closed
    ensures Amounts(x, [], x)
  {
    assert x.w.held + [] == x.w.held;
  }

  /** The closing records of an open stream, put in raw mode. */
  lemma TailAmounts(x: Writing, y: Writing)
    requires x.Sound() && y.Sound() && y.w.raw && !y.w.closed
    ensures Amounts(y, Bytes(CloseRecords(x)), CloseTail(x, y))
  {
    hide PutAll, Amounts, EofBytes, EndBytes, CloseRecords;
    CloseBytes(x);
    var eof := if NeedsEof(x) then EofBytes(x) else [];
    var end := if x.shared.nWriters == 1 then EndBytes(x) else [];
    var a := if NeedsEof(x) then PutAll(y, eof).x else y;
    AmountsNothing(y);
    RawPuts(y, eof);
    assert eof + [] == eof;
    if x.shared.nWriters == 1 {
      if a.w.closed {
        AmountsStopped(y, eof, a, end);
        StoppedTail(y, eof, a, end);
      } else {
        RawPuts(a, end);
        AmountsTwice(y, eof, a, end, PutAll(a, end).x);
      }
    }
  }

  /** What a failed stream still takes is held, and changes nothing else. */
  lemma {:induction false} ClosedPuts(x: Writing, bs: seq<byte>)
    requires x.Sound() && x.w.closed
    ensures var m := if |bs| <= x.w.Free() then |bs| else x.w.Free();
            PutAll(x, bs) == Put(Holding(x, bs[..m]), m == |bs|)
    decreases |bs|
  {
    hide Empty, WriteOut, Body, Kept;
    if bs == [] || x.w.Free() == 0 {
      assert Holding(x, bs[..0]) == x;
    } else {
      var one := Holding(x, [bs[0]]);
      ClosedPuts(one, bs[1..]);
      var m := if |bs| <= x.w.Free() then |bs| else x.w.Free();
      assert x.w.held + [bs[0]] + bs[1..][..m - 1] == x.w.held + bs[..m];
    }
  }

  lemma StoppedTail(y: Writing, eof: seq<byte>, a: Writing, end: seq<byte>)
    requires y.Sound() && a.Sound() && a.w.closed && Amounts(y, eof + end, a)
    ensures Amounts(y, eof + end, PutAll(a, end).x)
  {
    ClosedPuts(a, end);
  }

  /**
   * Closing an open stream writes the held record and the closing records in one go, as far as
   * the connection takes them; an error is recorded exactly if a write fails.
   */
  lemma CloseOpen(x: Writing)
    requires x.Valid() && !x.w.closed
    ensures var sent := Send(x.shared.link, Body(x) + Bytes(CloseRecords(x)));
            var y := Close(x);
            && OnlyWritten(x.shared.link, y.shared.link)
            && (sent.ok ==> y.shared.link == sent.link && y.w.errno == x.w.errno)
            && (!sent.ok ==> y.w.errno == FirstError(x.w.errno, x.shared.link.writeErrno)
                             && y.shared.link.failed > x.shared.link.failed)
  {
    hide CloseTail, CloseRecords, Body, Bytes;
    var y := Closing(x);
    TailAmounts(x, y);
    var z := CloseTail(x, y);
    LastWrite(y, Bytes(CloseRecords(x)), z);
  }

  /** The last write of FCGX_FClose. */
  lemma LastWrite(x: Writing, bs: seq<byte>, y: Writing)
    requires x.Sound() && y.Sound() && y.w.raw && !y.w.finished && !x.w.closed && Amounts(x, bs, y)
    ensures var sent := Send(x.shared.link, x.w.held + bs);
            var z := WriteOut(y);
            && OnlyWritten(x.shared.link, z.shared.link)
            && (sent.ok ==> z.shared.link == sent.link && z.w.errno == x.w.errno)
            && (!sent.ok ==> z.w.errno == FirstError(x.w.errno, x.shared.link.writeErrno)
                             && z.shared.link.failed > x.shared.link.failed)
  {
    if y.w.held == [] {
      assert y.shared.link.out + [] == y.shared.link.out;
    }
    SendCounts(y.shared.link, y.w.held);
    SendCounts(x.shared.link, x.w.held + bs);
  }

  /** An error is recorded exactly when a write fails, and then for good. */
  ghost predicate Counts(x: Writing, y: Writing) {
    && OnlyWritten(x.shared.link, y.shared.link) && y.shared.link.failed >= x.shared.link.failed
    && (if x.w.errno == 0 then y.w.errno == 0 <==> y.shared.link.failed == x.shared.link.failed
        else y.w.errno == x.w.errno)
  }

  lemma PutByteCounts(x: Writing, c: byte)
    requires x.Sound()
    ensures Counts(x, PutByte(x, c).x)
  {
    hide Body, Kept;
    SendCounts(x.shared.link, Body(x));
  }

  lemma {:induction false} PutAllCounts(x: Writing, bs: seq<byte>)
    requires x.Sound()
    ensures Counts(x, PutAll(x, bs).x)
    decreases |bs|
  {
    hide PutByte;
    if bs != [] {
      var p := PutByte(x, bs[0]);
      PutByteCounts(x, bs[0]);
      if p.ok {
        PutAllCounts(p.x, bs[1..]);
      }
    }
  }

  lemma FlushCounts(x: Writing)
    requires x.Valid()
    ensures Counts(x, Flush(x))
  {
    hide Body, Kept;
    SendCounts(x.shared.link, Body(x));
  }

  lemma CloseCounts(x: Writing)
    requires x.Valid()
    ensures Counts(x, Close(x))
  {
    hide PutAll, Body, Kept, CloseRecords, Bytes;
    if x.w.closed && !x.w.finished {
      var y := Closing(x);
      var a := if NeedsEof(x) then PutAll(y, EofBytes(x)).x else y;
      PutAllCounts(y, EofBytes(x));
      PutAllCounts(a, EndBytes(x));
      var z := CloseTail(x, y);
      SendCounts(z.shared.link, Body(z));
    } else if !x.w.finished {
      CloseOpen(x);
      SendCounts(x.shared.link, Body(x) + Bytes(CloseRecords(x)));
    }
  }
}
