/** The records a writer puts on the wire, and what they say about the bytes put. */
module WriterLog {
  import opened Wire
  import opened WriterSpec

  /** The contents of the records of one type, in order. */
  function Contents(log: seq<Record>, typ: byte): seq<seq<byte>> {
    if log == [] then []
    else
      var last := log[|log| - 1];
      Contents(log[..|log| - 1], typ) + (if last.typ == typ then [last.content] else [])
  }

  function Join(cs: seq<seq<byte>>): seq<byte> {
    if cs == [] then [] else Join(cs[..|cs| - 1]) + cs[|cs| - 1]
  }

  predicate NoneEmpty(cs: seq<seq<byte>>) {
    forall i :: 0 <= i < |cs| ==> cs[i] != []
  }

  lemma ContentsSnoc(log: seq<Record>, r: Record, typ: byte)
    ensures Contents(log + [r], typ) == Contents(log, typ) + (if r.typ == typ then [r.content] else [])
  {
    assert (log + [r])[..|log|] == log;
  }

  lemma JoinSnoc(cs: seq<seq<byte>>, c: seq<byte>)
    ensures Join(cs + [c]) == Join(cs) + c
  {
    assert (cs + [c])[..|cs|] == cs;
  }

  lemma {:induction false} JoinNoneEmpty(cs: seq<seq<byte>>)
    requires NoneEmpty(cs)
    ensures Join(cs) == [] <==> cs == []
  {
    if cs != [] {
      assert cs[|cs| - 1] != [];
    }
  }

  /** Records this library would write for one request. */
  predicate Sound(log: seq<Record>, id: int) {
    AllFit(log) && Aligned(log) && forall i :: 0 <= i < |log| ==> log[i].id == id
  }

  lemma SoundAppend(a: seq<Record>, b: seq<Record>, id: int)
    requires Sound(a, id) && Sound(b, id)
    ensures Sound(a + b, id)
  {
  }

  /** The record EmptyBuffProc writes, if any. */
  function EmptyLog(x: Writing): (rs: seq<Record>)
    requires x.Valid()
    ensures Sound(rs, x.shared.id)
  {
    if x.w.held == [] then [] else [Padded(x.w.typ, x.shared.id, x.w.held)]
  }

  function PutByteLog(x: Writing): (rs: seq<Record>)
    requires x.Valid()
    ensures Sound(rs, x.shared.id)
  {
    if x.w.Free() > 0 || x.w.closed then [] else EmptyLog(x)
  }

  function PutAllLog(x: Writing, bs: seq<byte>): (rs: seq<Record>)
    requires x.Valid()
    ensures Sound(rs, x.shared.id)
    decreases |bs|
  {
    if bs == [] then []
    else
      var p := PutByte(x, bs[0]);
      if p.ok then PutByteLog(x) + PutAllLog(p.x, bs[1..]) else PutByteLog(x)
  }

  function CloseLog(x: Writing): (rs: seq<Record>)
    requires x.Valid()
    ensures Sound(rs, x.shared.id)
  {
    if x.w.finished then [] else EmptyLog(x) + CloseRecords(x)
  }

  /**
   * What the records of a stream say about it. While it is open none of them is empty, and
   * their contents with what is held make up the bytes put. Once finished they end with one
   * empty record, except that an unused STDERR has none at all.
   */
  ghost predicate Tracks(w: Writer, log: seq<Record>, put: seq<byte>) {
    var cs := Contents(log, w.typ);
    if !w.finished then NoneEmpty(cs) && Join(cs) + w.held == put && (w.written <==> cs != [])
    else if w.typ == STDERR && put == [] then cs == []
    else cs != [] && cs[|cs| - 1] == [] && NoneEmpty(cs[..|cs| - 1]) && Join(cs) == put
  }

  /** A step that wrote the records rs without an error. */
  ghost predicate Wrote(x: Writing, y: Writing, rs: seq<Record>)
    requires AllFit(rs)
  {
    && y.w.errno == 0 && y.w.typ == x.w.typ && y.w.capacity == x.w.capacity
    && y.shared.id == x.shared.id && y.shared.appStatus == x.shared.appStatus
    && y.shared.link.out == x.shared.link.out + Bytes(rs)
  }

  lemma EmptyTracks(x: Writing, log: seq<Record>, put: seq<byte>)
    requires x.Valid() && !x.w.closed && Tracks(x.w, log, put) && Empty(x).w.errno == 0
    ensures Wrote(x, Empty(x), EmptyLog(x)) && Tracks(Empty(x).w, log + EmptyLog(x), put)
    ensures var y := Empty(x); y.w.held == [] && !y.w.closed && !y.w.finished && y.shared.nWriters == x.shared.nWriters
  {
    if x.w.held == [] {
      assert log + [] == log;
      assert x.shared.link.out + [] == x.shared.link.out;
    } else {
      var r := Padded(x.w.typ, x.shared.id, x.w.held);
      BytesOfOne(r);
      ContentsSnoc(log, r, x.w.typ);
      JoinSnoc(Contents(log, x.w.typ), x.w.held);
      var cs := Contents(log, x.w.typ);
      assert Join(cs) + x.w.held + [] == put;
    }
  }

  /** One more byte in the buffer. */
  lemma HoldTracks(x: Writing, log: seq<Record>, put: seq<byte>, c: byte)
    requires x.Valid() && !x.w.finished && Tracks(x.w, log, put) && x.w.Free() > 0
    ensures Tracks(Holding(x, [c]).w, log, put + [c])
  {
    var cs := Contents(log, x.w.typ);
    assert Join(cs) + (x.w.held + [c]) == put + [c];
  }

  lemma PutByteTracks(x: Writing, log: seq<Record>, put: seq<byte>, c: byte)
    requires x.Valid() && x.w.errno == 0 && !x.w.finished && Tracks(x.w, log, put)
    requires PutByte(x, c).x.w.errno == 0
    ensures var p := PutByte(x, c);
            && p.ok && !p.x.w.finished && p.x.shared.nWriters == x.shared.nWriters
            && Wrote(x, p.x, PutByteLog(x)) && Tracks(p.x.w, log + PutByteLog(x), put + [c])
  {
    hide Tracks;
    if x.w.Free() > 0 {
      HoldTracks(x, log, put, c);
      assert log + [] == log;
      assert x.shared.link.out + [] == x.shared.link.out;
    } else {
      EmptyTracks(x, log, put);
      HoldTracks(Empty(x), log + EmptyLog(x), put, c);
    }
  }

  lemma WroteTwice(x: Writing, y: Writing, z: Writing, a: seq<Record>, b: seq<Record>)
    requires AllFit(a) && AllFit(b) && Wrote(x, y, a) && Wrote(y, z, b)
    ensures AllFit(a + b) && Wrote(x, z, a + b)
  {
    OutTwice(x.shared.link.out, a, b);
  }

  lemma OutTwice(out: seq<byte>, a: seq<Record>, b: seq<Record>)
    requires AllFit(a) && AllFit(b)
    ensures AllFit(a + b) && out + Bytes(a) + Bytes(b) == out + Bytes(a + b)
  {
    BytesAppend(a, b);
    hide Bytes;
  }

  /** Errors are never forgotten. */
  lemma {:induction false} PutAllKeepsError(x: Writing, bs: seq<byte>)
    requires x.Valid() && x.w.errno != 0
    ensures PutAll(x, bs).x.w.errno == x.w.errno
    decreases |bs|
  {
    if bs != [] {
      var p := PutByte(x, bs[0]);
      if p.ok {
        PutAllKeepsError(p.x, bs[1..]);
      }
    }
  }

  lemma {:induction false} PutAllTracks(x: Writing, log: seq<Record>, put: seq<byte>, bs: seq<byte>)
    requires x.Valid() && x.w.errno == 0 && !x.w.finished && Tracks(x.w, log, put)
    requires PutAll(x, bs).x.w.errno == 0
    ensures var p := PutAll(x, bs);
            && p.ok && !p.x.w.finished && p.x.shared.nWriters == x.shared.nWriters
            && Wrote(x, p.x, PutAllLog(x, bs)) && Tracks(p.x.w, log + PutAllLog(x, bs), put + bs)
    decreases |bs|
  {
    hide Tracks, Wrote, PutByteLog;
    if bs == [] {
      assert log + [] == log && put + [] == put;
      WroteNothing(x);
    } else {
      PutAllFirstError(x, bs);
      PutByteTracks(x, log, put, bs[0]);
      hide PutByte;
      var p := PutByte(x, bs[0]);
      var one, rest := PutByteLog(x), PutAllLog(p.x, bs[1..]);
      PutAllTracks(p.x, log + one, put + [bs[0]], bs[1..]);
      WroteTwice(x, p.x, PutAll(x, bs).x, one, rest);
      assert log + one + rest == log + (one + rest);
      assert put + [bs[0]] + bs[1..] == put + bs;
    }
  }

  lemma WroteNothing(x: Writing)
    requires x.w.errno == 0
    ensures Wrote(x, x, [])
  {
    assert x.shared.link.out + [] == x.shared.link.out;
  }

  lemma PutAllFirstError(x: Writing, bs: seq<byte>)
    requires x.Valid() && bs != [] && PutAll(x, bs).x.w.errno == 0
    ensures PutByte(x, bs[0]).x.w.errno == 0
  {
    var p := PutByte(x, bs[0]);
    if p.ok && p.x.w.errno != 0 {
      PutAllKeepsError(p.x, bs[1..]);
    }
  }

  lemma {:induction false} ContentsAppend(log: seq<Record>, rs: seq<Record>, typ: byte)
    ensures Contents(log + rs, typ) == Contents(log, typ) + Contents(rs, typ)
    decreases |rs|
  {
    if rs == [] {
      assert log + rs == log;
    } else {
      var n := |rs| - 1;
      assert (log + rs)[..|log| + n] == log + rs[..n];
      ContentsAppend(log, rs[..n], typ);
    }
  }

  lemma CloseWrote(x: Writing)
    requires x.Valid() && x.w.errno == 0 && !x.w.finished && Close(x).w.errno == 0
    ensures Wrote(x, Close(x), CloseLog(x))
    ensures Close(x).w.finished && Close(x).shared.nWriters == x.shared.nWriters - 1
  {
    hide CloseRecords, Bytes, CloseTail, WriteOut;
    var body, tail := EmptyLog(x), CloseRecords(x);
    CloseOpen(x);
    BytesAppend(body, tail);
    assert Bytes(body) == Body(x) by {
      if x.w.held != [] {
        BytesOfOne(body[0]);
      } else {
        BytesOfNone();
      }
    }
  }

  lemma BytesOfNone()
    ensures Bytes([]) == []
  {
  }

  /** The contents an open writer adds on the way to being finished. */
  lemma CloseTracks(x: Writing, log: seq<Record>, put: seq<byte>)
    requires x.Valid() && !x.w.finished && Tracks(x.w, log, put) && x.w.typ != END_REQUEST
    ensures Tracks(Close(x).w, log + CloseLog(x), put)
  {
    hide CloseRecords, EmptyLog, CloseLog, Contents, Close;
    var cs := Contents(log, x.w.typ);
    var all := if x.w.held == [] then cs else cs + [x.w.held];
    ClosedContents(x, log);
    CloseFields(x);
    JoinSnoc(cs, x.w.held);
    FinishedContents(x.w.typ, Contents(log + CloseLog(x), x.w.typ), all, put);
  }

  lemma ClosedContents(x: Writing, log: seq<Record>)
    requires x.Valid() && !x.w.finished && x.w.typ != END_REQUEST
    ensures var cs := Contents(log, x.w.typ);
            Contents(log + CloseLog(x), x.w.typ) ==
            (if x.w.held == [] then cs else cs + [x.w.held]) + (if NeedsEof(x) then [[]] else [])
  {
    hide Contents, CloseRecords, EmptyLog, Padded;
    ContentsAppend(log, CloseLog(x), x.w.typ);
    ContentsAppend(EmptyLog(x), CloseRecords(x), x.w.typ);
    CloseContents(x);
  }

  lemma CloseFields(x: Writing)
    requires x.Valid() && !x.w.finished
    ensures Close(x).w.finished && Close(x).w.typ == x.w.typ
  {
  }

  lemma FinishedContents(typ: byte, closed: seq<seq<byte>>, all: seq<seq<byte>>, put: seq<byte>)
    requires NoneEmpty(all) && Join(all) == put
    requires closed == all + (if typ == STDERR && all == [] then [] else [[]])
    ensures if typ == STDERR && put == [] then closed == []
            else closed != [] && closed[|closed| - 1] == [] && NoneEmpty(closed[..|closed| - 1])
                 && Join(closed) == put
  {
    JoinNoneEmpty(all);
    JoinSnoc(all, []);
    assert (all + [[]])[..|all|] == all;
  }

  lemma CloseContents(x: Writing)
    requires x.Valid() && x.w.typ != END_REQUEST
    ensures Contents(EmptyLog(x), x.w.typ) == if x.w.held == [] then [] else [x.w.held]
    ensures Contents(CloseRecords(x), x.w.typ) == if NeedsEof(x) then [[]] else []
  {
    if x.w.held != [] {
      ContentsSnoc([], Padded(x.w.typ, x.shared.id, x.w.held), x.w.typ);
      assert [] + [Padded(x.w.typ, x.shared.id, x.w.held)] == EmptyLog(x);
    }
    var eof: seq<Record> := if NeedsEof(x) then [Padded(x.w.typ, x.shared.id, [])] else [];
    if NeedsEof(x) {
      ContentsSnoc([], eof[0], x.w.typ);
      assert [] + [eof[0]] == eof;
    }
    if x.shared.nWriters == 1 {
      ContentsSnoc(eof, EndRequest(x.shared.id, x.shared.appStatus, REQUEST_COMPLETE), x.w.typ);
    } else {
      assert CloseRecords(x) == eof;
    }
  }

  /** For the records of one request the projection of section 3.3 is the joined contents. */
  lemma {:induction false} ProjectIsJoin(log: seq<Record>, typ: byte, id: int)
    requires Sound(log, id)
    ensures Project(log, typ, id) == Join(Contents(log, typ))
    decreases |log|
  {
    if log != [] {
      var n := |log| - 1;
      var init, last := log[..n], log[n];
      ProjectIsJoin(init, typ, id);
      assert log == init + [last];
      ProjectAppend(init, [last], typ, id);
      var mine := if last.typ == typ then last.content else [];
      assert [last][1..] == [];
      assert Project([last], typ, id) == mine + [] == mine;
      JoinSnoc(Contents(init, typ), last.content);
      assert Contents(init, typ) + [] == Contents(init, typ);
    }
  }
}
