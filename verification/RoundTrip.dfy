/** Bytes written through FCGX_CreateWriter come back from a reader of the same stream. */
module RoundTrip {
  import opened Wire
  import opened Links
  import opened Requests
  import opened Readers
  import opened Writers
  import W = WriterSpec
  import opened WriterLog
  import R = ReaderSpec
  import D = Demux
  import RS = RequestStreams
  import ReaderClients

  /** One call on a writer before it is closed. */
  datatype Call = PutStr(bytes: seq<byte>) | PutChar(c: byte) | FFlush

  /** The bytes that calls put, in order. */
  function BytesOf(calls: seq<Call>): seq<byte> {
    if calls == [] then []
    else
      (match calls[0]
       case PutStr(bytes) => bytes
       case PutChar(c) => [c]
       case FFlush => []) + BytesOf(calls[1..])
  }

  function After(x: W.Writing, call: Call): (y: W.Writing)
    requires x.Valid()
    ensures y.Valid()
  {
    match call
    case PutStr(bytes) => W.PutAll(x, bytes).x
    case PutChar(c) => W.PutByte(x, c).x
    case FFlush => W.Flush(x)
  }

  function AfterAll(x: W.Writing, calls: seq<Call>): (y: W.Writing)
    requires x.Valid()
    ensures y.Valid()
    decreases |calls|
  {
    if calls == [] then x else AfterAll(After(x, calls[0]), calls[1..])
  }

  function LogOf(x: W.Writing, call: Call): (rs: seq<Record>)
    requires x.Valid()
    ensures Sound(rs, x.shared.id)
  {
    match call
    case PutStr(bytes) => PutAllLog(x, bytes)
    case PutChar(c) => PutByteLog(x)
    case FFlush => if x.w.closed then [] else EmptyLog(x)
  }

  /** Every record is of one type. */
  predicate OneType(log: seq<Record>, typ: byte) {
    forall i :: 0 <= i < |log| ==> log[i].typ == typ
  }

  lemma {:induction false} PutAllOneType(x: W.Writing, bs: seq<byte>)
    requires x.Valid()
    ensures OneType(PutAllLog(x, bs), x.w.typ)
    decreases |bs|
  {
    if bs != [] {
      var p := W.PutByte(x, bs[0]);
      if p.ok {
        PutAllOneType(p.x, bs[1..]);
      }
    }
  }

  /** An open writer that has met no error, and the wire it has written since `before`. */
  ghost predicate Going(x: W.Writing, log: seq<Record>, put: seq<byte>, before: seq<byte>) {
    && x.Valid() && x.w.errno == 0 && !x.w.finished && x.shared.nWriters == 2
    && Sound(log, x.shared.id) && OneType(log, x.w.typ)
    && Tracks(x.w, log, put) && x.shared.link.out == before + Bytes(log)
  }

  lemma CallCounts(x: W.Writing, call: Call)
    requires x.Valid()
    ensures W.Counts(x, After(x, call))
  {
    hide W.PutAll, W.PutByte, W.Flush;
    match call
    case PutStr(bytes) => W.PutAllCounts(x, bytes);
    case PutChar(c) => W.PutByteCounts(x, c);
    case FFlush => W.FlushCounts(x);
  }

  /** An error is recorded exactly if a write fails. */
  lemma {:induction false} CallsCount(x: W.Writing, calls: seq<Call>)
    requires x.Valid()
    ensures W.Counts(x, AfterAll(x, calls))
    decreases |calls|
  {
    hide After;
    if calls != [] {
      CallCounts(x, calls[0]);
      CallsCount(After(x, calls[0]), calls[1..]);
    }
  }

  lemma Advance(x: W.Writing, y: W.Writing, log: seq<Record>, rs: seq<Record>, put: seq<byte>, more: seq<byte>,
                before: seq<byte>)
    requires Going(x, log, put, before) && y.Valid() && !y.w.finished && y.shared.nWriters == x.shared.nWriters
    requires Sound(rs, x.shared.id) && OneType(rs, x.w.typ)
    requires Wrote(x, y, rs) && Tracks(y.w, log + rs, put + more)
    ensures Going(y, log + rs, put + more, before)
  {
    hide Tracks;
    SoundAppend(log, rs, x.shared.id);
    OutTwice(before, log, rs);
    hide Bytes, Sound;
  }

  lemma GoesOn(x: W.Writing, log: seq<Record>, put: seq<byte>, before: seq<byte>, call: Call)
    requires Going(x, log, put, before) && After(x, call).w.errno == 0
    ensures Going(After(x, call), log + LogOf(x, call), put + BytesOf([call]), before)
  {
    BytesOfCall([call]);
    hide Tracks, Wrote, Bytes, W.PutByte, W.PutAll, W.Empty, PutAllLog, PutByteLog, EmptyLog, BytesOf, OneType, Sound;
    match call {
      case PutStr(bytes) =>
        PutAllTracks(x, log, put, bytes);
        PutAllOneType(x, bytes);
        Advance(x, After(x, call), log, LogOf(x, call), put, bytes, before);
      case PutChar(c) =>
        PutByteTracks(x, log, put, c);
        PutByteOneType(x);
        Advance(x, After(x, call), log, LogOf(x, call), put, [c], before);
      case FFlush =>
        EmptyTracks(x, log, put);
        EmptyOneType(x);
        assert put + [] == put;
        Advance(x, After(x, call), log, LogOf(x, call), put, [], before);
    }
  }

  lemma BytesOfCall(calls: seq<Call>)
    requires |calls| == 1
    ensures BytesOf(calls) == match calls[0]
                              case PutStr(bytes) => bytes
                              case PutChar(c) => [c]
                              case FFlush => []
  {
    var one := match calls[0] case PutStr(bytes) => bytes case PutChar(c) => [c] case FFlush => [];
    assert BytesOf(calls[1..]) == [];
    assert one + [] == one;
  }

  lemma EmptyOneType(x: W.Writing)
    requires x.Valid()
    ensures OneType(EmptyLog(x), x.w.typ)
  {
  }

  lemma PutByteOneType(x: W.Writing)
    requires x.Valid()
    ensures OneType(PutByteLog(x), x.w.typ)
  {
  }

  lemma {:induction false} BytesOfCons(calls: seq<Call>)
    requires calls != []
    ensures BytesOf(calls) == BytesOf([calls[0]]) + BytesOf(calls[1..])
  {
    assert BytesOf([calls[0]][1..]) == [];
  }

  /** All calls, and then FCGX_FClose: what is on the wire. */
  lemma {:induction false} WriteAndClose(x: W.Writing, log: seq<Record>, put: seq<byte>, before: seq<byte>, calls: seq<Call>)
    returns (all: seq<Record>)
    requires Going(x, log, put, before) && x.w.typ != END_REQUEST && x.w.typ != STDERR
    requires W.Close(AfterAll(x, calls)).w.errno == 0
    ensures Sound(all, x.shared.id) && OneType(all, x.w.typ)
    ensures W.Close(AfterAll(x, calls)).shared.link.out == before + Bytes(all)
    ensures all != [] && all[|all| - 1] == Padded(x.w.typ, x.shared.id, [])
    ensures NoneEmpty(Contents(all[..|all| - 1], x.w.typ))
    ensures Join(Contents(all[..|all| - 1], x.w.typ)) == put + BytesOf(calls)
    decreases |calls|
  {
    hide Bytes, After, LogOf, W.Close;
    if calls == [] {
      all := CloseAll(x, log, put, before);
      assert put + [] == put;
    } else {
      var y := After(x, calls[0]);
      if y.w.errno != 0 {
        CallsCount(y, calls[1..]);
        W.CloseCounts(AfterAll(y, calls[1..]));
        assert false;
      }
      GoesOn(x, log, put, before, calls[0]);
      TypeStays(x, calls[0]);
      all := WriteAndClose(y, log + LogOf(x, calls[0]), put + BytesOf([calls[0]]), before, calls[1..]);
      BytesOfCons(calls);
      var one, rest := BytesOf([calls[0]]), BytesOf(calls[1..]);
      assert put + one + rest == put + (one + rest);
    }
  }

  lemma TypeStays(x: W.Writing, call: Call)
    requires x.Valid()
    ensures After(x, call).w.typ == x.w.typ && After(x, call).shared.id == x.shared.id
  {
  }

  /** FCGX_FClose of a writer that writes no END_REQUEST. */
  lemma CloseAll(x: W.Writing, log: seq<Record>, put: seq<byte>, before: seq<byte>) returns (all: seq<Record>)
    requires Going(x, log, put, before) && x.w.typ != END_REQUEST && x.w.typ != STDERR
    requires W.Close(x).w.errno == 0
    ensures Sound(all, x.shared.id) && OneType(all, x.w.typ)
    ensures W.Close(x).shared.link.out == before + Bytes(all)
    ensures all != [] && all[|all| - 1] == Padded(x.w.typ, x.shared.id, [])
    ensures NoneEmpty(Contents(all[..|all| - 1], x.w.typ))
    ensures Join(Contents(all[..|all| - 1], x.w.typ)) == put
  {
    hide Bytes, W.CloseRecords, Padded, Tracks;
    var eof := Padded(x.w.typ, x.shared.id, []);
    var body := EmptyLog(x);
    assert CloseLog(x) == body + [eof] by { OnlyEof(x); }
    EmptyOneType(x);
    CloseWrote(x);
    CloseOut(x, log, before);
    SoundAppend(log, CloseLog(x), x.shared.id);
    hide CloseLog, W.Close, EmptyLog;
    all := log + CloseLog(x);
    assert all == log + body + [eof] && all[..|all| - 1] == log + body;
    BeforeEof(x, log, put);
    PaddedType(x);
  }

  lemma PaddedType(x: W.Writing)
    requires x.Valid()
    ensures Padded(x.w.typ, x.shared.id, []).typ == x.w.typ
  {
  }

  lemma OnlyEof(x: W.Writing)
    requires x.Valid() && x.w.typ != STDERR && x.shared.nWriters == 2
    ensures W.CloseRecords(x) == [Padded(x.w.typ, x.shared.id, [])]
  {
  }

  lemma CloseOut(x: W.Writing, log: seq<Record>, before: seq<byte>)
    requires AllFit(log) && x.Valid() && x.shared.link.out == before + Bytes(log) && Wrote(x, W.Close(x), CloseLog(x))
    ensures AllFit(log + CloseLog(x)) && W.Close(x).shared.link.out == before + Bytes(log + CloseLog(x))
  {
    hide Bytes, CloseLog, W.Close;
    OutTwice(before, log, CloseLog(x));
  }

  lemma BeforeEof(x: W.Writing, log: seq<Record>, put: seq<byte>)
    requires x.Valid() && !x.w.finished && Tracks(x.w, log, put) && x.w.typ != END_REQUEST
    ensures var cs := Contents(log + EmptyLog(x), x.w.typ); NoneEmpty(cs) && Join(cs) == put
  {
    hide Contents, EmptyLog, Join;
    var cs, held := Contents(log, x.w.typ), x.w.held;
    ContentsAppend(log, EmptyLog(x), x.w.typ);
    CloseContents(x);
    if held == [] {
      assert cs + [] == cs && Join(cs) + [] == Join(cs);
    } else {
      JoinSnoc(cs, held);
    }
  }

  lemma {:induction false} ContentsOfOneType(log: seq<Record>, typ: byte)
    requires OneType(log, typ)
    ensures var cs := Contents(log, typ);
            |cs| == |log| && forall i :: 0 <= i < |log| ==> cs[i] == log[i].content
    decreases |log|
  {
    if log != [] {
      ContentsOfOneType(log[..|log| - 1], typ);
    }
  }

  lemma NoneIsEmpty(log: seq<Record>, typ: byte)
    requires OneType(log, typ) && NoneEmpty(Contents(log, typ))
    ensures forall i :: 0 <= i < |log| ==> log[i].content != []
  {
    hide Contents;
    ContentsOfOneType(log, typ);
    assert forall i :: 0 <= i < |log| ==> Contents(log, typ)[i] != [];
  }

  /** Nonempty records of the stream itself are neither answered nor lost. */
  lemma OwnRecords(rs: seq<Record>, typ: byte, id: int)
    requires typ != BEGIN_REQUEST && id != 0 && AllFit(rs)
    requires forall i :: 0 <= i < |rs| ==> rs[i].typ == typ && rs[i].id == id && rs[i].content != []
    ensures D.Passable(rs, typ, id) && RS.LosesNone(rs, typ, id) && RS.LeaksNone(rs, typ, id)
    ensures D.Replies(rs, typ, id, 0) == []
  {
    assert forall i :: 0 <= i < |rs| ==> D.KindOf(rs[i], typ, id) == D.Own;
    NoReplies(rs, typ, id, 0);
  }

  lemma {:induction false} NoReplies(rs: seq<Record>, typ: byte, id: int, j: nat)
    requires j <= |rs| && forall i :: 0 <= i < |rs| ==> D.KindOf(rs[i], typ, id) == D.Own
    ensures D.Replies(rs, typ, id, j) == []
    decreases |rs| - j
  {
    if j < |rs| {
      NoReplies(rs, typ, id, j + 1);
    }
  }

  /** A reader of the stream gets the contents of its records back, and then EOF. */
  lemma ReadBack(s: R.State, all: seq<Record>, more: seq<byte>)
    requires RS.StreamStart(s) && s.req.begun && s.typ != BEGIN_REQUEST && 0 < s.req.id <= MAX_LENGTH
    requires Sound(all, s.req.id) && OneType(all, s.typ) && s.Unread() == Bytes(all) + more
    requires all != [] && all[|all| - 1] == Padded(s.typ, s.req.id, [])
    requires NoneEmpty(Contents(all[..|all| - 1], s.typ))
    ensures var d := R.Drain(s);
            d.bytes == Join(Contents(all[..|all| - 1], s.typ)) && d.state.closed && d.state.errno == 0
  {
    hide R.Drain, Bytes, Contents, Join, Padded, Record.Bytes;
    SplitWire(s.Unread(), all, more);
    ReadBackFrom(s, all[..|all| - 1], more);
  }

  lemma ReadBackFrom(s: R.State, rs: seq<Record>, more: seq<byte>)
    requires RS.StreamStart(s) && s.req.begun && s.typ != BEGIN_REQUEST && 0 < s.req.id <= MAX_LENGTH
    requires Sound(rs, s.req.id) && OneType(rs, s.typ) && NoneEmpty(Contents(rs, s.typ))
    requires s.Unread() == Bytes(rs) + (Padded(s.typ, s.req.id, []).Bytes() + more)
    ensures var d := R.Drain(s);
            d.bytes == Join(Contents(rs, s.typ)) && d.state.closed && d.state.errno == 0
  {
    hide R.Drain, Bytes, Contents, Join, D.KindOf, Padded, Record.Bytes, Project;
    hide D.Passable, D.Replies, RS.LosesNone, RS.LeaksNone;
    EndIsOwn(s.typ, s.req.id);
    assert RS.Clean(rs, s.typ, s.req.id) && D.Passable(rs, s.typ, s.req.id)
        && D.Replies(rs, s.typ, s.req.id, 0) == [] by {
      NoneIsEmpty(rs, s.typ);
      OwnRecords(rs, s.typ, s.req.id);
    }
    ProjectIsJoin(rs, s.typ, s.req.id);
    ReadRecords(s, rs, Padded(s.typ, s.req.id, []), more);
  }

  lemma ReadRecords(s: R.State, rs: seq<Record>, last: Record, more: seq<byte>)
    requires RS.StreamStart(s) && s.req.begun && RS.Ahead(s, rs, last, more)
    requires D.KindOf(last, s.typ, s.req.id) == D.OwnEnd && RS.Clean(rs, s.typ, s.req.id)
    ensures var d := R.Drain(s);
            d.bytes == Project(rs, s.typ, s.req.id) && d.state.closed && d.state.errno == 0
  {
    hide R.Drain, D.KindOf, Project, RS.Ahead, RS.LosesNone, RS.LeaksNone;
    AheadIs(s, rs, last, more);
    RS.Kinds(last, s.typ, s.req.id);
    RS.Demultiplexes(s, rs, last, more);
    RS.AfterEnd(s, rs, last, more, STDIN);
  }

  lemma AheadIs(s: R.State, rs: seq<Record>, last: Record, more: seq<byte>)
    requires RS.Ahead(s, rs, last, more)
    ensures s.typ != 1 && s.req.id != 0
  {
  }

  lemma EndIsOwn(typ: byte, id: int)
    requires typ != BEGIN_REQUEST && 0 < id <= MAX_LENGTH
    ensures D.KindOf(Padded(typ, id, []), typ, id) == D.OwnEnd
  {
  }

  lemma SplitWire(b: seq<byte>, all: seq<Record>, more: seq<byte>)
    requires AllFit(all) && all != [] && b == Bytes(all) + more
    ensures b == Bytes(all[..|all| - 1]) + (all[|all| - 1].Bytes() + more)
  {
    hide Bytes, Record.Bytes;
    var rs, last := all[..|all| - 1], all[|all| - 1];
    assert Bytes(all) == Bytes(rs) + last.Bytes() by {
      assert all == rs + [last];
      BytesAppend(rs, [last]);
      W.BytesOfOne(last);
    }
    JoinAgain(Bytes(rs), last.Bytes(), more);
  }

  lemma JoinAgain(a: seq<byte>, b: seq<byte>, c: seq<byte>)
    ensures a + b + c == a + (b + c)
  {
  }

  method Perform(w: Writer, call: Call)
    requires w.Valid()
    modifies w, w.buff, w.conn, w.req`nWriters
    ensures w.Valid() && w.Abs() == After(old(w.Abs()), call)
  {
    hide W.PutAll, W.PutByte, W.Flush;
    match call {
      case PutStr(bytes) => var _ := w.PutStr(bytes);
      case PutChar(c) => var _ := w.PutChar(c);
      case FFlush => var _ := w.FFlush();
    }
  }

  /** The calls, and then FCGX_FClose; the result is that of FCGX_FClose. */
  method WriteStream(w: Writer, calls: seq<Call>) returns (rc: int)
    requires w.Valid()
    modifies w, w.buff, w.conn, w.req`nWriters
    ensures w.Valid() && w.Abs() == W.Close(AfterAll(old(w.Abs()), calls))
    ensures rc == if w.Abs().w.errno == 0 then 0 else -1
    ensures old(w.FCGI_errno) == 0 ==> (rc == 0 <==> w.conn.failed == old(w.conn.failed))
  {
    hide After, W.Close;
    ghost var x := w.Abs();
    assert calls[0..] == calls && calls[|calls|..] == [];
    for i := 0 to |calls|
      invariant w.Valid() && AfterAll(x, calls) == AfterAll(w.Abs(), calls[i..])
    {
      assert calls[i..][0] == calls[i] && calls[i..][1..] == calls[i + 1..];
      Perform(w, calls[i]);
    }
    rc := w.FClose();
    CallsCount(x, calls);
    W.CloseCounts(AfterAll(x, calls));
  }

  /**
   * The whole way: whatever is put through FCGX_CreateWriter, in whatever portions, with any
   * buffer sizes and however the connections cut their writes and reads, comes out of a
   * reader of the same stream byte for byte and then EOF, unless FCGX_FClose reported an error,
   * and that it does exactly if a write failed.
   */
  method CopyThrough(calls: seq<Call>, typ: byte, id: int, there: Connection, requested: int, address: nat,
                     requestedBack: int, addressBack: nat, ending: nat)
    returns (rc: int, copied: seq<byte>, error: int)
    requires 0 < id <= MAX_LENGTH && typ != BEGIN_REQUEST && typ != END_REQUEST && typ != STDERR
    requires there.out == []
    modifies there
    ensures rc == 0 <==> there.failed == old(there.failed)
    ensures rc == 0 ==> copied == BytesOf(calls) && error == 0
  {
    hide Bytes, W.Close, AfterAll, Padded, Contents, Join;
    var w := CreateWriter(there, id, requested, address, typ);
    ghost var x := w.Abs();
    rc := WriteStream(w, calls);
    if rc != 0 {
      return rc, [], w.FCGI_errno;
    }
    FreshGoes(x);
    ghost var all := WriteAndClose(x, [], [], [], calls);
    assert [] + Bytes(all) == Bytes(all) && [] + BytesOf(calls) == BytesOf(calls);
    copied, error := ReadStream(there.out, typ, id, requestedBack, addressBack, ending, there.writeErrno, all);
  }

  /** Reads whole records of one stream back to EOF, over a connection of their own. */
  method ReadStream(wire: seq<byte>, typ: byte, id: int, requested: int, address: nat, ending: nat,
                    writeErrno: errno, ghost all: seq<Record>)
    returns (copied: seq<byte>, error: int)
    requires 0 < id <= MAX_LENGTH && typ != BEGIN_REQUEST
    requires Sound(all, id) && OneType(all, typ) && wire == Bytes(all)
    requires all != [] && all[|all| - 1] == Padded(typ, id, []) && NoneEmpty(Contents(all[..|all| - 1], typ))
    ensures copied == Join(Contents(all[..|all| - 1], typ)) && error == 0
  {
    hide Bytes, R.Drain, Padded, Contents, Join;
    var back := new Connection(wire, ending, 0, [], writeErrno);
    var req := new Request();
    req.requestId, req.isBeginProcessed := id, true;
    var r := new Reader(req, back, requested, address, typ);
    assert Bytes(all) == Bytes(all) + [];
    ReadBack(r.Abs(), all, []);
    copied := ReaderClients.ReadAll(r);
    r.Flags();
    error := r.FCGI_errno;
  }

  lemma FreshGoes(x: W.Writing)
    requires x.Valid() && x.w.held == [] && !x.w.written && !x.w.finished && x.w.errno == 0
    requires x.shared.nWriters == 2 && x.shared.link.out == []
    ensures Going(x, [], [], [])
  {
    assert Join([]) + [] == [];
    assert [] + Bytes([]) == [];
  }
}
