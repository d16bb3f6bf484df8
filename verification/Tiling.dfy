/**
 * Everything a request writes to its connection, replies of the reader among it, is a
 * sequence of whole records, each a multiple of 8 bytes long.
 */
module Tiling {
  import opened Wire
  import opened Links
  import opened NameValue
  import R = ReaderSpec
  import GetValues
  import W = WriterSpec
  import WL = WriterLog
  import OR = OutputRuns
  import RC = ReaderClients

  /** What was written between two moments is whole records. */
  ghost predicate Tiled(a: seq<byte>, b: seq<byte>) {
    exists log: seq<Record> :: AllFit(log) && Aligned(log) && b == a + Bytes(log)
  }

  lemma TiledBy(a: seq<byte>, b: seq<byte>, log: seq<Record>)
    requires AllFit(log) && Aligned(log) && b == a + Bytes(log)
    ensures Tiled(a, b)
  {
  }

  lemma TiledNothing(a: seq<byte>)
    ensures Tiled(a, a)
  {
    assert Bytes([]) == [] && a + [] == a;
    TiledBy(a, a, []);
  }

  lemma TiledTwice(a: seq<byte>, b: seq<byte>, c: seq<byte>)
    requires Tiled(a, b) && Tiled(b, c)
    ensures Tiled(a, c)
  {
    hide Bytes;
    var x: seq<Record> :| AllFit(x) && Aligned(x) && b == a + Bytes(x);
    var y: seq<Record> :| AllFit(y) && Aligned(y) && c == b + Bytes(y);
    WL.OutTwice(a, x, y);
    TiledBy(a, c, x + y);
  }

  /** What Tiled says of the bytes alone: they parse, into records of the right lengths. */
  lemma TiledParses(a: seq<byte>, b: seq<byte>)
    requires Tiled(a, b)
    ensures |a| <= |b| && b[..|a|] == a
    ensures var parsed := Parse(b[|a|..]); parsed.Some? && Aligned(parsed.value)
  {
    var x: seq<Record> :| AllFit(x) && Aligned(x) && b == a + Bytes(x);
    assert b[|a|..] == Bytes(x);
    ParseBytes(x);
  }

  /** From a to b whole records were written, unless a write has failed or C leaves undefined what was done. */
  ghost predicate Onward(a: Link, b: Link) {
    && b.failed >= a.failed && (a.undefined ==> b.undefined)
    && (b.failed == 0 && !b.undefined ==> Tiled(a.out, b.out))
  }

  lemma OnwardNowhere(a: Link, b: Link)
    requires b.failed == a.failed && b.undefined == a.undefined && b.out == a.out
    ensures Onward(a, b)
  {
    TiledNothing(a.out);
  }

  lemma OnwardNowhereDefined(a: Link, b: Link)
    requires b == a.(undefined := b.undefined) && (a.undefined ==> b.undefined)
    ensures Onward(a, b)
  {
    TiledNothing(a.out);
  }

  lemma OnwardTwice(a: Link, b: Link, c: Link)
    requires Onward(a, b) && Onward(b, c)
    ensures Onward(a, c)
  {
    if c.failed == 0 && !c.undefined {
      TiledTwice(a.out, b.out, c.out);
    }
  }

  /** Everything a connection has been sent is whole records, with the same two exceptions. */
  ghost predicate Tidy(l: Link) {
    l.failed == 0 && !l.undefined ==> Tiled([], l.out)
  }

  lemma TidyOn(a: Link, b: Link)
    requires Tidy(a) && Onward(a, b)
    ensures Tidy(b)
  {
    if b.failed == 0 && !b.undefined {
      TiledTwice([], a.out, b.out);
    }
  }

  lemma TidyAtFirst(l: Link)
    requires l.out == []
    ensures Tidy(l)
  {
    TiledNothing([]);
  }

  ghost predicate Goes(s: R.State, r: R.State) {
    Onward(s.link, r.link)
  }

  lemma GoesNowhere(s: R.State, r: R.State)
    requires r.link.failed == s.link.failed && r.link.out == s.link.out && r.link.undefined == s.link.undefined
    ensures Goes(s, r)
  {
    OnwardNowhere(s.link, r.link);
  }

  lemma GoesOn(s: R.State, m: R.State, r: R.State)
    requires Goes(s, m) && Goes(m, r)
    ensures Goes(s, r)
  {
    OnwardTwice(s.link, m.link, r.link);
  }

  /** A reply that is one padded record. */
  lemma ReplyGoes(s: R.State, record: Record, data: seq<byte>, code: int)
    requires record.Fits() && Aligned([record]) && data == record.Bytes()
    ensures Goes(s, R.Reply(s, data, code).state)
  {
    hide Record.Bytes;
    var sent := Send(s.link, data);
    if sent.ok {
      W.BytesOfOne(record);
      TiledBy(s.link.out, sent.link.out, [record]);
    }
  }

  lemma UnknownReply(typ: byte)
    ensures var r := Padded(UNKNOWN_TYPE, 0, MakeUnknownTypeBody(typ));
            Aligned([r]) && R.UnknownTypeReply(typ) == r.Bytes()
  {
  }

  lemma RefusalReply(id: int)
    requires 0 <= id <= MAX_LENGTH
    ensures var r := EndRequest(id, 0, CANT_MPX_CONN); Aligned([r]) && R.CantMultiplexReply(id) == r.Bytes()
  {
  }

  /** Reading inside a record writes nothing. */
  lemma FinishRecordWrites(s: R.State)
    requires !s.closed && (s.skip || s.content == 0)
    ensures var r := R.FinishRecord(s);
            r.link == s.link.(input := r.link.input)
  {
  }

  lemma QuerySame(s: R.State)
    requires s.eor && !s.closed
    ensures var t := R.ReadQuery(s).state;
            t.link == s.link.(input := t.link.input)
  {
    hide ParsePairs, R.DrainNested;
    DrainSame(s);
  }

  lemma DrainSame(s: R.State)
    requires s.eor && !s.closed
    ensures var t := R.DrainNested(s).state;
            t.link == s.link.(input := t.link.input)
  {
    hide R.FinishRecord;
    var k := if s.skip then 0 else if s.content <= |s.Unread()| then s.content else |s.Unread()|;
    var t := R.Deliver(s, k);
    if t.skip || t.content == 0 {
      FinishRecordWrites(t);
    }
  }

  lemma QueryGoes(s: R.State)
    requires s.eor && !s.closed
    ensures Goes(s, R.ProcessManagementRecord(GET_VALUES, s).state)
  {
    hide R.ReadQuery, R.ReplyContent, R.GetValuesReply, R.Reply;
    var query := R.ReadQuery(s);
    QuerySame(s);
    if query.state.errno != 0 || query.state.content != 0 {
      GoesNowhere(s, query.state);
    } else {
      var entries := Entries(query.pairs);
      var content := R.ReplyContent(entries);
      var t := R.Undefine(query.state, !R.Answerable(entries));
      if R.Answerable(entries) {
        GetValues.ReplyIsRecord(content);
        ReplyGoes(t, Padded(GET_VALUES_RESULT, 0, content), R.GetValuesReply(content), R.MGMT_RECORD);
      }
      AnswerGoes(s, t, content, R.Answerable(entries));
    }
  }

  lemma AnswerGoes(s: R.State, t: R.State, content: seq<byte>, answerable: bool)
    requires t.link == s.link.(input := t.link.input, undefined := s.link.undefined || !answerable)
    requires answerable ==> Goes(t, R.Reply(t, R.GetValuesReply(content), R.MGMT_RECORD).state)
    ensures Goes(s, R.Reply(t, R.GetValuesReply(content), R.MGMT_RECORD).state)
  {
    hide R.GetValuesReply;
  }

  lemma HeaderGoes(h: Header, s: R.State)
    requires s.eor && !s.closed && 0 <= h.id <= MAX_LENGTH && 0 <= h.contentLength && 0 <= h.paddingLength
    ensures Goes(s, R.ProcessHeader(h, s).state)
  {
    var a := s.(content := h.contentLength, padding := h.paddingLength);
    var r := R.ProcessHeader(h, s).state;
    if h.version == VERSION_1 && h.typ == BEGIN_REQUEST && a.req.begun && h.id != 0 && a.content == 8 {
      RefusalReply(h.id);
      ReplyGoes(a, EndRequest(h.id, 0, CANT_MPX_CONN), R.CantMultiplexReply(h.id), R.SKIP);
    } else if h.version == VERSION_1 && h.typ != BEGIN_REQUEST && h.id == 0 {
      if h.typ == GET_VALUES {
        QueryGoes(a);
      } else {
        UnknownReply(h.typ);
        ReplyGoes(a, Padded(UNKNOWN_TYPE, 0, MakeUnknownTypeBody(h.typ)), R.UnknownTypeReply(h.typ), R.MGMT_RECORD);
      }
    } else {
      GoesNowhere(s, r);
    }
  }

  /** FillBuffProc writes whole records only. */
  lemma {:induction false} FillGoes(s: R.State, header: seq<byte>)
    requires !s.eor && !s.closed && |header| < HEADER_LEN
    ensures Goes(s, R.Fill(s, header))
    decreases |s.Unread()|, 1
  {
    hide Goes, R.TakeHeader;
    if s.Unread() == [] || (s.content > 0 && !s.skip) {
      GoesNowhere(s, R.Fill(s, header));
    } else {
      var a := R.FinishRecord(s);
      FinishRecordWrites(s);
      hide R.FinishRecord;
      if a.closed {
        GoesNowhere(s, R.Settle(a));
      } else {
        GoesNowhere(s, a);
        HeaderTaken(a, header);
        GoesOn(s, a, R.TakeHeader(a, header));
      }
    }
  }

  lemma {:induction false} HeaderTaken(s: R.State, header: seq<byte>)
    requires !s.eor && !s.closed && |header| < HEADER_LEN
    ensures Goes(s, R.TakeHeader(s, header))
    decreases |s.Unread()|, 0
  {
    hide Goes, R.ProcessHeader, R.Resume;
    var missing := HEADER_LEN - |header|;
    if |s.Unread()| < missing {
      GoesNowhere(s, R.TakeHeader(s, header));
    } else {
      var h := ParseHeader(header + s.Unread()[..missing]);
      var t := R.Drop(s, missing).(eor := true);
      var p := R.ProcessHeader(h, t);
      GoesNowhere(s, t);
      HeaderGoes(h, t);
      Resumed(p);
      GoesOn(s, t, p.state);
      GoesOn(s, p.state, R.Resume(p));
    }
  }

  lemma {:induction false} Resumed(p: R.Status)
    ensures Goes(p.state, R.Resume(p))
    decreases |p.state.Unread()|, 2
  {
    hide Goes, R.Fill;
    var a := p.state.(eor := false, closed := false);
    var b := if p.code == R.SKIP then a.(skip := true) else a;
    var r := R.Resume(p);
    GoesNowhere(p.state, b);
    if p.code == R.SKIP || p.code == R.MGMT_RECORD || (p.code == R.STREAM_RECORD && a.content != 0) {
      FillGoes(b, []);
      GoesOn(p.state, b, r);
    } else {
      GoesNowhere(p.state, r);
    }
  }

  lemma GetCharGoes(s: R.State)
    requires s.Readable() && !s.eor
    ensures Goes(s, R.GetChar(s).state)
  {
    hide Goes, R.Fill;
    if s.closed {
      GoesNowhere(s, s);
    } else {
      var a := R.Fill(s, []);
      FillGoes(s, []);
      GoesNowhere(a, R.GetChar(s).state);
      GoesOn(s, a, R.GetChar(s).state);
    }
  }

  lemma {:induction false} GetStrGoes(s: R.State, n: nat)
    requires s.Readable() && !s.eor
    ensures Goes(s, R.GetStr(s, n).state)
    decreases n
  {
    hide Goes, R.GetChar;
    if n == 0 {
      GoesNowhere(s, s);
    } else {
      var got := R.GetChar(s);
      GetCharGoes(s);
      if got.c != R.EOF {
        GetStrGoes(got.state, n - 1);
        GoesOn(s, got.state, R.GetStr(s, n).state);
      }
    }
  }

  lemma {:induction false} ReadLineGoes(s: R.State, n: nat)
    requires s.Readable() && !s.eor
    ensures Goes(s, R.ReadLine(s, n).state)
    decreases n
  {
    hide Goes, R.GetChar;
    if n == 0 {
      GoesNowhere(s, s);
    } else {
      var got := R.GetChar(s);
      GetCharGoes(s);
      if got.c != R.EOF && got.c != R.NEWLINE as int {
        ReadLineGoes(got.state, n - 1);
        GoesOn(s, got.state, R.ReadLine(s, n).state);
      }
    }
  }

  lemma {:induction false} DrainGoes(s: R.State)
    requires s.Readable() && !s.eor
    ensures Goes(s, R.Drain(s).state)
    decreases |s.Unread()|
  {
    hide Goes, R.GetChar;
    var got := R.GetChar(s);
    GetCharGoes(s);
    if got.c != R.EOF {
      DrainGoes(got.state);
      GoesOn(s, got.state, R.Drain(s).state);
    }
  }

  lemma AnsweredGoes(s: R.State, call: RC.Call)
    requires s.req.begun && !s.eor
    ensures Goes(s, RC.Answered(s, call).0)
  {
    hide Goes, R.GetChar, R.GetStr, R.ReadLine;
    match call
    case GetChar => GetCharGoes(s);
    case GetStr(n) => GetStrGoes(s, if n < 0 then 0 else n);
    case GetLine(n) =>
      if n <= 1 {
        GoesNowhere(s, s);
      } else {
        ReadLineGoes(s, n - 1);
      }
    case StartFilterData => GoesNowhere(s, RC.Answered(s, call).0);
  }

  /** A stream reports an error only after a write has failed. */
  predicate Honest(x: W.Writing) {
    x.w.errno != 0 ==> x.shared.link.failed > 0
  }

  /** The same for a writer. */
  ghost predicate WriterGoes(x: W.Writing, y: W.Writing) {
    Honest(x) ==> Honest(y) && Onward(x.shared.link, y.shared.link)
  }

  lemma WriterGoesNowhere(x: W.Writing, y: W.Writing)
    requires y.shared.link == x.shared.link && (y.w.errno == x.w.errno)
    ensures WriterGoes(x, y)
  {
    OnwardNowhere(x.shared.link, y.shared.link);
  }

  lemma WriterGoesOn(x: W.Writing, y: W.Writing, z: W.Writing)
    requires WriterGoes(x, y) && WriterGoes(y, z)
    ensures WriterGoes(x, z)
  {
    if Honest(x) {
      OnwardTwice(x.shared.link, y.shared.link, z.shared.link);
    }
  }

  lemma EmptyGoes(x: W.Writing)
    requires x.Valid() && !x.w.closed
    ensures WriterGoes(x, W.Empty(x))
  {
    if x.w.held == [] {
      WriterGoesNowhere(x, x);
    } else {
      var record := Padded(x.w.typ, x.shared.id, x.w.held);
      W.BytesOfOne(record);
      SendCounts(x.shared.link, record.Bytes());
      if Send(x.shared.link, record.Bytes()).ok {
        TiledBy(x.shared.link.out, W.Empty(x).shared.link.out, [record]);
      }
    }
  }

  lemma PutByteGoes(x: W.Writing, c: byte)
    requires x.Valid()
    ensures WriterGoes(x, W.PutByte(x, c).x)
  {
    hide WriterGoes, W.Empty;
    if x.w.Free() > 0 || x.w.closed {
      WriterGoesNowhere(x, W.PutByte(x, c).x);
    } else {
      EmptyGoes(x);
      WriterGoesNowhere(W.Empty(x), W.PutByte(x, c).x);
      WriterGoesOn(x, W.Empty(x), W.PutByte(x, c).x);
    }
  }

  lemma {:induction false} PutAllGoes(x: W.Writing, bs: seq<byte>)
    requires x.Valid()
    ensures WriterGoes(x, W.PutAll(x, bs).x)
    decreases |bs|
  {
    hide WriterGoes, W.PutByte;
    if bs == [] {
      WriterGoesNowhere(x, x);
    } else {
      var p := W.PutByte(x, bs[0]);
      PutByteGoes(x, bs[0]);
      if p.ok {
        PutAllGoes(p.x, bs[1..]);
        WriterGoesOn(x, p.x, W.PutAll(x, bs).x);
      }
    }
  }

  /** What FCGX_FClose writes on an open stream, as records. */
  lemma ClosingRecords(x: W.Writing) returns (log: seq<Record>)
    requires x.Valid() && !x.w.closed
    ensures AllFit(log) && Aligned(log) && Bytes(log) == W.Body(x) + Bytes(W.CloseRecords(x))
  {
    var body, tail := WL.EmptyLog(x), W.CloseRecords(x);
    log := body + tail;
    assert Aligned(body) && Aligned(tail);
    assert Bytes(body) == W.Body(x) by {
      if x.w.held != [] {
        W.BytesOfOne(body[0]);
      }
    }
    hide Bytes, W.CloseRecords, W.Body, WL.EmptyLog;
    BytesAppend(body, tail);
  }

  lemma CloseGoes(x: W.Writing)
    requires x.Valid()
    ensures WriterGoes(x, W.Close(x))
  {
    hide W.CloseTail, W.WriteOut, Bytes, W.CloseRecords, W.Body, Send;
    W.CloseCounts(x);
    if x.w.finished {
      WriterGoesNowhere(x, x);
    } else if !x.w.closed {
      var log := ClosingRecords(x);
      var y := W.Close(x);
      hide W.Close;
      W.CloseOpen(x);
      SendCounts(x.shared.link, Bytes(log));
      if Send(x.shared.link, Bytes(log)).ok {
        assert y.shared.link.out == x.shared.link.out + Bytes(log) by { SentOut(x.shared.link, Bytes(log)); }
        TiledBy(x.shared.link.out, y.shared.link.out, log);
      }
    }
  }

  lemma SentOut(l: Link, data: seq<byte>)
    requires Send(l, data).ok
    ensures Send(l, data).link.out == l.out + data
  {
  }

  /** Neither stream reports an error before a write has failed. */
  predicate AllHonest(o: OR.Outputs) {
    Honest(o.On(OR.Out)) && Honest(o.On(OR.Err))
  }

  lemma OpGoes(o: OR.Outputs, op: OR.Op)
    requires o.Valid() && AllHonest(o)
    ensures AllHonest(OR.Step(o, op)) && Onward(o.shared.link, OR.Step(o, op).shared.link)
  {
    hide Onward, W.PutAll, W.Empty, W.Close;
    match op
    case Put(which, bytes) => PutAllGoes(o.On(which), bytes); OnwardFails(o.shared.link, OR.Step(o, op).shared.link);
    case Flush(which) =>
      if o.On(which).w.closed {
        WriterGoesNowhere(o.On(which), o.On(which));
      } else {
        EmptyGoes(o.On(which));
      }
      OnwardFails(o.shared.link, OR.Step(o, op).shared.link);
    case Close(which) => CloseGoes(o.On(which)); OnwardFails(o.shared.link, OR.Step(o, op).shared.link);
    case SetExit(_) => OnwardNowhere(o.shared.link, o.shared.link);
  }

  lemma OnwardFails(a: Link, b: Link)
    requires Onward(a, b)
    ensures b.failed >= a.failed
  {
  }

  lemma {:induction false} RunGoes(o: OR.Outputs, ops: seq<OR.Op>)
    requires o.Valid() && AllHonest(o)
    ensures AllHonest(OR.Run(o, ops)) && Onward(o.shared.link, OR.Run(o, ops).shared.link)
    decreases |ops|
  {
    hide OR.Step, Onward, AllHonest;
    if ops == [] {
      OnwardNowhere(o.shared.link, o.shared.link);
    } else {
      var p := OR.Step(o, ops[0]);
      OpGoes(o, ops[0]);
      RunGoes(p, ops[1..]);
      OnwardTwice(o.shared.link, p.shared.link, OR.Run(o, ops).shared.link);
    }
  }

  lemma {:induction false} ClientGoes(s: R.State, calls: seq<RC.Call>)
    requires s.req.begun && !s.eor
    ensures Goes(s, RC.Run(s, calls).state)
    decreases |calls|
  {
    hide RC.Answered, Goes;
    if calls == [] {
      GoesNowhere(s, s);
    } else {
      var t := RC.Answered(s, calls[0]).0;
      AnsweredGoes(s, calls[0]);
      ClientGoes(t, calls[1..]);
      GoesOn(s, t, RC.Run(s, calls).state);
    }
  }

  /** A request being served: its input stream and its output streams on one connection. */
  datatype Session = Session(input: R.State, outputs: OR.Outputs) {
    ghost predicate Valid() {
      && input.req.begun && !input.eor && outputs.Valid() && AllHonest(outputs)
      && input.link == outputs.shared.link.(input := input.link.input)
    }
  }

  /** A call on the input stream, a byte pushed back on it, or a call on the output streams. */
  datatype Act = In(call: RC.Call) | Unget(b: byte) | Out(op: OR.Op)

  /** Both sides see what either has written. */
  ghost function Acted(x: Session, act: Act): (y: Session)
    requires x.Valid()
    ensures y.Valid() && Goes(x.input, y.input)
  {
    match act
    case In(call) =>
      AnsweredGoes(x.input, call);
      OnwardFails(x.input.link, RC.Answered(x.input, call).0.link);
      var s := RC.Answered(x.input, call).0;
      Session(s, x.outputs.(shared := x.outputs.shared.(link := s.link)))
    case Unget(b) =>
      var s := if x.input.closed then x.input else R.Push(x.input, b);
      OnwardNowhere(x.input.link, s.link);
      Session(s, x.outputs)
    case Out(op) =>
      OpGoes(x.outputs, op);
      var p := OR.Step(x.outputs, op);
      OnwardNowhere(x.input.link, x.outputs.shared.link);
      OnwardTwice(x.input.link, x.outputs.shared.link, p.shared.link);
      OnwardNowhere(p.shared.link, p.shared.link.(input := x.input.link.input));
      OnwardTwice(x.input.link, p.shared.link, p.shared.link.(input := x.input.link.input));
      Session(x.input.(link := p.shared.link.(input := x.input.link.input)), p)
  }

  ghost function ActedAll(x: Session, acts: seq<Act>): (y: Session)
    requires x.Valid()
    ensures y.Valid()
    decreases |acts|
  {
    if acts == [] then x else ActedAll(Acted(x, acts[0]), acts[1..])
  }

  /**
   * Record tiling: after any interleaving of reads, pushbacks and writes of a request what its
   * connection has been sent meanwhile parses as whole records, each a multiple of 8 bytes long,
   * unless a write failed or C leaves undefined what was done. A reply of the reader never
   * lands inside a record of a writer.
   */
  lemma {:induction false} AlwaysTiled(x: Session, acts: seq<Act>)
    requires x.Valid()
    ensures Goes(x.input, ActedAll(x, acts).input)
    decreases |acts|
  {
    hide Goes, Acted;
    if acts == [] {
      GoesNowhere(x.input, x.input);
    } else {
      var y := Acted(x, acts[0]);
      AlwaysTiled(y, acts[1..]);
      GoesOn(x.input, y.input, ActedAll(x, acts).input);
    }
  }
}
