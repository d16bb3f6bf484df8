/** One exchange with a web server, byte for byte: the example of appendix B of the specification, shortened. */
module Exchange {
  import opened Wire
  import opened Links
  import opened NameValue
  import opened Params
  import RS = RequestStreams
  import opened Demux
  import opened Readers
  import RSpec = ReaderSpec
  import RF = ReaderFacts
  import opened WSpec = WriterSpec
  import opened AcceptSpec
  import RC = ReaderClients
  import OC = OutputClients
  import OR = OutputRuns
  import T = Tiling
  import opened Lifecycle
  import opened LifecycleRuns

  const SERVER_PORT: seq<byte> := [83, 69, 82, 86, 69, 82, 95, 80, 79, 82, 84]
  const EIGHTY: seq<byte> := [56, 48]

  // What the web server sends: a responder, not to keep the connection; SERVER_PORT 80; "hi".
  const BEGINS: seq<byte> := [1, 1, 0, 1, 0, 8, 0, 0] + [0, 1, 0, 0, 0, 0, 0, 0]
  const PARAMETERS: seq<byte> := [1, 4, 0, 1, 0, 15, 0, 0] + ([11, 2] + (SERVER_PORT + EIGHTY))
  const PARAMETERS_END: seq<byte> := [1, 4, 0, 1, 0, 0, 0, 0]
  const INPUT: seq<byte> := [1, 5, 0, 1, 0, 2, 0, 0] + [104, 105]
  const INPUT_END: seq<byte> := [1, 5, 0, 1, 0, 0, 0, 0]

  const REQUEST: seq<byte> := BEGINS + (PARAMETERS + (PARAMETERS_END + (INPUT + INPUT_END)))

  // What it gets back: "OK" and a newline with five bytes of padding, the end of STDOUT, status 258.
  const OUTPUT: seq<byte> := [1, 6, 0, 1, 0, 3, 5, 0] + [79, 75, 10] + [0, 0, 0, 0, 0]
  const OUTPUT_END: seq<byte> := [1, 6, 0, 1, 0, 0, 0, 0]
  const ENDS: seq<byte> := [1, 3, 0, 1, 0, 8, 0, 0] + [0, 0, 1, 2, 0, 0, 0, 0]

  const RESPONSE: seq<byte> := OUTPUT + (OUTPUT_END + ENDS)

  const OPENING := Opening([], Record(1, 1, [0, 1, 0, 0, 0, 0, 0, 0], [], 0),
                           RS.Section([Record(4, 1, [11, 2] + (SERVER_PORT + EIGHTY), [], 0)], Record(4, 1, [], [], 0)))

  const BODY := RS.Section([Record(5, 1, [104, 105], [], 0)], Record(5, 1, [], [], 0))

  lemma BytesOfUnpadded(r: Record, header: seq<byte>)
    requires r.Fits() && r.padding == [] && header == r.Header()
    ensures r.Bytes() == header + r.content
    ensures r.content == [] ==> r.Bytes() == header
    ensures Bytes([r]) == r.Bytes()
  {
    assert header + r.content + [] == header + r.content;
    assert [r][1..] == [] && r.Bytes() + [] == r.Bytes();
  }

  lemma HeaderIs(r: Record, length: byte)
    requires r.Fits() && r.id == 1 && |r.content| == length && r.padding == [] && r.reserved == 0
    ensures r.Header() == [1, r.typ, 0, 1, 0, length, 0, 0]
  {
    assert TwoBytes(1) == [0, 1] && TwoBytes(length) == [0, length];
  }

  /** A record of request 1 without padding. */
  lemma Plainly(r: Record, length: byte)
    requires r.Fits() && r.id == 1 && |r.content| == length && r.padding == [] && r.reserved == 0
    ensures r.Bytes() == [1, r.typ, 0, 1, 0, length, 0, 0] + r.content
    ensures Bytes([r]) == r.Bytes() && (length == 0 ==> r.Bytes() == [1, r.typ, 0, 1, 0, 0, 0, 0])
  {
    HeaderIs(r, length);
    BytesOfUnpadded(r, [1, r.typ, 0, 1, 0, length, 0, 0]);
  }

  /** A stream of one record of its own. */
  lemma OneRecordGood(r: Record, end: Record, typ: byte)
    requires r.Fits() && end.Fits() && r.typ == end.typ == typ && r.id == end.id == 1 && typ != 1
    requires r.content != [] && end.content == [] && end.padding == []
    ensures var x := RS.Section([r], end); x.Good(typ, 1) && x.Answers(typ, 1) == [] && Project([r], typ, 1) == r.content
  {
    var rs := [r];
    assert KindOf(rs[0], typ, 1) == Own && KindOf(end, typ, 1) == OwnEnd;
    assert Replies(rs, typ, 1, 1) == [];
    assert rs[1..] == [];
  }

  lemma RequestIs()
    ensures OPENING.begin.Fits() && AllFit(OPENING.params.rs) && OPENING.params.end.Fits()
    ensures AllFit(BODY.rs) && BODY.end.Fits()
    ensures OPENING.Wire(BODY.Wire([])) == REQUEST
  {
    hide Record.Bytes, Bytes, SERVER_PORT, EIGHTY;
    assert |SERVER_PORT| == 11 && |EIGHTY| == 2 by { Lengths(); }
    assert Bytes([]) == [] by { NoBytes(); }
    Plainly(OPENING.begin, 8);
    Plainly(OPENING.params.rs[0], 15);
    Plainly(OPENING.params.end, 0);
    Plainly(BODY.rs[0], 2);
    Plainly(BODY.end, 0);
    assert INPUT_END + [] == INPUT_END;
    assert [] + REQUEST == REQUEST;
  }

  lemma Lengths()
    ensures |SERVER_PORT| == 11 && |EIGHTY| == 2
  {
  }

  lemma NoBytes()
    ensures Bytes([]) == []
  {
  }

  lemma OpeningGood(stale: int)
    ensures OPENING.Good(stale) && OPENING.Answers(stale) == []
    ensures RS.Begun(OPENING.begin) == RSpec.Req(1, 1, false, true)
  {
    hide SERVER_PORT, EIGHTY, RS.Section.Good, RS.Section.Answers;
    Lengths();
    OneRecordGood(OPENING.params.rs[0], OPENING.params.end, PARAMS);
    assert Replies([], 0, stale, 0) == [];
  }

  lemma BodyGood()
    ensures BODY.Good(STDIN, 1) && BODY.Answers(STDIN, 1) == [] && Project(BODY.rs, STDIN, 1) == [104, 105]
  {
    OneRecordGood(BODY.rs[0], BODY.end, STDIN);
  }

  const SPELLED := [Spelling(Pair(SERVER_PORT, EIGHTY), false, false)]

  lemma ParametersSpelled()
    ensures AllValid(SPELLED) && Project(OPENING.params.rs, PARAMS, 1) == Spell(SPELLED)
    ensures Pairs(SPELLED) == [Pair(SERVER_PORT, EIGHTY)] && Plain(Pairs(SPELLED))
  {
    var s := SPELLED[0];
    assert s.Bytes() == [11, 2] + (SERVER_PORT + EIGHTY) by {
      hide SERVER_PORT, EIGHTY;
      Lengths();
    }
    assert Plain([s.pair]);
    hide SERVER_PORT, EIGHTY, Spelling.Bytes;
    assert SPELLED[1..] == [] && s.Bytes() + [] == s.Bytes();
    assert Spell(SPELLED) == s.Bytes();
    OneRecordGood(OPENING.params.rs[0], OPENING.params.end, PARAMS);
  }

  /** A request that puts little, sets its status and is finished: three records. */
  lemma SmallOutput(o: OR.Outputs, bytes: seq<byte>, status: int)
    requires OR.Fresh(o) && 0 < |bytes| <= o.out.capacity
    requires var rs := [Padded(STDOUT, o.shared.id, bytes), Padded(STDOUT, o.shared.id, []),
                        EndRequest(o.shared.id, status, REQUEST_COMPLETE)];
             AllFit(rs) && |Bytes(rs)| <= o.shared.link.room
    ensures var p := OR.Run(o, [OR.Put(OR.Out, bytes), OR.SetExit(status)]);
            var out := Close(Writing(p.out, Close(p.On(OR.Err)).shared));
            var rs := [Padded(STDOUT, o.shared.id, bytes), Padded(STDOUT, o.shared.id, []),
                       EndRequest(o.shared.id, status, REQUEST_COMPLETE)];
            out.shared.link.out == o.shared.link.out + Bytes(rs)
  {
    hide Bytes, WSpec.Close, WSpec.PutAll, Padded, EndRequest, OR.Run;
    var p := HeldOutput(o, bytes, status);
    var err := Close(p.On(OR.Err));
    assert err.shared == p.shared.(nWriters := 1) by { EmptyErr(p.On(OR.Err)); }
    var x := Writing(p.out, err.shared);
    var first := Padded(STDOUT, o.shared.id, bytes);
    var rest := [Padded(STDOUT, o.shared.id, []), EndRequest(o.shared.id, status, REQUEST_COMPLETE)];
    assert CloseRecords(x) == rest;
    assert Body(x) == first.Bytes();
    assert [first] + rest == [first, rest[0], rest[1]];
    BytesOfOne(first);
    BytesAppend([first], rest);
    CloseOpen(x);
  }

  lemma HeldOutput(o: OR.Outputs, bytes: seq<byte>, status: int) returns (p: OR.Outputs)
    requires OR.Fresh(o) && 0 < |bytes| <= o.out.capacity
    ensures p == OR.Run(o, [OR.Put(OR.Out, bytes), OR.SetExit(status)])
    ensures p == o.(out := o.out.(held := bytes), shared := o.shared.(appStatus := status))
  {
    var ops := [OR.Put(OR.Out, bytes), OR.SetExit(status)];
    var x := o.On(OR.Out);
    PutAllBulk(x, bytes, |bytes|);
    assert bytes[..|bytes|] == bytes && x.w.held + bytes == bytes && bytes[|bytes|..] == [];
    var held := OR.Step(o, ops[0]);
    assert held == o.(out := o.out.(held := bytes));
    p := OR.Step(held, ops[1]);
    hide OR.Step;
    assert ops[1..] == [ops[1]] && ops[1..][1..] == [];
    assert OR.Run(p, []) == p;
    assert OR.Run(held, [ops[1]]) == p;
  }

  /** STDERR without a byte writes nothing. */
  lemma EmptyErr(x: Writing)
    requires x.Valid() && !x.w.closed && x.w.typ == STDERR && x.w.held == [] && !x.w.written && x.shared.nWriters == 2
    ensures Close(x).shared == x.shared.(nWriters := 1)
  {
    assert CloseRecords(x) == [] && Body(x) == [];
    hide CloseTail, CloseRecords, Body;
    assert Bytes([]) == [] && [] + Bytes([]) == [];
    CloseOpen(x);
    SendNothing(x.shared.link);
  }

  lemma ResponseIs()
    ensures var rs := [Padded(STDOUT, 1, [79, 75, 10]), Padded(STDOUT, 1, []), EndRequest(1, 258, REQUEST_COMPLETE)];
            AllFit(rs) && Bytes(rs) == RESPONSE
  {
    var a, b, c := Padded(STDOUT, 1, [79, 75, 10]), Padded(STDOUT, 1, []), EndRequest(1, 258, REQUEST_COMPLETE);
    assert a.padding == [0, 0, 0, 0, 0];
    assert TwoBytes(1) == [0, 1] && TwoBytes(3) == [0, 3];
    assert a.Header() == [1, 6, 0, 1, 0, 3, 5, 0];
    assert a.Bytes() == OUTPUT;
    assert c.content == [0, 0, 1, 2, 0, 0, 0, 0] by {
      assert TwoBytes(0) == [0, 0] && TwoBytes(258) == [1, 2];
      assert FourBytes(258) == [0, 0, 1, 2];
    }
    Plainly(b, 0);
    Plainly(c, 8);
    hide Record.Bytes, Padded, EndRequest;
    var rs := [a, b, c];
    assert rs[1..] == [b, c] && [b, c][1..] == [c];
    assert Bytes([b, c]) == b.Bytes() + Bytes([c]);
    assert Bytes(rs) == a.Bytes() + Bytes([b, c]);
  }

  /** Reading the body in one call, with room for more. */
  lemma BodyRead(s: RSpec.State, n: int)
    requires RS.StreamStart(s) && s.req.begun && s.typ == STDIN && s.req.id == 1 && n > 2
    requires AllFit(BODY.rs) && BODY.end.Fits() && s.Unread() == BODY.Wire([])
    ensures var ran := RC.Run(s, [RC.GetStr(n)]);
            && |ran.answers| == 1 && ran.answers[0].str == Some([104, 105])
            && ran.state.link.out == s.link.out && ran.state.link.room == s.link.room
  {
    hide RSpec.Drain, RSpec.GetStr, RS.Section.Good, RS.Section.Wire, RS.Section.Answers, Project;
    BodyGood();
    RS.ReadSection(s, BODY, [], STDIN);
    RF.DrainAfterGetStr(s, n);
    var r := RSpec.GetStr(s, n);
    RF.DrainClosed(r.state);
    assert r.bytes + [] == r.bytes && s.link.out + [] == s.link.out;
    var calls := [RC.GetStr(n)];
    assert calls[1..] == [];
    assert RC.Run(r.state, []) == RC.Ran(r.state, []);
  }

  lemma LookUps()
    ensures NUL !in SERVER_PORT && EQUALS !in SERVER_PORT
    ensures Answer(1, Pairs(SPELLED), [70, 67, 71, 73, 95, 82, 79, 76, 69]) == Some([82, 69, 83, 80, 79, 78, 68, 69, 82])
    ensures Answer(1, Pairs(SPELLED), SERVER_PORT) == Some([56, 48])
  {
    ParametersSpelled();
    assert |SERVER_PORT| == 11;
  }

  /** The request has been accepted, and nothing is read or written yet. */
  ghost predicate Started(t: RSpec.State, o: OR.Outputs, room: nat) {
    && RS.StreamStart(t) && t.typ == STDIN && t.req == RSpec.Req(1, 1, false, true)
    && AllFit(BODY.rs) && BODY.end.Fits() && t.Unread() == BODY.Wire([])
    && t.link.out == [] && t.link.room == room
    && OR.Fresh(o) && o.shared.id == 1
  }

  /** What FCGX_Accept_r is to find on the connection that carries the request. */
  lemma RequestAccepted(links: seq<Link>, req: RSpec.Req)
    requires Unwritten(links) && links != [] && links[0].input == REQUEST
    ensures var o := FirstAcceptable(links, req);
            && o.Found? && o.pairs == Pairs(SPELLED)
            && var t := o.state;
            && RS.StreamStart(t) && t.typ == STDIN && t.req == RSpec.Req(1, 1, false, true)
            && AllFit(BODY.rs) && BODY.end.Fits() && t.Unread() == BODY.Wire([])
            && t.link.out == [] && t.link.room == links[0].room
  {
    hide OPENING, BODY, REQUEST, FirstAcceptable, Offer, Opening.Good, Opening.Wire, Opening.Answers, RS.Section.Wire;
    hide Plain, SPELLED;
    RequestIs();
    OpeningGood(req.id);
    ParametersSpelled();
    AcceptsRequest(links[0], req, OPENING, SPELLED, BODY.Wire([]));
    FirstOffer(links, req);
  }

  /** FCGX_Accept_r on that connection. */
  method AcceptRequest(s: FcgxRequest)
    requires s.Valid() && s.Idle() && s.conn == null && s.os.waiting != []
    requires s.os.waiting[0].input == REQUEST
    modifies s.Repr
    ensures s.Valid() && s.Live() && fresh(s.Repr - old(s.Repr))
    ensures s.params.Contents() == Environment(1, Pairs(SPELLED))
    ensures Started(s.inStream.Abs(), OC.Value(s.outStream, s.errStream), old(s.os.waiting[0].room))
  {
    hide BODY, REQUEST, FirstAcceptable, Environment, SPELLED, OR.Fresh, T.Tidy, Trace, Reader.Abs, Unwritten;
    hide RS.Section.Wire;
    ghost var links := s.Left();
    assert links == s.os.waiting;
    RequestAccepted(links, s.Req());
    var _ := s.Accept();
  }

  /** Two calls of FCGX_GetParam. */
  method LookUpBoth(params: ParamVector) returns (role: Option<seq<byte>>, port: Option<seq<byte>>)
    requires params.Valid() && params.Contents() == Environment(1, Pairs(SPELLED))
    ensures role == Some([82, 69, 83, 80, 79, 78, 68, 69, 82]) && port == Some([56, 48])
  {
    hide Environment, Lookup, Answer, Plain, SPELLED, SERVER_PORT, EIGHTY;
    ParametersSpelled();
    LookUps();
    role := params.GetParam([70, 67, 71, 73, 95, 82, 79, 76, 69]);
    port := params.GetParam(SERVER_PORT);
    EnvironmentAnswers(1, Pairs(SPELLED), [70, 67, 71, 73, 95, 82, 79, 76, 69]);
    EnvironmentAnswers(1, Pairs(SPELLED), SERVER_PORT);
  }

  /** Reads the body, with whatever room the caller's buffer has. */
  method ReadBody(s: FcgxRequest, n: int, ghost room: nat) returns (body: Option<seq<byte>>)
    requires s.Valid() && s.Live() && n > 2 && Started(s.inStream.Abs(), OC.Value(s.outStream, s.errStream), room)
    modifies s.Repr
    ensures s.Valid() && s.Live() && s.Repr == old(s.Repr)
    ensures body == Some([104, 105]) && Answering(OC.Value(s.outStream, s.errStream), room) && !s.data.keepConnection
  {
    hide BODY, OR.Fresh, T.Tidy, Trace, Reader.Abs, RC.Run, RS.Section.Wire, OC.Value;
    BodyRead(s.inStream.Abs(), n);
    ghost var o := OC.Value(s.outStream, s.errStream);
    RequestOfReader(s.inStream);
    var answers := UseInput(s, [RC.GetStr(n)]);
    body := answers[0].str;
    LinkOfReader(s.inStream);
    FreshRelinked(o, s.conn.Value());
  }

  /** Nothing has been written yet for request 1. */
  ghost predicate Answering(o: OR.Outputs, room: nat) {
    OR.Fresh(o) && o.out.capacity >= 16 && o.shared.id == 1 && o.shared.link.out == [] && o.shared.link.room == room
  }

  lemma FreshRelinked(o: OR.Outputs, link: Link)
    requires OR.Fresh(o)
    ensures OR.Fresh(Relinked(o, link)) && Relinked(o, link).out.capacity >= 16
  {
  }

  /** Writes the answer and the exit status, and finishes the request. */
  method WriteAnswer(s: FcgxRequest, ghost room: nat) returns (ghost wire: seq<byte>)
    requires s.Valid() && s.Live() && room >= |RESPONSE| && !s.data.keepConnection
    requires Answering(OC.Value(s.outStream, s.errStream), room)
    modifies s.Repr
    ensures s.Valid() && s.Idle() && s.ipcFd == -1 && wire == RESPONSE
  {
    hide RESPONSE, OR.Fresh, OR.Run, OR.Step, Bytes, T.Tidy, T.AllHonest, Trace, Unwritten, RolePair;
    hide Reader.Abs, Reader.Valid, WSpec.Close;
    ResponseIs();
    SmallOutput(OC.Value(s.outStream, s.errStream), [79, 75, 10], 258);
    assert [] + RESPONSE == RESPONSE;
    ghost var c := s.conn;
    UseOutput(s, [OR.Put(OR.Out, [79, 75, 10]), OR.SetExit(258)]);
    s.Finish();
    wire := c.out;
  }

  /**
   * The whole exchange: the request is accepted with its role and its parameter, its body is
   * read, the answer and the exit status are written, and FCGX_Finish_r closes the connection.
   */
  method Serve(s: FcgxRequest, n: int)
    returns (role: Option<seq<byte>>, port: Option<seq<byte>>, body: Option<seq<byte>>, ghost wire: seq<byte>)
    requires s.Valid() && s.Idle() && s.conn == null && s.os.waiting != [] && n > 2
    requires s.os.waiting[0].input == REQUEST && s.os.waiting[0].room >= |RESPONSE|
    modifies s.Repr
    ensures s.Valid() && s.Idle() && s.ipcFd == -1
    ensures role == Some([82, 69, 83, 80, 79, 78, 68, 69, 82]) && port == Some([56, 48]) && body == Some([104, 105])
    ensures wire == RESPONSE
  {
    hide REQUEST, RESPONSE, Started, Answering, Environment;
    ghost var room := s.os.waiting[0].room;
    AcceptRequest(s);
    role, port := LookUpBoth(s.params);
    body := ReadBody(s, n, room);
    wire := WriteAnswer(s, room);
  }
}
