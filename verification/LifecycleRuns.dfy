/** Any run of Accept and Finish, with whatever an application does with its streams in between. */
module LifecycleRuns {
  import opened Wire
  import opened Links
  import opened NameValue
  import opened Params
  import RS = RequestStreams
  import opened Readers
  import RSpec = ReaderSpec
  import WSpec = WriterSpec
  import opened AcceptSpec
  import RC = ReaderClients
  import OC = OutputClients
  import OR = OutputRuns
  import T = Tiling
  import opened Lifecycle

  lemma GetCharSettles(s: RSpec.State)
    requires s.req.begun && !s.eor
    ensures RSpec.GetChar(s).state.req == s.req
  {
    hide RSpec.Fill;
    if !s.closed {
      FillSettles(s, []);
    }
  }

  lemma {:induction false} GetStrSettles(s: RSpec.State, n: nat)
    requires s.req.begun && !s.eor
    ensures RSpec.GetStr(s, n).state.req == s.req
    decreases n
  {
    hide RSpec.GetChar;
    if n > 0 {
      GetCharSettles(s);
      var got := RSpec.GetChar(s);
      if got.c != RSpec.EOF {
        GetStrSettles(got.state, n - 1);
      }
    }
  }

  lemma {:induction false} ReadLineSettles(s: RSpec.State, n: nat)
    requires s.req.begun && !s.eor
    ensures RSpec.ReadLine(s, n).state.req == s.req
    decreases n
  {
    hide RSpec.GetChar;
    if n > 0 {
      GetCharSettles(s);
      var got := RSpec.GetChar(s);
      if got.c != RSpec.EOF && got.c != RSpec.NEWLINE as int {
        ReadLineSettles(got.state, n - 1);
      }
    }
  }

  /** Reading changes neither which request is served nor its role. */
  lemma AnsweredSettles(s: RSpec.State, call: RC.Call)
    requires s.req.begun && !s.eor
    ensures var t := RC.Answered(s, call).0; t.req == s.req
  {
    hide RSpec.GetChar, RSpec.GetStr, RSpec.ReadLine;
    match call
    case GetChar => GetCharSettles(s);
    case GetStr(n) => GetStrSettles(s, if n < 0 then 0 else n);
    case GetLine(n) =>
      if n > 1 {
        ReadLineSettles(s, n - 1);
      }
    case StartFilterData =>
  }

  lemma {:induction false} ReadingSettles(s: RSpec.State, calls: seq<RC.Call>)
    requires s.req.begun && !s.eor
    ensures var t := RC.Run(s, calls).state; t.req == s.req && !t.eor
    decreases |calls|
  {
    hide RC.Answered;
    if calls != [] {
      AnsweredSettles(s, calls[0]);
      ReadingSettles(RC.Answered(s, calls[0]).0, calls[1..]);
    }
  }

  predicate Counted(o: OR.Outputs) {
    o.shared.nWriters == (if o.out.finished then 0 else 1) + (if o.err.finished then 0 else 1)
  }

  lemma StepCounts(o: OR.Outputs, op: OR.Op)
    requires o.Valid() && Counted(o)
    ensures Counted(OR.Step(o, op))
  {
    OR.StepFlags(o, op);
  }

  /** nWriters counts the open writers, with or without errors. */
  lemma {:induction false} RunCounts(o: OR.Outputs, ops: seq<OR.Op>)
    requires o.Valid() && Counted(o)
    ensures Counted(OR.Run(o, ops))
    decreases |ops|
  {
    hide OR.Step;
    if ops != [] {
      StepCounts(o, ops[0]);
      RunCounts(OR.Step(o, ops[0]), ops[1..]);
    }
  }

  /** The output streams after the connection has moved on without them. */
  function Relinked(o: OR.Outputs, link: Link): OR.Outputs {
    o.(shared := o.shared.(link := link))
  }

  /** Reads on the input stream of a request. */
  method UseInput(s: FcgxRequest, calls: seq<RC.Call>) returns (answers: seq<RC.Answer>)
    requires s.Valid() && s.Live()
    modifies s.Repr
    ensures s.Valid() && s.Live() && s.Repr == old(s.Repr) && s.conn == old(s.conn)
    ensures s.inStream == old(s.inStream) && s.outStream == old(s.outStream) && s.errStream == old(s.errStream)
    ensures s.data.appStatus == old(s.data.appStatus) && s.Req() == old(s.Req())
    ensures s.inStream.Abs().req.begun && !old(s.inStream.Abs()).eor && old(s.inStream.Abs()).req.begun
    ensures RC.Ran(s.inStream.Abs(), answers) == RC.Run(old(s.inStream.Abs()), calls)
    ensures OC.Value(s.outStream, s.errStream) == Relinked(old(OC.Value(s.outStream, s.errStream)), s.conn.Value())
  {
    hide RC.Run, Reader.Abs, Reader.Raw, RolePair, T.Tidy, T.Onward, T.AllHonest, Trace, Unwritten;
    RequestOfReader(s.inStream);
    s.inStream.Flags();
    ghost var before, outputs := s.inStream.Abs(), OC.Value(s.outStream, s.errStream);
    ReadingSettles(before, calls);
    LinkOfReader(s.inStream);
    ghost var start := s.conn.Value();
    answers := RC.RunClient(s.inStream, calls);
    RequestOfReader(s.inStream);
    s.inStream.Flags();
    LinkOfReader(s.inStream);
    T.ClientGoes(before, calls);
    ReadingIsTidy(start, before, s.inStream.Abs(), s.conn.Value());
    StillHonest(outputs, OC.Value(s.outStream, s.errStream));
  }

  lemma ReadingIsTidy(start: Link, before: RSpec.State, after: RSpec.State, end: Link)
    requires T.Tidy(start) && T.Goes(before, after)
    requires before.link == start.(input := before.link.input) && after.link == end.(input := after.link.input)
    ensures T.Tidy(end) && end.failed >= start.failed
  {
    hide T.Tidy;
    T.OnwardFails(before.link, after.link);
    T.OnwardNowhere(start, before.link);
    T.OnwardTwice(start, before.link, after.link);
    T.OnwardNowhere(after.link, end);
    T.OnwardTwice(start, after.link, end);
    T.TidyOn(start, end);
  }

  lemma StillHonest(o: OR.Outputs, p: OR.Outputs)
    requires T.AllHonest(o) && p.out == o.out && p.err == o.err && p.shared.link.failed >= o.shared.link.failed
    ensures T.AllHonest(p)
  {
  }

  /** Writes on the output streams of a request. */
  method UseOutput(s: FcgxRequest, ops: seq<OR.Op>)
    requires s.Valid() && s.Live()
    modifies s.Repr
    ensures s.Valid() && s.Live() && s.Repr == old(s.Repr) && s.conn == old(s.conn) && s.ipcFd == old(s.ipcFd)
    ensures OC.Value(s.outStream, s.errStream) == OR.Run(old(OC.Value(s.outStream, s.errStream)), ops)
    ensures s.inStream == old(s.inStream) && s.outStream == old(s.outStream) && s.errStream == old(s.errStream)
    ensures s.data.appStatus == OR.StatusAfter(ops, old(s.data.appStatus)) && s.Req() == old(s.Req())
  {
    hide OR.Run, RolePair, OR.Step, T.Tidy, T.Onward, T.AllHonest, Trace, Unwritten;
    ghost var o := OC.Value(s.outStream, s.errStream);
    assert Counted(o);
    RunCounts(o, ops);
    T.RunGoes(o, ops);
    OR.RunStatus(o, ops);
    OC.RunOutputs(s.outStream, s.errStream, ops);
    T.TidyOn(o.shared.link, s.conn.Value());
  }

  /** A byte pushed back on the input stream of a request. */
  method PushBack(s: FcgxRequest, c: int)
    requires s.Valid() && s.Live()
    modifies s.Repr
    ensures s.Valid() && s.Live() && s.Repr == old(s.Repr)
  {
    hide Reader.Abs, Reader.Raw, RolePair, T.Tidy, T.AllHonest, Trace, Unwritten;
    ghost var start, outputs := s.conn.Value(), OC.Value(s.outStream, s.errStream);
    LinkOfReader(s.inStream);
    var _ := s.inStream.UnGetChar(c);
    LinkOfReader(s.inStream);
    T.OnwardNowhereDefined(start, s.conn.Value());
    T.TidyOn(start, s.conn.Value());
    StillHonest(outputs, OC.Value(s.outStream, s.errStream));
  }

  datatype Life = Accept | Finish | Read(calls: seq<RC.Call>) | Unget(c: int) | Write(ops: seq<OR.Op>)

  /**
   * Whatever an application does, and however its connections behave: descriptors are closed
   * at most once and never while a second is open, a request is either served with all four of
   * its parts or not at all, nWriters counts the open output streams, and everything sent on
   * the open connection and on each one closed is whole records, unless a write has failed on
   * it or C leaves undefined what was done for it.
   */
  method RunLife(s: FcgxRequest, script: seq<Life>)
    requires s.Valid()
    modifies s.Repr
    ensures s.Valid() && fresh(s.Repr - old(s.Repr))
    ensures s.os.events == Trace(s.os.accepted, s.ipcFd >= 0)
    ensures s.Live() || s.Idle()
    ensures s.conn != null && s.conn.failed == 0 && !s.conn.undefined ==> T.Tiled([], s.conn.out)
    ensures forall i :: 0 <= i < |s.os.closed| && s.os.closed[i].failed == 0 && !s.os.closed[i].undefined ==>
              T.Tiled([], s.os.closed[i].out)
  {
    for i := 0 to |script|
      invariant s.Valid() && fresh(s.Repr - old(s.Repr))
    {
      match script[i] {
        case Accept => var _ := s.Accept();
        case Finish => s.Finish();
        case Read(calls) =>
          if s.inStream != null {
            var _ := UseInput(s, calls);
          }
        case Unget(c) =>
          if s.inStream != null {
            PushBack(s, c);
          }
        case Write(ops) =>
          if s.outStream != null {
            UseOutput(s, ops);
          }
      }
    }
  }

  /**
   * Two requests one after the other, with whatever calls on their output streams: the second
   * ends with the status last set in either, FCGX_Accept_r having reset nothing.
   */
  method ServeTwo(s: FcgxRequest, first: seq<OR.Op>, second: seq<OR.Op>)
    returns (rc: int, ghost before: Link, ghost after: Link, ghost log: seq<Record>, ghost status: int)
    requires s.Valid() && s.Live()
    modifies s.Repr
    ensures s.Valid() && s.Idle() && fresh(s.Repr - old(s.Repr))
    ensures var initial := OR.StatusAfter(first, old(s.data.appStatus));
            rc == 0 && after.failed == before.failed ==>
              && AllFit(log) && after.out == before.out + Bytes(log) && log != []
              && log[|log| - 1] == EndRequest(s.data.requestId, status, REQUEST_COMPLETE)
              && Completes(log[|log| - 1], s.data.requestId, status)
              && OR.StatusAtEnd(second + OR.FINISH, initial, true, true) == Some(status)
  {
    hide OR.Run, OR.Step, OR.Fresh, OR.StatusAfter, OR.StatusAtEnd, OC.Value, FirstAcceptable, Environment, Bytes;
    hide T.Tidy, Trace, Unwritten, RolePair, Reader.Abs, EndRequest, Completes, WSpec.Close;
    before, after, log, status := s.conn.Value(), s.conn.Value(), [], 0;
    UseOutput(s, first);
    rc := s.Accept();
    if rc != 0 {
      return;
    }
    before, after, log, status := ServeFresh(s, second);
  }

  /** One request on which nothing has been written yet, to its end. */
  method ServeFresh(s: FcgxRequest, ops: seq<OR.Op>)
    returns (ghost before: Link, ghost after: Link, ghost log: seq<Record>, ghost status: int)
    requires s.Valid() && s.Live() && OR.Fresh(OC.Value(s.outStream, s.errStream))
    modifies s.Repr
    ensures s.Valid() && s.Idle() && s.Repr == old(s.Repr)
    ensures before == old(s.conn.Value()) && after == old(s.conn).Value()
    ensures after.failed == before.failed ==>
              && AllFit(log) && after.out == before.out + Bytes(log) && log != []
              && log[|log| - 1] == EndRequest(s.data.requestId, status, REQUEST_COMPLETE)
              && Completes(log[|log| - 1], s.data.requestId, status)
              && OR.StatusAtEnd(ops + OR.FINISH, old(s.data.appStatus), true, true) == Some(status)
  {
    hide OR.Run, OR.Step, OR.Fresh, OR.StatusAtEnd, OR.StatusAfter, OR.PutOn, Bytes, EndRequest, Completes, EndsSo;
    hide T.Tidy, T.AllHonest, Trace, Unwritten, RolePair, Reader.Abs, Reader.Valid, WSpec.Close;
    ghost var o := OC.Value(s.outStream, s.errStream);
    before := s.conn.Value();
    ghost var c := s.conn;
    UseOutput(s, ops);
    ghost var p := OC.Value(s.outStream, s.errStream);
    s.Finish();
    after := c.Value();
    log, status := RunToEnd(o, ops, after);
    EndsSoIs(o, ops, after, log, status);
  }

  /** How a run of calls and FCGX_Finish_r leave the connection, unless a write failed. */
  ghost predicate EndsSo(o: OR.Outputs, ops: seq<OR.Op>, end: Link, log: seq<Record>, status: int) {
    && 0 <= o.shared.id <= MAX_LENGTH
    && AllFit(log) && end.out == o.shared.link.out + Bytes(log) && log != []
    && log[|log| - 1] == EndRequest(o.shared.id, status, REQUEST_COMPLETE)
    && OR.StatusAtEnd(ops + OR.FINISH, o.shared.appStatus, true, true) == Some(status)
  }

  lemma EndsSoIs(o: OR.Outputs, ops: seq<OR.Op>, end: Link, log: seq<Record>, status: int)
    ensures EndsSo(o, ops, end, log, status) ==>
              && 0 <= o.shared.id <= MAX_LENGTH
              && AllFit(log) && end.out == o.shared.link.out + Bytes(log) && log != []
              && log[|log| - 1] == EndRequest(o.shared.id, status, REQUEST_COMPLETE)
              && Completes(log[|log| - 1], o.shared.id, status)
              && OR.StatusAtEnd(ops + OR.FINISH, o.shared.appStatus, true, true) == Some(status)
  {
    hide Bytes, EndRequest, OR.StatusAtEnd, Completes;
    if EndsSo(o, ops, end, log, status) {
      EndRequestCompletes(o.shared.id, status);
    }
  }

  lemma RunToEnd(o: OR.Outputs, ops: seq<OR.Op>, end: Link) returns (log: seq<Record>, status: int)
    requires OR.Fresh(o)
    requires var p := OR.Run(o, ops);
             end == WSpec.Close(WSpec.Writing(p.out, WSpec.Close(p.On(OR.Err)).shared)).shared.link
    ensures end.failed == o.shared.link.failed ==> EndsSo(o, ops, end, log, status)
  {
    hide OR.Run, OR.StatusAtEnd, WSpec.Close, Bytes, EndRequest;
    OR.RunOfBoth(o, ops, OR.FINISH);
    OR.FinishCloses(OR.Run(o, ops));
    log, status := [], 0;
    if end.failed == o.shared.link.failed {
      log, status := OR.CompleteRun(o, ops + OR.FINISH);
    }
  }

  /**
   * So a request whose streams are closed by FCGX_Finish_r ends with the status last set in it or
   * the one before: with 0, if the status was 0 at first, exactly if none was set or that one is 0.
   */
  lemma StatusCarriesOver(first: seq<OR.Op>, second: seq<OR.Op>, initial: int)
    requires forall i :: 0 <= i < |second| ==> !second[i].Close?
    ensures var last := OR.LastSet(first + second);
            var end := OR.StatusAtEnd(second + OR.FINISH, OR.StatusAfter(first, initial), true, true);
            && end == Some(if last.Some? then last.value else initial)
            && (initial == 0 ==> (end == Some(0) <==> last == None || last == Some(0)))
  {
    OR.StatusWhenClosed(second, OR.StatusAfter(first, initial));
    OR.StatusAfterIs(first, initial);
    OR.StatusAfterIs(second, OR.StatusAfter(first, initial));
    OR.LastSetOfBoth(first, second);
  }

  /** A request that never calls FCGX_SetExitStatus ends with the 7 of the one before. */
  method SevenCarriesOver(s: FcgxRequest) returns (rc: int, ghost before: Link, ghost after: Link, ghost log: seq<Record>)
    requires s.Valid() && s.Live()
    modifies s.Repr
    ensures s.Valid() && s.Idle()
    ensures rc == 0 && after.failed == before.failed ==>
              && AllFit(log) && after.out == before.out + Bytes(log) && log != []
              && log[|log| - 1] == Record(3, s.data.requestId, [0, 0, 0, 7, 0, 0, 0, 0], [], 0)
  {
    ghost var status;
    StatusCarriesOver([OR.SetExit(7)], [], s.data.appStatus);
    assert [OR.SetExit(7)] + [] == [OR.SetExit(7)];
    assert OR.LastSet([OR.SetExit(7)][1..]) == None;
    assert OR.LastSet([OR.SetExit(7)]) == Some(7);
    hide OR.StatusAtEnd, OR.StatusAfter, OR.LastSet, Bytes, EndRequest, Completes;
    rc, before, after, log, status := ServeTwo(s, [OR.SetExit(7)], []);
    EndRequestOfSeven(s.data.requestId);
  }

  /** FCGX_Accept_r and then FCGX_GetParam. */
  method AcceptAndLookUp(s: FcgxRequest, name: seq<byte>) returns (rc: int, value: Option<seq<byte>>)
    requires s.Valid() && EQUALS !in name && NUL !in name
    modifies s.Repr
    ensures s.Valid() && fresh(s.Repr - old(s.Repr)) && (rc == 0 ==> s.Live())
    ensures match FirstAcceptable(old(s.Left()), old(s.Req()))
            case Exhausted(_) => rc < 0
            case Found(state, pairs, _) =>
              && rc == 0 && 1 <= state.req.role <= 3
              && (Plain(pairs) ==> value == Answer(state.req.role, pairs, name))
  {
    hide FirstAcceptable, Environment, RolePair, Lookup, Plain, FirstNamed, OR.Fresh, OC.Value, T.Tidy, Trace, Unwritten;
    ghost var o := FirstAcceptable(s.Left(), s.Req());
    value := None;
    rc := s.Accept();
    if rc == 0 {
      value := s.params.GetParam(name);
      if o.Found? && Plain(o.pairs) {
        EnvironmentAnswers(s.data.role, o.pairs, name);
      }
    }
  }

  /**
   * End to end, from the bytes a web server sends: a request with a role the library knows,
   * whose PARAMS stream spells pairs without '=' in a name and NUL in a value, is accepted, and
   * FCGX_GetParam finds the role under FCGI_ROLE and under any other name the value of its
   * first pair, or NULL.
   */
  method AcceptFromWire(s: FcgxRequest, name: seq<byte>, ghost x: Opening, ghost ss: seq<Spelling>, ghost more: seq<byte>)
    returns (rc: int, value: Option<seq<byte>>)
    requires s.Valid() && s.Idle() && s.conn == null && s.os.waiting != [] && EQUALS !in name && NUL !in name
    requires var link := s.os.waiting[0];
             x.Good(s.data.requestId) && link.input == x.Wire(more) && |x.Answers(s.data.requestId)| <= link.room
    requires 1 <= RS.Begun(x.begin).role <= 3 && AllValid(ss) && Plain(Pairs(ss))
    requires Project(x.params.rs, PARAMS, x.begin.id) == Spell(ss)
    modifies s.Repr
    ensures s.Valid() && s.Live() && rc == 0
    ensures value == Answer(RS.Begun(x.begin).role, Pairs(ss), name)
  {
    hide RolePair, Plain, Pairs, Spell, Project, Offer, Opening.Good, Opening.Wire, Opening.Answers, AllValid, Answer;
    ghost var links := s.Left();
    assert links == s.os.waiting;
    AcceptsRequest(links[0], s.Req(), x, ss, more);
    FirstOffer(links, s.Req());
    rc, value := AcceptAndLookUp(s, name);
  }
}
