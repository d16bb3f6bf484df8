/** Whole runs of a client of the reader. */
module ReaderClients {
  import opened Wire
  import opened Readers
  import opened ReaderFacts
  import Spec = ReaderSpec

  /** One call a client makes on its input stream. */
  datatype Call = GetChar | GetStr(n: int) | GetLine(n: int) | StartFilterData

  /** What the call returns, and what FCGX_GetError says after it. */
  datatype Answer = Answer(c: int, str: Option<seq<byte>>, error: int)

  function Answered(s: Spec.State, call: Call): (r: (Spec.State, Answer))
    requires s.req.begun && !s.eor
    ensures r.0.req.begun && !r.0.eor
  {
    match call
    case GetChar =>
      var got := Spec.GetChar(s);
      (got.state, Answer(got.c, None, got.state.errno))
    case GetStr(n) =>
      var read := Spec.GetStr(s, if n < 0 then 0 else n);
      (read.state, Answer(|read.bytes|, Some(read.bytes), read.state.errno))
    case GetLine(n) =>
      var line := Spec.GetLine(s, n);
      (line.state, Answer(0, line.str, line.state.errno))
    case StartFilterData =>
      var st := Spec.StartFilterData(s);
      (st.state, Answer(st.code, None, st.state.errno))
  }

  datatype Ran = Ran(state: Spec.State, answers: seq<Answer>)

  /** The answers to a run of calls, and the state left behind. */
  function Run(s: Spec.State, calls: seq<Call>): Ran
    requires s.req.begun && !s.eor
    decreases |calls|
  {
    if calls == [] then Ran(s, [])
    else
      var one := Answered(s, calls[0]);
      var rest := Run(one.0, calls[1..]);
      Ran(rest.state, [one.1] + rest.answers)
  }

  method Perform(r: Reader, call: Call) returns (a: Answer)
    requires r.Valid() && r.req.isBeginProcessed && !r.eorStop
    modifies r, r.buff, r.conn, r.req`requestId, r.req`role, r.req`keepConnection, r.req`isBeginProcessed
    ensures r.Valid() && (r.Abs(), a) == Answered(old(r.Abs()), call)
  {
    hide Spec.GetChar, Spec.GetStr, Spec.GetLine, Spec.StartFilterData, Spec.Advance;
    match call {
      case GetChar =>
        var c := r.GetChar();
        a := Answer(c, None, r.FCGI_errno);
      case GetStr(n) =>
        var str := r.GetStr(n);
        a := Answer(|str|, Some(str), r.FCGI_errno);
      case GetLine(n) =>
        var str := r.GetLine(n);
        a := Answer(0, str, r.FCGI_errno);
      case StartFilterData =>
        var rc := r.StartFilterData();
        a := Answer(rc, None, r.FCGI_errno);
    }
    r.Flags();
  }

  /** A client's run is a function of the unread bytes, however the reads cut them up. */
  method RunClient(r: Reader, calls: seq<Call>) returns (answers: seq<Answer>)
    requires r.Valid() && r.req.isBeginProcessed && !r.eorStop
    modifies r, r.buff, r.conn, r.req`requestId, r.req`role, r.req`keepConnection, r.req`isBeginProcessed
    ensures r.Valid() && Ran(r.Abs(), answers) == Run(old(r.Abs()), calls)
  {
    hide Answered;
    ghost var s := r.Abs();
    answers := [];
    assert calls[0..] == calls && calls[|calls|..] == [];
    for i := 0 to |calls|
      invariant r.Valid() && r.req.isBeginProcessed && !r.eorStop
      invariant var rest := Run(r.Abs(), calls[i..]);
                Run(s, calls).state == rest.state && Run(s, calls).answers == answers + rest.answers
    {
      assert calls[i..][0] == calls[i] && calls[i..][1..] == calls[i + 1..];
      var a := Perform(r, calls[i]);
      ghost var later := Run(r.Abs(), calls[i + 1..]).answers;
      assert answers + ([a] + later) == answers + [a] + later;
      answers := answers + [a];
    }
  }

  /**
   * Chunking independence: two readers that have the same bytes ahead of them answer every
   * run of calls alike, record the same errors and write the same replies, although each
   * connection cuts its bytes into reads as it likes.
   */
  method RunTwice(r1: Reader, r2: Reader, calls: seq<Call>) returns (a1: seq<Answer>, a2: seq<Answer>)
    requires r1.Valid() && r1.req.isBeginProcessed && !r1.eorStop
    requires r2.Valid() && r2.req.isBeginProcessed && !r2.eorStop
    requires r1 != r2 && r1.buff != r2.buff && r1.conn != r2.conn && r1.req != r2.req
    requires r1.Abs() == r2.Abs()
    modifies r1, r1.buff, r1.conn, r1.req, r2, r2.buff, r2.conn, r2.req
    ensures r1.Valid() && r2.Valid() && a1 == a2 && r1.Abs() == r2.Abs()
    ensures r1.conn.out == r2.conn.out
  {
    hide Run;
    a1 := RunClient(r1, calls);
    a2 := RunClient(r2, calls);
  }

  function Reverse(b: seq<byte>): (r: seq<byte>)
    ensures |r| == |b|
  {
    if b == [] then [] else Reverse(b[1..]) + [b[0]]
  }

  lemma GetCharAfterPush(s: Spec.State, b: byte)
    requires !s.closed && !s.skip && s.Readable()
    ensures Spec.GetChar(Spec.Push(s, b)) == Spec.Got(s, b)
  {
    var t := Spec.Push(s, b);
    assert t.Deliverable();
    assert Spec.Deliver(t, 1).Unread() == s.Unread();
  }

  /** Pushed bytes come back last in, first out, and what was to follow them still does. */
  lemma {:induction false} GetStrAfterPushAll(s: Spec.State, bs: seq<byte>)
    requires !s.closed && !s.skip && s.Readable()
    ensures Spec.PushAll(s, bs).Readable()
    ensures Spec.GetStr(Spec.PushAll(s, bs), |bs|) == Spec.Read(s, Reverse(bs))
    decreases |bs|
  {
    if bs != [] {
      var t := Spec.PushAll(s, bs);
      GetStrAfterPushAll(Spec.Push(s, bs[0]), bs[1..]);
      GetCharAfterPush(s, bs[0]);
      GetStrOneMore(t, |bs| - 1);
    }
  }

  /** One more byte after n of them. */
  lemma {:induction false} GetStrOneMore(s: Spec.State, n: nat)
    requires s.Readable()
    requires |Spec.GetStr(s, n).bytes| == n
    ensures var r := Spec.GetStr(s, n);
            var got := Spec.GetChar(r.state);
            Spec.GetStr(s, n + 1) == if got.c == Spec.EOF then Spec.Read(got.state, r.bytes)
                                     else Spec.Read(got.state, r.bytes + [got.c])
    decreases n
  {
    hide Spec.GetChar;
    var got := Spec.GetChar(s);
    if n > 0 {
      GetStrOneMore(got.state, n - 1);
      var r := Spec.GetStr(got.state, n - 1);
      var last := Spec.GetChar(r.state);
      assert last.c != Spec.EOF ==> [got.c] + (r.bytes + [last.c]) == [got.c] + r.bytes + [last.c];
    }
  }

  /** Pushbacks that stay this side of the last fill all succeed, and come back in reverse. */
  method PushBackAll(r: Reader, bs: seq<byte>)
    requires r.Valid() && !r.isClosed && !r.eorStop && r.req.isBeginProcessed
    requires r.stopUnget + |bs| <= r.rdNext
    modifies r`rdNext, r.buff, r.conn`undefined
    ensures r.Valid() && !r.isClosed && r.rdNext == old(r.rdNext) - |bs|
    ensures r.Abs() == Spec.PushAll(old(r.Abs()), bs) && old(r.Abs()).Readable() && r.Abs().Readable()
    ensures Spec.GetStr(r.Abs(), |bs|) == Spec.Read(old(r.Abs()), Reverse(bs))
  {
    ghost var s := r.Abs();
    for i := 0 to |bs|
      invariant r.Valid() && !r.isClosed && r.rdNext == old(r.rdNext) - i
      invariant Spec.PushAll(s, bs) == Spec.PushAll(r.Abs(), bs[i..])
    {
      var c := r.UnGetChar(bs[i]);
      assert c == bs[i];
      assert bs[i..][0] == bs[i] && bs[i..][1..] == bs[i + 1..];
    }
    GetStrAfterPushAll(s, bs);
  }

  lemma DeliverableChar(s: Spec.State)
    requires s.Deliverable() && s.Readable()
    ensures Spec.GetChar(s).c != Spec.EOF
  {
    GetCharDeliverable(s);
  }

  /** FCGX_GetChar up to k times, stopped at EOF and where a second fill would be needed. */
  method ReadBuffered(r: Reader, k: nat) returns (got: seq<byte>)
    requires r.Valid() && r.req.isBeginProcessed && !r.eorStop && k > 0
    requires r.isClosed || r.rdNext == r.stop
    modifies r, r.buff, r.conn, r.req`requestId, r.req`role, r.req`keepConnection, r.req`isBeginProcessed
    ensures r.Valid() && r.req.isBeginProcessed && !r.eorStop && |got| <= k && old(r.Abs()).Readable()
    ensures got == [] <==> r.isClosed
    ensures got != [] ==> r.rdNext == r.stopUnget + |got| && (|got| < k ==> r.rdNext == r.stop)
    ensures Spec.GetStr(old(r.Abs()), if got == [] then 1 else |got|) == Spec.Read(r.Abs(), got)
  {
    hide Spec.GetChar;
    ghost var s := r.Abs();
    r.Flags();
    GetStrOneMore(s, 0);
    var c := r.GetChar();
    r.Flags();
    if c == Spec.EOF {
      return [];
    }
    got := [c];
    while |got| < k && r.rdNext != r.stop
      invariant r.Valid() && r.req.isBeginProcessed && !r.eorStop && !r.isClosed && 0 < |got| <= k
      invariant r.rdNext == r.stopUnget + |got|
      invariant Spec.GetStr(s, |got|) == Spec.Read(r.Abs(), got)
      decreases k - |got|
    {
      GetStrOneMore(s, |got|);
      r.Flags();
      DeliverableChar(r.Abs());
      c := r.GetChar();
      r.Flags();
      got := got + [c];
    }
  }

  /**
   * FCGX_GetChar up to k times with only the first one filling the buffer, and then
   * FCGX_UnGetChar as many times, with whatever bytes. Each pushback succeeds, the next reads
   * return the bytes pushed, last in first out, and after them the stream goes on where the
   * reads had left it. Only EOF or the end of the buffer cuts the reads short.
   */
  method ReadThenPushBack(r: Reader, k: nat, bytes: seq<byte>) returns (got: seq<byte>)
    requires r.Valid() && r.req.isBeginProcessed && !r.eorStop && |bytes| == k > 0
    requires r.isClosed || r.rdNext == r.stop
    modifies r, r.buff, r.conn, r.req`requestId, r.req`role, r.req`keepConnection, r.req`isBeginProcessed
    ensures r.Valid() && r.Abs().Readable() && old(r.Abs()).Readable() && |got| <= k
    ensures got == [] <==> r.isClosed
    ensures 0 < |got| < k ==> r.rdNext + |got| == r.stop
    ensures var read := Spec.GetStr(old(r.Abs()), if got == [] then 1 else |got|);
            && read.bytes == got && read.state.Readable()
            && (got != [] ==>
                  && r.Abs() == Spec.PushAll(read.state, bytes[..|got|])
                  && Spec.GetStr(r.Abs(), |got|) == Spec.Read(read.state, Reverse(bytes[..|got|])))
  {
    hide Spec.PushAll, Spec.GetStr, Spec.GetChar, Reverse;
    got := ReadBuffered(r, k);
    r.Flags();
    if got != [] {
      PushBackAll(r, bytes[..|got|]);
    }
  }

  /** Reads a stream to EOF, byte by byte. */
  method ReadAll(r: Reader) returns (bytes: seq<byte>)
    requires r.Valid() && r.req.isBeginProcessed && !r.eorStop
    modifies r, r.buff, r.conn, r.req`requestId, r.req`role, r.req`keepConnection, r.req`isBeginProcessed
    ensures r.Valid() && r.req.isBeginProcessed && !r.eorStop
    ensures old(r.Abs()).Readable() && Spec.Read(r.Abs(), bytes) == Spec.Drain(old(r.Abs()))
  {
    hide Spec.Drain, Spec.GetChar;
    ghost var s := r.Abs();
    bytes := [];
    while true
      invariant r.Valid() && r.req.isBeginProcessed && !r.eorStop
      invariant var rest := Spec.Drain(r.Abs());
                Spec.Drain(s) == Spec.Read(rest.state, bytes + rest.bytes)
      decreases |r.Abs().Unread()|
    {
      DrainStep(r.Abs());
      ghost var later := Spec.Drain(Spec.GetChar(r.Abs()).state).bytes;
      var c := r.GetChar();
      if c == Spec.EOF {
        assert bytes + [] == bytes;
        return;
      }
      assert bytes + ([c] + later) == bytes + [c] + later;
      bytes := bytes + [c];
    }
  }
}
