/** Whole runs of the two output streams of a request: what ends up on the wire. */
module OutputRuns {
  import opened Wire
  import Spec = WriterSpec
  import opened WriterLog

  datatype Which = Out | Err

  /** One call an application makes on its output streams. */
  datatype Op = Put(which: Which, bytes: seq<byte>) | Flush(which: Which) | Close(which: Which) | SetExit(status: int)

  /** The two writers of a request over what they share. */
  datatype Outputs = Outputs(out: Spec.Writer, err: Spec.Writer, shared: Spec.Shared) {
    function On(which: Which): Spec.Writing {
      Spec.Writing(if which == Out then out else err, shared)
    }

    function With(which: Which, x: Spec.Writing): Outputs {
      if which == Out then Outputs(x.w, err, x.shared) else Outputs(out, x.w, x.shared)
    }

    predicate Valid() {
      On(Out).Valid() && On(Err).Valid()
    }
  }

  function Step(o: Outputs, op: Op): (p: Outputs)
    requires o.Valid()
    ensures p.Valid()
  {
    match op
    case Put(which, bytes) =>
      o.With(which, Spec.PutAll(o.On(which), bytes).x)
    case Flush(which) => o.With(which, Spec.Flush(o.On(which)))
    case Close(which) => o.With(which, Spec.Close(o.On(which)))
    case SetExit(status) => o.(shared := o.shared.(appStatus := status))
  }

  function Run(o: Outputs, ops: seq<Op>): (p: Outputs)
    requires o.Valid()
    ensures p.Valid()
    decreases |ops|
  {
    if ops == [] then o else Run(Step(o, ops[0]), ops[1..])
  }

  /** The records written so far, the bytes put on each stream, and the status END_REQUEST carried. */
  datatype History = History(log: seq<Record>, out: seq<byte>, err: seq<byte>, ended: Option<int>) {
    function Put(which: Which): seq<byte> {
      if which == Out then out else err
    }

    function Add(which: Which, rs: seq<Record>, bytes: seq<byte>): History {
      if which == Out then History(log + rs, out + bytes, err, ended)
      else History(log + rs, out, err + bytes, ended)
    }
  }

  function StepLog(o: Outputs, op: Op): (rs: seq<Record>)
    requires o.Valid()
    ensures Sound(rs, o.shared.id)
  {
    match op
    case Put(which, bytes) => PutAllLog(o.On(which), bytes)
    case Flush(which) => if o.On(which).w.closed then [] else EmptyLog(o.On(which))
    case Close(which) => CloseLog(o.On(which))
    case SetExit(_) => []
  }

  /** How a call extends the history: bytes put after FCGX_FClose are refused. */
  function Extend(h: History, o: Outputs, op: Op): History
    requires o.Valid()
  {
    match op
    case Put(which, bytes) => h.Add(which, StepLog(o, op), if o.On(which).w.finished then [] else bytes)
    case Flush(which) => h.Add(which, StepLog(o, op), [])
    case Close(which) =>
      var g := h.Add(which, StepLog(o, op), []);
      if !o.On(which).w.finished && o.shared.nWriters == 1 then g.(ended := Some(o.shared.appStatus)) else g
    case SetExit(_) => h
  }

  function Recall(h: History, o: Outputs, ops: seq<Op>): History
    requires o.Valid()
    decreases |ops|
  {
    if ops == [] then h else Recall(Extend(h, o, ops[0]), Step(o, ops[0]), ops[1..])
  }

  /** Both streams without an error so far. */
  predicate NoError(o: Outputs) {
    o.out.errno == 0 && o.err.errno == 0
  }

  /** What holds of the wire and the streams after any calls that met no error. */
  ghost predicate Inv(o: Outputs, h: History) {
    && o.Valid() && NoError(o) && o.out.typ == STDOUT && o.err.typ == STDERR
    && Sound(h.log, o.shared.id)
    && Tracks(o.out, h.log, h.out) && Tracks(o.err, h.log, h.err)
    && o.shared.nWriters == (if o.out.finished then 0 else 1) + (if o.err.finished then 0 else 1)
    && Ending(o, h)
  }

  /** END_REQUEST appears when the second stream is finished, once, and nothing after it. */
  ghost predicate Ending(o: Outputs, h: History)
    requires o.Valid()
  {
    && (h.ended.Some? <==> o.out.finished && o.err.finished)
    && Contents(h.log, END_REQUEST) ==
       (if h.ended.Some? then [MakeEndRequestBody(h.ended.value, REQUEST_COMPLETE)] else [])
    && (h.ended.Some? ==>
          h.log != [] && h.log[|h.log| - 1] == EndRequest(o.shared.id, h.ended.value, REQUEST_COMPLETE))
  }

  /** What one call does to the stream it is made on. */
  ghost predicate Moved(x: Spec.Writing, y: Spec.Writing, h: History, which: Which, rs: seq<Record>, bytes: seq<byte>) {
    && AllFit(rs) && Wrote(x, y, rs)
    && Tracks(y.w, h.log + rs, h.Put(which) + bytes)
    && Contents(rs, if which == Out then STDERR else STDOUT) == []
  }

  /** The other stream does not notice. */
  lemma OtherTracks(w: Spec.Writer, log: seq<Record>, rs: seq<Record>, put: seq<byte>)
    requires Tracks(w, log, put) && Contents(rs, w.typ) == []
    ensures Tracks(w, log + rs, put)
  {
    ContentsAppend(log, rs, w.typ);
    assert Contents(log, w.typ) + [] == Contents(log, w.typ);
  }

  lemma {:induction false} PutAllContents(x: Spec.Writing, bs: seq<byte>, typ: byte)
    requires x.Valid() && typ != x.w.typ
    ensures Contents(PutAllLog(x, bs), typ) == []
    decreases |bs|
  {
    if bs != [] {
      var p := Spec.PutByte(x, bs[0]);
      OneContents(PutByteLog(x), typ);
      if p.ok {
        PutAllContents(p.x, bs[1..], typ);
        ContentsAppend(PutByteLog(x), PutAllLog(p.x, bs[1..]), typ);
      }
    }
  }

  lemma OneContents(rs: seq<Record>, typ: byte)
    requires |rs| <= 1 && (rs != [] ==> rs[0].typ != typ)
    ensures Contents(rs, typ) == []
  {
    if rs != [] {
      ContentsSnoc([], rs[0], typ);
      assert [] + [rs[0]] == rs;
    }
  }

  /** A call that finishes nothing keeps the invariant. */
  lemma KeepsOpen(o: Outputs, h: History, which: Which, y: Spec.Writing, rs: seq<Record>, bytes: seq<byte>)
    requires Inv(o, h) && y.Valid() && o.With(which, y).Valid()
    requires Moved(o.On(which), y, h, which, rs, bytes) && Sound(rs, o.shared.id)
    requires y.w.finished == o.On(which).w.finished && y.shared.nWriters == o.shared.nWriters
    requires Contents(rs, END_REQUEST) == [] && (o.On(which).w.finished ==> rs == [])
    ensures Inv(o.With(which, y), h.Add(which, rs, bytes))
  {
    hide Tracks, Contents, Sound, Ending, Bytes, Spec.Writer.Valid;
    SoundAppend(h.log, rs, o.shared.id);
    EndedBoth(o, h);
    KeepsEnding(o, h, o.With(which, y), h.Add(which, rs, bytes), rs);
    if which == Out {
      OtherTracks(o.err, h.log, rs, h.err);
    } else {
      OtherTracks(o.out, h.log, rs, h.out);
    }
  }

  lemma EndedBoth(o: Outputs, h: History)
    requires o.Valid() && Ending(o, h)
    ensures h.ended.Some? <==> o.out.finished && o.err.finished
  {
  }

  lemma KeepsEnding(o: Outputs, h: History, p: Outputs, g: History, rs: seq<Record>)
    requires o.Valid() && p.Valid() && Ending(o, h) && p.shared.id == o.shared.id
    requires p.out.finished == o.out.finished && p.err.finished == o.err.finished
    requires g.log == h.log + rs && g.ended == h.ended
    requires Contents(rs, END_REQUEST) == [] && (h.ended.Some? ==> rs == [])
    ensures Ending(p, g)
  {
    hide Contents, EndRequest, MakeEndRequestBody;
    ContentsAppend(h.log, rs, END_REQUEST);
    assert h.ended.Some? ==> h.log + rs == h.log;
  }

  lemma PutNothingElse(h: History, which: Which)
    ensures h.out + [] == h.out && h.err + [] == h.err
  {
  }

  /** On a finished stream every call is without effect. */
  lemma FinishedMoves(o: Outputs, h: History, which: Which)
    requires Inv(o, h)
    ensures Moved(o.On(which), o.On(which), h, which, [], [])
  {
    hide Tracks, Sound, Ending, Spec.Writer.Valid;
    assert h.log + [] == h.log;
    assert o.shared.link.out + [] == o.shared.link.out;
    PutNothingElse(h, which);
  }

  lemma KeepsPut(o: Outputs, h: History, which: Which, bs: seq<byte>)
    requires Inv(o, h) && NoError(Step(o, Put(which, bs)))
    ensures Inv(Step(o, Put(which, bs)), Extend(h, o, Put(which, bs)))
  {
    hide Tracks, Contents, Wrote;
    var x := o.On(which);
    var y, rs := Spec.PutAll(x, bs).x, PutAllLog(x, bs);
    if x.w.finished {
      FinishedMoves(o, h, which);
      OneContents([], END_REQUEST);
      PutFinished(x, bs);
      KeepsOpen(o, h, which, x, [], []);
    } else {
      PutAllTracks(x, h.log, h.Put(which), bs);
      PutAllContents(x, bs, END_REQUEST);
      PutAllContents(x, bs, if which == Out then STDERR else STDOUT);
      KeepsOpen(o, h, which, y, rs, bs);
    }
  }

  lemma PutFinished(x: Spec.Writing, bs: seq<byte>)
    requires x.Valid() && x.w.finished
    ensures Spec.PutAll(x, bs).x == x && PutAllLog(x, bs) == []
  {
  }

  lemma KeepsFlush(o: Outputs, h: History, which: Which)
    requires Inv(o, h) && NoError(Step(o, Flush(which)))
    ensures Inv(Step(o, Flush(which)), Extend(h, o, Flush(which)))
  {
    hide Tracks, Contents, Wrote;
    var x := o.On(which);
    OneContents([], END_REQUEST);
    if x.w.closed {
      FinishedMoves(o, h, which);
      KeepsOpen(o, h, which, x, [], []);
    } else {
      EmptyTracks(x, h.log, h.Put(which));
      OneContents(EmptyLog(x), END_REQUEST);
      OneContents(EmptyLog(x), if which == Out then STDERR else STDOUT);
      PutNothingElse(h, which);
      KeepsOpen(o, h, which, Spec.Empty(x), EmptyLog(x), []);
    }
  }

  /** The records of a closing stream: none of the other stream, END_REQUEST from the last. */
  lemma CloseOthers(x: Spec.Writing, typ: byte)
    requires x.Valid() && !x.w.finished && typ != x.w.typ
    ensures Contents(CloseLog(x), typ) ==
            if typ == END_REQUEST && x.shared.nWriters == 1 then [MakeEndRequestBody(x.shared.appStatus, REQUEST_COMPLETE)]
            else []
    ensures x.shared.nWriters == 1 ==>
              var log := CloseLog(x);
              log != [] && log[|log| - 1] == EndRequest(x.shared.id, x.shared.appStatus, REQUEST_COMPLETE)
  {
    var eof: seq<Record> := if Spec.NeedsEof(x) then [Padded(x.w.typ, x.shared.id, [])] else [];
    var end: seq<Record> :=
      if x.shared.nWriters == 1 then [EndRequest(x.shared.id, x.shared.appStatus, REQUEST_COMPLETE)] else [];
    OneContents(EmptyLog(x), typ);
    OneContents(eof, typ);
    if end != [] {
      ContentsSnoc([], end[0], typ);
      assert [] + [end[0]] == end;
    }
    ContentsAppend(eof, end, typ);
    ContentsAppend(EmptyLog(x), eof + end, typ);
    assert CloseLog(x) == EmptyLog(x) + (eof + end);
  }

  lemma KeepsClose(o: Outputs, h: History, which: Which)
    requires Inv(o, h) && NoError(Step(o, Close(which)))
    ensures Inv(Step(o, Close(which)), Extend(h, o, Close(which)))
  {
    hide Tracks, Contents, Wrote, CloseLog, EndRequest, MakeEndRequestBody;
    var x := o.On(which);
    if x.w.finished {
      FinishedMoves(o, h, which);
      OneContents([], END_REQUEST);
      FinishedLog(x);
      KeepsOpen(o, h, which, x, [], []);
    } else {
      var rs := CloseLog(x);
      CloseWrote(x);
      CloseTracks(x, h.log, h.Put(which));
      CloseOthers(x, END_REQUEST);
      CloseOthers(x, if which == Out then STDERR else STDOUT);
      var other := if which == Out then o.err else o.out;
      OtherTracks(other, h.log, rs, h.Put(if which == Out then Err else Out));
      ContentsAppend(h.log, rs, END_REQUEST);
      PutNothingElse(h, which);
      SoundAppend(h.log, rs, o.shared.id);
    }
  }

  lemma FinishedLog(x: Spec.Writing)
    requires x.Valid() && x.w.finished
    ensures CloseLog(x) == []
  {
  }

  lemma StepKeeps(o: Outputs, h: History, op: Op)
    requires Inv(o, h) && NoError(Step(o, op))
    ensures Inv(Step(o, op), Extend(h, o, op))
  {
    match op
    case Put(which, bytes) => KeepsPut(o, h, which, bytes);
    case Flush(which) => KeepsFlush(o, h, which);
    case Close(which) => KeepsClose(o, h, which);
    case SetExit(status) =>
      assert Tracks(o.out, h.log, h.out) && Tracks(o.err, h.log, h.err);
  }

  /** What one call writes. */
  lemma StepWrites(o: Outputs, h: History, op: Op)
    requires Inv(o, h) && NoError(Step(o, op))
    ensures var p := Step(o, op);
            p.shared.link.out == o.shared.link.out + Bytes(StepLog(o, op)) && p.shared.id == o.shared.id
  {
    hide Tracks, Contents, Bytes;
    match op
    case Put(which, bytes) =>
      var x := o.On(which);
      if x.w.finished {
        PutFinished(x, bytes);
        WroteNothing(x);
      } else {
        PutAllTracks(x, h.log, h.Put(which), bytes);
      }
    case Flush(which) =>
      if o.On(which).w.closed {
        WroteNothing(o.On(which));
      } else {
        EmptyTracks(o.On(which), h.log, h.Put(which));
      }
    case Close(which) =>
      if o.On(which).w.finished {
        WroteNothing(o.On(which));
      } else {
        CloseWrote(o.On(which));
      }
    case SetExit(_) =>
      WroteNothing(o.On(Out));
  }

  /** An error is recorded exactly when a write fails. */
  lemma StepCounts(o: Outputs, op: Op)
    requires o.Valid()
    ensures Step(o, op).shared.link.failed >= o.shared.link.failed
    ensures !NoError(o) ==> !NoError(Step(o, op))
    ensures NoError(o) ==> (NoError(Step(o, op)) <==> Step(o, op).shared.link.failed == o.shared.link.failed)
  {
    hide Spec.PutAll, Spec.Flush, Spec.Close;
    match op
    case Put(which, bytes) => Spec.PutAllCounts(o.On(which), bytes);
    case Flush(which) => Spec.FlushCounts(o.On(which));
    case Close(which) => Spec.CloseCounts(o.On(which));
    case SetExit(_) =>
  }

  lemma {:induction false} ErrorsStay(o: Outputs, ops: seq<Op>)
    requires o.Valid() && !NoError(o)
    ensures !NoError(Run(o, ops))
    decreases |ops|
  {
    if ops != [] {
      StepCounts(o, ops[0]);
      ErrorsStay(Step(o, ops[0]), ops[1..]);
    }
  }

  /** A run meets no error exactly if none of its writes fails. */
  lemma {:induction false} NoErrorIff(o: Outputs, ops: seq<Op>)
    requires o.Valid()
    ensures Run(o, ops).shared.link.failed >= o.shared.link.failed
    ensures NoError(o) ==> (NoError(Run(o, ops)) <==> Run(o, ops).shared.link.failed == o.shared.link.failed)
    decreases |ops|
  {
    hide Step;
    if ops != [] {
      var p := Step(o, ops[0]);
      StepCounts(o, ops[0]);
      NoErrorIff(p, ops[1..]);
      if !NoError(p) {
        ErrorsStay(p, ops[1..]);
      }
    }
  }

  /** Any run that meets no error keeps the invariant, and its wire is the records recalled. */
  lemma {:induction false} RunKeeps(o: Outputs, h: History, ops: seq<Op>, before: seq<byte>)
    requires Inv(o, h) && NoError(Run(o, ops))
    requires o.shared.link.out == before + Bytes(h.log)
    ensures var g := Recall(h, o, ops);
            Inv(Run(o, ops), g) && Run(o, ops).shared.link.out == before + Bytes(g.log)
    decreases |ops|
  {
    hide Tracks, Bytes, Ending, Step, Extend, StepLog;
    if ops != [] {
      var p := Step(o, ops[0]);
      if !NoError(p) {
        ErrorsStay(p, ops[1..]);
        assert false;
      }
      StepKeeps(o, h, ops[0]);
      StepWrites(o, h, ops[0]);
      ExtendLog(h, o, ops[0]);
      OutTwice(before, h.log, StepLog(o, ops[0]));
      RunKeeps(p, Extend(h, o, ops[0]), ops[1..], before);
    }
  }

  lemma ExtendLog(h: History, o: Outputs, op: Op)
    requires o.Valid()
    ensures Extend(h, o, op).log == h.log + StepLog(o, op)
  {
    if op.SetExit? {
      assert h.log + [] == h.log;
    }
  }

  /** The bytes an application puts on one stream before it closes it. */
  function PutOn(ops: seq<Op>, which: Which): seq<byte> {
    if ops == [] || ops[0] == Close(which) then []
    else (if ops[0].Put? && ops[0].which == which then ops[0].bytes else []) + PutOn(ops[1..], which)
  }

  /** The exit status in force when the second of the two streams is closed, if it is. */
  function StatusAtEnd(ops: seq<Op>, status: int, outOpen: bool, errOpen: bool): Option<int> {
    if ops == [] || (!outOpen && !errOpen) then None
    else
      match ops[0]
      case SetExit(s) => StatusAtEnd(ops[1..], s, outOpen, errOpen)
      case Close(which) =>
        if (which == Out && !errOpen) || (which == Err && !outOpen) then Some(status)
        else StatusAtEnd(ops[1..], status, outOpen && which != Out, errOpen && which != Err)
      case _ => StatusAtEnd(ops[1..], status, outOpen, errOpen)
  }

  /** The status in force after some calls: the last one set, whichever streams are open. */
  function StatusAfter(ops: seq<Op>, status: int): int {
    if ops == [] then status
    else StatusAfter(ops[1..], if ops[0].SetExit? then ops[0].status else status)
  }

  /** The last status set by some calls, if any. */
  function LastSet(ops: seq<Op>): Option<int> {
    if ops == [] then None
    else
      var later := LastSet(ops[1..]);
      if later.Some? then later else if ops[0].SetExit? then Some(ops[0].status) else None
  }

  lemma {:induction false} StatusAfterIs(ops: seq<Op>, status: int)
    ensures StatusAfter(ops, status) == if LastSet(ops).Some? then LastSet(ops).value else status
    decreases |ops|
  {
    if ops != [] {
      StatusAfterIs(ops[1..], if ops[0].SetExit? then ops[0].status else status);
    }
  }

  /** Closing both streams after calls that close neither ends the request with the status after them. */
  lemma {:induction false} StatusWhenClosed(ops: seq<Op>, status: int)
    requires forall i :: 0 <= i < |ops| ==> !ops[i].Close?
    ensures StatusAtEnd(ops + FINISH, status, true, true) == Some(StatusAfter(ops, status))
    decreases |ops|
  {
    var all := ops + FINISH;
    if ops == [] {
      assert all == FINISH && all[1..] == [Close(Out)];
    } else {
      assert all[1..] == ops[1..] + FINISH;
      StatusWhenClosed(ops[1..], if ops[0].SetExit? then ops[0].status else status);
    }
  }

  lemma {:induction false} LastSetOfBoth(first: seq<Op>, second: seq<Op>)
    ensures LastSet(first + second) == if LastSet(second).Some? then LastSet(second) else LastSet(first)
    decreases |first|
  {
    if first == [] {
      assert first + second == second;
    } else {
      assert (first + second)[1..] == first[1..] + second;
      LastSetOfBoth(first[1..], second);
    }
  }

  lemma {:induction false} RunOfBoth(o: Outputs, first: seq<Op>, second: seq<Op>)
    requires o.Valid()
    ensures Run(o, first + second) == Run(Run(o, first), second)
    decreases |first|
  {
    hide Step;
    if first == [] {
      assert first + second == second;
    } else {
      assert (first + second)[1..] == first[1..] + second;
      RunOfBoth(Step(o, first[0]), first[1..], second);
    }
  }

  /** FCGX_Finish_r closes err and then out. */
  const FINISH := [Close(Err), Close(Out)]

  lemma FinishCloses(o: Outputs)
    requires o.Valid()
    ensures var err := Spec.Close(o.On(Err));
            var out := Spec.Close(Spec.Writing(o.out, err.shared));
            Run(o, FINISH) == Outputs(out.w, err.w, out.shared)
    ensures Run(o, FINISH).out.finished && Run(o, FINISH).err.finished
  {
    hide Spec.Close;
    var p := Step(o, Close(Err));
    var q := Step(p, Close(Out));
    assert FINISH[1..] == [Close(Out)] && [Close(Out)][1..] == [];
    assert Run(p, [Close(Out)]) == Run(q, []) == q;
  }

  lemma {:induction false} RunStatus(o: Outputs, ops: seq<Op>)
    requires o.Valid()
    ensures Run(o, ops).shared.appStatus == StatusAfter(ops, o.shared.appStatus)
    decreases |ops|
  {
    if ops != [] {
      RunStatus(Step(o, ops[0]), ops[1..]);
    }
  }

  /** Which streams are open, and the exit status, change only as the calls say. */
  lemma StepFlags(o: Outputs, op: Op)
    requires o.Valid()
    ensures var p := Step(o, op);
            && p.out.finished == (o.out.finished || op == Close(Out))
            && p.err.finished == (o.err.finished || op == Close(Err))
            && p.shared.appStatus == (if op.SetExit? then op.status else o.shared.appStatus)
  {
    if op.Put? {
      PutAllFlags(o.On(op.which), op.bytes);
    }
  }

  lemma {:induction false} PutAllFlags(x: Spec.Writing, bs: seq<byte>)
    requires x.Valid()
    ensures var y := Spec.PutAll(x, bs).x;
            y.w.finished == x.w.finished && y.shared.appStatus == x.shared.appStatus
    decreases |bs|
  {
    if bs != [] {
      var p := Spec.PutByte(x, bs[0]);
      if p.ok {
        PutAllFlags(p.x, bs[1..]);
      }
    }
  }

  function Finished(o: Outputs, which: Which): bool {
    if which == Out then o.out.finished else o.err.finished
  }

  lemma ExtendIs(h: History, o: Outputs, op: Op, which: Which)
    requires o.Valid()
    ensures Extend(h, o, op).Put(which) ==
            h.Put(which) + (if op.Put? && op.which == which && !Finished(o, which) then op.bytes else [])
    ensures Extend(h, o, op).ended ==
            if op.Close? && !Finished(o, op.which) && o.shared.nWriters == 1 then Some(o.shared.appStatus) else h.ended
  {
    hide StepLog;
    assert h.Put(which) + [] == h.Put(which);
  }

  /** What a history recalls of the bytes put, said by the list of calls alone. */
  lemma {:induction false} RecallPut(h: History, o: Outputs, ops: seq<Op>, which: Which)
    requires o.Valid()
    ensures Recall(h, o, ops).Put(which) == h.Put(which) + (if Finished(o, which) then [] else PutOn(ops, which))
    decreases |ops|
  {
    assert PutOn([], which) == [];
    hide Step, Extend, StepLog, PutOn;
    if ops != [] {
      var p, k := Step(o, ops[0]), Extend(h, o, ops[0]);
      StepFlags(o, ops[0]);
      ExtendIs(h, o, ops[0], which);
      RecallPut(k, p, ops[1..], which);
      PutOnStep(ops, which, h.Put(which));
    } else {
      assert h.Put(which) + [] == h.Put(which);
    }
  }

  lemma PutOnStep(ops: seq<Op>, which: Which, before: seq<byte>)
    requires ops != []
    ensures var more := if ops[0].Put? && ops[0].which == which then ops[0].bytes else [];
            && before + PutOn(ops, which) ==
               before + more + (if ops[0] == Close(which) then [] else PutOn(ops[1..], which))
            && before + [] == before
  {
    if ops[0] != Close(which) {
      var more := if ops[0].Put? && ops[0].which == which then ops[0].bytes else [];
      assert before + (more + PutOn(ops[1..], which)) == before + more + PutOn(ops[1..], which);
    }
  }

  /** What a history recalls of the end, said by the list of calls alone. */
  lemma {:induction false} RecallEnded(h: History, o: Outputs, ops: seq<Op>)
    requires Inv(o, h) && NoError(Run(o, ops))
    ensures Recall(h, o, ops).ended ==
            if h.ended.Some? then h.ended
            else StatusAtEnd(ops, o.shared.appStatus, !o.out.finished, !o.err.finished)
    decreases |ops|
  {
    hide Tracks, Step, Extend, Contents, Sound;
    if ops != [] {
      var p, k := Step(o, ops[0]), Extend(h, o, ops[0]);
      if !NoError(p) {
        ErrorsStay(p, ops[1..]);
        assert false;
      }
      StepKeeps(o, h, ops[0]);
      StepFlags(o, ops[0]);
      ExtendIs(h, o, ops[0], Out);
      RecallEnded(k, p, ops[1..]);
    }
  }

  /** A request's output streams as FCGX_Accept_r makes them. */
  predicate Fresh(o: Outputs) {
    && o.Valid() && o.shared.nWriters == 2
    && o.out == Spec.Writer(STDOUT, o.out.capacity, [], false, false, false, 0, false)
    && o.err == Spec.Writer(STDERR, o.err.capacity, [], false, false, false, 0, false)
  }

  lemma FreshKeeps(o: Outputs)
    requires Fresh(o)
    ensures Inv(o, History([], [], [], None))
  {
    assert Join([]) + [] == [];
  }

  /**
   * Any run of calls on a request's output streams that closes both and has no write fail, in
   * whatever order and however the bytes are split: no stream reports an error; the wire is a
   * sequence of whole records, each a multiple of 8 bytes long; the STDOUT and STDERR projections are the bytes put;
   * STDOUT ends with its only empty record, STDERR too if it ever had a byte and else it has
   * no record; and one END_REQUEST comes last, with the status then in force.
   */
  lemma CompleteRun(o: Outputs, ops: seq<Op>) returns (log: seq<Record>, status: int)
    requires Fresh(o) && Run(o, ops).shared.link.failed == o.shared.link.failed
    requires Run(o, ops).out.finished && Run(o, ops).err.finished
    ensures NoError(Run(o, ops))
    ensures AllFit(log) && Aligned(log) && Run(o, ops).shared.link.out == o.shared.link.out + Bytes(log)
    ensures Parse(Bytes(log)) == Some(log)
    ensures Project(log, STDOUT, o.shared.id) == PutOn(ops, Out)
    ensures Project(log, STDERR, o.shared.id) == PutOn(ops, Err)
    ensures Ended(Contents(log, STDOUT))
    ensures if PutOn(ops, Err) == [] then Contents(log, STDERR) == [] else Ended(Contents(log, STDERR))
    ensures StatusAtEnd(ops, o.shared.appStatus, true, true) == Some(status)
    ensures Contents(log, END_REQUEST) == [MakeEndRequestBody(status, REQUEST_COMPLETE)]
    ensures log != [] && log[|log| - 1] == EndRequest(o.shared.id, status, REQUEST_COMPLETE)
    ensures Completes(log[|log| - 1], o.shared.id, status)
  {
    hide Contents, Bytes, Run, Recall, PutOn, StatusAtEnd, MakeEndRequestBody, EndRequest, Completes;
    var h := History([], [], [], None);
    FreshKeeps(o);
    NoErrorIff(o, ops);
    BytesOfNone();
    assert o.shared.link.out + [] == o.shared.link.out;
    RunKeeps(o, h, ops, o.shared.link.out);
    RecallPut(h, o, ops, Out);
    RecallPut(h, o, ops, Err);
    RecallEnded(h, o, ops);
    var g := Recall(h, o, ops);
    log, status := g.log, g.ended.value;
    EndRequestCompletes(o.shared.id, status);
    assert [] + PutOn(ops, Out) == PutOn(ops, Out) && [] + PutOn(ops, Err) == PutOn(ops, Err);
    ParseBytes(log);
    SameId(o, ops);
    ProjectIsJoin(log, STDOUT, o.shared.id);
    ProjectIsJoin(log, STDERR, o.shared.id);
  }

  /**
   * After any run that ends with FCGX_FFlush of a stream and has no write fail, the records on the
   * wire hold every byte put on that stream so far.
   */
  lemma FlushedRun(o: Outputs, ops: seq<Op>, which: Which) returns (log: seq<Record>)
    requires Fresh(o) && Run(o, ops + [Flush(which)]).shared.link.failed == o.shared.link.failed
    ensures AllFit(log) && Aligned(log)
    ensures Run(o, ops + [Flush(which)]).shared.link.out == o.shared.link.out + Bytes(log)
    ensures Project(log, if which == Out then STDOUT else STDERR, o.shared.id) == PutOn(ops, which)
  {
    hide Contents, Bytes, Run, Recall, PutOn, Join, Project;
    var all, h := ops + [Flush(which)], History([], [], [], None);
    FreshKeeps(o);
    NoErrorIff(o, all);
    BytesOfNone();
    assert o.shared.link.out + [] == o.shared.link.out;
    RunKeeps(o, h, all, o.shared.link.out);
    RecallPut(h, o, all, which);
    PutOnFlush(ops, which);
    var g := Recall(h, o, all);
    log := g.log;
    assert [] + PutOn(ops, which) == PutOn(ops, which);
    SameId(o, all);
    ProjectIsJoin(log, if which == Out then STDOUT else STDERR, o.shared.id);
    FlushEmpties(o, ops, which);
    var joined := Join(Contents(log, if which == Out then STDOUT else STDERR));
    assert joined + [] == joined;
  }

  lemma FlushEmpties(o: Outputs, ops: seq<Op>, which: Which)
    requires o.Valid() && NoError(Run(o, ops + [Flush(which)]))
    ensures Run(o, ops + [Flush(which)]).On(which).w.held == []
  {
    hide Run;
    RunOfBoth(o, ops, [Flush(which)]);
    var p := Run(o, ops);
    RunOfOne(p, Flush(which));
    hide Spec.Empty;
    assert Step(p, Flush(which)).On(which) == Spec.Flush(p.On(which));
  }

  lemma RunOfOne(o: Outputs, op: Op)
    requires o.Valid()
    ensures Run(o, [op]) == Step(o, op)
  {
    hide Step;
    assert [op][1..] == [];
    assert Run(Step(o, op), []) == Step(o, op);
  }

  lemma {:induction false} PutOnFlush(ops: seq<Op>, which: Which)
    ensures PutOn(ops + [Flush(which)], which) == PutOn(ops, which)
    decreases |ops|
  {
    if ops == [] {
      assert ops + [Flush(which)] == [Flush(which)] && [Flush(which)][1..] == [];
    } else {
      assert (ops + [Flush(which)])[1..] == ops[1..] + [Flush(which)];
      PutOnFlush(ops[1..], which);
    }
  }

  /** Contents that end with an empty one and have no other empty one. */
  predicate Ended(cs: seq<seq<byte>>) {
    cs != [] && cs[|cs| - 1] == [] && NoneEmpty(cs[..|cs| - 1])
  }

  lemma {:induction false} SameId(o: Outputs, ops: seq<Op>)
    requires o.Valid()
    ensures Run(o, ops).shared.id == o.shared.id
    decreases |ops|
  {
    if ops != [] {
      SameId(Step(o, ops[0]), ops[1..]);
    }
  }
}
