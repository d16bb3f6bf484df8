/** The calls of an application on the two writers of a request, as they run. */
module OutputClients {
  import opened Writers
  import Spec = WriterSpec
  import opened OutputRuns

  /** Two writers over one connection and one request. */
  ghost predicate Pair(out: Writer, err: Writer)
    reads out, err, out.req, err.req
  {
    && out != err && out.buff != err.buff && out.conn == err.conn && out.req == err.req
    && out.Valid() && err.Valid()
  }

  ghost function Value(out: Writer, err: Writer): (o: Outputs)
    requires Pair(out, err)
    reads out, out.buff, err, err.buff, out.req, out.conn
    ensures o.Valid()
  {
    Outputs(out.Abs().w, err.Abs().w, out.Shared())
  }

  method PerformOn(w: Writer, op: Op)
    requires w.Valid() && !op.SetExit?
    modifies w, w.buff, w.conn, w.req`nWriters
    ensures w.Valid()
    ensures w.Abs() == match op
                       case Put(_, bytes) => Spec.PutAll(old(w.Abs()), bytes).x
                       case Flush(_) => Spec.Flush(old(w.Abs()))
                       case Close(_) => Spec.Close(old(w.Abs()))
                       case SetExit(_) => old(w.Abs())
  {
    match op {
      case Put(_, bytes) => var _ := w.PutStr(bytes);
      case Flush(_) => var _ := w.FFlush();
      case Close(_) => var _ := w.FClose();
      case SetExit(_) =>
    }
  }

  method PerformOnOne(out: Writer, err: Writer, op: Op)
    requires Pair(out, err) && !op.SetExit?
    modifies out, out.buff, err, err.buff, out.conn, out.req`nWriters
    ensures Pair(out, err) && Value(out, err) == Step(old(Value(out, err)), op)
  {
    hide Spec.PutAll, Spec.Flush, Spec.Close;
    if op.which == Out {
      PerformOn(out, op);
    } else {
      PerformOn(err, op);
    }
  }

  method Perform(out: Writer, err: Writer, op: Op)
    requires Pair(out, err)
    modifies out, out.buff, err, err.buff, out.conn, out.req`nWriters, out.req`appStatus
    ensures Pair(out, err) && Value(out, err) == Step(old(Value(out, err)), op)
  {
    match op {
      case SetExit(status) => out.SetExitStatus(status);
      case _ => PerformOnOne(out, err, op);
    }
  }

  /** Any run of calls leaves the writers, the request and the connection as Run says. */
  method RunOutputs(out: Writer, err: Writer, ops: seq<Op>)
    requires Pair(out, err)
    modifies out, out.buff, err, err.buff, out.conn, out.req`nWriters, out.req`appStatus
    ensures Pair(out, err) && Value(out, err) == Run(old(Value(out, err)), ops)
  {
    hide Step, Value;
    ghost var o := Value(out, err);
    assert ops[0..] == ops && ops[|ops|..] == [];
    for i := 0 to |ops|
      invariant Pair(out, err) && Run(o, ops) == Run(Value(out, err), ops[i..])
    {
      assert ops[i..][0] == ops[i] && ops[i..][1..] == ops[i + 1..];
      Perform(out, err, ops[i]);
    }
  }
}
