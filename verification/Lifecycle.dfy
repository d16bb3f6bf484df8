/** FCGX_Accept_r, FCGX_Finish_r and FCGX_Free: requests over a series of connections. */
module Lifecycle {
  import opened Wire
  import opened Links
  import opened NameValue
  import opened Params
  import opened Requests
  import opened Readers
  import opened Writers
  import RSpec = ReaderSpec
  import WSpec = WriterSpec
  import opened AcceptSpec
  import OC = OutputClients
  import OR = OutputRuns
  import T = Tiling

  /** Descriptors are numbered in the order in which they are accepted. */
  datatype Event = Opened(fd: nat) | Closed(fd: nat)

  /** n connections one after the other: each is closed before the next is opened. */
  function Trace(n: nat, open: bool): seq<Event> {
    if n == 0 then []
    else Trace(n - 1, false) + [Opened(n - 1)] + (if open then [] else [Closed(n - 1)])
  }

  /** Event by event: descriptor i / 2 is opened, then closed, then the next one is opened. */
  lemma {:induction false} TraceAlternates(n: nat, open: bool, i: nat)
    requires i < |Trace(n, open)|
    ensures Trace(n, open)[i] == if i % 2 == 0 then Opened(i / 2) else Closed(i / 2)
    ensures |Trace(n, open)| == 2 * n - (if open && n > 0 then 1 else 0)
  {
    if n > 0 {
      if i < |Trace(n - 1, false)| {
        TraceAlternates(n - 1, false, i);
      } else {
        TraceLength(n - 1);
      }
    }
  }

  lemma {:induction false} TraceLength(n: nat)
    ensures |Trace(n, false)| == 2 * n
  {
    if n > 0 {
      TraceLength(n - 1);
    }
  }

  /** Nothing has been written to connections that are yet to come. */
  predicate Unwritten(links: seq<Link>) {
    forall i :: 0 <= i < |links| ==> links[i].out == [] && links[i].failed == 0 && !links[i].undefined
  }

  /** What FCGX_Accept_r returns when no connection can be had. */
  function AcceptError(errno: nat): (rc: int)
    ensures rc < 0
  {
    if errno > 0 then 0 - errno as int else -9999
  }

  /** What the operating system has in store: connections to come, and what was done to them. */
  class Os {
    var waiting: seq<Link>
    var accepted: nat
    var events: seq<Event>
    ghost var closed: seq<Link>
    const acceptErrno: nat

    constructor (waiting: seq<Link>, acceptErrno: nat)
      requires Unwritten(waiting)
      ensures this.waiting == waiting && accepted == 0 && events == [] && closed == []
    {
      this.waiting, accepted, events, closed, this.acceptErrno := waiting, 0, [], [], acceptErrno;
    }

    /** OS_Accept: the next connection, or -1 when there is none. */
    method Accept() returns (fd: int, conn: Connection?)
      requires Unwritten(waiting)
      modifies this
      ensures closed == old(closed)
      ensures old(waiting) == [] ==>
                fd < 0 && conn == null && waiting == [] && accepted == old(accepted) && events == old(events)
      ensures old(waiting) != [] ==>
                && fd == old(accepted) && conn != null && fresh(conn) && conn.Value() == old(waiting)[0]
                && waiting == old(waiting)[1..] && accepted == old(accepted) + 1
                && events == old(events) + [Opened(fd)]
    {
      if waiting == [] {
        return -1, null;
      }
      var l := waiting[0];
      conn := new Connection(l.input, l.ending, l.room, l.later, l.writeErrno);
      fd := accepted;
      waiting, accepted, events := waiting[1..], accepted + 1, events + [Opened(accepted)];
    }

    /** OS_IpcClose: closing descriptor -1 does nothing. */
    method IpcClose(fd: int)
      requires -1 <= fd
      modifies this`events
      ensures events == old(events) + if fd == -1 then [] else [Closed(fd)]
    {
      if fd != -1 {
        events := events + [Closed(fd)];
      }
    }
  }

  /** FCGX_Request; the fields its streams share are in `data`. */
  class FcgxRequest {
    const os: Os
    const data: Request
    var conn: Connection?
    var ipcFd: int
    var inStream: Reader?
    var outStream: Writer?
    var errStream: Writer?
    var params: ParamVector?
    ghost var Repr: set<object>

    /**
     * The descriptor is the last one accepted or none, and none was closed twice; what was sent
     * on it, and on all that were closed, is whole records.
     */
    ghost predicate Descriptor()
      reads this, os, data, conn
    {
      && (conn != null ==> T.Tidy(conn.Value()))
      && (forall i :: 0 <= i < |os.closed| ==> T.Tidy(os.closed[i]))
      && (ipcFd == -1 || ipcFd == os.accepted - 1) && (ipcFd >= 0 <==> conn != null)
      && os.events == Trace(os.accepted, ipcFd >= 0)
      && 0 <= data.requestId <= MAX_LENGTH && Unwritten(os.waiting)
    }

    /** Everything the request owns. */
    ghost predicate Owned()
      reads this, Repr
    {
      && this in Repr && os in Repr && data in Repr
      && (conn != null ==> conn in Repr)
      && (inStream != null ==> inStream in Repr && inStream.buff in Repr)
      && (outStream != null ==> outStream in Repr && outStream.buff in Repr)
      && (errStream != null ==> errStream in Repr && errStream.buff in Repr)
      && (params != null ==> params in Repr && params.vec in Repr)
    }

    /** No request is being served. */
    ghost predicate Idle()
      reads this
    {
      inStream == null && outStream == null && errStream == null && params == null
    }

    /** A request is being served. */
    ghost predicate Live()
      reads this, Repr
    {
      && Owned() && conn != null
      && inStream != null && outStream != null && errStream != null && params != null
      && inStream.conn == conn && inStream.req == data && inStream.Valid() && !inStream.eorStop
      && data.isBeginProcessed && RolePair(data.role).Some?
      && outStream.conn == conn && outStream.req == data
      && errStream.conn == conn && errStream.req == data
      && OC.Pair(outStream, errStream)
      && inStream.buff != outStream.buff && inStream.buff != errStream.buff
      && params.Valid() && T.AllHonest(OC.Value(outStream, errStream))
      && data.nWriters == (if outStream.wasFCloseCalled then 0 else 1) + (if errStream.wasFCloseCalled then 0 else 1)
    }

    ghost predicate Valid()
      reads this, Repr
    {
      Owned() && Descriptor() && (Idle() || Live())
    }

    ghost function Req(): RSpec.Req
      reads data
    {
      ReqOf(data)
    }

    /** FCGX_InitRequest */
    constructor (os: Os)
      requires os.accepted == 0 && os.events == [] && os.closed == [] && Unwritten(os.waiting)
      ensures Valid() && Idle() && this.os == os && ipcFd == -1 && data.appStatus == 0
      ensures fresh(Repr - {os}) && Repr >= {this, os}
    {
      this.os := os;
      data := new Request();
      conn, ipcFd, inStream, outStream, errStream, params := null, -1, null, null, null, null;
      new;
      Repr := {this, os, data};
    }

    /** FCGX_Free */
    method Free(close: bool)
      requires Owned() && Descriptor()
      modifies this, os
      ensures Valid() && Idle() && Repr == old(Repr)
      ensures os.waiting == old(os.waiting) && os.accepted == old(os.accepted)
      ensures if close then ipcFd == -1 else ipcFd == old(ipcFd) && conn == old(conn)
      ensures os.closed == old(os.closed) + if close && old(conn) != null then [old(conn.Value())] else []
    {
      inStream, outStream, errStream, params := null, null, null, null;
      if close {
        if conn != null {
          os.closed := os.closed + [conn.Value()];
        }
        os.IpcClose(ipcFd);
        ipcFd := -1;
        conn := null;
      }
    }

    /** The connection FCGX_Finish_r keeps open, as it then is, and those to come. */
    ghost function Left(): seq<Link>
      requires Valid()
      reads this, Repr
    {
      (if !data.keepConnection || conn == null then []
       else if inStream == null then [conn.Value()]
       else
         var err := WSpec.Close(errStream.Abs());
         var out := WSpec.Close(WSpec.Writing(outStream.Abs().w, err.shared));
         if err.w.errno == 0 && out.w.errno == 0 && inStream.FCGI_errno == 0 then [out.shared.link] else [])
      + os.waiting
    }

    /**
     * FCGX_Finish_r. It closes err, then out; the connection stays open exactly if keep-conn was
     * set and no stream reports an error. What it leaves behind, a second call leaves as it is.
     */
    method Finish()
      requires Valid()
      modifies Repr
      ensures Valid() && Idle() && Repr == old(Repr)
      ensures os.waiting == old(os.waiting) && os.accepted == old(os.accepted)
      ensures Links() == old(Left()) && Req() == old(Req()) && data.appStatus == old(data.appStatus)
      ensures ipcFd >= 0 ==> data.keepConnection && ipcFd == old(ipcFd) && conn == old(conn)
      ensures old(inStream) != null ==>
                var err := WSpec.Close(old(errStream.Abs()));
                var out := WSpec.Close(WSpec.Writing(old(outStream.Abs()).w, err.shared));
                && old(conn).Value() == out.shared.link
                && (ipcFd >= 0 <==> old(data.keepConnection) && err.w.errno == 0 && out.w.errno == 0
                                    && old(inStream.FCGI_errno) == 0)
      ensures old(Idle()) && (old(ipcFd) >= 0 ==> old(data.keepConnection)) ==>
                ipcFd == old(ipcFd) && conn == old(conn) && os.events == old(os.events)
    {
      hide WSpec.Close, Trace, Unwritten, RolePair, T.Tidy, OC.Value;
      var close := !data.keepConnection;
      if inStream != null {
        var rc := CloseStreams();
        close := close || rc != 0 || inStream.FCGI_errno != 0;
      }
      Free(close);
    }

    /** The two FCGX_FClose calls of FCGX_Finish_r. */
    method CloseStreams() returns (rc: int)
      requires Valid() && Live()
      modifies errStream, errStream.buff, outStream, outStream.buff, conn, data`nWriters
      ensures Owned() && Descriptor()
      ensures var err := WSpec.Close(old(errStream.Abs()));
              var out := WSpec.Close(WSpec.Writing(old(outStream.Abs()).w, err.shared));
              && conn.Value() == out.shared.link && inStream.FCGI_errno == old(inStream.FCGI_errno)
              && (rc == 0 <==> err.w.errno == 0 && out.w.errno == 0)
    {
      hide WSpec.Close, Trace, Unwritten, RolePair, T.Tidy, T.Onward, Reader.Valid, ParamVector.Valid;
      ghost var start := conn.Value();
      T.CloseGoes(errStream.Abs());
      rc := errStream.FClose();
      ghost var between := conn.Value();
      T.OnwardFails(start, between);
      T.CloseGoes(outStream.Abs());
      var more := outStream.FClose();
      T.OnwardTwice(start, between, conn.Value());
      T.TidyOn(start, conn.Value());
      rc := if rc != 0 then rc else more;
    }

    /** One turn of the loop in FCGX_Accept_r, on the open connection c. */
    method TryConnection(c: Connection) returns (ok: bool)
      requires Owned() && Descriptor() && Idle() && conn == c
      modifies this, os, data, c
      ensures os.waiting == old(os.waiting) && os.accepted == old(os.accepted)
      ensures data.appStatus == old(data.appStatus)
      ensures Owned() && Descriptor() && fresh(Repr - old(Repr))
      ensures var o := Offer(old(c.Value()), old(Req()));
              && ok == o.Accepted?
              && (!ok ==> Idle() && ipcFd == -1 && Req() == o.state.req)
              && (ok ==> conn == c && Ready() && inStream.Abs() == o.state
                         && params.Contents() == Environment(data.role, o.pairs))
    {
      hide Offer, Environment, RolePair, Trace, Unwritten, Reader.Valid, ParamVector.Valid, Reader.Abs;
      hide T.Tidy, T.Onward;
      AcceptedState(c.Value(), Req());
      ghost var start := c.Value();
      var r, p := ReadOpening(data, c);
      T.TidyOn(start, c.Value());
      if p == null {
        Free(true);
        return false;
      }
      Attach(r, p);
      return true;
    }

    /** The request takes over the reader and the environment of an accepted connection. */
    method Attach(r: Reader, p: ParamVector)
      requires Owned() && Descriptor() && Idle() && conn != null
      requires r.conn == conn && r.req == data && r.Valid() && !r.Abs().eor
      requires data.isBeginProcessed && RolePair(data.role).Some? && p.Valid()
      modifies this`inStream, this`params, this`Repr
      ensures Owned() && Descriptor() && Ready() && inStream == r && params == p
      ensures Repr == old(Repr) + {r, r.buff, p, p.vec}
    {
      hide RolePair, Trace, Unwritten, Reader.Valid, ParamVector.Valid, Reader.Abs, T.Tidy;
      r.Flags();
      inStream, params := r, p;
      Repr := Repr + {r, r.buff, p, p.vec};
    }

    /** The connections a request may come from: the open one, then those to come. */
    ghost function Links(): seq<Link>
      reads this, conn, os
    {
      (if conn == null then [] else [conn.Value()]) + os.waiting
    }

    /** The loop of FCGX_Accept_r and what follows it. */
    method AcceptNext() returns (rc: int)
      requires Valid() && Idle()
      modifies Repr
      ensures Valid() && fresh(Repr - old(Repr)) && data.appStatus == old(data.appStatus)
      ensures var o := FirstAcceptable(old(Links()), old(Req()));
              match o
              case Exhausted(last) =>
                && rc == AcceptError(os.acceptErrno)
                && Idle() && ipcFd == -1 && os.waiting == [] && Req() == last
              case Found(state, pairs, tried) =>
                && rc == 0 && Live() && inStream.Abs() == state
                && params.Contents() == Environment(data.role, pairs)
                && OR.Fresh(OC.Value(outStream, errStream)) && ReqOf(data) == state.req
                && tried < |old(Links())| && os.waiting == old(Links())[tried + 1..]
                && 0 <= ipcFd && data.keepConnection == state.req.keep
    {
      hide FirstAcceptable, Environment, Offer;
      rc := FindRequest();
      if rc == 0 {
        StartOutput(conn, inStream, params);
      }
    }

    /** Accepts a connection if none is open; nonzero when that fails. */
    method Connect() returns (rc: int)
      requires Valid() && Idle()
      modifies this, os
      ensures Valid() && Idle() && fresh(Repr - old(Repr))
      ensures rc == if old(Links()) == [] then AcceptError(os.acceptErrno) else 0
      ensures rc != 0 ==> ipcFd == -1 && os.waiting == []
      ensures rc == 0 ==> conn != null && (conn == old(conn) || fresh(conn)) && Links() == old(Links())
    {
      if ipcFd < 0 {
        var fd, c := os.Accept();
        if fd < 0 {
          return AcceptError(os.acceptErrno);
        }
        T.TidyAtFirst(c.Value());
        ipcFd, conn := fd, c;
        Repr := Repr + {c};
        assert Links() == [c.Value()] + os.waiting;
      }
      return 0;
    }

    /** One turn of the loop of FCGX_Accept_r. */
    method TryNext() returns (rc: int, ok: bool)
      requires Valid() && Idle()
      modifies Repr
      ensures Owned() && Descriptor() && fresh(Repr - old(Repr)) && data.appStatus == old(data.appStatus)
      ensures old(Links()) == [] ==>
                rc == AcceptError(os.acceptErrno) && Idle() && ipcFd == -1 && os.waiting == [] && Req() == old(Req())
      ensures old(Links()) != [] ==>
                var o := Offer(old(Links())[0], old(Req()));
                && rc == 0 && ok == o.Accepted? && os.waiting == old(Links())[1..]
                && (!ok ==> Idle() && ipcFd == -1 && Req() == o.state.req && Links() == old(Links())[1..])
                && (ok ==> Ready() && inStream.Abs() == o.state && params.Contents() == Environment(data.role, o.pairs))
    {
      hide Environment, Offer, Reader.Abs, Reader.Raw, ParamVector.Contents, Trace, Unwritten, Ready, Live;
      ghost var links := Links();
      rc := Connect();
      if rc != 0 {
        return rc, false;
      }
      assert conn.Value() == links[0] && os.waiting == links[1..];
      ok := TryConnection(conn);
    }

    /** The loop of FCGX_Accept_r. */
    method FindRequest() returns (rc: int)
      requires Valid() && Idle()
      modifies Repr
      ensures Owned() && Descriptor() && fresh(Repr - old(Repr)) && data.appStatus == old(data.appStatus)
      ensures var o := FirstAcceptable(old(Links()), old(Req()));
              match o
              case Exhausted(last) =>
                rc == AcceptError(os.acceptErrno) && Idle() && ipcFd == -1 && os.waiting == [] && Req() == last
              case Found(state, pairs, tried) =>
                && rc == 0 && Ready() && inStream.Abs() == state
                && params.Contents() == Environment(data.role, pairs)
                && tried < |old(Links())| && os.waiting == old(Links())[tried + 1..]
    {
      hide FirstAcceptable, Environment, Offer, Later, Reader.Abs, ParamVector.Contents, Ready, Owned, Descriptor;
      ghost var links, req, tried := Links(), Req(), 0;
      LaterNow(links, req);
      while true
        invariant Valid() && Idle() && fresh(Repr - old(Repr)) && data.appStatus == old(data.appStatus)
        invariant tried <= |links| && Links() == links[tried..]
        invariant FirstAcceptable(links, req) == Later(FirstAcceptable(Links(), Req()), tried)
        decreases |links| - tried
      {
        ghost var now, before := Links(), Req();
        var ok;
        rc, ok := TryNext();
        if rc != 0 {
          assert now == [];
          NoneLeft(before);
          LaterExhausted(before, tried);
          return;
        }
        assert now[1..] == links[tried + 1..];
        FirstOffer(now, before);
        if ok {
          ghost var o := Offer(now[0], before);
          LaterFound(o.state, o.pairs, tried);
          return 0;
        }
        LaterTwice(FirstAcceptable(Links(), Req()), tried);
        tried := tried + 1;
      }
    }

    /** An accepted request whose output streams are still to be made. */
    ghost predicate Ready()
      reads this, Repr
    {
      && Owned() && conn != null && inStream != null && params != null && outStream == null && errStream == null
      && inStream.conn == conn && inStream.req == data && inStream.Valid() && !inStream.eorStop
      && data.isBeginProcessed && RolePair(data.role).Some? && params.Valid()
    }

    /**
     * FCGX_Accept_r, once the library is initialised: the first acceptable request among what
     * FCGX_Finish_r leaves open and the connections to come, or an error when there is none.
     * The exit status of the request before stays in force.
     */
    method Accept() returns (rc: int)
      requires Valid()
      modifies Repr
      ensures Valid() && fresh(Repr - old(Repr)) && data.appStatus == old(data.appStatus)
      ensures rc == 0 ==> Live() && data.nWriters == 2 && 1 <= data.role <= 3 && ipcFd >= 0
      ensures rc != 0 ==> rc < 0 && Idle() && ipcFd == -1
      ensures var o := FirstAcceptable(old(Left()), old(Req()));
              match o
              case Exhausted(_) =>
                rc == (if os.acceptErrno > 0 then 0 - os.acceptErrno as int else -9999) && os.waiting == []
              case Found(state, pairs, tried) =>
                && rc == 0 && Live() && inStream.Abs() == state && ReqOf(data) == state.req
                && params.Contents() == Environment(data.role, pairs)
                && OR.Fresh(OC.Value(outStream, errStream))
                && tried < |old(Left())| && os.waiting == old(Left())[tried + 1..]
    {
      hide FirstAcceptable, Environment, T.Tidy, Trace, Unwritten, Reader.Abs;
      Finish();
      rc := AcceptNext();
    }

    /** The part of FCGX_Accept_r after its loop. */
    method StartOutput(c: Connection, r: Reader, p: ParamVector)
      requires Ready() && Descriptor() && conn == c && inStream == r && params == p
      modifies this, data`nWriters
      ensures Valid() && Live() && fresh(Repr - old(Repr))
      ensures conn == c && inStream == r && params == p && ipcFd == old(ipcFd)
      ensures r.Abs() == old(r.Abs()) && p.Contents() == old(p.Contents())
      ensures OR.Fresh(OC.Value(outStream, errStream))
    {
      hide RolePair, Reader.Raw, Reader.Abs, ParamVector.Contents, OC.Value, OR.Fresh, Trace, Unwritten;
      hide Reader.Valid, ParamVector.Valid, OC.Pair, T.AllHonest, T.Tidy;
      CountWriters(r);
      var out, err := MakeWriters(data, c);
      AttachWriters(out, err);
    }

    method AttachWriters(out: Writer, err: Writer)
      requires Ready() && Descriptor() && OC.Pair(out, err) && OR.Fresh(OC.Value(out, err))
      requires out.conn == conn && out.req == data && err.conn == conn && err.req == data
      requires inStream.buff != out.buff && inStream.buff != err.buff
      requires data.nWriters == 2 && !out.wasFCloseCalled && !err.wasFCloseCalled
      modifies this`outStream, this`errStream, this`Repr
      ensures Valid() && Live() && outStream == out && errStream == err
      ensures Repr == old(Repr) + {out, out.buff, err, err.buff}
    {
      hide RolePair, Reader.Raw, Reader.Abs, ParamVector.Contents, OC.Value, OR.Fresh, Trace, Unwritten;
      hide Reader.Valid, ParamVector.Valid, OC.Pair, T.AllHonest, T.Tidy;
      FreshHonest(OC.Value(out, err));
      outStream, errStream := out, err;
      Repr := Repr + {out, out.buff, err, err.buff};
    }
  }

  lemma FreshHonest(o: OR.Outputs)
    requires OR.Fresh(o)
    ensures T.AllHonest(o)
  {
  }

  /** The two writers of a request. */
  method MakeWriters(data: Request, c: Connection) returns (out: Writer, err: Writer)
    requires 0 <= data.requestId <= MAX_LENGTH && data.nWriters == 2
    ensures fresh(out) && fresh(out.buff) && fresh(err) && fresh(err.buff)
    ensures out.conn == c && out.req == data && err.conn == c && err.req == data
    ensures OC.Pair(out, err) && OR.Fresh(OC.Value(out, err))
    ensures !out.wasFCloseCalled && !err.wasFCloseCalled
    ensures (out.buff.Length == 8192 || out.buff.Length == 8184) && (err.buff.Length == 512 || err.buff.Length == 504)
  {
    var address: nat := *;
    out := new Writer(data, c, 8192, address, STDOUT);
    var another: nat := *;
    err := new Writer(data, c, 512, another, STDERR);
  }

  ghost function ReqOf(data: Request): RSpec.Req
    reads data
  {
    RSpec.Req(data.requestId, data.role, data.keepConnection, data.isBeginProcessed)
  }

  method CountWriters(r: Reader)
    requires r.Valid()
    modifies r.req`nWriters
    ensures r.Valid() && r.Abs() == old(r.Abs()) && r.req.nWriters == 2
  {
    r.req.nWriters := 2;
  }

  lemma RequestOfReader(r: Reader)
    requires r.Valid()
    ensures r.Abs().req == ReqOf(r.req)
  {
  }

  /** A new reader that has looked for BEGIN_REQUEST. */
  method OpenReader(data: Request, c: Connection) returns (r: Reader)
    modifies data, c
    ensures data.appStatus == old(data.appStatus) && data.nWriters == old(data.nWriters)
    ensures fresh(r) && fresh(r.buff) && r.conn == c && r.req == data && r.Valid()
    ensures r.Abs() == RSpec.Fill(NewReader(old(c.Value()), old(ReqOf(data))), [])
    ensures r.buff.Length == 8192 || r.buff.Length == 8184
  {
    hide RSpec.Fill;
    data.isBeginProcessed := false;
    var address: nat := *;
    r := new Reader(data, c, 8192, address, 0);
    assert r.Abs() == NewReader(old(c.Value()), old(ReqOf(data)));
    r.FillBuffProc();
  }

  /** Reads the PARAMS stream behind the entry for the role; null when that fails. */
  method ReadEnvironment(r: Reader, role: Pair) returns (params: ParamVector?)
    requires r.Valid() && !r.eorStop && r.req.isBeginProcessed
    modifies r, r.buff, r.conn, r.req`requestId, r.req`role, r.req`keepConnection, r.req`isBeginProcessed
    ensures r.Valid()
    ensures var read := RSpec.ReadParams(RSpec.SetReaderType(old(r.Abs()), PARAMS));
            if read.rc < 0 then params == null && r.Abs() == read.state
            else params != null && fresh(params) && params.Valid() && fresh(params.vec)
                 && params.Contents() == [role.Entry()] + Entries(read.pairs)
                 && r.Abs() == RSpec.SetReaderType(read.state, STDIN)
  {
    hide RSpec.ReadParams, Reader.Abs, Reader.Raw, Entries, Pair.Entry;
    RequestOfReader(r);
    r.SetReaderType(PARAMS);
    params := new ParamVector(30);
    params.PutParam(role.Entry());
    assert params.Contents() == [role.Entry()];
    RequestOfReader(r);
    var rc := r.ReadParams(params);
    if rc < 0 {
      return null;
    }
    r.SetReaderType(STDIN);
  }

  /** The body of that turn: the reader, and the environment if the request is acceptable. */
  method ReadOpening(data: Request, c: Connection) returns (r: Reader, params: ParamVector?)
    requires 0 <= data.requestId <= MAX_LENGTH
    modifies data, c
    ensures data.appStatus == old(data.appStatus) && data.nWriters == old(data.nWriters)
    ensures fresh(r) && fresh(r.buff) && r.conn == c && r.req == data && r.Valid()
    ensures var o := Offer(old(c.Value()), old(ReqOf(data)));
            && ReqOf(data) == o.state.req && r.Abs() == o.state && T.Onward(old(c.Value()), c.Value())
            && (params != null <==> o.Accepted?)
            && (params != null ==> fresh(params) && params.Valid() && fresh(params.vec)
                                   && RolePair(o.state.req.role).Some?
                                   && params.Contents() == Environment(o.state.req.role, o.pairs))
  {
    hide RSpec.Fill, RSpec.ReadParams, RolePair, Reader.Abs, Reader.Raw, Entries, NewReader, RSpec.SetReaderType;
    hide T.Onward, Offer;
    ghost var start, req := c.Value(), ReqOf(data);
    AcceptedState(start, req);
    r, params := OpenAndRead(data, c);
    OfferGoes(start, req);
    LinkOfReader(r);
    T.OnwardNowhere(r.Abs().link, c.Value());
    T.OnwardTwice(start, r.Abs().link, c.Value());
  }

  lemma LinkOfReader(r: Reader)
    requires r.Valid()
    ensures r.Abs().link == r.conn.Value().(input := r.Abs().link.input)
  {
  }

  method OpenAndRead(data: Request, c: Connection) returns (r: Reader, params: ParamVector?)
    requires 0 <= data.requestId <= MAX_LENGTH
    modifies data, c
    ensures data.appStatus == old(data.appStatus) && data.nWriters == old(data.nWriters)
    ensures fresh(r) && fresh(r.buff) && r.conn == c && r.req == data && r.Valid()
    ensures var o := Offer(old(c.Value()), old(ReqOf(data)));
            && ReqOf(data) == o.state.req && r.Abs() == o.state
            && (params != null <==> o.Accepted?)
            && (params != null ==> fresh(params) && params.Valid() && fresh(params.vec)
                                   && RolePair(o.state.req.role).Some?
                                   && params.Contents() == Environment(o.state.req.role, o.pairs))
  {
    hide RSpec.Fill, RSpec.ReadParams, RolePair, Reader.Abs, Reader.Raw, Entries, NewReader, RSpec.SetReaderType;
    AcceptedState(c.Value(), ReqOf(data));
    r := OpenReader(data, c);
    RequestOfReader(r);
    r.Flags();
    if !data.isBeginProcessed {
      return r, null;
    }
    var role := RolePair(data.role);
    if role.None? {
      return r, null;
    }
    params := ReadEnvironment(r, role.value);
    RequestOfReader(r);
  }

  lemma LaterNow(links: seq<Link>, req: RSpec.Req)
    ensures links[0..] == links && FirstAcceptable(links, req) == Later(FirstAcceptable(links, req), 0)
  {
    hide FirstAcceptable;
  }

  lemma LaterExhausted(req: RSpec.Req, k: nat)
    ensures Later(Exhausted(req), k) == Exhausted(req)
  {
  }

  lemma LaterFound(state: RSpec.State, pairs: seq<Pair>, k: nat)
    ensures Later(Found(state, pairs, 0), k) == Found(state, pairs, k)
  {
  }

  lemma LaterTwice(o: Outcome, k: nat)
    ensures Later(Later(o, 1), k) == Later(o, k + 1)
  {
  }

  lemma NoneLeft(req: RSpec.Req)
    ensures FirstAcceptable([], req) == Exhausted(req)
  {
  }

  lemma FirstOffer(links: seq<Link>, req: RSpec.Req)
    requires links != []
    ensures var o := Offer(links[0], req);
            FirstAcceptable(links, req) ==
            if o.Accepted? then Found(o.state, o.pairs, 0)
            else Later(FirstAcceptable(links[1..], o.state.req), 1)
  {
    hide Offer;
  }
}
