/** FCGX_Stream and FCGX_Stream_Data as a writer: header space, content and padding in one buffer. */
module Writers {
  import opened Wire
  import opened Links
  import opened Requests
  import opened Buffers
  import Spec = WriterSpec

  class Writer {
    const buff: array<byte>
    const conn: Connection
    const req: Request
    const typ: byte
    var wrNext: nat
    var stop: nat
    var isClosed: bool
    var wasFCloseCalled: bool
    var FCGI_errno: int
    var isAnythingWritten: bool
    var rawWrite: bool

    ghost predicate Shape()
      reads this, req
    {
      && buff.Length % 8 == 0 && 24 <= buff.Length <= MAX_LENGTH + 1
      && 0 <= req.requestId <= MAX_LENGTH
      && wrNext <= stop <= buff.Length
      && (wasFCloseCalled ==> rawWrite && isClosed && wrNext == stop)
      && (!wasFCloseCalled ==> stop == buff.Length)
      && (isClosed && !wasFCloseCalled ==> FCGI_errno != 0)
    }

    /** Between public calls, and during FCGX_FClose while the buffer is raw. */
    ghost predicate Sound()
      reads this, req
    {
      Shape() && (!rawWrite ==> HEADER_LEN <= wrNext)
    }

    /** Between public calls. */
    ghost predicate Valid()
      reads this, req
    {
      Sound() && rawWrite == wasFCloseCalled
    }

    ghost predicate Raw()
      reads this
    {
      rawWrite && !wasFCloseCalled
    }

    ghost function Shared(): Spec.Shared
      reads req, conn
    {
      Spec.Shared(conn.Value(), req.requestId, req.appStatus, req.nWriters)
    }

    ghost function Held(): seq<byte>
      requires Sound()
      reads this, buff, req
    {
      if wasFCloseCalled then [] else if rawWrite then buff[..wrNext] else buff[HEADER_LEN..wrNext]
    }

    ghost function Abs(): (x: Spec.Writing)
      requires Sound()
      reads this, buff, req, conn
      ensures x.Sound() && (Valid() ==> x.Valid())
    {
      Spec.Writing(
        Spec.Writer(typ, if Raw() then buff.Length else buff.Length - HEADER_LEN, Held(),
                    !wasFCloseCalled && isAnythingWritten, isClosed, wasFCloseCalled, FCGI_errno, Raw()),
        Shared())
    }

    /** NewWriter: an empty buffer for the stream, over a connection that is open. */
    constructor (req: Request, conn: Connection, requested: int, address: nat, typ: byte)
      requires 0 <= req.requestId <= MAX_LENGTH
      ensures Valid() && fresh(buff) && this.req == req && this.conn == conn
      ensures buff.Length == NewBuffer(requested, address).length
      ensures Abs() == Spec.Writing(Spec.Writer(typ, buff.Length - HEADER_LEN, [], false, false, false, 0, false), Shared())
    {
      NewBufferLaws(requested, address);
      var b := NewBuffer(requested, address);
      this.req, this.conn, this.typ, buff := req, conn, typ, new byte[b.length];
      wrNext, stop := HEADER_LEN, b.length;
      isClosed, wasFCloseCalled, FCGI_errno, isAnythingWritten, rawWrite := false, false, 0, false, false;
    }

    method SetError(e: int)
      modifies this`FCGI_errno, this`isClosed
      ensures isClosed && FCGI_errno == Spec.FirstError(old(FCGI_errno), e)
    {
      if FCGI_errno == 0 {
        FCGI_errno := e;
      }
      isClosed := true;
    }

    /** The first part of EmptyBuffProc: header and padding around what the buffer holds. */
    method Encapsulate()
      requires Valid() && !rawWrite
      modifies this`wrNext, buff
      ensures Shape()
      ensures buff[..wrNext] == Spec.Body(old(Abs()))
      ensures wrNext == 0 <==> old(Abs()).w.held == []
      ensures wrNext != 0 ==> HEADER_LEN <= wrNext && buff[HEADER_LEN..wrNext] == Spec.Kept(old(Abs()))
    {
      var cLen := wrNext - HEADER_LEN;
      if cLen > 0 {
        ghost var content := Held();
        var eLen := AlignInt8(cLen);
        // The padding cannot pass the end of a buffer whose length is a multiple of 8.
        assert HEADER_LEN + eLen <= stop;
        // The assertions of MakeHeader.
        assert cLen <= MAX_LENGTH && 0 <= eLen - cLen < 8;
        Pad(eLen - cLen);
        PlaceHeader(MakeHeader(typ, req.requestId, cLen, eLen - cLen));
        assert buff[..wrNext] == Padded(typ, req.requestId, content).Bytes();
      } else {
        wrNext := 0;
        assert buff[..wrNext] == [];
      }
    }

    /** The memset of EmptyBuffProc. */
    method Pad(n: nat)
      requires HEADER_LEN <= wrNext && wrNext + n <= buff.Length
      modifies this`wrNext, buff
      ensures wrNext == old(wrNext) + n
      ensures buff[HEADER_LEN..wrNext] == old(buff[HEADER_LEN..wrNext]) + Zeros(n)
    {
      forall i | wrNext <= i < wrNext + n {
        buff[i] := 0;
      }
      wrNext := wrNext + n;
    }

    method PlaceHeader(header: seq<byte>)
      requires |header| == HEADER_LEN <= wrNext <= buff.Length
      modifies buff
      ensures buff[..wrNext] == header + old(buff[HEADER_LEN..wrNext])
      ensures buff[HEADER_LEN..wrNext] == old(buff[HEADER_LEN..wrNext])
    {
      forall i | 0 <= i < HEADER_LEN {
        buff[i] := header[i];
      }
    }

    /** The last part of EmptyBuffProc: writes the buffer out; false when that failed. */
    method WriteBuffer() returns (ok: bool)
      requires Shape() && !wasFCloseCalled
      modifies this`wrNext, this`isAnythingWritten, this`isClosed, this`FCGI_errno
      modifies conn`out, conn`room, conn`later, conn`failed
      ensures Shape()
      ensures var data := old(buff[..wrNext]);
              var sent := Send(old(conn.Value()), data);
              && conn.Value() == sent.link && ok == sent.ok
              && isAnythingWritten == (old(isAnythingWritten) || data != [])
              && (ok ==> wrNext == 0 && isClosed == old(isClosed) && FCGI_errno == old(FCGI_errno))
              && (!ok ==> wrNext == old(wrNext) && isClosed
                          && FCGI_errno == Spec.FirstError(old(FCGI_errno), conn.writeErrno))
    {
      if wrNext != 0 {
        isAnythingWritten := true;
        var rc := conn.WriteAll(buff[..wrNext]);
        if rc < 0 {
          SetError(conn.writeErrno);
          return false;
        }
        wrNext := 0;
      } else {
        assert conn.out + [] == conn.out;
      }
      return true;
    }

    /** The memcpy of FCGX_PutStr, for bytes that fit the buffer. */
    method Store(bytes: seq<byte>)
      requires Sound() && wrNext + |bytes| <= stop
      modifies this`wrNext, buff
      ensures Sound() && wrNext == old(wrNext) + |bytes|
      ensures Abs() == Spec.Holding(old(Abs()), bytes)
    {
      forall i | 0 <= i < |bytes| {
        buff[wrNext + i] := bytes[i];
      }
      wrNext := wrNext + |bytes|;
      assert buff[..wrNext] == old(buff[..wrNext]) + bytes;
      if !wasFCloseCalled && !rawWrite {
        assert buff[HEADER_LEN..wrNext] == buff[..wrNext][HEADER_LEN..];
      }
      assert Held() == old(Held()) + bytes;
    }

    /** FCGX_PutChar */
    method PutChar(c: int) returns (r: int)
      requires Valid()
      modifies this, buff, conn, req`nWriters
      ensures Valid() && var p := Spec.PutByte(old(Abs()), c % 0x100);
                         Abs() == p.x && r == if p.ok then c % 0x100 else -1
      decreases 0, 4
    {
      if wrNext != stop {
        Store([c % 0x100]);
        return c % 0x100;
      }
      if isClosed {
        return -1;
      }
      EmptyBuffProc(false);
      if wrNext != stop {
        Store([c % 0x100]);
        return c % 0x100;
      }
      assert isClosed;
      return -1;
    }

    /** EmptyBuffProc: makes a record of what is held and writes it, or, in raw mode, writes it as it is. */
    method EmptyBuffProc(doClose: bool)
      requires Sound() && !wasFCloseCalled && if doClose then !rawWrite else !isClosed
      modifies this, buff, conn, req`nWriters
      ensures Shape() && !wasFCloseCalled && rawWrite == (old(rawWrite) || doClose)
      ensures !doClose ==> Sound() && Abs() == Spec.Empty(old(Abs()))
      ensures doClose ==> var x := old(Abs());
                          var z := Spec.WriteOut(Spec.CloseTail(x, Spec.Closing(x)));
                          && FCGI_errno == z.w.errno
                          && Shared() == x.shared.(link := z.shared.link, nWriters := x.shared.nWriters - 1)
      decreases if doClose then 3 else 0, 0
    {
      hide Spec.CloseTail, Padded;
      ghost var x := Abs();
      if !rawWrite {
        Encapsulate();
      } else {
        assert Spec.Body(x) == Spec.Kept(x) == buff[..wrNext];
      }
      if doClose {
        WriteCloseRecords(x);
        ghost var y := Abs();
        assert Spec.Body(y) == buff[..wrNext];
        var _ := WriteBuffer();
        return;
      }
      var ok := WriteBuffer();
      if !ok {
        return;
      }
      if !rawWrite {
        wrNext := wrNext + HEADER_LEN;
      }
    }

    /** FCGX_PutStr, between public calls and for the closing records. */
    method PutStr(str: seq<byte>) returns (n: int)
      requires Sound()
      modifies this, buff, conn, req`nWriters
      ensures Sound() && (old(Valid()) ==> Valid())
      ensures var p := Spec.PutAll(old(Abs()), str);
              Abs() == p.x && n == if p.ok then |str| else -1
      decreases 0, 4
    {
      if |str| <= stop - wrNext {
        Spec.PutAllBulk(Abs(), str, |str|);
        Store(str);
        assert str[..|str|] == str;
        return |str|;
      }
      n := PutStrGeneral(str);
    }

    /** The general case of FCGX_PutStr: the buffer has no room for all of it. */
    method PutStrGeneral(str: seq<byte>) returns (n: int)
      requires Sound() && str != []
      modifies this, buff, conn, req`nWriters
      ensures Sound() && rawWrite == old(rawWrite) && wasFCloseCalled == old(wasFCloseCalled)
      ensures var p := Spec.PutAll(old(Abs()), str);
              Abs() == p.x && n == if p.ok then |str| else -1
      decreases 0, 2
    {
      hide Spec.PutAll, Spec.Empty, Send;
      var rest := str;
      while true
        invariant Sound() && rawWrite == old(rawWrite) && wasFCloseCalled == old(wasFCloseCalled)
        invariant rest != [] && |rest| <= |str|
        invariant Spec.PutAll(old(Abs()), str) == Spec.PutAll(Abs(), rest)
        decreases |rest|, if isClosed then 0 else if wrNext < stop then 1 else 2
      {
        if wrNext != stop {
          var m := StoreSome(rest);
          rest := rest[m..];
          if rest == [] {
            PutNothing();
            return |str|;
          }
        }
        Spec.PutAllAfterEmpty(Abs(), rest);
        if isClosed {
          return -1;
        }
        EmptyBuffProc(false);
      }
    }

    lemma PutNothing()
      requires Sound()
      ensures Spec.PutAll(Abs(), []) == Spec.Put(Abs(), true)
    {
    }

    /** Stores as much of the rest as the buffer has room for. */
    method StoreSome(rest: seq<byte>) returns (m: nat)
      requires Sound() && rest != [] && wrNext < stop
      modifies this`wrNext, buff
      ensures 0 < m <= |rest| && (m < |rest| ==> wrNext == stop)
      ensures Sound() && Spec.PutAll(old(Abs()), rest) == Spec.PutAll(Abs(), rest[m..])
    {
      hide Spec.PutAll;
      m := if |rest| < stop - wrNext then |rest| else stop - wrNext;
      Spec.PutAllBulk(Abs(), rest, m);
      Store(rest[..m]);
    }

    /**
     * WriteCloseRecords of the stream x, whose content has just been encapsulated: from here on
     * what is put goes out as it is.
     */
    method WriteCloseRecords(ghost x: Spec.Writing)
      requires Shape() && !rawWrite && !wasFCloseCalled && x.Valid() && !x.w.finished
      requires buff[..wrNext] == Spec.Body(x) && (wrNext == 0 <==> x.w.held == []) && x.shared == Shared()
      requires x.w.typ == typ && x.w.capacity + HEADER_LEN == buff.Length && x.w.written == isAnythingWritten
      requires x.w.closed == isClosed && x.w.errno == FCGI_errno
      modifies this, buff, conn, req`nWriters
      ensures Sound() && Raw()
      ensures var z := Spec.CloseTail(x, Spec.Closing(x));
              Abs() == z.(shared := z.shared.(nWriters := z.shared.nWriters - 1))
      decreases 2, 0
    {
      hide MakeHeader, MakeEndRequestBody, Spec.PutAll, Spec.Body;
      rawWrite := true;
      assert Abs() == Spec.Closing(x);
      if !(typ == STDERR && wrNext == 0 && !isAnythingWritten) {
        var header := MakeHeader(typ, req.requestId, 0, 0);
        var _ := PutStr(header);
      }
      if req.nWriters == 1 {
        var record := MakeHeader(END_REQUEST, req.requestId, 8, 0) + MakeEndRequestBody(req.appStatus, REQUEST_COMPLETE);
        var _ := PutStr(record);
      }
      req.nWriters := req.nWriters - 1;
    }

    /** FCGX_FFlush */
    method FFlush() returns (rc: int)
      requires Valid()
      modifies this, buff, conn, req`nWriters
      ensures Valid() && Abs() == Spec.Flush(old(Abs()))
      ensures rc == if old(isClosed) then 0 else if isClosed then -1 else 0
    {
      if isClosed {
        return 0;
      }
      EmptyBuffProc(false);
      return if isClosed then -1 else 0;
    }

    /** FCGX_FClose */
    method FClose() returns (rc: int)
      requires Valid()
      modifies this, buff, conn, req`nWriters
      ensures Valid() && Abs() == Spec.Close(old(Abs()))
      ensures rc == if FCGI_errno == 0 then 0 else -1
    {
      hide Spec.CloseTail, Spec.Closing, Spec.WriteOut;
      if !wasFCloseCalled {
        EmptyBuffProc(true);
        wasFCloseCalled := true;
        isClosed := true;
        stop := wrNext;
      }
      return if FCGI_errno == 0 then 0 else -1;
    }

    /** FCGX_SetExitStatus */
    method SetExitStatus(status: int)
      requires Valid()
      modifies req`appStatus
      ensures Valid() && Abs() == old(Abs()).(shared := old(Shared()).(appStatus := status))
    {
      req.appStatus := status;
    }
  }

  /** FCGX_CreateWriter: a writer with a request of its own that never writes END_REQUEST. */
  method CreateWriter(conn: Connection, requestId: int, requested: int, address: nat, typ: byte) returns (w: Writer)
    requires 0 <= requestId <= MAX_LENGTH
    ensures fresh(w) && fresh(w.buff) && fresh(w.req) && w.conn == conn
    ensures w.Valid() && w.Abs().w == Spec.Writer(typ, w.buff.Length - HEADER_LEN, [], false, false, false, 0, false)
    ensures w.Abs().shared.link == conn.Value() && w.req.requestId == requestId && w.req.nWriters == 2
  {
    var req := new Request();
    req.requestId := requestId;
    req.nWriters := 2;
    w := new Writer(req, conn, requested, address, typ);
  }
}
