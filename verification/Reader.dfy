/** FCGX_Stream and FCGX_Stream_Data as a reader: a fixed buffer over a connection. */
module Readers {
  import opened Wire
  import opened Links
  import opened NameValue
  import opened Params
  import opened Requests
  import opened Buffers
  import Spec = ReaderSpec
  import opened ReaderFacts

  /** What the loop in ReadParams finds next: the end, part of a pair, or a pair. */
  datatype Next = AtEnd | Torn | Whole(pair: Pair)

  class Reader {
    const buff: array<byte>
    const conn: Connection
    const req: Request
    var rdNext: nat
    var stop: nat
    var stopUnget: nat
    var buffStop: nat
    var isClosed: bool
    var FCGI_errno: int
    var typ: byte
    var eorStop: bool
    var skip: bool
    var contentLen: nat
    var paddingLen: nat

    /** What holds everywhere, also between the steps of FillBuffProc. */
    ghost predicate Buffered()
      reads this
    {
      buff.Length > 0 && rdNext <= buffStop <= buff.Length
    }

    ghost predicate Valid()
      reads this
    {
      && Buffered()
      && (!isClosed ==>
            && rdNext <= stop <= buffStop
            && (rdNext < stop || !eorStop ==> !skip))
    }

    /** Bytes not yet handed over or interpreted, fetched from the connection or not. */
    ghost function Unread(): seq<byte>
      requires Buffered()
      reads this, buff, conn
    {
      buff[rdNext..buffStop] + conn.input
    }

    /** The state as the fields say it when rdNext == stop. */
    ghost function Raw(): Spec.State
      requires Buffered()
      reads this, buff, conn, req
    {
      Spec.State(
        conn.Value().(input := Unread()), contentLen, paddingLen, skip, eorStop, isClosed, FCGI_errno, typ,
        Spec.Req(req.requestId, req.role, req.keepConnection, req.isBeginProcessed))
    }

    /** The state, independent of what is in the buffer and what is not yet read. */
    ghost function Abs(): Spec.State
      requires Valid()
      reads this, buff, conn, req
    {
      if isClosed then if eorStop then Raw() else Spec.Settle(Raw())
      else Raw().(content := contentLen + (stop - rdNext))
    }

    /** What the state says of the fields that clients look at. */
    lemma Flags()
      requires Valid()
      ensures Abs().closed == isClosed && Abs().eor == eorStop && Abs().errno == FCGI_errno
      ensures !isClosed && rdNext < stop ==> Abs().Deliverable()
      ensures isClosed && eorStop ==> Abs().content == contentLen
    {
    }

    lemma RawFlags()
      requires Buffered()
      ensures Raw().content == contentLen && Raw().padding == paddingLen && Raw().skip == skip
      ensures Raw().closed == isClosed && Raw().eor == eorStop && Raw().Unread() == Unread()
      ensures rdNext < buffStop ==> |Unread()| > 0
    {
    }

    /** NewReader: an empty buffer over the connection. */
    constructor (req: Request, conn: Connection, requested: int, address: nat, typ: byte)
      ensures Valid() && fresh(buff) && this.req == req && this.conn == conn
      ensures buff.Length == NewBuffer(requested, address).length
      ensures rdNext == stop == stopUnget == buffStop
      ensures Abs() == Spec.State(
                         conn.Value(), 0, 0, false, false, false, 0, typ,
                         Spec.Req(req.requestId, req.role, req.keepConnection, req.isBeginProcessed))
    {
      NewBufferLaws(requested, address);
      this.req, this.conn, buff := req, conn, new byte[NewBuffer(requested, address).length];
      rdNext, stop, stopUnget, buffStop := 0, 0, 0, 0;
      isClosed, FCGI_errno, this.typ := false, 0, typ;
      eorStop, skip, contentLen, paddingLen := false, false, 0, 0;
    }

    method SetError(e: int)
      requires Buffered()
      modifies this`FCGI_errno, this`isClosed
      ensures Raw() == Spec.SetError(old(Raw()), e)
      ensures old(Valid()) && old(isClosed) ==> Valid() && Abs() == Spec.SetError(old(Abs()), e)
    {
      if FCGI_errno == 0 {
        FCGI_errno := e;
      }
      isClosed := true;
    }

    /** The OS_Read at the head of FillBuffProc; false when there is nothing more to read. */
    method Refill() returns (ok: bool)
      requires Buffered() && rdNext == buffStop && !isClosed
      modifies this, buff, conn`input
      ensures Buffered() && stopUnget == old(stopUnget)
      ensures ok ==> Raw() == old(Raw()) && rdNext < buffStop
      ensures !ok ==> old(Raw()).Unread() == [] && Raw() == Spec.Starve(old(Raw()))
    {
      var count := conn.Read(buff);
      if count <= 0 {
        SetError(if count == 0 then PROTOCOL_ERROR else conn.ending);
        return false;
      }
      rdNext, buffStop := 0, count;
      return true;
    }

    /** Skips the buffered part of the content that is not to be delivered. */
    method SkipContentBytes()
      requires Buffered() && skip && 0 < contentLen && rdNext < buffStop && !isClosed
      modifies this`rdNext, this`contentLen, this`skip
      ensures Buffered()
      ensures var s := old(Raw());
              var k := if contentLen == 0 then s.content else buffStop - old(rdNext);
              && 0 < k <= s.content && k <= |s.Unread()|
              && (contentLen == 0 ==> Raw() == Spec.Deliver(s, k).(skip := false))
              && (contentLen > 0 ==> Raw() == Spec.Deliver(s, k))
    {
      var count := if contentLen < buffStop - rdNext then contentLen else buffStop - rdNext;
      assert Unread()[count..] == buff[rdNext + count..buffStop] + conn.input;
      contentLen := contentLen - count;
      rdNext := rdNext + count;
      if contentLen == 0 {
        skip := false;
      }
    }

    method SkipPaddingBytes()
      requires Buffered() && 0 < paddingLen && !isClosed
      modifies this`rdNext, this`paddingLen
      ensures Buffered()
      ensures var s := old(Raw());
              var k := s.padding - paddingLen;
              && 0 <= k <= |s.Unread()|
              && Raw() == Spec.Drop(s, k).(padding := s.padding - k)
              && (old(rdNext) < buffStop ==> 0 < k)
              && (paddingLen > 0 ==> rdNext == buffStop)
    {
      var count := if paddingLen < buffStop - rdNext then paddingLen else buffStop - rdNext;
      assert Unread()[count..] == buff[rdNext + count..buffStop] + conn.input;
      paddingLen := paddingLen - count;
      rdNext := rdNext + count;
    }

    /** Moves as much of a header as is buffered behind the part already collected. */
    method CollectHeader(header: seq<byte>) returns (more: seq<byte>)
      requires Buffered() && |header| < HEADER_LEN && !isClosed
      modifies this`rdNext
      ensures Buffered() && |more| <= HEADER_LEN
      ensures var s := old(Raw());
              var k := |more| - |header|;
              && 0 <= k <= |s.Unread()|
              && more == header + s.Unread()[..k] && Raw() == Spec.Drop(s, k)
              && (old(rdNext) < buffStop ==> 0 < k)
    {
      var missing := HEADER_LEN - |header|;
      var count := if missing < buffStop - rdNext then missing else buffStop - rdNext;
      ghost var s := Raw();
      assert Unread()[..count] == buff[rdNext..rdNext + count];
      assert Unread()[count..] == buff[rdNext + count..buffStop] + conn.input;
      more := header + buff[rdNext..rdNext + count];
      rdNext := rdNext + count;
      assert Raw() == Spec.Drop(s, count);
    }

    /** Delivers what is buffered of the current record's content. */
    method DeliverBuffered()
      requires Buffered() && !isClosed && !skip && 0 < contentLen && rdNext < buffStop
      modifies this`contentLen, this`stop
      ensures Valid() && Abs() == old(Raw()) && rdNext < stop
    {
      var count := if contentLen < buffStop - rdNext then contentLen else buffStop - rdNext;
      contentLen := contentLen - count;
      stop := rdNext + count;
    }

    /**
     * One turn of the loop in FillBuffProc up to the interpretation of a header.
     * Either the turn settles the call, or it uses up bytes and `more` is what has
     * been collected of the next header, possibly all of it.
     */
    method Turn(header: seq<byte>) returns (settled: bool, more: seq<byte>)
      requires Buffered() && !isClosed && |header| < HEADER_LEN
      requires header != [] ==> contentLen == 0 && paddingLen == 0
      modifies this, buff, conn`input
      ensures Buffered() && eorStop == old(eorStop)
      ensures settled ==> Valid() && Abs() == Outcome(old(Raw()), header)
      ensures settled ==> (Abs().Deliverable() ==> rdNext < stop)
      ensures !settled ==> !isClosed && |more| <= HEADER_LEN && |Unread()| < old(|Unread()|)
      ensures !settled && |more| < HEADER_LEN ==>
                && (more != [] ==> contentLen == 0 && paddingLen == 0)
                && Outcome(old(Raw()), header) == Outcome(Raw(), more)
      ensures !settled && |more| == HEADER_LEN ==>
                && !eorStop
                && Outcome(old(Raw()), header) ==
                   Spec.Resume(Spec.ProcessHeader(ParseHeader(more), Raw().(eor := true)))
    {
      hide Outcome, OutcomeAfterContent, Raw, Abs, Unread;
      hide Spec.SkipContent, Spec.SkipPadding, Spec.TakeHeader, Spec.Resume, Spec.ProcessHeader;
      ghost var s := Raw();
      more := header;
      RawFlags();
      OutcomeReady(s, header);
      if rdNext == buffStop {
        var ok := Refill();
        RawFlags();
        if !ok {
          AbsClosed();
          return true, header;
        }
      }
      if contentLen > 0 {
        if !skip {
          DeliverBuffered();
          return true, header;
        }
        SkipContentBytes();
        RawFlags();
        if contentLen > 0 {
          SkipSplit(s, header, s.content - contentLen);
          return false, header;
        }
      }
      assert Raw() == Spec.SkipContent(s) by { SkipContentIs(s); }
      SkipDone(s, header);
      settled, more := TurnAfterContent(header);
      if settled {
        AbsClosed();
      }
    }

    lemma AbsClosed()
      requires Buffered() && isClosed
      ensures Valid() && Abs() == (if eorStop then Raw() else Spec.Settle(Raw())) && Abs().closed
    {
    }

    /** The turn once the content of the current record is used up. */
    method TurnAfterContent(header: seq<byte>) returns (settled: bool, more: seq<byte>)
      requires Buffered() && !isClosed && |header| < HEADER_LEN && contentLen == 0
      requires header != [] ==> paddingLen == 0
      modifies this`rdNext, this`stop, this`isClosed, this`paddingLen
      ensures Buffered()
      ensures settled ==> Valid() && Abs() == OutcomeAfterContent(old(Raw()), header) && isClosed
      ensures !settled ==> !isClosed && |more| <= HEADER_LEN && |Unread()| <= old(|Unread()|)
      ensures !settled && old(rdNext) < buffStop ==> |Unread()| < old(|Unread()|)
      ensures !settled && |more| < HEADER_LEN ==>
                && (more != [] ==> paddingLen == 0)
                && OutcomeAfterContent(old(Raw()), header) == Outcome(Raw(), more)
      ensures !settled && |more| == HEADER_LEN ==>
                && !eorStop
                && OutcomeAfterContent(old(Raw()), header) ==
                   Spec.Resume(Spec.ProcessHeader(ParseHeader(more), Raw().(eor := true)))
    {
      hide Outcome, Spec.TakeHeader, Spec.Resume, Spec.ProcessHeader;
      ghost var m := Raw();
      if paddingLen > 0 {
        SkipPaddingBytes();
        if paddingLen > 0 {
          SkipPaddingSplit(m, header, m.padding - paddingLen);
          return false, header;
        }
      }
      ghost var p := Raw();
      assert p == Spec.SkipPadding(m);
      if eorStop {
        stop := rdNext;
        isClosed := true;
        return true, header;
      }
      more := TurnHeader(header);
      settled := false;
    }

    /** The turn once the padding is used up as well. */
    method TurnHeader(header: seq<byte>) returns (more: seq<byte>)
      requires Buffered() && !isClosed && !eorStop && |header| < HEADER_LEN
      requires contentLen == 0 && paddingLen == 0
      modifies this`rdNext
      ensures Buffered() && |more| <= HEADER_LEN && |Unread()| <= old(|Unread()|)
      ensures old(rdNext) < buffStop ==> |Unread()| < old(|Unread()|)
      ensures |more| < HEADER_LEN ==> Spec.TakeHeader(old(Raw()), header) == Outcome(Raw(), more)
      ensures |more| == HEADER_LEN ==>
                Spec.TakeHeader(old(Raw()), header) ==
                Spec.Resume(Spec.ProcessHeader(ParseHeader(more), Raw().(eor := true)))
    {
      hide Outcome, Spec.TakeHeader, Spec.Resume, Spec.ProcessHeader;
      ghost var p := Raw();
      more := CollectHeader(header);
      if |more| < HEADER_LEN {
        TakeHeaderSplit(p, header, |more| - |header|);
        OutcomeIsFill(Raw(), more);
      } else {
        TakeWholeHeader(p, header);
      }
    }

    method FillBuffProc()
      requires Valid() && !isClosed && rdNext == stop
      modifies this, buff, conn, req`requestId, req`role, req`keepConnection, req`isBeginProcessed
      ensures Valid()
      ensures Abs() == Spec.Advance(old(Abs()))
      ensures Abs().Deliverable() ==> rdNext < stop
      decreases if eorStop then 0 else 1, 0
    {
      ghost var outcome := Spec.Advance(Abs());
      assert Raw() == Abs() && outcome == Outcome(Raw(), []);
      hide Outcome, Spec.Advance, Spec.ProcessHeader, Spec.Resume, Raw, Abs;
      var header: seq<byte> := [];
      while true
        invariant Buffered() && !isClosed && |header| < HEADER_LEN
        invariant eorStop == old(eorStop)
        invariant header != [] ==> contentLen == 0 && paddingLen == 0
        invariant outcome == Outcome(Raw(), header)
        decreases |Unread()|
      {
        var settled;
        settled, header := Turn(header);
        if settled {
          return;
        }
        if |header| == HEADER_LEN {
          settled := HandleHeader(header);
          if settled {
            return;
          }
          header := [];
        }
      }
    }

    /** Acts on a header as the switch in FillBuffProc does; settled when that ends the call. */
    method HandleHeader(header: seq<byte>) returns (settled: bool)
      requires Buffered() && !isClosed && !eorStop && |header| == HEADER_LEN
      modifies this, buff, conn, req`requestId, req`role, req`keepConnection, req`isBeginProcessed
      ensures Buffered() && |Unread()| <= old(|Unread()|)
      ensures settled ==> Valid()
      ensures settled ==> (Abs().Deliverable() ==> rdNext < stop)
      ensures !settled ==> !isClosed && !eorStop
      ensures Spec.Resume(Spec.ProcessHeader(ParseHeader(header), old(Raw()).(eor := true)))
           == if settled then Abs() else Outcome(Raw(), [])
      decreases 0, 12
    {
      hide Spec.Fill, Spec.ProcessHeader;
      var status := Interpret(header);
      if status == Spec.STREAM_RECORD {
        if contentLen == 0 {
          stop := rdNext;
          isClosed := true;
          return true;
        }
      } else if status == Spec.SKIP {
        skip := true;
      } else if status == Spec.BEGIN_RECORD {
        return true;
      } else if status != Spec.MGMT_RECORD {
        SetError(status);
        return true;
      }
      settled := false;
    }

    /** Interprets a header with eorStop set, so that reading stops at the end of the record. */
    method Interpret(header: seq<byte>) returns (status: int)
      requires Buffered() && !isClosed && !eorStop && |header| == HEADER_LEN
      modifies this, buff, conn, req`requestId, req`role, req`keepConnection, req`isBeginProcessed
      ensures Buffered() && |Unread()| <= old(|Unread()|)
      ensures var p := Spec.ProcessHeader(ParseHeader(header), old(Raw()).(eor := true));
              && status == p.code
              && Raw() == p.state.(eor := false, closed := false)
              && (status == Spec.BEGIN_RECORD ==> !skip && rdNext == stop)
      decreases 0, 11
    {
      hide Spec.ProcessHeader;
      eorStop := true;
      stop := rdNext;
      assert Abs() == Raw();
      status := ProcessHeader(ParseHeader(header));
      assert Abs() == Raw();
      eorStop := false;
      isClosed := false;
    }

    method ProcessHeader(h: Header) returns (status: int)
      requires Valid() && eorStop && !isClosed && rdNext == stop
      requires 0 <= h.contentLength && 0 <= h.paddingLength
      modifies this, buff, conn, req`requestId, req`role, req`keepConnection, req`isBeginProcessed
      ensures Valid() && eorStop && (isClosed || rdNext == stop)
      ensures var p := Spec.ProcessHeader(h, old(Abs())); Abs() == p.state && status == p.code
      decreases 0, 10
    {
      if h.version != VERSION_1 {
        return Spec.UNSUPPORTED_VERSION;
      }
      contentLen := h.contentLength;
      paddingLen := h.paddingLength;
      if h.typ == BEGIN_REQUEST {
        status := ProcessBeginRecord(h.id);
        return;
      }
      if h.id == 0 {
        status := ProcessManagementRecord(h.typ);
        return;
      }
      if h.id != req.requestId {
        return Spec.SKIP;
      }
      if h.typ != typ {
        return PROTOCOL_ERROR;
      }
      return Spec.STREAM_RECORD;
    }

    /** Writes a reply; on failure the stream is closed with the error of the write. */
    method Respond(data: seq<byte>, code: int) returns (status: int)
      requires Valid() && eorStop && (isClosed || rdNext == stop)
      modifies this`isClosed, this`FCGI_errno, conn`out, conn`room, conn`later, conn`failed
      ensures Valid() && eorStop && (isClosed || rdNext == stop)
      ensures old(isClosed) ==> isClosed
      ensures var p := Spec.Reply(old(Abs()), data, code); Abs() == p.state && status == p.code
    {
      var rc := conn.WriteAll(data);
      if rc < 0 {
        SetError(conn.writeErrno);
        return -1;
      }
      return code;
    }

    method ProcessBeginRecord(requestId: int) returns (status: int)
      requires Valid() && eorStop && !isClosed && rdNext == stop
      modifies this, buff, conn, req`requestId, req`role, req`keepConnection, req`isBeginProcessed
      ensures Valid() && eorStop && (isClosed || rdNext == stop)
      ensures var p := Spec.ProcessBeginRecord(requestId, old(Abs())); Abs() == p.state && status == p.code
      decreases 0, 9
    {
      hide Spec.TakeNested, Spec.GetStr, Spec.CantMultiplexReply, Spec.Advance;
      if requestId == 0 || contentLen != 8 {
        return PROTOCOL_ERROR;
      }
      if req.isBeginProcessed {
        status := Respond(Spec.CantMultiplexReply(requestId), Spec.SKIP);
        return;
      }
      req.requestId := requestId;
      TakeNestedIsGetStr(Abs(), 8);
      var body := GetStr(8);
      if |body| != 8 {
        return PROTOCOL_ERROR;
      }
      req.keepConnection := body[2] % 2 == 1;
      req.role := Word(body[0], body[1]);
      req.isBeginProcessed := true;
      return Spec.BEGIN_RECORD;
    }

    method ProcessManagementRecord(typ: byte) returns (status: int)
      requires Valid() && eorStop && !isClosed && rdNext == stop
      modifies this, buff, conn, req`requestId, req`role, req`keepConnection, req`isBeginProcessed
      ensures Valid() && eorStop && (isClosed || rdNext == stop)
      ensures var p := Spec.ProcessManagementRecord(typ, old(Abs())); Abs() == p.state && status == p.code
      decreases 0, 9
    {
      hide Spec.ReadQuery, Spec.ReadParams, Spec.GetValuesReply, Spec.ReplyContent, Spec.UnknownTypeReply;
      hide Spec.Reply, Raw, Abs;
      Flags();
      if typ != GET_VALUES {
        status := Respond(Spec.UnknownTypeReply(typ), Spec.MGMT_RECORD);
        return;
      }
      ghost var query := Spec.ReadQuery(Abs());
      ReadQueryIsReadParams(Abs());
      var params := new ParamVector(3);
      var rc := ReadParams(params);
      Flags();
      if FCGI_errno != 0 || contentLen != 0 {
        return PROTOCOL_ERROR;
      }
      assert params.Contents() == Entries(query.pairs);
      status := Answer(params);
    }

    /** Builds and writes the reply to a GET_VALUES query. */
    method Answer(params: ParamVector) returns (status: int)
      requires Valid() && eorStop && isClosed && params.Valid()
      modifies this`isClosed, this`FCGI_errno, conn`out, conn`room, conn`later, conn`failed, conn`undefined
      ensures Valid() && eorStop && isClosed
      ensures var entries := params.Contents();
              var s := Spec.Undefine(old(Abs()), !Spec.Answerable(entries));
              var p := Spec.Reply(s, Spec.GetValuesReply(Spec.ReplyContent(entries)), Spec.MGMT_RECORD);
              Abs() == p.state && status == p.code
    {
      hide Spec.GetValuesReply, Spec.ReplyContent, Spec.Answerable, Spec.Reply;
      var content := AnswerQuery(params);
      NoteUndefined(!Spec.Answerable(params.Contents()));
      status := Respond(Spec.GetValuesReply(content), Spec.MGMT_RECORD);
    }

    /** Notes that C leaves undefined what has just been done. */
    ghost method NoteUndefined(undefined: bool)
      requires Valid()
      modifies conn`undefined
      ensures Valid() && Abs() == Spec.Undefine(old(Abs()), undefined)
    {
      conn.undefined := conn.undefined || undefined;
    }

    /** The name-value pairs answering a GET_VALUES query. */
    method AnswerQuery(params: ParamVector) returns (content: seq<byte>)
      requires params.Valid()
      ensures content == Spec.ReplyContent(params.Contents())
    {
      hide Spec.KnownValue, UpTo, Spec.ReplyContent;
      content := [];
      ReplyContentNil();
      ghost var es := params.Contents();
      assert es[0..] == es && es[|es|..] == [];
      var p := 0;
      while p < params.cur
        invariant 0 <= p <= params.cur == |es|
        invariant content + Spec.ReplyContent(es[p..]) == Spec.ReplyContent(es)
      {
        var name := UpTo(params.vec[p].value, EQUALS);
        var value := Spec.KnownValue(name);
        ReplyContentStep(es[p..], es[p..][1..]);
        assert es[p..][0] == params.vec[p].value && es[p..][1..] == es[p + 1..];
        ghost var done, rest := content, Spec.ReplyContent(es[p + 1..]);
        if value.Some? {
          content := content + ([|name|, 1] + name + [value.value]);
          assert done + ([|name|, 1] + name + [value.value] + rest) == content + rest;
        }
        p := p + 1;
      }
    }

    method GetChar() returns (c: int)
      requires Valid() && Abs().Readable()
      modifies this, buff, conn, req`requestId, req`role, req`keepConnection, req`isBeginProcessed
      ensures Valid()
      ensures Spec.Got(Abs(), c) == Spec.GetChar(old(Abs()))
      ensures c != Spec.EOF ==>
                if old(rdNext) == old(stop) then rdNext == stopUnget + 1
                else rdNext == old(rdNext) + 1 && stopUnget == old(stopUnget) && stop == old(stop)
      decreases if eorStop then 0 else 1, 1
    {
      hide Spec.Advance, Raw, Abs;
      Flags();
      if isClosed {
        GetCharStep(Abs());
        return Spec.EOF;
      }
      GetCharStep(Abs());
      if rdNext == stop {
        FillBuffProc();
        Flags();
        if isClosed {
          return Spec.EOF;
        }
        MarkUnget();
        Flags();
        // The assertion of the source: an open stream now has a byte to hand over.
        assert rdNext != stop;
      } else {
        GetCharDeliverable(Abs());
      }
      var one := TakeBuffered(1);
      return one[0];
    }

    /** Hands over what is buffered, as far as wanted. */
    method TakeBuffered(wanted: nat) returns (moved: seq<byte>)
      requires Valid() && !isClosed && 0 < wanted && rdNext < stop
      modifies this`rdNext
      ensures Valid() && 0 < |moved| <= wanted && (|moved| < wanted ==> rdNext == stop)
      ensures var s := old(Abs());
              && |moved| <= s.content && |moved| <= |s.Unread()|
              && moved == s.Unread()[..|moved|] && Abs() == Spec.Deliver(s, |moved|)
      ensures rdNext == old(rdNext) + |moved|
    {
      var m := if wanted < stop - rdNext then wanted else stop - rdNext;
      moved := buff[rdNext..rdNext + m];
      assert Unread()[..m] == buff[rdNext..buffStop][..m] == moved;
      assert Unread()[m..] == buff[rdNext + m..buffStop] + conn.input;
      rdNext := rdNext + m;
    }

    /** Pushback reaches back to here until the next fill. */
    method MarkUnget()
      requires Valid()
      modifies this`stopUnget
      ensures Valid() && Abs() == old(Abs()) && stopUnget == rdNext
    {
      stopUnget := rdNext;
    }

    method GetStr(n: int) returns (str: seq<byte>)
      requires Valid() && Abs().Readable()
      modifies this, buff, conn, req`requestId, req`role, req`keepConnection, req`isBeginProcessed
      ensures Valid()
      ensures Spec.Read(Abs(), str) == Spec.GetStr(old(Abs()), if n < 0 then 0 else n)
      decreases if eorStop then 0 else 1, 2
    {
      hide Spec.Advance, Spec.GetStr;
      str := [];
      if isClosed || n <= 0 {
        GetStrNothing(Abs(), n);
        return;
      }
      if n <= stop - rdNext {
        GetStrAll(Abs(), n);
        str := buff[rdNext..rdNext + n];
        rdNext := rdNext + n;
        return;
      }
      str := GetStrGeneral(n);
    }

    /** The general case of GetStr: more than the buffer holds is wanted. */
    method GetStrGeneral(n: nat) returns (str: seq<byte>)
      requires Valid() && Abs().Readable() && 0 < n && !isClosed
      modifies this, buff, conn, req`requestId, req`role, req`keepConnection, req`isBeginProcessed
      ensures Valid()
      ensures Spec.Read(Abs(), str) == Spec.GetStr(old(Abs()), n)
      decreases if eorStop then 0 else 1, 1
    {
      hide Spec.Advance, Spec.GetStr, Raw, Abs;
      Flags();
      str := [];
      ghost var s := Abs();
      while true
        invariant Valid() && !isClosed && Abs().Readable() && |str| < n && eorStop == s.eor
        invariant Spec.GetStr(s, n) == var rest := Spec.GetStr(Abs(), n - |str|);
                                       Spec.Read(rest.state, str + rest.bytes)
        decreases n - |str|, if rdNext < stop then 0 else 1
      {
        if rdNext != stop {
          Flags();
          ghost var a, got := Abs(), str;
          var moved := TakeBuffered(n - |str|);
          GetStrTaken(s, n, got, a, |moved|);
          str := str + moved;
          Flags();
          if |str| == n {
            GetStrNothing(Abs(), 0);
            return;
          }
        }
        Flags();
        GetStrAfterAdvance(Abs(), n - |str|);
        FillBuffProc();
        Flags();
        if isClosed {
          GetStrNothing(Abs(), n - |str|);
          return;
        }
        MarkUnget();
      }
    }

    /** What reading to EOF would give from here. */
    ghost function Rest(): Spec.Read
      requires Valid() && Abs().Readable()
      reads this, buff, conn, req
    {
      Spec.Drain(Abs())
    }

    /** The rest of a length whose first byte has been read; -1 when it is cut off. */
    method ReadLength(first: byte) returns (n: int)
      requires Valid() && Abs().Readable()
      modifies this, buff, conn, req`requestId, req`role, req`keepConnection, req`isBeginProcessed
      ensures Valid() && Abs().Readable() && eorStop == old(eorStop)
      ensures Rest().state == old(Rest()).state
      ensures var b := [first] + old(Rest()).bytes;
              if n < 0 then TakeLength(b) == None && Rest() == Spec.Read(Abs(), [])
              else TakeLength(b).Some? && TakeLength(b).value.n == n && Rest().bytes == b[TakeLength(b).value.used..]
      decreases if eorStop then 0 else 1, 4
    {
      hide Spec.Drain, Spec.GetStr;
      ghost var before := Rest().bytes;
      if first < 0x80 {
        return first;
      }
      var lenBuff := GetStrOf(3);
      if |lenBuff| != 3 {
        return -1;
      }
      assert ([first] + before)[..4] == [first] + lenBuff;
      return LongLength([first] + lenBuff);
    }

    /** GetStr, said in terms of what is left to read. */
    method GetStrOf(n: nat) returns (str: seq<byte>)
      requires Valid() && Abs().Readable()
      modifies this, buff, conn, req`requestId, req`role, req`keepConnection, req`isBeginProcessed
      ensures Valid() && Abs().Readable() && eorStop == old(eorStop) && |str| <= n
      ensures Rest().state == old(Rest()).state && old(Rest()).bytes == str + Rest().bytes
      ensures |str| < n ==> Rest() == Spec.Read(Abs(), [])
      decreases if eorStop then 0 else 1, 3
    {
      hide Spec.Drain, Spec.GetStr;
      DrainAfterGetStr(Abs(), n);
      str := GetStr(n);
      if |str| < n {
        DrainClosed(Abs());
      }
    }

    /** The name-value pair whose first byte has been read; None when it is cut off. */
    method ReadPair(first: byte) returns (pair: Option<Pair>)
      requires Valid() && Abs().Readable()
      modifies this, buff, conn, req`requestId, req`role, req`keepConnection, req`isBeginProcessed
      ensures Valid() && Abs().Readable() && eorStop == old(eorStop)
      ensures Rest().state == old(Rest()).state
      ensures var b := [first] + old(Rest()).bytes;
              match TakePair(b)
              case None => pair == None && Rest() == Spec.Read(Abs(), [])
              case Some(t) => pair == Some(t.pair) && Rest().bytes == b[t.used..]
      decreases if eorStop then 0 else 1, 5
    {
      hide Spec.Drain, Spec.GetStr, Spec.GetChar, TakeLength;
      ghost var b := [first] + Rest().bytes;
      var nameLen := ReadLength(first);
      if nameLen < 0 {
        return None;
      }
      DrainStep(Abs());
      var c := GetChar();
      if c == Spec.EOF {
        DrainClosed(Abs());
        return None;
      }
      var valueLen := ReadLength(c);
      if valueLen < 0 {
        return None;
      }
      var name := GetStrOf(nameLen);
      if |name| != nameLen {
        return None;
      }
      var value := GetStrOf(valueLen);
      if |value| != valueLen {
        return None;
      }
      TakePairParts(b, name, value, Rest().bytes);
      return Some(Pair(name, value));
    }

    /** The head of the loop in ReadParams. */
    method NextPair() returns (next: Next)
      requires Valid() && Abs().Readable()
      modifies this, buff, conn, req`requestId, req`role, req`keepConnection, req`isBeginProcessed
      ensures Valid() && Abs().Readable() && eorStop == old(eorStop)
      ensures Rest().state == old(Rest()).state
      ensures var b := old(Rest()).bytes;
              match TakePair(b)
              case None => next == (if b == [] then AtEnd else Torn) && Rest() == Spec.Read(Abs(), [])
              case Some(t) => next == Whole(t.pair) && Rest().bytes == b[t.used..]
      ensures !next.Whole? ==> isClosed
      decreases if eorStop then 0 else 1, 6
    {
      hide Spec.Drain, Spec.GetChar, TakePair;
      DrainStep(Abs());
      var nameLen := GetChar();
      if nameLen == Spec.EOF {
        TakePairOfNothing();
        return AtEnd;
      }
      var pair := ReadPair(nameLen);
      assert pair.None? ==> Abs().closed;
      return if pair.None? then Torn else Whole(pair.value);
    }

    lemma JoinPairs(a: seq<Pair>, p: Pair, b: seq<Pair>)
      ensures a + ([p] + b) == a + [p] + b
    {
    }

    method PutPair(params: ParamVector, pair: Pair, ghost pairs: seq<Pair>, ghost before: seq<seq<byte>>)
      returns (ghost more: seq<Pair>)
      requires params.Valid() && params.Contents() == before + Entries(pairs)
      modifies params, params.vec
      ensures params.Valid() && (params.vec == old(params.vec) || fresh(params.vec))
      ensures more == pairs + [pair] && more[..|more| - 1] == pairs
      ensures params.Contents() == before + Entries(more)
    {
      hide Entries;
      more := pairs + [pair];
      EntriesSnoc(pairs, pair);
      params.PutParam(pair.Entry());
      assert before + (Entries(pairs) + [pair.Entry()]) == before + Entries(pairs) + [pair.Entry()];
    }

    method RecordParamsError()
      requires Valid() && isClosed
      modifies this`FCGI_errno, this`isClosed
      ensures Valid() && Abs() == Spec.SetError(old(Abs()), Spec.PARAMS_ERROR)
    {
      SetError(Spec.PARAMS_ERROR);
    }

    /** In the middle of ReadParams: `pairs` of what `start` will read are in the vector. */
    ghost predicate Progress(params: ParamVector, before: seq<seq<byte>>, pairs: seq<Pair>, start: Spec.Read)
      reads this, buff, conn, req, params, params.vec
    {
      && Valid() && Abs().Readable() && params.Valid()
      && params.Contents() == before + Entries(pairs)
      && Rest().state == start.state
      && var all, left := ParsePairs(start.bytes), ParsePairs(Rest().bytes);
         all == Parsed(pairs + left.pairs, left.complete)
    }

    lemma ProgressStarts(params: ParamVector)
      requires Valid() && Abs().Readable() && params.Valid()
      ensures Progress(params, params.Contents(), [], Rest())
    {
      hide ParsePairs;
      assert params.Contents() + Entries([]) == params.Contents();
      assert [] + ParsePairs(Rest().bytes).pairs == ParsePairs(Rest().bytes).pairs;
    }

    /** ReadParams in terms of what is left to read. */
    lemma RestParams()
      requires Valid() && Abs().Readable()
      ensures var parsed := ParsePairs(Rest().bytes);
              Spec.ReadParams(Abs()) ==
              if parsed.complete then Spec.ParamsRead(Rest().state, parsed.pairs, 0)
              else Spec.ParamsRead(Spec.SetError(Rest().state, Spec.PARAMS_ERROR), parsed.pairs, -1)
    {
      ReadParamsIs(Abs());
    }

    /** One turn of the loop in ReadParams. */
    method ReadOne(params: ParamVector, ghost before: seq<seq<byte>>, ghost pairs: seq<Pair>, ghost start: Spec.Read)
      returns (next: Next, ghost more: seq<Pair>)
      requires Valid() && Abs().Readable() && Progress(params, before, pairs, start)
      modifies this, buff, conn, req`requestId, req`role, req`keepConnection, req`isBeginProcessed
      modifies params, params.vec
      ensures params.vec == old(params.vec) || fresh(params.vec)
      ensures eorStop == old(eorStop)
      ensures next.Whole? ==> Progress(params, before, more, start)
      ensures next.Whole? ==> Valid() && Abs().Readable() && |Rest().bytes| < |old(Rest()).bytes|
      ensures !next.Whole? ==>
                && Valid() && isClosed && Abs() == start.state
                && params.Valid() && params.Contents() == before + Entries(pairs)
                && ParsePairs(start.bytes) == Parsed(pairs, next.AtEnd?)
      decreases if eorStop then 0 else 1, 7
    {
      hide Spec.Drain, TakePair, ParsePairs, Entries, Raw, Abs, Valid, Buffered, ParamVector.Contents, ParamVector.Valid;
      ParseStep(Rest().bytes);
      assert pairs + [] == pairs;
      next := NextPair();
      more := pairs;
      if next.Whole? {
        more := PutPair(params, next.pair, pairs, before);
        JoinPairs(pairs, next.pair, ParsePairs(Rest().bytes).pairs);
      }
    }

    method ReadParams(params: ParamVector) returns (rc: int)
      requires Valid() && Abs().Readable() && params.Valid()
      modifies this, buff, conn, req`requestId, req`role, req`keepConnection, req`isBeginProcessed
      modifies params, params.vec
      ensures Valid() && params.Valid() && (params.vec == old(params.vec) || fresh(params.vec))
      ensures var r := Spec.ReadParams(old(Abs()));
              && Abs() == r.state && rc == r.rc
              && params.Contents() == old(params.Contents()) + Entries(r.pairs)
      decreases if eorStop then 0 else 1, 8
    {
      hide Spec.ReadParams, Progress, ParsePairs, Entries, Abs, Valid, Rest, ParamVector.Contents, ParamVector.Valid;
      ghost var before, start := params.Contents(), Rest();
      ghost var pairs: seq<Pair> := [];
      ProgressStarts(params);
      RestParams();
      while true
        invariant Valid() && Abs().Readable() && eorStop == old(eorStop)
        invariant Progress(params, before, pairs, start)
        invariant params.vec == old(params.vec) || fresh(params.vec)
        decreases |Rest().bytes|
      {
        var next;
        next, pairs := ReadOne(params, before, pairs, start);
        if next.AtEnd? {
          return 0;
        }
        if next.Torn? {
          RecordParamsError();
          return -1;
        }
      }
    }

    method SetReaderType(streamType: byte)
      requires Valid()
      modifies this
      ensures Valid() && !isClosed && rdNext == stop && Abs() == Spec.SetReaderType(old(Abs()), streamType)
    {
      typ := streamType;
      eorStop, skip, contentLen, paddingLen := false, false, 0, 0;
      stop := rdNext;
      isClosed := false;
    }

    /** FCGX_StartFilterData */
    method StartFilterData() returns (rc: int)
      requires Valid() && !eorStop
      modifies this
      ensures Valid() && Spec.Status(Abs(), rc) == Spec.StartFilterData(old(Abs()))
      ensures rc == if old(req.role) == 3 && old(isClosed) && old(typ) == 5 then 0 else -1
      ensures rc == 0 ==> !isClosed && typ == 8 && FCGI_errno == old(FCGI_errno)
      ensures rc != 0 ==>
                isClosed && typ == old(typ) && FCGI_errno == if old(FCGI_errno) == 0 then -5 else old(FCGI_errno)
    {
      if req.role != FILTER || !isClosed || typ != STDIN {
        SetError(Spec.CALL_SEQ_ERROR);
        return -1;
      }
      SetReaderType(DATA);
      return 0;
    }

    /** FCGX_GetLine */
    method GetLine(n: int) returns (str: Option<seq<byte>>)
      requires Valid() && Abs().Readable()
      modifies this, buff, conn, req`requestId, req`role, req`keepConnection, req`isBeginProcessed
      ensures Valid() && Spec.Line(Abs(), str) == Spec.GetLine(old(Abs()), n)
      ensures n > 1 ==> (str == None <==> Spec.Drain(old(Abs())).bytes == [])
      ensures n > 1 && str.Some? ==>
                && IsLine(Spec.Drain(old(Abs())).bytes, str.value, n - 1)
                && Spec.Drain(Abs()).bytes == Spec.Drain(old(Abs())).bytes[|str.value|..]
    {
      hide Spec.GetChar, Raw, Abs, Valid, Buffered, Spec.Drain, IsLine;
      ghost var s := Abs();
      GetLineIsLine(s, n);
      var line: seq<byte> := [];
      var left := n - 1;
      while left > 0
        invariant Valid() && Abs().Readable() && left + |line| == n - 1
        invariant left > 0 ==> Spec.ReadLine(s, n - 1) == var rest := Spec.ReadLine(Abs(), left);
                                                          Spec.Read(rest.state, line + rest.bytes)
        invariant left <= 0 && n > 1 ==> line != [] && Spec.ReadLine(s, n - 1) == Spec.Read(Abs(), line)
        invariant n <= 1 ==> line == [] && Abs() == s
      {
        var c := GetChar();
        if c == Spec.EOF {
          assert line + [] == line;
          return if line == [] then None else Some(line);
        }
        line := line + [c];
        left := left - 1;
        if c == Spec.NEWLINE as int {
          break;
        }
      }
      return Some(line);
    }

    /**
     * FCGX_UnGetChar. Once SetReaderType has moved on from a stream, stopUnget may lie
     * ahead of rdNext; stepping back is then not bounded at all, and at the start of the
     * buffer it is undefined.
     */
    method UnGetChar(c: int) returns (r: int)
      requires Valid() && !eorStop
      modifies this`rdNext, buff, conn`undefined
      ensures Valid()
      ensures if c == Spec.EOF || old(isClosed || rdNext == stopUnget)
              then r == Spec.EOF && Abs() == old(Abs()) && rdNext == old(rdNext)
              else if old(rdNext) == 0
              then r == c && Abs() == Spec.Undefine(old(Abs()), true)
              else r == c && Abs() == Spec.Push(old(Abs()), c % 0x100) && rdNext == old(rdNext) - 1
    {
      if c == Spec.EOF || isClosed || rdNext == stopUnget {
        return Spec.EOF;
      }
      if rdNext == 0 {
        NoteUndefined(true);
        return c;
      }
      rdNext := rdNext - 1;
      buff[rdNext] := c % 0x100;
      return c;
    }
  }
}
