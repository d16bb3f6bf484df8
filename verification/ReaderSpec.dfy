/**
 * What the demultiplexing reader does, byte by byte of its connection and without a buffer.
 * A State holds every unread byte, whether or not a read has fetched it yet, so nothing
 * here depends on how the network cut the bytes into reads.
 */
module ReaderSpec {
  import opened Wire
  import opened Links
  import opened NameValue

  const EOF := -1

  // FCGX_errno values
  const UNSUPPORTED_VERSION := -2
  const PARAMS_ERROR := -4
  const CALL_SEQ_ERROR := -5

  // Return codes of the Process functions; negative ones are errors.
  const STREAM_RECORD := 0
  const SKIP := 1
  const BEGIN_RECORD := 2
  const MGMT_RECORD := 3

  /** The fields of FCGX_Request that reading touches. */
  datatype Req = Req(id: int, role: int, keep: bool, begun: bool)

  /**
   * link.input holds the unread bytes; the next `content` of them belong to the current
   * record, the `padding` after those pad it. Once the stream is closed outside a nested
   * call, content, padding and skip are dead: only SetReaderType reopens the stream and it
   * resets all three. They are then kept at 0, 0 and false.
   */
  datatype State = State(
    link: Link, content: nat, padding: nat, skip: bool, eor: bool, closed: bool,
    errno: int, typ: byte, req: Req)
  {
    function Unread(): seq<byte> { link.input }

    /** The next byte can be handed to the client as it is. */
    predicate Deliverable() {
      !closed && 0 < content && !skip && Unread() != []
    }

    /** Reading is allowed: inside a nested call, or after BEGIN_REQUEST was seen. */
    predicate Readable() {
      eor || req.begun
    }
  }

  function Drop(s: State, n: nat): State
    requires n <= |s.Unread()|
  {
    s.(link := s.link.(input := s.Unread()[n..]))
  }

  /** Hands the next n content bytes to the client. */
  function Deliver(s: State, n: nat): State
    requires n <= |s.Unread()| && n <= s.content
  {
    Drop(s, n).(content := s.content - n)
  }

  function SetError(s: State, e: int): State {
    s.(errno := if s.errno == 0 then e else s.errno, closed := true)
  }

  /** Runs out of input: everything is consumed and the stream records why. */
  function Starve(s: State): State {
    SetError(s.(link := s.link.(input := [])), s.link.EndError())
  }

  /** Clears the fields that are dead once the stream is closed. */
  function Settle(s: State): State {
    s.(content := 0, padding := 0, skip := false)
  }

  function SkipContent(s: State): (r: State)
    requires !s.closed && (s.skip || s.content == 0)
    ensures |r.Unread()| <= |s.Unread()|
  {
    if s.content > |s.Unread()| then Starve(s.(content := s.content - |s.Unread()|))
    else if s.content == 0 then s
    else Deliver(s, s.content).(skip := false)
  }

  function SkipPadding(s: State): (r: State)
    requires !s.closed
    ensures |r.Unread()| <= |s.Unread()|
  {
    if s.padding > |s.Unread()| then Starve(s.(padding := s.padding - |s.Unread()|))
    else Drop(s, s.padding).(padding := 0)
  }

  /** Consumes what is left of the current record; the result is closed iff input ran out. */
  function FinishRecord(s: State): (r: State)
    requires !s.closed && (s.skip || s.content == 0)
    ensures |r.Unread()| <= |s.Unread()|
    ensures !r.closed ==> r.content == 0 && r.padding == 0
  {
    var a := SkipContent(s);
    if a.closed then a else SkipPadding(a)
  }

  /** FillBuffProc inside ProcessHeader: never reads past the current record. */
  function FillNested(s: State): (r: State)
    requires s.eor && !s.closed
    ensures |r.Unread()| <= |s.Unread()|
    ensures r.req == s.req && r.eor && (r.closed || (r == s && r.Deliverable()))
  {
    if s.Unread() == [] then Starve(s)
    else if s.content > 0 && !s.skip then s
    else FinishRecord(s).(closed := true)
  }

  datatype Read = Read(state: State, bytes: seq<byte>)

  /** Reads up to n bytes of the current record, as GetStr does in a nested call. */
  function TakeNested(s: State, n: nat): (r: Read)
    requires s.eor && !s.closed && 0 < n <= s.content
    ensures |r.state.Unread()| <= |s.Unread()| && |r.bytes| <= n
    ensures r.state.eor && r.state.req == s.req
    ensures |r.bytes| == n == s.content ==>
              !r.state.closed && !r.state.skip && r.state.content == 0
  {
    var k := if s.skip then 0 else if n <= |s.Unread()| then n else |s.Unread()|;
    if k == n then Read(Deliver(s, n), s.Unread()[..n])
    else Read(FillNested(Deliver(s, k)), s.Unread()[..k])
  }

  /** Reads the current record to its end, as ReadParams does in a nested call. */
  function DrainNested(s: State): (r: Read)
    requires s.eor && !s.closed
    ensures |r.state.Unread()| <= |s.Unread()| && r.state.closed && r.state.eor && r.state.req == s.req
  {
    var k := if s.skip then 0 else if s.content <= |s.Unread()| then s.content else |s.Unread()|;
    Read(FillNested(Deliver(s, k)), s.Unread()[..k])
  }

  datatype ParamsRead = ParamsRead(state: State, pairs: seq<Pair>, rc: int)

  datatype Status = Status(state: State, code: int)

  function Reply(s: State, data: seq<byte>, code: int): (r: Status)
    ensures r.state.Unread() == s.Unread() && r.state.req == s.req && r.state.eor == s.eor
    ensures r.code == code || r.code == -1
  {
    var sent := Send(s.link, data);
    if sent.ok then Status(s.(link := sent.link), code)
    else Status(SetError(s.(link := sent.link), s.link.writeErrno), -1)
  }

  function Ascii(s: string): (b: seq<byte>)
    requires forall i :: 0 <= i < |s| ==> s[i] < 128 as char
    ensures |b| == |s| && forall i :: 0 <= i < |s| ==> b[i] == s[i] as int
  {
    seq(|s|, i requires 0 <= i < |s| => s[i] as int)
  }

  const MAX_CONNS := Ascii("FCGI_MAX_CONNS")
  const MAX_REQS := Ascii("FCGI_MAX_REQS")
  const MPXS_CONNS := Ascii("FCGI_MPXS_CONNS")

  const ZERO: byte := 48
  const ONE: byte := 49

  /** The variables this library answers for, and their one-character values. */
  function KnownValue(name: seq<byte>): (value: Option<byte>)
    ensures value.Some? ==> |name| <= 15
  {
    if name == MAX_CONNS || name == MAX_REQS then Some(ONE)
    else if name == MPXS_CONNS then Some(ZERO)
    else None
  }

  /** The reply content for environment strings, in their order. */
  function ReplyContent(entries: seq<seq<byte>>): seq<byte> {
    if entries == [] then []
    else
      var name := UpTo(entries[0], EQUALS);
      var rest := ReplyContent(entries[1..]);
      match KnownValue(name)
      case None => rest
      case Some(v) => [|name|, 1] + name + [v] + rest
  }

  /** Header, content and the NUL that the last sprintf adds fit the response buffer. */
  predicate FitsResponse(content: seq<byte>) {
    HEADER_LEN + |content| + 1 <= RESPONSE_SIZE
  }

  const RESPONSE_SIZE := 64

  /** strchr finds the '=' behind the name: no NUL comes before it. */
  predicate HasName(entry: seq<byte>) {
    NUL !in UpTo(entry, EQUALS)
  }

  /** The queries whose reply C defines; for others the library writes where it must not. */
  predicate Answerable(entries: seq<seq<byte>>) {
    (forall i :: 0 <= i < |entries| ==> HasName(entries[i])) && FitsResponse(ReplyContent(entries))
  }

  /** From here on C leaves undefined what happens. */
  function Undefine(s: State, undefined: bool): State {
    s.(link := s.link.(undefined := s.link.undefined || undefined))
  }

  function GetValuesReply(content: seq<byte>): seq<byte> {
    var padding := AlignInt8(|content|) - |content|;
    MakeHeader(GET_VALUES_RESULT, 0, |content|, padding) + content + Zeros(padding)
  }

  function UnknownTypeReply(typ: byte): seq<byte> {
    MakeHeader(UNKNOWN_TYPE, 0, 8, 0) + MakeUnknownTypeBody(typ)
  }

  function CantMultiplexReply(id: int): seq<byte> {
    MakeHeader(END_REQUEST, id, 8, 0) + MakeEndRequestBody(0, CANT_MPX_CONN)
  }

  /** Everything ReadParams learns from a GET_VALUES record. */
  function ReadQuery(s: State): (r: ParamsRead)
    requires s.eor && !s.closed
    ensures |r.state.Unread()| <= |s.Unread()| && r.state.req == s.req && r.state.eor
  {
    var read := DrainNested(s);
    var parsed := ParsePairs(read.bytes);
    if parsed.complete then ParamsRead(read.state, parsed.pairs, 0)
    else ParamsRead(SetError(read.state, PARAMS_ERROR), parsed.pairs, -1)
  }

  function ProcessManagementRecord(typ: byte, s: State): (r: Status)
    requires s.eor && !s.closed
    ensures |r.state.Unread()| <= |s.Unread()|
    ensures r.state.req == s.req && r.state.eor && r.code != BEGIN_RECORD
  {
    if typ != GET_VALUES then Reply(s, UnknownTypeReply(typ), MGMT_RECORD)
    else
      var query := ReadQuery(s);
      if query.state.errno != 0 || query.state.content != 0 then Status(query.state, PROTOCOL_ERROR)
      else
        var entries := Entries(query.pairs);
        Reply(Undefine(query.state, !Answerable(entries)), GetValuesReply(ReplyContent(entries)), MGMT_RECORD)
  }

  function ProcessBeginRecord(id: int, s: State): (r: Status)
    requires s.eor && !s.closed
    ensures |r.state.Unread()| <= |s.Unread()|
    ensures s.req.begun ==> r.code != BEGIN_RECORD && r.state.req.begun
    ensures r.state.eor && (r.code == BEGIN_RECORD ==> !r.state.closed && !r.state.skip && r.state.content == 0)
  {
    if id == 0 || s.content != 8 then Status(s, PROTOCOL_ERROR)
    else if s.req.begun then Reply(s, CantMultiplexReply(id), SKIP)
    else
      var read := TakeNested(s.(req := s.req.(id := id)), 8);
      if |read.bytes| != 8 then Status(read.state, PROTOCOL_ERROR)
      else
        var b := read.bytes;
        var req := Req(id, Word(b[0], b[1]), b[2] % 2 == 1, true);
        Status(read.state.(req := req), BEGIN_RECORD)
  }

  function ProcessHeader(h: Header, s: State): (r: Status)
    requires s.eor && !s.closed
    requires 0 <= h.contentLength && 0 <= h.paddingLength
    ensures |r.state.Unread()| <= |s.Unread()|
    ensures s.req.begun ==> r.code != BEGIN_RECORD && r.state.req.begun
    ensures r.state.eor && (r.code == BEGIN_RECORD ==> !r.state.closed && !r.state.skip && r.state.content == 0)
  {
    if h.version != VERSION_1 then Status(s, UNSUPPORTED_VERSION)
    else
      var a := s.(content := h.contentLength, padding := h.paddingLength);
      if h.typ == BEGIN_REQUEST then ProcessBeginRecord(h.id, a)
      else if h.id == 0 then ProcessManagementRecord(h.typ, a)
      else if h.id != a.req.id then Status(a, SKIP)
      else if h.typ != a.typ then Status(a, PROTOCOL_ERROR)
      else Status(a, STREAM_RECORD)
  }

  /** FillBuffProc outside nested calls, with the header bytes it has collected so far. */
  function Fill(s: State, header: seq<byte>): (r: State)
    requires !s.eor && !s.closed && |header| < HEADER_LEN
    ensures |r.Unread()| <= |s.Unread()|
    ensures !r.eor
    ensures s.req.begun ==> r.req.begun && (r.closed || r.Deliverable())
    decreases |s.Unread()|, 1
  {
    if s.Unread() == [] then Settle(Starve(s))
    else if s.content > 0 && !s.skip then s
    else
      var a := FinishRecord(s);
      if a.closed then Settle(a) else TakeHeader(a, header)
  }

  /** The part of Fill after the current record is used up. */
  function TakeHeader(s: State, header: seq<byte>): (r: State)
    requires !s.eor && !s.closed && |header| < HEADER_LEN
    ensures |r.Unread()| <= |s.Unread()|
    ensures !r.eor
    ensures s.req.begun ==> r.req.begun && (r.closed || r.Deliverable())
    decreases |s.Unread()|, 0
  {
    var missing := HEADER_LEN - |header|;
    if |s.Unread()| < missing then Settle(Starve(s))
    else
      var h := ParseHeader(header + s.Unread()[..missing]);
      Resume(ProcessHeader(h, Drop(s, missing).(eor := true)))
  }

  /** What FillBuffProc does with the outcome of ProcessHeader. */
  function Resume(p: Status): (r: State)
    ensures |r.Unread()| <= |p.state.Unread()|
    ensures !r.eor
    ensures p.state.req.begun && p.code != BEGIN_RECORD ==>
              r.req.begun && (r.closed || r.Deliverable())
    decreases |p.state.Unread()|, 2
  {
    var a := p.state.(eor := false, closed := false);
    if p.code == STREAM_RECORD then
      if a.content == 0 then Settle(a.(closed := true)) else Fill(a, [])
    else if p.code == SKIP then Fill(a.(skip := true), [])
    else if p.code == BEGIN_RECORD then a
    else if p.code == MGMT_RECORD then Fill(a, [])
    else Settle(SetError(a, p.code))
  }

  function Advance(s: State): (r: State)
    requires !s.closed
    ensures |r.Unread()| <= |s.Unread()|
    ensures r.eor == s.eor
    ensures s.Readable() ==> r.Readable() && (r.closed || r.Deliverable())
  {
    if s.eor then FillNested(s) else Fill(s, [])
  }

  datatype Got = Got(state: State, c: int)

  /** FCGX_GetChar: the next byte of the stream, or EOF. */
  function GetChar(s: State): (r: Got)
    requires s.Readable()
    ensures r.state.Readable() && r.state.eor == s.eor
    ensures r.c == EOF ==> r.state.closed && |r.state.Unread()| <= |s.Unread()|
    ensures r.c != EOF ==> 0 <= r.c < 256 && |r.state.Unread()| < |s.Unread()| && !s.closed && !r.state.closed
  {
    if s.closed then Got(s, EOF)
    else
      var a := Advance(s);
      if a.closed then Got(a, EOF) else Got(Deliver(a, 1), a.Unread()[0])
  }

  /** FCGX_GetStr: n times GetChar, stopped at EOF. */
  function GetStr(s: State, n: nat): (r: Read)
    requires s.Readable()
    ensures r.state.Readable() && r.state.eor == s.eor
    ensures |r.bytes| <= n && |r.state.Unread()| <= |s.Unread()|
    ensures |r.bytes| < n ==> r.state.closed
    decreases n
  {
    if n == 0 then Read(s, [])
    else
      var got := GetChar(s);
      if got.c == EOF then Read(got.state, [])
      else
        var rest := GetStr(got.state, n - 1);
        Read(rest.state, [got.c] + rest.bytes)
  }

  /** Everything up to EOF. */
  function Drain(s: State): (r: Read)
    requires s.Readable()
    ensures r.state.Readable() && r.state.eor == s.eor
    ensures r.state.closed && |r.state.Unread()| <= |s.Unread()|
    decreases |s.Unread()|
  {
    var got := GetChar(s);
    if got.c == EOF then Read(got.state, [])
    else
      var rest := Drain(got.state);
      Read(rest.state, [got.c] + rest.bytes)
  }

  /** ReadParams: reads to EOF; the bytes read decide the pairs and the return code. */
  function ReadParams(s: State): (r: ParamsRead)
    requires s.Readable()
    ensures r.state.Readable() && r.state.eor == s.eor && r.state.closed
  {
    var read := Drain(s);
    var parsed := ParsePairs(read.bytes);
    if parsed.complete then ParamsRead(read.state, parsed.pairs, 0)
    else ParamsRead(SetError(read.state, PARAMS_ERROR), parsed.pairs, -1)
  }

  /** SetReaderType: forgets the rest of the current record, padding included. */
  function SetReaderType(s: State, typ: byte): State {
    Settle(s).(typ := typ, eor := false, closed := false)
  }

  /** FCGX_StartFilterData: from the end of STDIN to the start of DATA. */
  function StartFilterData(s: State): (r: Status)
    ensures r.state.req == s.req
  {
    if s.req.role != FILTER || !s.closed || s.typ != STDIN then
      Status(Settle(SetError(s, CALL_SEQ_ERROR)).(eor := s.eor), -1)
    else Status(SetReaderType(s, DATA), 0)
  }

  const NEWLINE: byte := 10

  /** Up to n bytes, stopped after a newline or at EOF. */
  function ReadLine(s: State, n: nat): (r: Read)
    requires s.Readable()
    ensures r.state.Readable() && r.state.eor == s.eor
    decreases n
  {
    if n == 0 then Read(s, [])
    else
      var got := GetChar(s);
      if got.c == EOF then Read(got.state, [])
      else if got.c == NEWLINE as int then Read(got.state, [NEWLINE])
      else
        var rest := ReadLine(got.state, n - 1);
        Read(rest.state, [got.c] + rest.bytes)
  }

  datatype Line = Line(state: State, str: Option<seq<byte>>)

  /** FCGX_GetLine into n characters of which one is the terminator; None stands for NULL. */
  function GetLine(s: State, n: int): (r: Line)
    requires s.Readable()
    ensures r.state.Readable() && r.state.eor == s.eor
  {
    if n <= 1 then Line(s, Some([]))
    else
      var line := ReadLine(s, n - 1);
      Line(line.state, if line.bytes == [] then None else Some(line.bytes))
  }

  /** A successful FCGX_UnGetChar: b is the next byte again. */
  function Push(s: State, b: byte): State {
    s.(link := s.link.(input := [b] + s.Unread()), content := s.content + 1)
  }

  function PushAll(s: State, bs: seq<byte>): State
    decreases |bs|
  {
    if bs == [] then s else PushAll(Push(s, bs[0]), bs[1..])
  }
}
