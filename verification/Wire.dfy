/** The FastCGI 1.0 record layer: headers, bodies and whole records as bytes. */
module Wire {

  type byte = b: int | 0 <= b < 256

  const HEADER_LEN := 8
  const MAX_LENGTH := 0xffff

  const VERSION_1: byte := 1

  const BEGIN_REQUEST: byte := 1
  const END_REQUEST: byte := 3
  const PARAMS: byte := 4
  const STDIN: byte := 5
  const STDOUT: byte := 6
  const STDERR: byte := 7
  const DATA: byte := 8
  const GET_VALUES: byte := 9
  const GET_VALUES_RESULT: byte := 10
  const UNKNOWN_TYPE: byte := 11

  const KEEP_CONN := 1
  const RESPONDER := 1
  const AUTHORIZER := 2
  const FILTER := 3

  const REQUEST_COMPLETE: byte := 0
  const CANT_MPX_CONN: byte := 1

  /** The smallest multiple of 8 that is at least n. */
  function AlignInt8(n: nat): (r: nat)
    ensures r % 8 == 0 && n <= r < n + 8
  {
    (n + 7) / 8 * 8
  }

  function Zeros(n: nat): (z: seq<byte>)
    ensures |z| == n
  {
    seq(n, _ => 0)
  }

  /** The two low-order bytes of n, high byte first; negative n in two's complement. */
  function TwoBytes(n: int): (b: seq<byte>)
    ensures |b| == 2
    ensures 0 <= n <= MAX_LENGTH ==> (b[0] as int) * 0x100 + b[1] as int == n
  {
    [n / 0x100 % 0x100, n % 0x100]
  }

  /** The unsigned 16-bit integer spelled by two big-endian bytes. */
  function Word(high: byte, low: byte): (n: int)
    ensures 0 <= n <= MAX_LENGTH
  {
    (high as int) * 0x100 + low as int
  }

  lemma WordIsBack(n: int)
    requires 0 <= n <= MAX_LENGTH
    ensures Word(TwoBytes(n)[0], TwoBytes(n)[1]) == n
  {
  }

  lemma TwoBytesOfWord(high: byte, low: byte)
    ensures TwoBytes(Word(high, low)) == [high, low]
  {
    var n := Word(high, low);
    assert n / 0x100 == high && n % 0x100 == low;
  }

  /** The 32-bit two's complement integer spelled by four big-endian bytes. */
  function SignedFromBytes(b: seq<byte>): int
    requires |b| == 4
  {
    var u := Word(b[0], b[1]) * 0x1_0000 + Word(b[2], b[3]);
    if u < 0x8000_0000 then u else u - 0x1_0000_0000
  }

  /** A 32-bit integer in big-endian bytes, a negative one in two's complement. */
  function FourBytes(n: int): (b: seq<byte>)
    ensures |b| == 4
    ensures -0x8000_0000 <= n < 0x8000_0000 ==>
              (b[0] as int) * 0x100_0000 + (b[1] as int) * 0x1_0000 + (b[2] as int) * 0x100 + b[3] as int ==
              if n < 0 then n + 0x1_0000_0000 else n
  {
    var u := n % 0x1_0000_0000;
    TwoBytes(u / 0x1_0000) + TwoBytes(u % 0x1_0000)
  }

  /** Every 32-bit integer is read back from its four big-endian bytes. */
  lemma FourBytesRoundTrip(n: int)
    requires -0x8000_0000 <= n < 0x8000_0000
    ensures SignedFromBytes(FourBytes(n)) == n
  {
    hide TwoBytes, Word;
    var u := n % 0x1_0000_0000;
    WordIsBack(u / 0x1_0000);
    WordIsBack(u % 0x1_0000);
  }

  /** FCGI_Header, with its two-byte fields already combined. */
  datatype Header = Header(version: byte, typ: byte, id: int, contentLength: int, paddingLength: int)

  function MakeHeader(typ: byte, id: int, contentLength: int, paddingLength: byte): (bytes: seq<byte>)
    ensures |bytes| == HEADER_LEN
  {
    [VERSION_1, typ] + TwoBytes(id) + TwoBytes(contentLength) + [paddingLength, 0]
  }

  /** Header fields as ProcessHeader reads them; the reserved byte is not looked at. */
  function ParseHeader(b: seq<byte>): (h: Header)
    requires |b| == HEADER_LEN
    ensures 0 <= h.id <= MAX_LENGTH && 0 <= h.contentLength <= MAX_LENGTH && 0 <= h.paddingLength < 256
  {
    Header(b[0], b[1], Word(b[2], b[3]), Word(b[4], b[5]), b[6])
  }

  function MakeEndRequestBody(appStatus: int, protocolStatus: byte): (bytes: seq<byte>)
    ensures |bytes| == 8
  {
    FourBytes(appStatus) + [protocolStatus, 0, 0, 0]
  }

  function MakeUnknownTypeBody(typ: byte): (bytes: seq<byte>)
    ensures |bytes| == 8
  {
    [typ] + Zeros(7)
  }

  /** One record of section 3.3: a stream of these is what travels over a connection. */
  datatype Record = Record(typ: byte, id: int, content: seq<byte>, padding: seq<byte>, reserved: byte) {
    predicate Fits() {
      && 0 <= id <= MAX_LENGTH
      && |content| <= MAX_LENGTH
      && |padding| < 256
    }

    function Header(): (bytes: seq<byte>)
      requires Fits()
      ensures |bytes| == HEADER_LEN
    {
      [VERSION_1, typ] + TwoBytes(id) + TwoBytes(|content|) + [|padding|, reserved]
    }

    function Bytes(): (bytes: seq<byte>)
      requires Fits()
      ensures |bytes| == HEADER_LEN + |content| + |padding|
    {
      Header() + content + padding
    }
  }

  lemma HeaderRoundTrip(r: Record)
    requires r.Fits()
    ensures ParseHeader(r.Header()) == Header(VERSION_1, r.typ, r.id, |r.content|, |r.padding|)
  {
    hide TwoBytes, Word;
    WordIsBack(r.id);
    WordIsBack(|r.content|);
    var h := r.Header();
    assert h[2] == TwoBytes(r.id)[0] && h[3] == TwoBytes(r.id)[1];
    assert h[4] == TwoBytes(|r.content|)[0] && h[5] == TwoBytes(|r.content|)[1];
  }

  /** A record padded with zeros to a multiple of 8 bytes, as the library emits it. */
  function Padded(typ: byte, id: int, content: seq<byte>): (r: Record)
    requires 0 <= id <= MAX_LENGTH && |content| <= MAX_LENGTH
    ensures r.Fits() && (HEADER_LEN + |r.content| + |r.padding|) % 8 == 0
  {
    Record(typ, id, content, Zeros(AlignInt8(|content|) - |content|), 0)
  }

  function EndRequest(id: int, appStatus: int, protocolStatus: byte): (r: Record)
    requires 0 <= id <= MAX_LENGTH
    ensures r.Fits()
  {
    Padded(END_REQUEST, id, MakeEndRequestBody(appStatus, protocolStatus))
  }

  /** Section 3.3: where each part of a record lies. */
  lemma RecordLayout(r: Record)
    requires r.Fits()
    ensures var b := r.Bytes();
            && b[0] == 1 && b[1] == r.typ && b[6] == |r.padding| && b[7] == r.reserved
            && (b[2] as int) * 0x100 + b[3] as int == r.id && (b[4] as int) * 0x100 + b[5] as int == |r.content|
            && b[8..8 + |r.content|] == r.content && b[8 + |r.content|..] == r.padding
  {
    hide TwoBytes;
    var id, length := TwoBytes(r.id), TwoBytes(|r.content|);
    var h := r.Header();
    assert h[2] == id[0] && h[3] == id[1] && h[4] == length[0] && h[5] == length[1];
    assert r.Bytes()[..8] == h;
  }

  /**
   * Section 5.5: the end of request `id`, with a 32-bit exit status in four big-endian bytes, the
   * protocol status REQUEST_COMPLETE, three zeros and no padding.
   */
  predicate Completes(r: Record, id: int, status: int) {
    && r.typ == 3 && r.id == id && |r.content| == 8 && r.padding == []
    && r.content[4..] == [0, 0, 0, 0]
    && (-0x8000_0000 <= status < 0x8000_0000 ==> SignedFromBytes(r.content[..4]) == status)
  }

  lemma EndRequestCompletes(id: int, status: int)
    requires 0 <= id <= MAX_LENGTH
    ensures Completes(EndRequest(id, status, REQUEST_COMPLETE), id, status)
  {
    var r := EndRequest(id, status, REQUEST_COMPLETE);
    hide FourBytes, SignedFromBytes;
    assert r.content[..4] == FourBytes(status);
    assert r.content[4..] == [0, 0, 0, 0];
    if -0x8000_0000 <= status < 0x8000_0000 {
      FourBytesRoundTrip(status);
    }
  }

  /** The status 7, in bytes. */
  lemma EndRequestOfSeven(id: int)
    requires 0 <= id <= MAX_LENGTH
    ensures EndRequest(id, 7, REQUEST_COMPLETE) == Record(3, id, [0, 0, 0, 7, 0, 0, 0, 0], [], 0)
  {
    assert FourBytes(7) == [0, 0, 0, 7];
    assert MakeEndRequestBody(7, REQUEST_COMPLETE) == [0, 0, 0, 7, 0, 0, 0, 0];
  }

  predicate AllFit(rs: seq<Record>) {
    forall i :: 0 <= i < |rs| ==> rs[i].Fits()
  }

  /** The bytes of a sequence of records. */
  function Bytes(rs: seq<Record>): seq<byte>
    requires AllFit(rs)
  {
    if rs == [] then [] else rs[0].Bytes() + Bytes(rs[1..])
  }

  lemma {:induction false} BytesAppend(a: seq<Record>, b: seq<Record>)
    requires AllFit(a) && AllFit(b)
    ensures AllFit(a + b) && Bytes(a + b) == Bytes(a) + Bytes(b)
  {
    if a == [] {
      assert a + b == b;
    } else {
      assert (a + b)[0] == a[0] && (a + b)[1..] == a[1..] + b;
      BytesAppend(a[1..], b);
      assert a[0].Bytes() + (Bytes(a[1..]) + Bytes(b)) == a[0].Bytes() + Bytes(a[1..]) + Bytes(b);
    }
  }

  datatype Option<T> = None | Some(value: T)

  /** The version-1 record at the front of b; None when there is no whole one. */
  function FirstRecord(b: seq<byte>): (r: Option<Record>)
    ensures r.Some? ==> r.value.Fits()
  {
    if |b| < HEADER_LEN then None
    else
      var h := ParseHeader(b[..HEADER_LEN]);
      var padAt := HEADER_LEN + h.contentLength;
      var end := padAt + h.paddingLength;
      if h.version != VERSION_1 || |b| < end then None
      else Some(Record(h.typ, h.id, b[HEADER_LEN..padAt], b[padAt..end], b[7]))
  }

  lemma FirstRecordIsPrefix(b: seq<byte>)
    requires FirstRecord(b).Some?
    ensures FirstRecord(b).value.Bytes() <= b
  {
    var r := FirstRecord(b).value;
    TwoBytesOfWord(b[2], b[3]);
    TwoBytesOfWord(b[4], b[5]);
    assert r.Header() == b[..HEADER_LEN];
  }

  lemma FirstRecordOfBytes(r: Record, rest: seq<byte>)
    requires r.Fits()
    ensures FirstRecord(r.Bytes() + rest) == Some(r)
  {
    var b := r.Bytes() + rest;
    HeaderRoundTrip(r);
    assert b[..HEADER_LEN] == r.Header();
    assert b[7] == r.Header()[7];
    var n := HEADER_LEN + |r.content|;
    assert b[HEADER_LEN..n] == r.content;
    assert b[n..n + |r.padding|] == r.padding;
  }

  /** Splits bytes into whole version-1 records; None when they are anything else. */
  function Parse(b: seq<byte>): (rs: Option<seq<Record>>)
    ensures rs.Some? ==> AllFit(rs.value)
  {
    if b == [] then Some([])
    else
      match FirstRecord(b)
      case None => None
      case Some(r) =>
        FirstRecordIsPrefix(b);
        match Parse(b[|r.Bytes()|..])
        case None => None
        case Some(rest) => Some([r] + rest)
  }

  /** Parse inverts Bytes, so the bytes written determine the records written. */
  lemma {:induction false} ParseBytes(rs: seq<Record>)
    requires AllFit(rs)
    ensures Parse(Bytes(rs)) == Some(rs)
  {
    if rs != [] {
      var b := Bytes(rs);
      FirstRecordOfBytes(rs[0], Bytes(rs[1..]));
      assert b[|rs[0].Bytes()|..] == Bytes(rs[1..]);
      ParseBytes(rs[1..]);
      assert [rs[0]] + rs[1..] == rs;
    }
  }

  /** Only the bytes of those records parse to them. */
  lemma {:induction false} BytesParse(b: seq<byte>)
    requires Parse(b).Some?
    ensures Bytes(Parse(b).value) == b
  {
    hide FirstRecord, Record.Bytes, TwoBytes, Word, ParseHeader;
    if b != [] {
      FirstRecordIsPrefix(b);
      var r := FirstRecord(b).value;
      var n := |r.Bytes()|;
      BytesParse(b[n..]);
      var rest := Parse(b[n..]).value;
      assert ([r] + rest)[1..] == rest;
      assert b == b[..n] + b[n..];
    }
  }

  /** Every record is a multiple of 8 bytes long. */
  predicate Aligned(rs: seq<Record>) {
    forall i :: 0 <= i < |rs| ==> (HEADER_LEN + |rs[i].content| + |rs[i].padding|) % 8 == 0
  }

  /** The contents of the records of one type and request, joined. */
  function Project(rs: seq<Record>, typ: byte, id: int): seq<byte> {
    if rs == [] then []
    else (if rs[0].typ == typ && rs[0].id == id then rs[0].content else []) + Project(rs[1..], typ, id)
  }

  lemma {:induction false} ProjectAppend(a: seq<Record>, b: seq<Record>, typ: byte, id: int)
    ensures Project(a + b, typ, id) == Project(a, typ, id) + Project(b, typ, id)
  {
    if a == [] {
      assert a + b == b;
    } else {
      assert (a + b)[0] == a[0] && (a + b)[1..] == a[1..] + b;
      ProjectAppend(a[1..], b, typ, id);
    }
  }
}
