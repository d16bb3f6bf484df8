/**
 * What the reader delivers, record by record: section 3.3 of the FastCGI specification,
 * together with the two places where the library departs from it.
 */
module Demux {
  import opened Wire
  import opened Links
  import opened NameValue
  import opened ReaderSpec
  import opened ReaderFacts

  /** How a reader of one stream (type and request) takes a record. */
  datatype Kind = Own | OwnEnd | Foreign | Refused | Query | TornQuery | WildQuery | Unknown | Bad

  function KindOf(r: Record, typ: byte, id: int): Kind {
    if r.typ == BEGIN_REQUEST then
      if r.id == 0 || |r.content| != 8 then Bad else Refused
    else if r.id == 0 then
      if r.typ != GET_VALUES then Unknown
      else if !ParsePairs(r.content).complete then TornQuery
      else if Answerable(Entries(ParsePairs(r.content).pairs)) then Query
      else WildQuery
    else if r.id != id then Foreign
    else if r.typ != typ then Bad
    else if r.content == [] then OwnEnd
    else Own
  }

  /**
   * Whether the reader is still about to skip the next content: an empty foreign record
   * asks for that and nothing but the content of a later record ends it.
   */
  function PendingAfter(r: Record, kind: Kind, pending: bool): bool {
    r.content == [] && (pending || kind == Foreign)
  }

  /** What the reader writes back for a record. */
  function ReplyTo(r: Record, kind: Kind, pending: bool): seq<byte> {
    match kind
    case Refused => CantMultiplexReply(r.id)
    case Query => GetValuesReply(ReplyContent(Entries(if pending then [] else ParsePairs(r.content).pairs)))
    case Unknown => UnknownTypeReply(r.typ)
    case _ => []
  }

  /** What the client gets of a record. */
  function Yielded(r: Record, kind: Kind, pending: bool): seq<byte> {
    if !pending && (kind == Own || kind == Unknown) then r.content else []
  }

  /** Between two records: everything before is consumed, padding included. */
  predicate Boundary(s: State) {
    !s.closed && !s.eor && s.content == 0 && s.padding == 0
  }

  /** A state between records, moved on to the unread bytes u. */
  function At(s: State, link: Link, pending: bool, u: seq<byte>): State {
    s.(link := link.(input := u), skip := pending)
  }

  /** The state as ProcessHeader is called for the record r. */
  function Opened(s: State, r: Record, u: seq<byte>): State {
    s.(link := s.link.(input := r.content + r.padding + u), eor := true)
  }

  /** Filling the buffer comes upon the record r, with u behind it. */
  ghost predicate Meets(s: State, r: Record, u: seq<byte>)
    requires Boundary(s)
  {
    Fill(s, []) == Resume(ProcessHeader(Header(VERSION_1, r.typ, r.id, |r.content|, |r.padding|), Opened(s, r, u)))
  }

  lemma FillAtRecord(s: State, r: Record, u: seq<byte>)
    requires Boundary(s) && r.Fits() && s.Unread() == r.Bytes() + u
    ensures Meets(s, r, u)
  {
    hide ProcessHeader, Resume;
    HeaderRoundTrip(r);
    assert FinishRecord(s) == s;
    assert [] + s.Unread()[..HEADER_LEN] == r.Header();
    assert Drop(s, HEADER_LEN).(eor := true) == Opened(s, r, u);
    assert Fill(s, []) ==
           Resume(ProcessHeader(Header(VERSION_1, r.typ, r.id, |r.content|, |r.padding|), Opened(s, r, u)));
  }

  /** The record just interpreted, before its content: `skip` as the status left it. */
  function Inside(s: State, r: Record, link: Link, skip: bool, u: seq<byte>): State {
    s.(link := link.(input := r.content + r.padding + u), content := |r.content|,
       padding := |r.padding|, skip := skip)
  }

  /** Skipped or empty content and padding lead to the next boundary. */
  lemma FillInside(s: State, r: Record, link: Link, skip: bool, u: seq<byte>)
    requires Boundary(s) && (skip || r.content == [])
    ensures Fill(Inside(s, r, link, skip, u), []) == Fill(At(s, link, skip && r.content == [], u), [])
  {
    hide ProcessHeader, Resume;
    var a := Inside(s, r, link, skip, u);
    var b := At(s, link, skip && r.content == [], u);
    assert (r.content + r.padding + u)[|r.content|..] == r.padding + u;
    assert (r.padding + u)[|r.padding|..] == u;
    if a.Unread() != [] {
      assert FinishRecord(a) == b == FinishRecord(b);
    } else {
      assert a == b;
    }
  }

  /** After the content has been delivered only padding is left to skip. */
  lemma FillAfterContent(s: State, r: Record, link: Link, u: seq<byte>)
    requires Boundary(s)
    ensures var t := Inside(s, r, link, false, u);
            |r.content| <= |t.Unread()| && t.Unread()[..|r.content|] == r.content
            && Fill(Deliver(t, |r.content|), []) == Fill(At(s, link, false, u), [])
  {
    var t := Inside(s, r, link, false, u);
    var empty := r.(content := []);
    assert Deliver(t, |r.content|).Unread() == [] + r.padding + u;
    assert Deliver(t, |r.content|) == Inside(s, empty, link, false, u);
    FillInside(s, empty, link, false, u);
  }

  /** The content of a GET_VALUES record, and what is left after reading it in a nested call. */
  lemma QueryBody(s: State, r: Record, u: seq<byte>)
    requires Boundary(s) && (r.padding + u != [] || (s.skip && r.content != []))
    ensures var o := Opened(s, r, u).(content := |r.content|, padding := |r.padding|);
            DrainNested(o) == Read(At(s, s.link, s.skip && r.content == [], u).(eor := true, closed := true),
                                   if s.skip then [] else r.content)
  {
    var o := Opened(s, r, u).(content := |r.content|, padding := |r.padding|);
    var b := At(s, s.link, s.skip && r.content == [], u).(eor := true, closed := true);
    assert o.Unread() == r.content + (r.padding + u);
    assert (r.padding + u)[|r.padding|..] == u;
    if s.skip {
      assert Deliver(o, 0) == o;
      assert FillNested(o) == b;
      assert o.Unread()[..0] == [];
    } else {
      var t := Deliver(o, |r.content|);
      assert t.Unread() == r.padding + u;
      assert FillNested(t) == b;
      assert o.Unread()[..|r.content|] == r.content;
    }
  }

  /** A reply that fits is sent, and the reader goes on. */
  lemma ReplySent(s: State, data: seq<byte>, code: int)
    requires |data| <= s.link.room
    ensures Reply(s, data, code) == Status(s.(link := Send(s.link, data).link), code)
  {
  }

  /** A record of another request, or of this one while content is still to be skipped. */
  lemma PassSkipped(s: State, r: Record, u: seq<byte>, kind: Kind)
    requires Boundary(s) && r.Fits() && Meets(s, r, u) && kind == KindOf(r, s.typ, s.req.id)
    requires kind == Foreign || (kind == Own && s.skip)
    ensures Fill(s, []) == Fill(At(s, s.link, r.content == [], u), [])
  {
    hide Fill, FinishRecord, TakeHeader, ProcessManagementRecord, ProcessBeginRecord, Record.Bytes;
    FillInside(s, r, s.link, true, u);
  }

  /** A BEGIN_REQUEST that is refused: the reply, and its body to be skipped. */
  lemma HeaderRefused(s: State, r: Record, u: seq<byte>)
    requires Boundary(s) && r.Fits() && KindOf(r, s.typ, s.req.id) == Refused
    requires s.req.begun && |CantMultiplexReply(r.id)| <= s.link.room
    ensures ProcessHeader(Header(VERSION_1, r.typ, r.id, |r.content|, |r.padding|), Opened(s, r, u)) ==
            Status(Inside(s, r, Send(s.link, CantMultiplexReply(r.id)).link, s.skip, u).(eor := true), SKIP)
  {
    hide CantMultiplexReply, ProcessManagementRecord, TakeNested;
    ReplySent(Opened(s, r, u).(content := |r.content|, padding := |r.padding|), CantMultiplexReply(r.id), SKIP);
  }

  lemma PassRefused(s: State, r: Record, u: seq<byte>)
    requires Boundary(s) && r.Fits() && Meets(s, r, u) && KindOf(r, s.typ, s.req.id) == Refused
    requires s.req.begun && |CantMultiplexReply(r.id)| <= s.link.room
    ensures Fill(s, []) == Fill(At(s, Send(s.link, CantMultiplexReply(r.id)).link, false, u), [])
  {
    hide Fill, ProcessHeader, CantMultiplexReply, Record.Bytes, Send, KindOf;
    HeaderRefused(s, r, u);
    RefusedHasContent(r, s.typ, s.req.id);
    FillInside(s, r, Send(s.link, CantMultiplexReply(r.id)).link, true, u);
  }

  /** A management record of unknown type whose content is skipped or empty. */
  lemma PassUnknown(s: State, r: Record, u: seq<byte>)
    requires Boundary(s) && r.Fits() && Meets(s, r, u) && KindOf(r, s.typ, s.req.id) == Unknown
    requires (s.skip || r.content == []) && |UnknownTypeReply(r.typ)| <= s.link.room
    ensures Fill(s, []) ==
            Fill(At(s, Send(s.link, UnknownTypeReply(r.typ)).link, s.skip && r.content == [], u), [])
  {
    hide Fill, FinishRecord, TakeHeader, ProcessBeginRecord, UnknownTypeReply, Record.Bytes;
    var reply := UnknownTypeReply(r.typ);
    ReplySent(Opened(s, r, u).(content := |r.content|, padding := |r.padding|), reply, MGMT_RECORD);
    FillInside(s, r, Send(s.link, reply).link, s.skip, u);
  }

  /** Records that deliver nothing: the reader passes from boundary to boundary. */
  lemma PassOver(s: State, r: Record, u: seq<byte>, kind: Kind)
    requires Boundary(s) && r.Fits() && Meets(s, r, u)
    requires kind == KindOf(r, s.typ, s.req.id)
    requires kind == Foreign || (kind == Refused && s.req.begun) || (kind == Query && s.errno == 0)
             || (kind == Own && s.skip) || (kind == Unknown && (s.skip || r.content == []))
    requires kind == Query ==> r.padding + u != [] || (s.skip && r.content != [])
    requires |ReplyTo(r, kind, s.skip)| <= s.link.room
    ensures var sent := Send(s.link, ReplyTo(r, kind, s.skip)).link;
            Fill(s, []) == Fill(At(s, sent, PendingAfter(r, kind, s.skip), u), [])
  {
    hide Fill, CantMultiplexReply, UnknownTypeReply, GetValuesReply, ReplyContent, Record.Bytes, Send;
    SendNothing(s.link);
    RefusedHasContent(r, s.typ, s.req.id);
    match kind {
      case Refused => PassRefused(s, r, u);
      case Unknown => PassUnknown(s, r, u);
      case Query => PassQuery(s, r, u);
      case _ => PassSkipped(s, r, u, kind);
    }
  }

  lemma RefusedHasContent(r: Record, typ: byte, id: int)
    ensures KindOf(r, typ, id) == Refused ==> r.content != []
  {
  }

  lemma SendNothing(l: Link)
    ensures Send(l, []).link == l
  {
    assert l.out + [] == l.out;
  }

  lemma PassQuery(s: State, r: Record, u: seq<byte>)
    requires Boundary(s) && r.Fits() && Meets(s, r, u) && s.errno == 0
    requires KindOf(r, s.typ, s.req.id) == Query
    requires r.padding + u != [] || (s.skip && r.content != [])
    requires |ReplyTo(r, Query, s.skip)| <= s.link.room
    ensures var sent := Send(s.link, ReplyTo(r, Query, s.skip)).link;
            Fill(s, []) == Fill(At(s, sent, s.skip && r.content == [], u), [])
  {
    hide Fill, FinishRecord, TakeHeader, ProcessManagementRecord, GetValuesReply, ReplyContent;
    AnswerQuery(s, r, u);
    var b := At(s, s.link, s.skip && r.content == [], u).(eor := true, closed := true);
    ReplySent(b, ReplyTo(r, Query, s.skip), MGMT_RECORD);
  }

  /** The reply to a GET_VALUES record, and the reader at its end. */
  lemma AnswerQuery(s: State, r: Record, u: seq<byte>)
    requires Boundary(s) && s.errno == 0 && KindOf(r, s.typ, s.req.id) == Query
    requires r.padding + u != [] || (s.skip && r.content != [])
    ensures var o := Opened(s, r, u).(content := |r.content|, padding := |r.padding|);
            var b := At(s, s.link, s.skip && r.content == [], u).(eor := true, closed := true);
            ProcessManagementRecord(GET_VALUES, o) == Reply(b, ReplyTo(r, Query, s.skip), MGMT_RECORD)
  {
    hide GetValuesReply, DrainNested, ParsePairs, Reply, HasName;
    QueryBody(s, r, u);
    assert ReplyContent(Entries([])) == [] && Answerable(Entries([]));
    hide ReplyContent, Entries, Answerable;
    assert ParsePairs([]) == Parsed([], true) by { ParseStep([]); }
  }

  /** Answering a query of whole pairs is undefined exactly if it is a wild one. */
  lemma WildIff(s: State, r: Record, u: seq<byte>)
    requires Boundary(s) && s.errno == 0 && !s.skip && r.padding + u != []
    requires r.typ == GET_VALUES && r.id == 0 && ParsePairs(r.content).complete
    ensures var o := Opened(s, r, u).(content := |r.content|, padding := |r.padding|);
            var t := ProcessManagementRecord(GET_VALUES, o).state;
            t.link.undefined <==> s.link.undefined || KindOf(r, s.typ, s.req.id) == WildQuery
  {
    hide GetValuesReply, DrainNested, ParsePairs, ReplyContent, Answerable, Entries;
    QueryBody(s, r, u);
  }

  /** Reading on depends only on what the next fill gives. */
  lemma DrainAfterFill(s: State, b: State)
    requires !s.closed && !s.eor && s.req.begun && !b.closed && !b.eor && b.req.begun
    requires Fill(s, []) == Fill(b, [])
    ensures Drain(s) == Drain(b)
  {
    hide Fill;
    assert GetChar(s) == GetChar(b);
  }

  lemma DrainAtDeliverable(s: State)
    requires !s.closed && !s.eor && s.req.begun && Fill(s, []).Deliverable()
    ensures Drain(s) == Drain(Fill(s, []))
  {
    var a := Fill(s, []);
    assert Fill(a, []) == a;
    DrainAfterFill(s, a);
  }

  /** The header of a record with content for the client. */
  lemma HeaderYields(s: State, r: Record, u: seq<byte>, kind: Kind)
    requires Boundary(s) && r.Fits()
    requires kind == KindOf(r, s.typ, s.req.id) && (kind == Own || kind == Unknown) && !s.skip
    requires |ReplyTo(r, kind, false)| <= s.link.room
    ensures ProcessHeader(Header(VERSION_1, r.typ, r.id, |r.content|, |r.padding|), Opened(s, r, u)) ==
            Status(Inside(s, r, Send(s.link, ReplyTo(r, kind, false)).link, false, u).(eor := true),
                   if kind == Own then STREAM_RECORD else MGMT_RECORD)
  {
    hide UnknownTypeReply, ReadQuery, ProcessBeginRecord, Reply;
    SendNothing(s.link);
    ReplySent(Opened(s, r, u).(content := |r.content|, padding := |r.padding|), ReplyTo(r, kind, false), MGMT_RECORD);
  }

  /** The fill that comes upon such a record. */
  lemma FillYields(s: State, r: Record, u: seq<byte>, kind: Kind)
    requires Boundary(s) && r.Fits() && Meets(s, r, u)
    requires kind == KindOf(r, s.typ, s.req.id) && (kind == Own || kind == Unknown) && !s.skip && r.content != []
    requires |ReplyTo(r, kind, false)| <= s.link.room
    ensures var a := Inside(s, r, Send(s.link, ReplyTo(r, kind, false)).link, false, u);
            Fill(s, []) == Fill(a, []) == a
  {
    hide FinishRecord, TakeHeader, ProcessHeader, KindOf, ReplyTo, Send;
    HeaderYields(s, r, u, kind);
    var a := Inside(s, r, Send(s.link, ReplyTo(r, kind, false)).link, false, u);
    assert Fill(a, []) == a;
    hide Fill;
  }

  /** A record whose content goes to the client. */
  lemma YieldRecord(s: State, r: Record, u: seq<byte>, kind: Kind)
    requires Boundary(s) && r.Fits() && s.Unread() == r.Bytes() + u && s.req.begun
    requires kind == KindOf(r, s.typ, s.req.id) && (kind == Own || kind == Unknown)
    requires !s.skip && r.content != []
    requires |ReplyTo(r, kind, false)| <= s.link.room
    ensures var sent := Send(s.link, ReplyTo(r, kind, false)).link;
            var rest := Drain(At(s, sent, false, u));
            Drain(s) == Read(rest.state, r.content + rest.bytes)
  {
    hide Fill, Drain, ReplyTo, KindOf, Record.Bytes, Send;
    var sent := Send(s.link, ReplyTo(r, kind, false)).link;
    var a := Inside(s, r, sent, false, u);
    FillAtRecord(s, r, u);
    FillYields(s, r, u, kind);
    FillAfterContent(s, r, sent, u);
    DrainAtDeliverable(s);
    DrainBulk(a, |r.content|);
    DrainAfterFill(Deliver(a, |r.content|), At(s, sent, false, u));
  }

  /** The empty record that ends the stream. */
  lemma StopAtEnd(s: State, r: Record, u: seq<byte>)
    requires Boundary(s) && r.Fits() && s.Unread() == r.Bytes() + u && s.req.begun
    requires KindOf(r, s.typ, s.req.id) == OwnEnd
    ensures Drain(s) == Read(Settle(At(s, s.link, false, r.padding + u)).(closed := true), [])
  {
    hide FinishRecord, TakeHeader, ProcessManagementRecord, ProcessBeginRecord;
    FillAtRecord(s, r, u);
    assert r.content + r.padding + u == r.padding + u;
    hide Fill;
  }

  /** A record that has no place in the stream. */
  lemma StopAtBad(s: State, r: Record, u: seq<byte>)
    requires Boundary(s) && r.Fits() && s.Unread() == r.Bytes() + u && s.req.begun
    requires KindOf(r, s.typ, s.req.id) == Bad && s.errno == 0
    ensures var d := Drain(s);
            d.bytes == [] && d.state.errno == PROTOCOL_ERROR && d.state.link.out == s.link.out
  {
    hide FinishRecord, TakeHeader, ProcessManagementRecord;
    FillAtRecord(s, r, u);
    hide Fill;
  }

  /** A header of another protocol version, whatever its other bytes say. */
  lemma StopAtVersion(s: State, header: seq<byte>, u: seq<byte>)
    requires Boundary(s) && |header| == 8 && header[0] != 1 && s.Unread() == header + u
    ensures Fill(s, []) == Settle(SetError(At(s, s.link, false, u), -2))
    ensures s.req.begun && s.errno == 0 ==> Drain(s).bytes == [] && Drain(s).state == Fill(s, [])
  {
    hide ProcessManagementRecord, ProcessBeginRecord;
    var o := At(s, s.link, s.skip, u).(eor := true);
    assert Fill(s, []) == Resume(ProcessHeader(ParseHeader(header), o)) by {
      hide ProcessHeader, Resume, ParseHeader;
      assert FinishRecord(s) == s;
      assert [] + s.Unread()[..HEADER_LEN] == header;
      assert Drop(s, HEADER_LEN).(eor := true) == o;
    }
    hide Fill, FinishRecord;
  }

  /** The records that call for a reply. */
  predicate Replied(kind: Kind) {
    kind == Refused || kind == Query || kind == Unknown
  }

  /** A reply that is not taken whole ends the stream with the error of the write. */
  lemma StopAtFailedReply(s: State, r: Record, u: seq<byte>, kind: Kind)
    requires Boundary(s) && r.Fits() && s.Unread() == r.Bytes() + u && s.req.begun && s.errno == 0
    requires kind == KindOf(r, s.typ, s.req.id) && Replied(kind)
    requires kind == Query ==> r.padding + u != []
    requires |ReplyTo(r, kind, s.skip)| > s.link.room
    ensures var d := Drain(s);
            && d.bytes == [] && d.state.errno == s.link.writeErrno
            && d.state.link == Send(s.link, ReplyTo(r, kind, s.skip)).link.(input := d.state.link.input)
  {
    hide Fill, ReplyTo, KindOf, Record.Bytes, Send;
    FillAtRecord(s, r, u);
    if kind == Query {
      QueryUnanswered(s, r, u);
    } else {
      NoticeFails(s, r, u, kind);
    }
  }

  /** What filling the buffer comes to when a reply is not taken whole. */
  ghost predicate Unanswered(s: State, reply: seq<byte>)
    requires Boundary(s)
  {
    var a := Fill(s, []);
    a.closed && a.errno == s.link.writeErrno && a.link == Send(s.link, reply).link.(input := a.link.input)
  }

  lemma QueryUnanswered(s: State, r: Record, u: seq<byte>)
    requires Boundary(s) && r.Fits() && Meets(s, r, u) && s.errno == 0
    requires KindOf(r, s.typ, s.req.id) == Query && r.padding + u != []
    requires |ReplyTo(r, Query, s.skip)| > s.link.room
    ensures Unanswered(s, ReplyTo(r, Query, s.skip))
  {
    hide Fill, ProcessManagementRecord, GetValuesReply, ReplyContent, Answerable, ParsePairs, Send;
    SendFails(s.link, ReplyTo(r, Query, s.skip));
    AnswerQuery(s, r, u);
    SendSameInput(s.link, u, ReplyTo(r, Query, s.skip));
  }

  lemma NoticeFails(s: State, r: Record, u: seq<byte>, kind: Kind)
    requires Boundary(s) && r.Fits() && Meets(s, r, u) && s.errno == 0 && s.req.begun
    requires kind == KindOf(r, s.typ, s.req.id) && (kind == Refused || kind == Unknown)
    requires |ReplyTo(r, kind, s.skip)| > s.link.room
    ensures Unanswered(s, ReplyTo(r, kind, s.skip))
  {
    hide Fill, ReadQuery, TakeNested, UnknownTypeReply, CantMultiplexReply, Send;
    SendFails(s.link, ReplyTo(r, kind, s.skip));
    SendSameInput(s.link, r.content + r.padding + u, ReplyTo(r, kind, s.skip));
  }

  lemma SendFails(l: Link, data: seq<byte>)
    requires |data| > l.room
    ensures !Send(l, data).ok
  {
  }

  lemma SendSameInput(l: Link, u: seq<byte>, data: seq<byte>)
    ensures var a, b := Send(l, data), Send(l.(input := u), data);
            a.ok == b.ok && b.link == a.link.(input := u)
  {
  }

  /** A GET_VALUES record that ends inside a pair ends the stream as well. */
  lemma StopAtTornQuery(s: State, r: Record, u: seq<byte>)
    requires Boundary(s) && r.Fits() && s.Unread() == r.Bytes() + u && r.padding + u != []
    requires s.req.begun && s.errno == 0 && !s.skip && KindOf(r, s.typ, s.req.id) == TornQuery
    ensures var d := Drain(s);
            d.bytes == [] && d.state.errno == PARAMS_ERROR && d.state.link.out == s.link.out
  {
    hide FinishRecord, TakeHeader, DrainNested, ParsePairs, Record.Bytes;
    FillAtRecord(s, r, u);
    QueryBody(s, r, u);
    hide Fill;
  }

  /** Filling the buffer comes upon a header, and then only the first m bytes of content and padding. */
  ghost predicate MeetsCut(s: State, r: Record, m: nat)
    requires Boundary(s) && m <= |r.content + r.padding|
  {
    Fill(s, []) ==
    Resume(ProcessHeader(Header(VERSION_1, r.typ, r.id, |r.content|, |r.padding|),
                         s.(link := s.link.(input := (r.content + r.padding)[..m]), eor := true)))
  }

  lemma FillAtHeader(s: State, r: Record, m: nat)
    requires Boundary(s) && r.Fits() && m <= |r.content + r.padding|
    requires s.Unread() == r.Header() + (r.content + r.padding)[..m]
    ensures MeetsCut(s, r, m)
  {
    hide ProcessHeader, Resume;
    var rest := (r.content + r.padding)[..m];
    HeaderRoundTrip(r);
    assert FinishRecord(s) == s;
    assert [] + s.Unread()[..HEADER_LEN] == r.Header();
    assert s.Unread()[HEADER_LEN..] == rest;
    assert Fill(s, []) == Resume(ProcessHeader(Header(VERSION_1, r.typ, r.id, |r.content|, |r.padding|),
                                               s.(link := s.link.(input := rest), eor := true)));
  }

  /** What is left of a record does not suffice to get past it. */
  lemma FillStarves(s: State)
    requires !s.closed && !s.eor && s.errno == 0
    requires s.Unread() == [] || ((s.skip || s.content == 0) && |s.Unread()| < s.content + s.padding)
    ensures var a := Fill(s, []);
            a.closed && a.errno == s.link.EndError() && a.link == s.link.(input := [])
  {
    hide TakeHeader;
  }

  /** The same inside ProcessHeader, after as much of the content as is there has been read. */
  lemma DrainNestedStarves(s: State)
    requires s.eor && !s.closed && s.errno == 0
    requires |s.Unread()| < s.content + s.padding || s.Unread() == [] || (!s.skip && |s.Unread()| <= s.content)
    ensures var a := DrainNested(s).state; a.errno == s.link.EndError() && a.link == s.link.(input := [])
  {
  }

  /** Reading on inside a record of which only the first m bytes are there. */
  lemma DrainCut(s: State, c: seq<byte>, p: seq<byte>, m: nat)
    requires !s.closed && !s.eor && s.req.begun && s.errno == 0
    requires s.content == |c| && s.padding == |p| && (m < |c + p| || m == 0 == |c + p|)
    requires s.Unread() == (c + p)[..m]
    ensures var d := Drain(s);
            var got := if s.skip then 0 else if m < |c| then m else |c|;
            && d.bytes == c[..got]
            && d.state.errno == s.link.EndError() && d.state.link == s.link.(input := [])
  {
    hide Fill;
    var got := if s.skip then 0 else if m < |c| then m else |c|;
    if got == 0 {
      FillStarves(s);
    } else {
      assert s.Deliverable();
      DrainBulk(s, got);
      assert s.Unread()[..got] == c[..got];
      var t := Deliver(s, got);
      assert t.Unread() == (c + p)[..m][got..];
      FillStarves(t);
      assert Drain(t).bytes == [];
    }
  }

  predicate IsQuery(kind: Kind) {
    kind == Query || kind == TornQuery || kind == WildQuery
  }

  /** What a record that input cuts off still delivers, and what is written back for it. */
  function CutYield(r: Record, kind: Kind, pending: bool, k: nat): seq<byte> {
    var y := Yielded(r, kind, pending);
    if k < HEADER_LEN then [] else if k - HEADER_LEN < |y| then y[..k - HEADER_LEN] else y
  }

  function CutReply(r: Record, kind: Kind, pending: bool, k: nat): seq<byte> {
    if k < HEADER_LEN || IsQuery(kind) then [] else ReplyTo(r, kind, pending)
  }

  /** Input that ends inside a header. */
  lemma StopAtCutHeader(s: State)
    requires Boundary(s) && s.req.begun && s.errno == 0 && |s.Unread()| < HEADER_LEN
    ensures var d := Drain(s);
            d.bytes == [] && d.state.errno == s.link.EndError() && d.state.link == s.link.(input := [])
  {
    assert FinishRecord(s) == s;
    hide FinishRecord, ProcessHeader, Resume;
    assert Fill(s, []) == Settle(Starve(s));
    hide Fill, TakeHeader;
  }

  /** Input that ends inside a query, or right behind one without padding. */
  lemma StopAtCutQuery(s: State, r: Record, m: nat)
    requires Boundary(s) && r.Fits() && s.req.begun && s.errno == 0 && IsQuery(KindOf(r, s.typ, s.req.id))
    requires m < |r.content + r.padding| || (m == |r.content| && r.padding == [] && (!s.skip || r.content == []))
    requires s.Unread() == r.Header() + (r.content + r.padding)[..m]
    ensures var d := Drain(s);
            d.bytes == [] && d.state.errno == s.link.EndError() && d.state.link == s.link.(input := [])
  {
    hide FinishRecord, TakeHeader, ProcessManagementRecord, ProcessBeginRecord, Record.Header;
    FillAtHeader(s, r, m);
    var o := s.(link := s.link.(input := (r.content + r.padding)[..m]), eor := true,
                content := |r.content|, padding := |r.padding|);
    QueryStarves(o);
    hide Fill;
  }

  lemma QueryStarves(s: State)
    requires s.eor && !s.closed && s.errno == 0
    requires |s.Unread()| < s.content + s.padding || s.Unread() == [] || (!s.skip && |s.Unread()| <= s.content)
    ensures var p := ProcessManagementRecord(GET_VALUES, s);
            p.code == PROTOCOL_ERROR && p.state.errno == s.link.EndError() && p.state.link == s.link.(input := [])
  {
    hide DrainNested, ParsePairs, Answerable, ReplyContent, GetValuesReply;
    DrainNestedStarves(s);
  }

  /** Input that ends inside the content or the padding of another record. */
  lemma StopAtCutContent(s: State, r: Record, m: nat, kind: Kind)
    requires Boundary(s) && r.Fits() && s.req.begun && s.errno == 0 && kind == KindOf(r, s.typ, s.req.id)
    requires kind == Own || kind == Foreign || kind == Refused || kind == Unknown
    requires m < |r.content + r.padding| && s.Unread() == r.Header() + (r.content + r.padding)[..m]
    requires |ReplyTo(r, kind, s.skip)| <= s.link.room
    ensures var d := Drain(s);
            && d.bytes == CutYield(r, kind, s.skip, HEADER_LEN + m) && d.state.errno == s.link.EndError()
            && d.state.link == Send(s.link, ReplyTo(r, kind, s.skip)).link.(input := [])
  {
    hide FinishRecord, TakeHeader, ProcessManagementRecord, ProcessBeginRecord, Drain, Record.Header, Send;
    var sent := Send(s.link, ReplyTo(r, kind, s.skip)).link;
    SendCounts(s.link, ReplyTo(r, kind, s.skip));
    var skip := s.skip || kind == Foreign || kind == Refused;
    var b := s.(link := sent.(input := (r.content + r.padding)[..m]), content := |r.content|,
                padding := |r.padding|, skip := skip);
    assert Fill(s, []) == Fill(b, []) by {
      CutHeader(s, r, m, kind);
    }
    hide Fill;
    DrainAfterFill(s, b);
    DrainCut(b, r.content, r.padding, m);
  }

  lemma CutHeader(s: State, r: Record, m: nat, kind: Kind)
    requires Boundary(s) && r.Fits() && s.req.begun && kind == KindOf(r, s.typ, s.req.id)
    requires kind == Own || kind == Foreign || kind == Refused || kind == Unknown
    requires m <= |r.content + r.padding| && s.Unread() == r.Header() + (r.content + r.padding)[..m]
    requires |ReplyTo(r, kind, s.skip)| <= s.link.room
    ensures var sent := Send(s.link, ReplyTo(r, kind, s.skip)).link;
            Fill(s, []) == Fill(s.(link := sent.(input := (r.content + r.padding)[..m]), content := |r.content|,
                                   padding := |r.padding|, skip := s.skip || kind == Foreign || kind == Refused), [])
  {
    hide Fill, FinishRecord, TakeHeader, TakeNested, ReadQuery, UnknownTypeReply, CantMultiplexReply, Record.Header;
    FillAtHeader(s, r, m);
    SendNothing(s.link);
    var o := s.(link := s.link.(input := (r.content + r.padding)[..m]), eor := true,
                content := |r.content|, padding := |r.padding|);
    if kind == Refused {
      ReplySent(o, ReplyTo(r, kind, s.skip), SKIP);
    } else if kind == Unknown {
      ReplySent(o, ReplyTo(r, kind, s.skip), MGMT_RECORD);
    }
  }

  /** Records that do not end a stream, given that GET_VALUES records are well formed. */
  predicate Passable(rs: seq<Record>, typ: byte, id: int) {
    forall i :: 0 <= i < |rs| ==>
      var kind := KindOf(rs[i], typ, id);
      kind == Own || kind == Foreign || kind == Refused || kind == Query || kind == Unknown
  }

  /** Whether record j finds the reader about to skip content. */
  function Pending(rs: seq<Record>, typ: byte, id: int, j: nat): bool
    requires j <= |rs|
  {
    j > 0 && PendingAfter(rs[j - 1], KindOf(rs[j - 1], typ, id), Pending(rs, typ, id, j - 1))
  }

  /** What the client gets of the records from j on. */
  function Delivered(rs: seq<Record>, typ: byte, id: int, j: nat): seq<byte>
    requires j <= |rs|
    decreases |rs| - j
  {
    if j == |rs| then []
    else Yielded(rs[j], KindOf(rs[j], typ, id), Pending(rs, typ, id, j)) + Delivered(rs, typ, id, j + 1)
  }

  /** What is written back for the records from j on. */
  function Replies(rs: seq<Record>, typ: byte, id: int, j: nat): seq<byte>
    requires j <= |rs|
    decreases |rs| - j
  {
    if j == |rs| then []
    else ReplyTo(rs[j], KindOf(rs[j], typ, id), Pending(rs, typ, id, j)) + Replies(rs, typ, id, j + 1)
  }

  /** One record that does not end the stream. */
  lemma OneRecord(s: State, r: Record, u: seq<byte>)
    requires Boundary(s) && r.Fits() && s.Unread() == r.Bytes() + u
    requires s.req.begun && s.errno == 0 && Passable([r], s.typ, s.req.id)
    requires KindOf(r, s.typ, s.req.id) == Query ==> r.padding + u != []
    requires var kind := KindOf(r, s.typ, s.req.id); |ReplyTo(r, kind, s.skip)| <= s.link.room
    ensures var kind := KindOf(r, s.typ, s.req.id);
            var sent := Send(s.link, ReplyTo(r, kind, s.skip)).link;
            var rest := Drain(At(s, sent, PendingAfter(r, kind, s.skip), u));
            Drain(s) == Read(rest.state, Yielded(r, kind, s.skip) + rest.bytes)
  {
    hide Fill, Drain, ReplyTo, KindOf;
    var kind := KindOf(r, s.typ, s.req.id);
    assert KindOf([r][0], s.typ, s.req.id) == kind;
    assert kind == Own ==> r.content != [] by { OwnHasContent(r, s.typ, s.req.id); }
    if (kind == Own || kind == Unknown) && !s.skip && r.content != [] {
      YieldRecord(s, r, u, kind);
    } else {
      FillAtRecord(s, r, u);
      PassOver(s, r, u, kind);
      var sent := Send(s.link, ReplyTo(r, kind, s.skip)).link;
      DrainAfterFill(s, At(s, sent, PendingAfter(r, kind, s.skip), u));
    }
  }

  lemma OwnHasContent(r: Record, typ: byte, id: int)
    ensures KindOf(r, typ, id) == Own ==> r.content != []
  {
  }

  /** Unless the input ends right behind it, a query is answered. */
  predicate Answers(rs: seq<Record>, typ: byte, id: int, tail: seq<byte>) {
    tail == [] && rs != [] ==>
      var last := rs[|rs| - 1]; KindOf(last, typ, id) != Query || last.padding != []
  }

  /** Reading to EOF, from record j on: what the records give, and then what the tail gives. */
  lemma {:induction false} DrainTo(s: State, rs: seq<Record>, j: nat, tail: seq<byte>)
    requires j <= |rs| && AllFit(rs) && AllFit(rs[j..]) && Answers(rs, s.typ, s.req.id, tail)
    requires Boundary(s) && s.req.begun && s.errno == 0
    requires s.Unread() == Bytes(rs[j..]) + tail
    requires Passable(rs, s.typ, s.req.id) && s.skip == Pending(rs, s.typ, s.req.id, j)
    requires |Replies(rs, s.typ, s.req.id, j)| <= s.link.room
    ensures var sent := Send(s.link, Replies(rs, s.typ, s.req.id, j)).link;
            var d := Drain(At(s, sent, Pending(rs, s.typ, s.req.id, |rs|), tail));
            Drain(s) == Read(d.state, Delivered(rs, s.typ, s.req.id, j) + d.bytes)
    decreases |rs| - j
  {
    hide Drain, KindOf, ReplyTo, Yielded, PendingAfter, Record.Bytes;
    if j == |rs| {
      SendNothing(s.link);
      assert Bytes(rs[j..]) + tail == tail;
      assert [] + Drain(s).bytes == Drain(s).bytes;
    } else {
      var r, kind := rs[j], KindOf(rs[j], s.typ, s.req.id);
      assert rs[j..][1..] == rs[j + 1..];
      var rest := Bytes(rs[j + 1..]) + tail;
      assert s.Unread() == r.Bytes() + rest;
      assert [r][0] == r;
      OneRecord(s, r, rest);
      var reply := ReplyTo(r, kind, s.skip);
      var t := At(s, Send(s.link, reply).link, PendingAfter(r, kind, s.skip), rest);
      DrainTo(t, rs, j + 1, tail);
      SendTwice(s.link, rest, reply, Replies(rs, s.typ, s.req.id, j + 1));
      var sent := Send(t.link, Replies(rs, s.typ, s.req.id, j + 1)).link;
      var d := Drain(At(t, sent, Pending(rs, s.typ, s.req.id, |rs|), tail));
      var yielded, later := Yielded(r, kind, s.skip), Delivered(rs, s.typ, s.req.id, j + 1);
      assert yielded + (later + d.bytes) == yielded + later + d.bytes;
    }
  }

  /**
   * Reading a stream to EOF, from record j on: the bytes delivered, the replies written, and
   * at a proper end the unread bytes, which begin with the padding of the ending record.
   */
  lemma DrainRecords(s: State, rs: seq<Record>, j: nat, last: Record, more: seq<byte>)
    requires j <= |rs| && AllFit(rs) && last.Fits() && AllFit(rs[j..])
    requires Boundary(s) && s.req.begun && s.errno == 0
    requires s.Unread() == Bytes(rs[j..]) + (last.Bytes() + more)
    requires Passable(rs, s.typ, s.req.id) && s.skip == Pending(rs, s.typ, s.req.id, j)
    requires |Replies(rs, s.typ, s.req.id, j)| <= s.link.room
    ensures var d := Drain(s);
            var sent := Send(s.link, Replies(rs, s.typ, s.req.id, j)).link;
            var kind := KindOf(last, s.typ, s.req.id);
            && (kind == OwnEnd || kind == Bad ==>
                  d.bytes == Delivered(rs, s.typ, s.req.id, j) && d.state.link.out == sent.out)
            && (kind == OwnEnd ==> d.state == Settle(At(s, sent, false, last.padding + more)).(closed := true))
            && (kind == Bad ==> d.state.errno == PROTOCOL_ERROR)
  {
    hide Drain, KindOf, Replies, Delivered, Record.Bytes;
    RecordNotEmpty(last);
    DrainTo(s, rs, j, last.Bytes() + more);
    var sent := Send(s.link, Replies(rs, s.typ, s.req.id, j)).link;
    var t := At(s, sent, Pending(rs, s.typ, s.req.id, |rs|), last.Bytes() + more);
    assert Delivered(rs, s.typ, s.req.id, j) + [] == Delivered(rs, s.typ, s.req.id, j);
    if KindOf(last, s.typ, s.req.id) == OwnEnd {
      StopAtEnd(t, last, more);
    }
    if KindOf(last, s.typ, s.req.id) == Bad {
      StopAtBad(t, last, more);
    }
  }

  lemma RecordNotEmpty(r: Record)
    requires r.Fits()
    ensures r.Bytes() != []
  {
  }

  lemma SendTwice(l: Link, u: seq<byte>, a: seq<byte>, b: seq<byte>)
    requires |a + b| <= l.room
    ensures var sent := Send(Send(l, a).link.(input := u), b).link;
            sent.(input := l.input) == Send(l, a + b).link
  {
    SendJoin(l, a, b);
  }

  /** Record j comes after an empty foreign record with nothing but empty records between. */
  ghost predicate Swallowed(rs: seq<Record>, typ: byte, id: int, j: nat)
    requires j < |rs|
  {
    exists i :: 0 <= i < j && KindOf(rs[i], typ, id) == Foreign && rs[i].content == []
                && EmptyBetween(rs, i, j)
  }

  ghost predicate EmptyBetween(rs: seq<Record>, i: nat, j: nat)
    requires i < j < |rs|
  {
    forall k :: i < k < j ==> rs[k].content == []
  }

  lemma {:induction false} PendingIsSwallowed(rs: seq<Record>, typ: byte, id: int, j: nat)
    requires j < |rs|
    ensures Pending(rs, typ, id, j) <==> Swallowed(rs, typ, id, j)
  {
    hide KindOf;
    if j > 0 {
      PendingIsSwallowed(rs, typ, id, j - 1);
      var before := rs[j - 1];
      if before.content == [] && KindOf(before, typ, id) == Foreign {
        assert EmptyBetween(rs, j - 1, j);
      } else if before.content == [] && Swallowed(rs, typ, id, j - 1) {
        var i :| 0 <= i < j - 1 && KindOf(rs[i], typ, id) == Foreign && rs[i].content == []
                 && EmptyBetween(rs, i, j - 1);
        assert EmptyBetween(rs, i, j);
      }
      if Swallowed(rs, typ, id, j) {
        var i :| 0 <= i < j && KindOf(rs[i], typ, id) == Foreign && rs[i].content == []
                 && EmptyBetween(rs, i, j);
        if i < j - 1 {
          assert rs[j - 1].content == [];
          assert EmptyBetween(rs, i, j - 1);
        }
      }
    }
  }

  /** A record of the stream whose content never reaches the client. */
  ghost predicate Loses(rs: seq<Record>, typ: byte, id: int, j: nat)
    requires j < |rs|
  {
    KindOf(rs[j], typ, id) == Own && Swallowed(rs, typ, id, j)
  }

  /** A management record of unknown type whose content reaches the client. */
  ghost predicate Leaks(rs: seq<Record>, typ: byte, id: int, j: nat)
    requires j < |rs|
  {
    KindOf(rs[j], typ, id) == Unknown && rs[j].content != [] && !Swallowed(rs, typ, id, j)
  }

  lemma OwnIsProjected(r: Record, typ: byte, id: int)
    requires typ != BEGIN_REQUEST && id != 0
    ensures KindOf(r, typ, id) == Own ==> r.typ == typ && r.id == id && r.content != []
    ensures r.typ == typ && r.id == id ==> KindOf(r, typ, id) == Own || KindOf(r, typ, id) == OwnEnd
  {
  }

  /** The contents of the stream's records, as section 3.3 joins them, from record j on. */
  lemma {:induction false} DeliveredSize(rs: seq<Record>, typ: byte, id: int, j: nat) returns (lost: nat, leaked: nat)
    requires j <= |rs| && typ != BEGIN_REQUEST && id != 0 && Passable(rs, typ, id)
    ensures |Delivered(rs, typ, id, j)| + lost == |Project(rs[j..], typ, id)| + leaked
    ensures lost > 0 <==> exists k :: j <= k < |rs| && Loses(rs, typ, id, k)
    ensures leaked > 0 <==> exists k :: j <= k < |rs| && Leaks(rs, typ, id, k)
    ensures lost == leaked == 0 ==> Delivered(rs, typ, id, j) == Project(rs[j..], typ, id)
    decreases |rs| - j
  {
    hide KindOf, Swallowed, Pending;
    if j == |rs| {
      lost, leaked := 0, 0;
    } else {
      var r := rs[j];
      lost, leaked := DeliveredSize(rs, typ, id, j + 1);
      assert rs[j..][1..] == rs[j + 1..];
      PendingIsSwallowed(rs, typ, id, j);
      OwnIsProjected(r, typ, id);
      if Loses(rs, typ, id, j) {
        lost := lost + |r.content|;
      } else if Leaks(rs, typ, id, j) {
        leaked := leaked + |r.content|;
      }
    }
  }
}
