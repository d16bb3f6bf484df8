/** The streams of a request, as section 3.3 defines them, and as the reader delivers them. */
module RequestStreams {
  import opened Wire
  import opened Links
  import opened ReaderSpec
  import opened Demux
  import G = GetValues

  ghost predicate LosesNone(rs: seq<Record>, typ: byte, id: int) {
    forall k :: 0 <= k < |rs| ==> !Loses(rs, typ, id, k)
  }

  ghost predicate LeaksNone(rs: seq<Record>, typ: byte, id: int) {
    forall k :: 0 <= k < |rs| ==> !Leaks(rs, typ, id, k)
  }

  /** The state at the start of a stream: nothing pending, no error. */
  predicate StreamStart(s: State) {
    Boundary(s) && !s.skip && s.errno == 0
  }

  /** The unread bytes of a stream: its records, its ending record, and whatever follows. */
  ghost predicate Ahead(s: State, rs: seq<Record>, last: Record, more: seq<byte>) {
    && AllFit(rs) && last.Fits()
    && s.Unread() == Bytes(rs) + (last.Bytes() + more)
    && Passable(rs, s.typ, s.req.id)
    && s.typ != BEGIN_REQUEST && s.req.id != 0
    && |Replies(rs, s.typ, s.req.id, 0)| <= s.link.room
  }

  /**
   * Section 3.3: reading a stream to EOF gives the joined contents of its records, exactly
   * when no record of the stream is swallowed, as long as no unknown management record
   * leaks its content, and the other way round.
   */
  lemma Demultiplexes(s: State, rs: seq<Record>, last: Record, more: seq<byte>)
    requires StreamStart(s) && s.req.begun && Ahead(s, rs, last, more)
    requires last.typ == s.typ && last.id == s.req.id && last.content == []
    ensures var d := Drain(s);
            var joined := Project(rs, s.typ, s.req.id);
            && (LeaksNone(rs, s.typ, s.req.id) ==> (d.bytes == joined <==> LosesNone(rs, s.typ, s.req.id)))
            && (LosesNone(rs, s.typ, s.req.id) ==> (d.bytes == joined <==> LeaksNone(rs, s.typ, s.req.id)))
  {
    hide Drain, KindOf, Loses, Leaks, Delivered, Project, Replies, Record.Bytes;
    assert rs[0..] == rs;
    Kinds(last, s.typ, s.req.id);
    DrainRecords(s, rs, 0, last, more);
    var lost, leaked := DeliveredSize(rs, s.typ, s.req.id, 0);
  }

  /** After EOF: no error, all replies written, and the ending record's padding left unread. */
  lemma AfterEnd(s: State, rs: seq<Record>, last: Record, more: seq<byte>, next: byte)
    requires StreamStart(s) && s.req.begun && Ahead(s, rs, last, more)
    requires last.typ == s.typ && last.id == s.req.id && last.content == []
    ensures var d := Drain(s).state;
            var t := SetReaderType(d, next);
            && d.closed && d.errno == 0 && d.typ == s.typ && d.req == s.req
            && d.link.out == s.link.out + Replies(rs, s.typ, s.req.id, 0)
            && StreamStart(t) && t.req == s.req && t.typ == next
            && t.link.room == s.link.room - |Replies(rs, s.typ, s.req.id, 0)|
            && t.Unread() == last.padding + more
            && (t.Unread() == more <==> last.padding == [])
  {
    hide Drain, KindOf, Delivered, Replies, Record.Bytes;
    assert rs[0..] == rs;
    Kinds(last, s.typ, s.req.id);
    DrainRecords(s, rs, 0, last, more);
    assert last.padding == [] ==> last.padding + more == more;
    assert last.padding != [] ==> |last.padding + more| > |more|;
  }

  /** A record that has no place in the stream ends it with an error, after what came before. */
  lemma ProtocolErrorEnds(s: State, rs: seq<Record>, bad: Record, more: seq<byte>)
    requires StreamStart(s) && s.req.begun && Ahead(s, rs, bad, more)
    requires if bad.typ == 1 then bad.id == 0 || |bad.content| != 8 else bad.id == s.req.id && bad.typ != s.typ
    ensures var d := Drain(s);
            && d.state.errno == -3
            && d.bytes == Delivered(rs, s.typ, s.req.id, 0)
            && d.state.link.out == s.link.out + Replies(rs, s.typ, s.req.id, 0)
  {
    hide Drain, KindOf, Delivered, Replies, Record.Bytes;
    Kinds(bad, s.typ, s.req.id);
    assert rs[0..] == rs;
    DrainRecords(s, rs, 0, bad, more);
  }

  /** A query that ends inside a pair, unless it is skipped, ends the stream with an error too. */
  lemma TornQueryEnds(s: State, rs: seq<Record>, torn: Record, more: seq<byte>)
    requires StreamStart(s) && s.req.begun && Ahead(s, rs, torn, more)
    requires KindOf(torn, s.typ, s.req.id) == TornQuery && torn.padding + more != []
    requires !Pending(rs, s.typ, s.req.id, |rs|)
    ensures var d := Drain(s);
            && d.state.errno == -4
            && d.bytes == Delivered(rs, s.typ, s.req.id, 0)
            && d.state.link.out == s.link.out + Replies(rs, s.typ, s.req.id, 0)
  {
    hide Drain, KindOf, Delivered, Replies, Pending, Record.Bytes, Passable, Bytes;
    assert rs[0..] == rs;
    NothingPending(rs, s.typ, s.req.id);
    RecordNotEmpty(torn);
    DrainTo(s, rs, 0, torn.Bytes() + more);
    var sent := Send(s.link, Replies(rs, s.typ, s.req.id, 0)).link;
    StopAtTornQuery(At(s, sent, false, torn.Bytes() + more), torn, more);
    assert Delivered(rs, s.typ, s.req.id, 0) + [] == Delivered(rs, s.typ, s.req.id, 0);
  }

  /** A header of another protocol version ends the stream with an error as well, wherever it comes. */
  lemma VersionErrorEnds(s: State, rs: seq<Record>, header: seq<byte>, more: seq<byte>)
    requires StreamStart(s) && s.req.begun && AllFit(rs) && Passable(rs, s.typ, s.req.id)
    requires |header| == 8 && header[0] != 1 && s.Unread() == Bytes(rs) + (header + more)
    requires |Replies(rs, s.typ, s.req.id, 0)| <= s.link.room
    ensures var d := Drain(s);
            && d.state.errno == -2
            && d.bytes == Delivered(rs, s.typ, s.req.id, 0)
            && d.state.link.out == s.link.out + Replies(rs, s.typ, s.req.id, 0)
            && d.state.Unread() == more
  {
    hide Drain, Delivered, Replies, Pending, Passable, Bytes, Fill;
    assert rs[0..] == rs;
    NothingPending(rs, s.typ, s.req.id);
    DrainTo(s, rs, 0, header + more);
    var sent := Send(s.link, Replies(rs, s.typ, s.req.id, 0)).link;
    StopAtVersion(At(s, sent, Pending(rs, s.typ, s.req.id, |rs|), header + more), header, more);
    assert Delivered(rs, s.typ, s.req.id, 0) + [] == Delivered(rs, s.typ, s.req.id, 0);
  }

  /**
   * A reply that the connection does not take whole ends the stream with the error of that write;
   * of the replies as much has been written as there was room for.
   */
  lemma FailedReplyEnds(s: State, rs: seq<Record>, r: Record, more: seq<byte>)
    requires StreamStart(s) && s.req.begun && Ahead(s, rs, r, more) && Replied(KindOf(r, s.typ, s.req.id))
    requires KindOf(r, s.typ, s.req.id) == Query ==> r.padding + more != []
    requires |Replies(rs, s.typ, s.req.id, 0)|
             + |ReplyTo(r, KindOf(r, s.typ, s.req.id), Pending(rs, s.typ, s.req.id, |rs|))| > s.link.room
    ensures var d := Drain(s);
            var replies := Replies(rs, s.typ, s.req.id, 0)
                           + ReplyTo(r, KindOf(r, s.typ, s.req.id), Pending(rs, s.typ, s.req.id, |rs|));
            && d.state.errno == s.link.writeErrno
            && d.bytes == Delivered(rs, s.typ, s.req.id, 0)
            && d.state.link.out == s.link.out + replies[..s.link.room]
            && d.state.link.failed == s.link.failed + 1
  {
    hide Drain, KindOf, Delivered, Replies, ReplyTo, Pending, Passable, Bytes, Record.Bytes;
    assert rs[0..] == rs;
    NothingPending(rs, s.typ, s.req.id);
    RecordNotEmpty(r);
    DrainTo(s, rs, 0, r.Bytes() + more);
    var pending := Pending(rs, s.typ, s.req.id, |rs|);
    var a, b := Replies(rs, s.typ, s.req.id, 0), ReplyTo(r, KindOf(r, s.typ, s.req.id), pending);
    var sent := Send(s.link, a).link;
    StopAtFailedReply(At(s, sent, pending, r.Bytes() + more), r, more, KindOf(r, s.typ, s.req.id));
    assert Delivered(rs, s.typ, s.req.id, 0) + [] == Delivered(rs, s.typ, s.req.id, 0);
    assert (a + b)[..s.link.room] == a + b[..sent.room];
    assert s.link.out + (a + b[..sent.room]) == s.link.out + a + b[..sent.room];
  }

  /** A stream that ends with the first k bytes of the record `cut`. */
  ghost predicate CutOff(rs: seq<Record>, typ: byte, id: int, cut: Record, k: nat) {
    var kind := KindOf(cut, typ, id);
    && AllFit(rs) && cut.Fits() && k <= |cut.Bytes()|
    && Passable(rs, typ, id) && Answers(rs, typ, id, cut.Bytes()[..k])
    && (k >= HEADER_LEN ==> kind != OwnEnd && kind != Bad)
    && (k == |cut.Bytes()| ==>
          IsQuery(kind) && cut.padding == [] && (!Pending(rs, typ, id, |rs|) || cut.content == []))
  }

  /**
   * Input that ends in the middle of a stream: what has come of it is delivered, and the error
   * is that of the connection (a protocol error at end of file).
   */
  lemma CutOffEnds(s: State, rs: seq<Record>, cut: Record, k: nat)
    requires StreamStart(s) && s.req.begun && CutOff(rs, s.typ, s.req.id, cut, k)
    requires s.Unread() == Bytes(rs) + cut.Bytes()[..k]
    requires var pending := Pending(rs, s.typ, s.req.id, |rs|);
             |Replies(rs, s.typ, s.req.id, 0)|
             + |CutReply(cut, KindOf(cut, s.typ, s.req.id), pending, k)| <= s.link.room
    ensures var d := Drain(s);
            var kind, pending := KindOf(cut, s.typ, s.req.id), Pending(rs, s.typ, s.req.id, |rs|);
            && d.bytes == Delivered(rs, s.typ, s.req.id, 0) + CutYield(cut, kind, pending, k)
            && d.state.errno == (if s.link.ending == 0 then -3 else s.link.ending)
            && d.state.link.out == s.link.out + (Replies(rs, s.typ, s.req.id, 0) + CutReply(cut, kind, pending, k))
  {
    hide Drain, KindOf, Delivered, Replies, Pending, Record.Bytes, ReplyTo, Yielded, Passable, Answers, Bytes;
    assert rs[0..] == rs;
    NothingPending(rs, s.typ, s.req.id);
    var tail := cut.Bytes()[..k];
    DrainTo(s, rs, 0, tail);
    var replies := Replies(rs, s.typ, s.req.id, 0);
    var pending := Pending(rs, s.typ, s.req.id, |rs|);
    var t := At(s, Send(s.link, replies).link, pending, tail);
    CutEnds(t, cut, k);
    var reply := CutReply(cut, KindOf(cut, s.typ, s.req.id), pending, k);
    assert s.link.out + (replies + reply) == s.link.out + replies + reply;
  }

  lemma CutEnds(s: State, cut: Record, k: nat)
    requires Boundary(s) && s.req.begun && s.errno == 0 && cut.Fits() && k <= |cut.Bytes()|
    requires s.Unread() == cut.Bytes()[..k]
    requires k >= HEADER_LEN ==> KindOf(cut, s.typ, s.req.id) != OwnEnd && KindOf(cut, s.typ, s.req.id) != Bad
    requires k == |cut.Bytes()| ==>
               IsQuery(KindOf(cut, s.typ, s.req.id)) && cut.padding == [] && (!s.skip || cut.content == [])
    requires |CutReply(cut, KindOf(cut, s.typ, s.req.id), s.skip, k)| <= s.link.room
    ensures var d := Drain(s);
            var kind := KindOf(cut, s.typ, s.req.id);
            && d.bytes == CutYield(cut, kind, s.skip, k) && d.state.errno == s.link.EndError()
            && d.state.link.out == s.link.out + CutReply(cut, kind, s.skip, k)
  {
    hide Drain, KindOf, ReplyTo;
    var kind := KindOf(cut, s.typ, s.req.id);
    assert s.link.out + [] == s.link.out;
    if k < HEADER_LEN {
      StopAtCutHeader(s);
    } else {
      var m := k - HEADER_LEN;
      assert cut.Bytes()[..k] == cut.Header() + (cut.content + cut.padding)[..m];
      hide Record.Bytes;
      if IsQuery(kind) {
        StopAtCutQuery(s, cut, m);
      } else {
        assert kind == Own || kind == Foreign || kind == Refused || kind == Unknown by { SomeKind(cut, s.typ, s.req.id); }
        StopAtCutContent(s, cut, m, kind);
      }
    }
  }

  lemma SomeKind(r: Record, typ: byte, id: int)
    ensures var kind := KindOf(r, typ, id);
            || kind == Own || kind == OwnEnd || kind == Foreign || kind == Refused || kind == Unknown || kind == Bad
            || IsQuery(kind)
  {
  }

  /** What each kind of record is, seen from a stream of its own type and request. */
  lemma Kinds(r: Record, typ: byte, id: int)
    requires typ != 1 && id != 0
    ensures var kind := KindOf(r, typ, id);
            && (kind == Own <==> r.typ == typ && r.id == id && r.content != [])
            && (kind == OwnEnd <==> r.typ == typ && r.id == id && r.content == [])
            && (kind == Foreign <==> r.typ != 1 && r.id != 0 && r.id != id)
            && (kind == Bad <==> if r.typ == 1 then r.id == 0 || |r.content| != 8 else r.id == id && r.typ != typ)
            && (kind == Refused <==> r.typ == 1 && r.id != 0 && |r.content| == 8)
            && (kind == Unknown <==> r.id == 0 && r.typ != 1 && r.typ != 9)
            && (IsQuery(kind) <==> r.id == 0 && r.typ == 9)
  {
  }

  lemma NothingPending(rs: seq<Record>, typ: byte, id: int)
    ensures !Pending(rs, typ, id, 0)
  {
  }

  /** Nothing lost, nothing leaked. */
  ghost predicate Clean(rs: seq<Record>, typ: byte, id: int) {
    LosesNone(rs, typ, id) && LeaksNone(rs, typ, id)
  }

  /** One request's stream on the wire: clean, and ended by an empty record without padding. */
  datatype Section = Section(rs: seq<Record>, end: Record) {
    ghost predicate Good(typ: byte, id: int) {
      && AllFit(rs) && end.Fits() && end.padding == []
      && Passable(rs, typ, id) && Clean(rs, typ, id) && KindOf(end, typ, id) == OwnEnd
    }

    function Wire(more: seq<byte>): seq<byte>
      requires AllFit(rs) && end.Fits()
    {
      Bytes(rs) + (end.Bytes() + more)
    }

    function Answers(typ: byte, id: int): seq<byte> {
      Replies(rs, typ, id, 0)
    }
  }

  lemma ReadSection(s: State, x: Section, more: seq<byte>, next: byte)
    requires StreamStart(s) && s.req.begun && s.typ != BEGIN_REQUEST && s.req.id != 0
    requires x.Good(s.typ, s.req.id) && s.Unread() == x.Wire(more)
    requires |x.Answers(s.typ, s.req.id)| <= s.link.room
    ensures var d := Drain(s);
            var t := SetReaderType(d.state, next);
            && d.bytes == Project(x.rs, s.typ, s.req.id)
            && d.state.closed && d.state.typ == s.typ && d.state.req == s.req
            && StreamStart(t) && t.req == s.req && t.typ == next && t.Unread() == more
            && t.link.out == s.link.out + x.Answers(s.typ, s.req.id)
            && t.link.room == s.link.room - |x.Answers(s.typ, s.req.id)|
  {
    hide Drain, KindOf, Replies, Project, LosesNone, LeaksNone, Record.Bytes;
    Kinds(x.end, s.typ, s.req.id);
    Demultiplexes(s, x.rs, x.end, more);
    AfterEnd(s, x.rs, x.end, more, next);
  }

  /**
   * The three input streams of a request, one after the other: PARAMS, then STDIN, then for
   * a filter DATA once FCGX_StartFilterData has moved on to it.
   */
  lemma ThreeStreams(s: State, params: Section, stdin: Section, data: Section, more: seq<byte>)
    requires StreamStart(s) && s.req.begun && s.typ == PARAMS && s.req.id != 0
    requires params.Good(PARAMS, s.req.id) && stdin.Good(STDIN, s.req.id) && data.Good(DATA, s.req.id)
    requires s.Unread() == params.Wire(stdin.Wire(data.Wire(more)))
    requires |params.Answers(PARAMS, s.req.id)| + |stdin.Answers(STDIN, s.req.id)|
             + |data.Answers(DATA, s.req.id)| <= s.link.room
    ensures var a := Drain(s);
            var b := Drain(SetReaderType(a.state, STDIN));
            && a.bytes == Project(params.rs, PARAMS, s.req.id)
            && b.bytes == Project(stdin.rs, STDIN, s.req.id)
            && (s.req.role == 3 ==>
                  var start := StartFilterData(b.state);
                  start.code == 0 && Drain(start.state).bytes == Project(data.rs, DATA, s.req.id))
            && (s.req.role != 3 ==> StartFilterData(b.state).code < 0)
  {
    var afterStdin := data.Wire(more);
    var afterParams := stdin.Wire(afterStdin);
    hide Drain, Project, Section.Good, Section.Wire, Section.Answers;
    ReadSection(s, params, afterParams, STDIN);
    var t := SetReaderType(Drain(s).state, STDIN);
    ReadSection(t, stdin, afterStdin, DATA);
    var u := SetReaderType(Drain(t).state, DATA);
    ReadSection(u, data, more, DATA);
  }

  /**
   * FCGX_StartFilterData succeeds exactly at the end of STDIN of a filter. Anywhere else it ends
   * the stream with a call sequence error, unless an earlier error is on record.
   */
  lemma FilterDataIff(s: State)
    requires s.req.begun && !s.eor
    ensures var p := StartFilterData(s);
            && (p.code == 0 <==> s.req.role == 3 && s.typ == 5 && s.closed)
            && (p.code == 0 ==> p.state.typ == 8 && Boundary(p.state) && !p.state.skip && p.state.errno == s.errno)
            && (p.code != 0 ==> p.code == -1 && p.state.typ == s.typ && Drain(p.state) == Read(p.state, [])
                                && p.state.errno == if s.errno == 0 then -5 else s.errno)
            && p.state.link == s.link
  {
    hide Advance;
  }

  /** An empty record of another request makes the next content of this one vanish. */
  lemma EmptyForeignLoses(id: int, other: int)
    requires 0 < id <= MAX_LENGTH && 0 < other <= MAX_LENGTH && id != other
    ensures var rs := [Record(STDIN, other, [], [], 0), Record(STDIN, id, [65], [], 0)];
            && Passable(rs, STDIN, id) && LeaksNone(rs, STDIN, id) && Loses(rs, STDIN, id, 1)
            && Project(rs, STDIN, id) == [65] && Delivered(rs, STDIN, id, 0) == []
  {
    var rs := [Record(STDIN, other, [], [], 0), Record(STDIN, id, [65], [], 0)];
    assert KindOf(rs[0], STDIN, id) == Foreign && KindOf(rs[1], STDIN, id) == Own;
    assert EmptyBetween(rs, 0, 1);
    assert Pending(rs, STDIN, id, 1);
    assert Delivered(rs, STDIN, id, 2) == [];
    assert Delivered(rs, STDIN, id, 1) == [];
    assert rs[1..] == [rs[1]];
    assert Project(rs[1..], STDIN, id) == [65];
  }

  /** The body of a management record of unknown type is taken for stream content. */
  lemma UnknownTypeLeaks(id: int)
    requires 0 < id <= MAX_LENGTH
    ensures var rs := [Record(UNKNOWN_TYPE, 0, [66], [], 0)];
            && Passable(rs, STDIN, id) && LosesNone(rs, STDIN, id) && Leaks(rs, STDIN, id, 0)
            && Project(rs, STDIN, id) == [] && Delivered(rs, STDIN, id, 0) == [66]
  {
    var rs := [Record(UNKNOWN_TYPE, 0, [66], [], 0)];
    assert KindOf(rs[0], STDIN, id) == Unknown;
    assert Delivered(rs, STDIN, id, 1) == [];
    assert rs[1..] == [];
  }

  /** A query for a name that is a NUL: the library writes through a null pointer. */
  lemma NulNameIsWild(typ: byte, id: int)
    ensures var r := Record(GET_VALUES, 0, [1, 0, 0], [0], 0);
            r.Fits() && KindOf(r, typ, id) == WildQuery && !Passable([r], typ, id)
  {
    G.NulNameUndefined();
    var r := Record(GET_VALUES, 0, [1, 0, 0], [0], 0);
    assert KindOf([r][0], typ, id) == WildQuery;
  }

  /** Records a reader passes over while it waits for BEGIN_REQUEST. */
  predicate Overture(rs: seq<Record>, typ: byte, id: int) {
    forall i :: 0 <= i < |rs| ==>
      var kind := KindOf(rs[i], typ, id);
      kind == Foreign || kind == Query || (kind == Unknown && rs[i].content == [])
  }

  lemma {:induction false} PassOverture(s: State, rs: seq<Record>, j: nat, u: seq<byte>)
    requires j <= |rs| && AllFit(rs) && AllFit(rs[j..]) && u != []
    requires Boundary(s) && s.errno == 0 && s.Unread() == Bytes(rs[j..]) + u
    requires Overture(rs, s.typ, s.req.id) && s.skip == Pending(rs, s.typ, s.req.id, j)
    requires |Replies(rs, s.typ, s.req.id, j)| <= s.link.room
    ensures var sent := Send(s.link, Replies(rs, s.typ, s.req.id, j)).link;
            Fill(s, []) == Fill(At(s, sent, Pending(rs, s.typ, s.req.id, |rs|), u), [])
    decreases |rs| - j
  {
    hide Fill, KindOf, ReplyTo, PendingAfter, Record.Bytes;
    if j == |rs| {
      SendNothing(s.link);
      assert Bytes(rs[j..]) + u == u;
    } else {
      var r, kind := rs[j], KindOf(rs[j], s.typ, s.req.id);
      assert rs[j..][1..] == rs[j + 1..];
      var rest := Bytes(rs[j + 1..]) + u;
      assert s.Unread() == r.Bytes() + rest;
      FillAtRecord(s, r, rest);
      PassOver(s, r, rest, kind);
      var reply := ReplyTo(r, kind, s.skip);
      var t := At(s, Send(s.link, reply).link, PendingAfter(r, kind, s.skip), rest);
      PassOverture(t, rs, j + 1, u);
      SendTwice(s.link, rest, reply, Replies(rs, s.typ, s.req.id, j + 1));
    }
  }

  /** A BEGIN_REQUEST record with a request id and a body of the right size. */
  predicate IsBegin(r: Record) {
    r.Fits() && r.typ == BEGIN_REQUEST && r.id != 0 && |r.content| == 8
  }

  /** The request a BEGIN_REQUEST body opens. */
  function Begun(r: Record): Req
    requires IsBegin(r)
  {
    Req(r.id, Word(r.content[0], r.content[1]), r.content[2] % 2 == KEEP_CONN, true)
  }

  /** BEGIN_REQUEST is taken in, unless its body is swallowed by an empty foreign record. */
  lemma BeginAtBoundary(s: State, r: Record, u: seq<byte>)
    requires Boundary(s) && !s.req.begun && IsBegin(r) && s.Unread() == r.Bytes() + u
    ensures !s.skip ==> Fill(s, []) ==
                        At(s, s.link, false, r.padding + u).(req := Begun(r), padding := |r.padding|)
    ensures s.skip ==> Fill(s, []).closed && !Fill(s, []).req.begun
  {
    hide FinishRecord, TakeHeader, ProcessManagementRecord, TakeNested;
    FillAtRecord(s, r, u);
    var o := Opened(s, r, u).(content := 8, padding := |r.padding|, req := s.req.(id := r.id));
    TakeBegin(o, r, u);
  }

  lemma TakeBegin(o: State, r: Record, u: seq<byte>)
    requires o.eor && !o.closed && o.content == 8 == |r.content| && o.Unread() == r.content + r.padding + u
    ensures !o.skip ==> TakeNested(o, 8) == Read(o.(link := o.link.(input := r.padding + u), content := 0), r.content)
    ensures o.skip ==> TakeNested(o, 8).bytes == []
  {
    if !o.skip {
      assert o.Unread()[8..] == r.padding + u && o.Unread()[..8] == r.content;
    }
  }

  /**
   * A new reader on a connection whose bytes start with some ignorable records and a
   * BEGIN_REQUEST: the request is begun as that record says, and PARAMS comes next exactly
   * if the record is not padded.
   */
  lemma BeginRequest(s: State, rs: seq<Record>, begin: Record, u: seq<byte>)
    requires StreamStart(s) && !s.req.begun && AllFit(rs) && IsBegin(begin)
    requires s.Unread() == Bytes(rs) + (begin.Bytes() + u)
    requires Overture(rs, s.typ, s.req.id) && |Replies(rs, s.typ, s.req.id, 0)| <= s.link.room
    requires !Pending(rs, s.typ, s.req.id, |rs|)
    ensures var t := SetReaderType(Fill(s, []), PARAMS);
            && !Fill(s, []).closed && t.req == Begun(begin) && t.req.id == begin.id && t.req.begun
            && t.req.role == (begin.content[0] as int) * 0x100 + begin.content[1] as int
            && (t.req.keep <==> begin.content[2] % 2 == 1)
            && StreamStart(t) && t.typ == PARAMS && t.Unread() == begin.padding + u
            && (t.Unread() == u <==> begin.padding == [])
            && t.link.out == s.link.out + Replies(rs, s.typ, s.req.id, 0)
            && t.link.room == s.link.room - |Replies(rs, s.typ, s.req.id, 0)| && t.link.ending == s.link.ending
  {
    hide Fill, KindOf, Replies, Record.Bytes;
    assert rs[0..] == rs;
    assert begin.Bytes() != [] by { RecordNotEmpty(begin); }
    PassOverture(s, rs, 0, begin.Bytes() + u);
    var sent := Send(s.link, Replies(rs, s.typ, s.req.id, 0)).link;
    BeginAtBoundary(At(s, sent, false, begin.Bytes() + u), begin, u);
    assert begin.padding != [] ==> |begin.padding + u| > |u|;
    assert begin.padding == [] ==> begin.padding + u == u;
  }
}
