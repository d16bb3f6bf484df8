/** What FCGX_Accept_r makes of the connections it is offered. */
module AcceptSpec {
  import opened Wire
  import opened Links
  import opened NameValue
  import opened Params
  import opened ReaderSpec
  import opened Demux
  import opened RequestStreams
  import T = Tiling

  const ROLE_NAME := Ascii("FCGI_ROLE")

  /** The environment entry for a role, if FCGX_Accept_r knows it. */
  function RolePair(role: int): Option<Pair> {
    if role == RESPONDER then Some(Pair(ROLE_NAME, Ascii("RESPONDER")))
    else if role == AUTHORIZER then Some(Pair(ROLE_NAME, Ascii("AUTHORIZER")))
    else if role == FILTER then Some(Pair(ROLE_NAME, Ascii("FILTER")))
    else None
  }

  /** Section 5.1: the roles are numbered 1 to 3. */
  lemma RolesKnown(role: int)
    ensures RolePair(role).Some? <==> 1 <= role <= 3
  {
  }

  /** A new reader over a connection; req still has the fields of the request before. */
  function NewReader(link: Link, req: Req): State {
    State(link, 0, 0, false, false, false, 0, 0, req.(begun := false))
  }

  datatype Offered = Rejected(state: State) | Accepted(state: State, pairs: seq<Pair>)

  /** One turn of the loop in FCGX_Accept_r on an open connection. */
  function Offer(link: Link, req: Req): Offered {
    var begun := Fill(NewReader(link, req), []);
    if !begun.req.begun || RolePair(begun.req.role).None? then Rejected(begun)
    else
      var read := ReadParams(SetReaderType(begun, PARAMS));
      if read.rc < 0 then Rejected(read.state)
      else Accepted(SetReaderType(read.state, STDIN), read.pairs)
  }

  datatype Outcome = Exhausted(req: Req) | Found(state: State, pairs: seq<Pair>, tried: nat)

  /** The first connection that carries an acceptable request; earlier ones leave traces in req. */
  function FirstAcceptable(links: seq<Link>, req: Req): Outcome {
    if links == [] then Exhausted(req)
    else
      match Offer(links[0], req)
      case Accepted(state, pairs) => Found(state, pairs, 0)
      case Rejected(state) =>
        match FirstAcceptable(links[1..], state.req)
        case Exhausted(last) => Exhausted(last)
        case Found(found, pairs, tried) => Found(found, pairs, tried + 1)
  }

  /** An outcome reached after k more connections. */
  function Later(o: Outcome, k: nat): Outcome {
    match o
    case Exhausted(req) => o
    case Found(state, pairs, tried) => Found(state, pairs, tried + k)
  }

  /** The environment of an accepted request. */
  function Environment(role: int, pairs: seq<Pair>): seq<seq<byte>>
    requires RolePair(role).Some?
  {
    [RolePair(role).value.Entry()] + Entries(pairs)
  }

  /** The names of the roles, in ASCII, as section 6 gives them for FCGI_ROLE. */
  function RoleName(role: int): seq<byte> {
    if role == 1 then [82, 69, 83, 80, 79, 78, 68, 69, 82]
    else if role == 2 then [65, 85, 84, 72, 79, 82, 73, 90, 69, 82]
    else [70, 73, 76, 84, 69, 82]
  }

  /** What FCGX_GetParam is to find: the role under FCGI_ROLE, else the first pair's value. */
  function Answer(role: int, pairs: seq<Pair>, name: seq<byte>): Option<seq<byte>> {
    if name == [70, 67, 71, 73, 95, 82, 79, 76, 69] then Some(RoleName(role)) else FirstNamed(name, pairs)
  }

  lemma RolePairIs(role: int)
    requires 1 <= role <= 3
    ensures RolePair(role) == Some(Pair([70, 67, 71, 73, 95, 82, 79, 76, 69], RoleName(role)))
  {
    assert ROLE_NAME == [70, 67, 71, 73, 95, 82, 79, 76, 69];
    assert Ascii("RESPONDER") == RoleName(1);
    assert Ascii("AUTHORIZER") == RoleName(2);
    assert Ascii("FILTER") == RoleName(3);
  }

  /** FCGI_ROLE=RESPONDER and so on come first in the environment. */
  lemma RoleEntry(role: int, pairs: seq<Pair>)
    requires 1 <= role <= 3
    ensures RolePair(role).Some?
    ensures Environment(role, pairs) ==
            [[70, 67, 71, 73, 95, 82, 79, 76, 69] + [61] + RoleName(role)] + Entries(pairs)
  {
    hide RoleName, RolePair;
    RolePairIs(role);
  }

  /**
   * Looking a name up in the environment of a request whose pairs have no '=' in a name and
   * no NUL in a value: FCGI_ROLE is the role, any other name its first pair's value.
   */
  lemma EnvironmentAnswers(role: int, pairs: seq<Pair>, name: seq<byte>)
    requires 1 <= role <= 3 && Plain(pairs) && EQUALS !in name
    ensures RolePair(role).Some? && Lookup(name, Environment(role, pairs)) == Answer(role, pairs, name)
  {
    hide RolePair, Lookup, RoleName, FirstNamed;
    RolePairIs(role);
    var p := RolePair(role).value;
    assert EQUALS !in p.name && NUL !in p.value by { RoleIsPlain(role); }
    assert Environment(role, pairs) == Entries([p] + pairs) by { assert ([p] + pairs)[1..] == pairs; }
    assert Plain([p] + pairs);
    LookupIsFirstNamed(name, [p] + pairs);
    FirstNamedStep(name, p, pairs);
  }

  lemma RoleIsPlain(role: int)
    requires 1 <= role <= 3
    ensures EQUALS !in RolePair(role).value.name && NUL !in RolePair(role).value.value
  {
    RolePairIs(role);
  }

  lemma FirstNamedStep(name: seq<byte>, p: Pair, ps: seq<Pair>)
    ensures FirstNamed(name, [p] + ps) == if p.name == name then Some(p.value) else FirstNamed(name, ps)
  {
    assert ([p] + ps)[1..] == ps;
  }

  /** The bytes a web server sends to begin a request and to state its parameters. */
  datatype Opening = Opening(before: seq<Record>, begin: Record, params: Section) {
    /** Records the library ignores, BEGIN_REQUEST without padding, and a clean PARAMS stream. */
    ghost predicate Good(stale: int) {
      && AllFit(before) && Overture(before, 0, stale) && !Pending(before, 0, stale, |before|)
      && IsBegin(begin) && begin.padding == []
      && params.Good(PARAMS, begin.id)
    }

    function Wire(more: seq<byte>): seq<byte>
      requires AllFit(before) && begin.Fits() && AllFit(params.rs) && params.end.Fits()
    {
      Bytes(before) + (begin.Bytes() + params.Wire(more))
    }

    function Answers(stale: int): seq<byte>
      requires IsBegin(begin)
    {
      Replies(before, 0, stale, 0) + params.Answers(PARAMS, begin.id)
    }
  }

  /** The request a good opening begins, when PARAMS is about to be read. */
  lemma OpeningBegins(link: Link, req: Req, before: seq<Record>, begin: Record, u: seq<byte>)
    requires AllFit(before) && Overture(before, 0, req.id) && !Pending(before, 0, req.id, |before|)
    requires IsBegin(begin) && begin.padding == []
    requires link.input == Bytes(before) + (begin.Bytes() + u)
    requires |Replies(before, 0, req.id, 0)| <= link.room
    ensures var begun := Fill(NewReader(link, req), []);
            var t := SetReaderType(begun, PARAMS);
            && begun.req == Begun(begin) && t.req == Begun(begin) && StreamStart(t) && t.typ == PARAMS && t.Unread() == u
            && t.link.out == link.out + Replies(before, 0, req.id, 0)
            && t.link.room == link.room - |Replies(before, 0, req.id, 0)|
            && t.link.ending == link.ending
  {
    hide Fill, Overture, Pending, Replies, Record.Bytes, Bytes;
    var s := NewReader(link, req);
    BeginRequest(s, before, begin, u);
  }

  /** Once BEGIN_REQUEST has come, the role and what PARAMS delivers decide. */
  lemma OfferBegun(link: Link, req: Req)
    ensures var begun := Fill(NewReader(link, req), []);
            begun.req.begun ==>
              var o, d := Offer(link, req), Drain(SetReaderType(begun, PARAMS));
              var parsed := ParsePairs(d.bytes);
              && (o.Accepted? <==> 1 <= begun.req.role <= 3 && parsed.complete)
              && (o.Accepted? ==> o.pairs == parsed.pairs && o.state == SetReaderType(d.state, STDIN))
              && (1 <= begun.req.role <= 3 && !parsed.complete ==>
                    o.state.closed && o.state.errno == if d.state.errno == 0 then -4 else d.state.errno)
  {
    hide Fill, Drain, ParsePairs, RolePair;
    RolesKnown(Fill(NewReader(link, req), []).req.role);
  }

  /**
   * End to end: a connection that opens a request is accepted exactly if the library knows its
   * role and its PARAMS stream consists of whole name-value pairs; a torn pair is recorded as an
   * error. Then the environment has exactly those pairs, and STDIN comes next.
   */
  lemma AcceptsIff(link: Link, req: Req, x: Opening, more: seq<byte>)
    requires x.Good(req.id) && link.input == x.Wire(more) && |x.Answers(req.id)| <= link.room
    ensures var o := Offer(link, req);
            var parsed := ParsePairs(Project(x.params.rs, PARAMS, x.begin.id));
            && (o.Accepted? <==> 1 <= Begun(x.begin).role <= 3 && parsed.complete)
            && (1 <= Begun(x.begin).role <= 3 && !parsed.complete ==> o.state.errno == -4)
            && (o.Accepted? ==>
                  && o.pairs == parsed.pairs && o.state.req == Begun(x.begin) && StreamStart(o.state)
                  && o.state.typ == STDIN && o.state.Unread() == more
                  && o.state.link.out == link.out + x.Answers(req.id)
                  && o.state.link.room == link.room - |x.Answers(req.id)|)
  {
    hide Fill, Drain, Clean, Passable, KindOf, Section.Wire, Project, Replies, Overture, Pending, ParsePairs, Offer, Bytes;
    hide Record.Bytes, Section.Answers;
    OpeningBegins(link, req, x.before, x.begin, x.params.Wire(more));
    OfferBegun(link, req);
    var t := SetReaderType(Fill(NewReader(link, req), []), PARAMS);
    ReadSection(t, x.params, more, STDIN);
    AnswersAre(x, req.id, link.out);
  }

  lemma AnswersAre(x: Opening, stale: int, out: seq<byte>)
    requires IsBegin(x.begin)
    ensures |x.Answers(stale)| == |Replies(x.before, 0, stale, 0)| + |x.params.Answers(PARAMS, x.begin.id)|
    ensures out + x.Answers(stale) == out + Replies(x.before, 0, stale, 0) + x.params.Answers(PARAMS, x.begin.id)
  {
  }

  /** In particular if the stream spells pairs, in whatever mix of length forms. */
  lemma AcceptsRequest(link: Link, req: Req, x: Opening, ss: seq<Spelling>, more: seq<byte>)
    requires x.Good(req.id) && link.input == x.Wire(more) && |x.Answers(req.id)| <= link.room
    requires 1 <= Begun(x.begin).role <= 3
    requires AllValid(ss) && Project(x.params.rs, PARAMS, x.begin.id) == Spell(ss)
    ensures var o := Offer(link, req);
            && o.Accepted? && o.pairs == Pairs(ss)
            && o.state.req == Begun(x.begin) && StreamStart(o.state)
            && o.state.typ == STDIN && o.state.Unread() == more
            && o.state.link.out == link.out + x.Answers(req.id)
            && o.state.link.room == link.room - |x.Answers(req.id)|
  {
    hide Offer, RolePair, Opening.Good, Opening.Wire, Project, ParsePairs;
    AcceptsIff(link, req, x, more);
    ParseOfSpellings(ss, []);
    assert Spell(ss) + [] == Spell(ss);
  }

  /**
   * A connection that breaks off inside PARAMS is accepted all the same if what it delivered
   * ends between two pairs; the request then starts with an error recorded on its input.
   */
  lemma AcceptsCutOff(link: Link, req: Req, before: seq<Record>, begin: Record, rs: seq<Record>, cut: Record, k: nat)
    requires AllFit(before) && Overture(before, 0, req.id) && !Pending(before, 0, req.id, |before|)
    requires IsBegin(begin) && begin.padding == []
    requires CutOff(rs, PARAMS, begin.id, cut, k)
    requires link.input == Bytes(before) + (begin.Bytes() + (Bytes(rs) + cut.Bytes()[..k]))
    requires |Replies(before, 0, req.id, 0)| + |Replies(rs, PARAMS, begin.id, 0)|
             + |CutReply(cut, KindOf(cut, PARAMS, begin.id), Pending(rs, PARAMS, begin.id, |rs|), k)| <= link.room
    ensures var o := Offer(link, req);
            var got := Delivered(rs, PARAMS, begin.id, 0)
                       + CutYield(cut, KindOf(cut, PARAMS, begin.id), Pending(rs, PARAMS, begin.id, |rs|), k);
            && (o.Accepted? <==> 1 <= Begun(begin).role <= 3 && ParsePairs(got).complete)
            && (o.Accepted? ==> o.pairs == ParsePairs(got).pairs
                                && o.state.errno == if link.ending == 0 then -3 else link.ending)
  {
    hide Fill, Drain, Replies, Overture, Pending, ParsePairs, Delivered, CutYield, CutReply, KindOf, Offer;
    OpeningBegins(link, req, before, begin, Bytes(rs) + cut.Bytes()[..k]);
    var t := SetReaderType(Fill(NewReader(link, req), []), PARAMS);
    OfferBegun(link, req);
    CutOffEnds(t, rs, cut, k);
  }

  /** A connection that speaks another protocol version before BEGIN_REQUEST is rejected. */
  lemma RejectsVersion(link: Link, req: Req, before: seq<Record>, header: seq<byte>, more: seq<byte>)
    requires AllFit(before) && Overture(before, 0, req.id) && |Replies(before, 0, req.id, 0)| <= link.room
    requires |header| == 8 && header[0] != 1 && link.input == Bytes(before) + (header + more)
    ensures var o := Offer(link, req);
            && o.Rejected? && o.state.errno == -2 && o.state.Unread() == more
            && o.state.link.out == link.out + Replies(before, 0, req.id, 0)
  {
    hide Fill, Overture, Pending, Replies, Bytes, Drain, RolePair;
    var s := NewReader(link, req);
    NothingPending(before, 0, req.id);
    assert before[0..] == before;
    PassOverture(s, before, 0, header + more);
    var sent := Send(link, Replies(before, 0, req.id, 0)).link;
    StopAtVersion(At(s, sent, Pending(before, 0, req.id, |before|), header + more), header, more);
  }

  /**
   * Inside PARAMS such a header ends the stream, and with it the parameters: the request is
   * rejected if that cuts a pair, and otherwise accepted with the error recorded.
   */
  lemma VersionInParams(link: Link, req: Req, before: seq<Record>, begin: Record, rs: seq<Record>,
                        header: seq<byte>, more: seq<byte>)
    requires AllFit(before) && Overture(before, 0, req.id) && !Pending(before, 0, req.id, |before|)
    requires IsBegin(begin) && begin.padding == [] && AllFit(rs) && Passable(rs, PARAMS, begin.id)
    requires |header| == 8 && header[0] != 1
    requires link.input == Bytes(before) + (begin.Bytes() + (Bytes(rs) + (header + more)))
    requires |Replies(before, 0, req.id, 0)| + |Replies(rs, PARAMS, begin.id, 0)| <= link.room
    ensures var o := Offer(link, req);
            var parsed := ParsePairs(Delivered(rs, PARAMS, begin.id, 0));
            && (o.Accepted? <==> 1 <= Begun(begin).role <= 3 && parsed.complete)
            && (o.Accepted? ==> o.pairs == parsed.pairs && o.state.errno == -2)
  {
    hide Fill, Drain, Replies, Overture, Pending, Passable, ParsePairs, Delivered, Record.Bytes, Bytes, Offer;
    OpeningBegins(link, req, before, begin, Bytes(rs) + (header + more));
    var t := SetReaderType(Fill(NewReader(link, req), []), PARAMS);
    OfferBegun(link, req);
    VersionErrorEnds(t, rs, header, more);
  }

  /** A connection whose input ends before BEGIN_REQUEST has come is rejected. */
  lemma RejectsSilence(link: Link, req: Req)
    requires |link.input| < HEADER_LEN
    ensures Offer(link, req).Rejected?
    ensures Offer(link, req).state.errno == if link.ending == 0 then -3 else link.ending
  {
    var s := NewReader(link, req);
    assert FinishRecord(s) == s;
    hide FinishRecord, ProcessHeader, Resume;
    assert Fill(s, []) == Settle(Starve(s));
  }

  /** What is written while a connection is tried is whole records. */
  lemma OfferGoes(link: Link, req: Req)
    ensures T.Onward(link, Offer(link, req).state.link)
  {
    hide T.Goes, Fill, Drain, ParsePairs, RolePair;
    var s := NewReader(link, req);
    var begun := Fill(s, []);
    T.FillGoes(s, []);
    GoesIs(s, begun);
    if begun.req.begun && RolePair(begun.req.role).Some? {
      var t := SetReaderType(begun, PARAMS);
      T.DrainGoes(t);
      GoesIs(t, Drain(t).state);
      T.OnwardTwice(link, begun.link, Drain(t).state.link);
    }
  }

  lemma GoesIs(s: State, t: State)
    requires T.Goes(s, t)
    ensures T.Onward(s.link, t.link)
  {
  }

  /** Request ids stay in range, and once BEGIN_REQUEST was seen the request is settled. */
  ghost predicate Settled(s: State, r: State) {
    && (0 <= s.req.id <= MAX_LENGTH ==> 0 <= r.req.id <= MAX_LENGTH)
    && (s.req.begun ==> r.req == s.req)
  }

  lemma HeaderSettles(h: Header, s: State)
    requires s.eor && !s.closed && 0 <= h.contentLength && 0 <= h.paddingLength && 0 <= h.id <= MAX_LENGTH
    ensures Settled(s, ProcessHeader(h, s).state)
  {
    hide ReadQuery, TakeNested;
  }

  lemma {:induction false} FillSettles(s: State, header: seq<byte>)
    requires !s.eor && !s.closed && |header| < HEADER_LEN
    ensures Settled(s, Fill(s, header))
    decreases |s.Unread()|, 1
  {
    hide TakeHeader;
    if s.Unread() != [] && (s.content == 0 || s.skip) {
      var a := FinishRecord(s);
      assert a.req == s.req;
      hide FinishRecord;
      if !a.closed {
        HeaderThenSettles(a, header);
      }
    }
  }

  lemma {:induction false} HeaderThenSettles(s: State, header: seq<byte>)
    requires !s.eor && !s.closed && |header| < HEADER_LEN
    ensures Settled(s, TakeHeader(s, header))
    decreases |s.Unread()|, 0
  {
    hide ProcessHeader, Resume;
    var missing := HEADER_LEN - |header|;
    if |s.Unread()| >= missing {
      var h := ParseHeader(header + s.Unread()[..missing]);
      var t := Drop(s, missing).(eor := true);
      HeaderSettles(h, t);
      ResumeSettles(ProcessHeader(h, t));
    }
  }

  lemma {:induction false} ResumeSettles(p: Status)
    ensures Settled(p.state, Resume(p))
    decreases |p.state.Unread()|, 2
  {
    hide Fill;
    var a := p.state.(eor := false, closed := false);
    if p.code == STREAM_RECORD && a.content != 0 {
      FillSettles(a, []);
    } else if p.code == SKIP {
      FillSettles(a.(skip := true), []);
    } else if p.code == MGMT_RECORD {
      FillSettles(a, []);
    }
  }

  lemma {:induction false} DrainSettles(s: State)
    requires !s.eor && s.req.begun
    ensures Drain(s).state.req == s.req && !Drain(s).state.eor
    decreases |s.Unread()|
  {
    hide Fill;
    if !s.closed {
      FillSettles(s, []);
      var got := GetChar(s);
      if got.c != EOF {
        DrainSettles(got.state);
      }
    }
  }

  /** What an accepted request looks like. */
  lemma AcceptedState(link: Link, req: Req)
    requires 0 <= req.id <= MAX_LENGTH
    ensures 0 <= Offer(link, req).state.req.id <= MAX_LENGTH
    ensures var o := Offer(link, req);
            o.Accepted? ==> o.state.req.begun && RolePair(o.state.req.role).Some? && !o.state.eor && !o.state.closed
                            && o.state.req == Fill(NewReader(link, req), []).req
  {
    hide Fill, Drain, RolePair, Settled;
    var s := NewReader(link, req);
    FillSettles(s, []);
    var begun := Fill(s, []);
    assert 0 <= begun.req.id <= MAX_LENGTH by { SettledId(s, begun); }
    if begun.req.begun {
      DrainSettles(SetReaderType(begun, PARAMS));
    }
  }

  lemma SettledId(s: State, r: State)
    requires Settled(s, r) && 0 <= s.req.id <= MAX_LENGTH
    ensures 0 <= r.req.id <= MAX_LENGTH
  {
  }
}
