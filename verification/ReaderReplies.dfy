/** What the reader writes back to the web server, byte for byte. */
module ReaderReplies {
  import opened Wire
  import opened Links
  import opened NameValue
  import opened ReaderSpec
  import opened ReaderFacts
  import opened Demux
  import G = GetValues

  /** Section 4.2 for a management record of unknown type t: a body of t and seven zeros. */
  lemma UnknownReplyIs(t: byte)
    ensures UnknownTypeReply(t) == Record(11, 0, [t, 0, 0, 0, 0, 0, 0, 0], [], 0).Bytes()
    ensures UnknownTypeReply(t) == [1, 11, 0, 0, 0, 8, 0, 0, t, 0, 0, 0, 0, 0, 0, 0]
  {
    assert TwoBytes(0) == [0, 0] && TwoBytes(8) == [0, 8];
    assert [t] + Zeros(7) == [t, 0, 0, 0, 0, 0, 0, 0];
  }

  /** The refusal of a second request: an END_REQUEST with status 0 and FCGI_CANT_MPX_CONN. */
  lemma RefusalReplyIs(id: int)
    requires 0 <= id <= MAX_LENGTH
    ensures CantMultiplexReply(id) == Record(3, id, [0, 0, 0, 0, 1, 0, 0, 0], [], 0).Bytes()
  {
    assert TwoBytes(0) == [0, 0] && FourBytes(0) == [0, 0, 0, 0];
    assert MakeEndRequestBody(0, CANT_MPX_CONN) == [0, 0, 0, 0, 1, 0, 0, 0];
  }

  /** Reading goes on behind a record, with a reply written and so many bytes more room used up. */
  function Behind(s: State, reply: seq<byte>, pending: bool, u: seq<byte>): State
    requires |reply| <= s.link.room
  {
    At(s, s.link.(out := s.link.out + reply, room := s.link.room - |reply|), pending, u)
  }

  /** A management record of unknown type is answered; its content goes to the client. */
  lemma UnknownAnswered(s: State, r: Record, u: seq<byte>)
    requires Boundary(s) && s.req.begun && s.errno == 0 && r.Fits() && s.Unread() == r.Bytes() + u
    requires r.id == 0 && r.typ != 1 && r.typ != 9 && s.link.room >= 16
    ensures var rest := Drain(Behind(s, [1, 11, 0, 0, 0, 8, 0, 0, r.typ, 0, 0, 0, 0, 0, 0, 0],
                                     s.skip && r.content == [], u));
            Drain(s) == Read(rest.state, (if s.skip then [] else r.content) + rest.bytes)
  {
    hide Drain, UnknownTypeReply, Record.Bytes;
    UnknownReplyIs(r.typ);
    OneRecord(s, r, u);
  }

  /** A BEGIN_REQUEST while a request is being served is refused, and skipped. */
  lemma RefusalAnswered(s: State, r: Record, u: seq<byte>)
    requires Boundary(s) && s.req.begun && s.errno == 0 && r.Fits() && s.Unread() == r.Bytes() + u
    requires r.typ == 1 && r.id != 0 && |r.content| == 8 && s.link.room >= 16
    ensures Drain(s) == Drain(Behind(s, Record(3, r.id, [0, 0, 0, 0, 1, 0, 0, 0], [], 0).Bytes(), false, u))
  {
    hide Drain, CantMultiplexReply, Record.Bytes;
    RefusalReplyIs(r.id);
    OneRecord(s, r, u);
    var rest := Drain(Behind(s, CantMultiplexReply(r.id), false, u));
    assert [] + rest.bytes == rest.bytes;
  }

  // The names of section 4.1, in ASCII.
  const CONNS: seq<byte> := [70, 67, 71, 73, 95, 77, 65, 88, 95, 67, 79, 78, 78, 83]
  const REQS: seq<byte> := [70, 67, 71, 73, 95, 77, 65, 88, 95, 82, 69, 81, 83]
  const MPXS: seq<byte> := [70, 67, 71, 73, 95, 77, 80, 88, 83, 95, 67, 79, 78, 78, 83]

  lemma NamesAre()
    ensures MAX_CONNS == CONNS && MAX_REQS == REQS && MPXS_CONNS == MPXS
  {
  }

  /** The query for all three variables: no values, one-byte lengths. */
  const QUERY: seq<byte> := [15, 0] + MPXS + ([14, 0] + CONNS + ([13, 0] + REQS))

  /** The answers to it: at most one connection and one request, no multiplexing. */
  const ANSWERS: seq<byte> := [15, 1] + MPXS + [48] + ([14, 1] + CONNS + [49] + ([13, 1] + REQS + [49] + []))

  /** The reply: header, answers, and five bytes of padding. */
  const RESULT: seq<byte> := [1, 10, 0, 0, 0, 51, 5, 0] + ANSWERS + [0, 0, 0, 0, 0]

  const ASKED: seq<Pair> := [Pair(MPXS_CONNS, []), Pair(MAX_CONNS, []), Pair(MAX_REQS, [])]

  lemma SpellThree(a: Spelling, b: Spelling, c: Spelling)
    requires a.Valid() && b.Valid() && c.Valid()
    ensures AllValid([a, b, c]) && Spell([a, b, c]) == a.Bytes() + (b.Bytes() + c.Bytes())
    ensures Pairs([a, b, c]) == [a.pair, b.pair, c.pair]
  {
    hide Spelling.Bytes;
    assert [a, b, c][1..] == [b, c] && [b, c][1..] == [c] && [c][1..] == [];
    assert c.Bytes() + [] == c.Bytes();
    assert Spell([c]) == c.Bytes();
  }

  /** A name asked for, spelled with lengths of one byte. */
  function Ask(name: seq<byte>): Spelling {
    Spelling(Pair(name, []), false, false)
  }

  lemma AskIs(name: seq<byte>)
    requires |name| < 128
    ensures Ask(name).Valid() && Ask(name).Bytes() == [|name|, 0] + name
  {
    assert name + [] == name;
  }

  lemma QueryParses()
    ensures ParsePairs(QUERY) == Parsed(ASKED, true)
  {
    hide ParsePairs, Spelling.Bytes, Spell, Pairs;
    NamesAre();
    assert |CONNS| == 14 && |REQS| == 13 && |MPXS| == 15;
    hide CONNS, REQS, MPXS;
    AskIs(MPXS_CONNS);
    AskIs(MAX_CONNS);
    AskIs(MAX_REQS);
    SpellThree(Ask(MPXS_CONNS), Ask(MAX_CONNS), Ask(MAX_REQS));
    var ss := [Ask(MPXS_CONNS), Ask(MAX_CONNS), Ask(MAX_REQS)];
    ParseOfSpellings(ss, []) by { TakePairOfNothing(); }
    assert Spell(ss) + [] == QUERY;
  }

  /** An answer as the reply spells it, in front of those to come. */
  lemma OneAnswer(name: seq<byte>, es: seq<seq<byte>>, rest: seq<seq<byte>>, value: byte)
    requires es == [name + [EQUALS] + []] + rest && EQUALS !in name && KnownValue(name) == Some(value)
    ensures ReplyContent(es) == [|name|, 1] + name + [value] + ReplyContent(rest)
  {
    hide KnownValue, ReplyContent;
    UpToFirst(name, EQUALS, []);
    ReplyContentStep(es, rest);
  }

  lemma ReplyIs()
    ensures |ANSWERS| == 51 && GetValuesReply(ANSWERS) == RESULT
  {
    assert |CONNS| == 14 && |REQS| == 13 && |MPXS| == 15;
    hide CONNS, REQS, MPXS;
    assert TwoBytes(0) == [0, 0] && TwoBytes(51) == [0, 51] && AlignInt8(51) == 56;
    assert MakeHeader(10, 0, 51, 5) == [1, 10, 0, 0, 0, 51, 5, 0];
    assert Zeros(5) == [0, 0, 0, 0, 0];
  }

  lemma AnswerableHere(es: seq<seq<byte>>)
    requires (forall i :: 0 <= i < |es| ==> HasName(es[i])) && |ReplyContent(es)| == 51
    ensures Answerable(es)
  {
    hide ReplyContent, HasName;
  }

  lemma ResultIs()
    ensures GetValuesReply(ReplyContent(Entries(ASKED))) == RESULT && Answerable(Entries(ASKED))
  {
    hide ReplyContent, Answerable, Entries, CONNS, REQS, MPXS, GetValuesReply;
    NamesAre();
    var es := Entries(ASKED);
    assert |MAX_CONNS| == 14 && |MAX_REQS| == 13 && |MPXS_CONNS| == 15;
    OneAnswer(MPXS_CONNS, es, es[1..], 48);
    OneAnswer(MAX_CONNS, es[1..], es[2..], 49);
    OneAnswer(MAX_REQS, es[2..], [], 49);
    ReplyContentNil();
    assert ReplyContent(es) == ANSWERS;
    ReplyIs();
    assert forall i :: 0 <= i < 3 ==> HasName(es[i]) by {
      hide HasName;
      G.HasNameIff(ASKED[0]);
      G.HasNameIff(ASKED[1]);
      G.HasNameIff(ASKED[2]);
    }
    AnswerableHere(es);
  }

  /** The query for all three variables, and its reply on the wire. */
  lemma AllThreeAnswered(s: State, padding: seq<byte>, reserved: byte, u: seq<byte>)
    requires Boundary(s) && s.req.begun && s.errno == 0 && !s.skip && s.link.room >= 64
    requires var r := Record(9, 0, QUERY, padding, reserved);
             r.Fits() && s.Unread() == r.Bytes() + u && padding + u != []
    ensures Drain(s) == Drain(Behind(s, RESULT, false, u))
  {
    hide Drain, GetValuesReply, ReplyContent, Answerable, Record.Bytes, ParsePairs, Entries;
    var r := Record(9, 0, QUERY, padding, reserved);
    QueryParses();
    ResultIs();
    OneRecord(s, r, u);
    var rest := Drain(Behind(s, RESULT, false, u));
    assert [] + rest.bytes == rest.bytes;
  }
}
