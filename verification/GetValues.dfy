/** GET_VALUES, section 4.1: what the reply says, and when it fits the buffer it is built in. */
module GetValues {
  import opened Wire
  import opened NameValue
  import opened ReaderSpec

  /** The name the library takes a pair to ask for: its environment string up to the first '='. */
  function Asking(p: Pair): seq<byte> {
    UpTo(p.Entry(), EQUALS)
  }

  /** A name without '=' is asked for as it is; one with '=' only by its first part. */
  lemma AskingPlain(p: Pair)
    ensures EQUALS !in p.name ==> Asking(p) == p.name
    ensures EQUALS in p.name ==> Asking(p) == UpTo(p.name, EQUALS)
  {
    if EQUALS !in p.name {
      UpToFirst(p.name, EQUALS, p.value);
    }
    UpToWithin(p.name, EQUALS, [EQUALS] + p.value);
    assert p.name + ([EQUALS] + p.value) == p.name + [EQUALS] + p.value;
  }

  lemma {:induction false} UpToWithin(a: seq<byte>, c: byte, rest: seq<byte>)
    ensures c in a ==> UpTo(a + rest, c) == UpTo(a, c)
  {
    if a != [] && a[0] != c {
      UpToWithin(a[1..], c, rest);
      assert (a + rest)[1..] == a[1..] + rest;
    }
  }

  /** The known variables among the pairs of a query, each with its value. */
  function Answers(ps: seq<Pair>): seq<Pair> {
    if ps == [] then []
    else
      match KnownValue(Asking(ps[0]))
      case None => Answers(ps[1..])
      case Some(v) => [Pair(Asking(ps[0]), [v])] + Answers(ps[1..])
  }

  /** No NUL comes before the first '=' of an environment string. */
  predicate AllNamed(ps: seq<Pair>) {
    forall i :: 0 <= i < |ps| ==> HasName(ps[i].Entry())
  }

  lemma AnswerSpelling(name: seq<byte>, v: byte)
    requires |name| <= 15
    ensures var s := Spelling(Pair(name, [v]), false, false);
            s.Valid() && s.Bytes() == [|name|, 1] + name + [v]
  {
  }

  /** How the reply spells the answers: one-byte lengths throughout. */
  lemma {:induction false} ReplyIsSpelled(ps: seq<Pair>) returns (ss: seq<Spelling>)
    ensures AllValid(ss) && Pairs(ss) == Answers(ps)
    ensures Spell(ss) == ReplyContent(Entries(ps))
  {
    hide KnownValue, UpTo, Spelling.Bytes;
    if ps == [] {
      ss := [];
    } else {
      var p := ps[0];
      ss := ReplyIsSpelled(ps[1..]);
      assert Entries(ps)[1..] == Entries(ps[1..]);
      if KnownValue(Asking(p)).Some? {
        var v := KnownValue(Asking(p)).value;
        AnswerSpelling(Asking(p), v);
        var rest := ss;
        ss := [Spelling(Pair(Asking(p), [v]), false, false)] + rest;
        assert ss[1..] == rest;
      }
    }
  }

  /**
   * The reply read back as name-value pairs: exactly the known names of the query, in the
   * order asked, MAX_CONNS and MAX_REQS with value 1 and MPXS_CONNS with value 0.
   */
  lemma ReplyRoundTrip(ps: seq<Pair>)
    requires AllNamed(ps)
    ensures ParsePairs(ReplyContent(Entries(ps))) == Parsed(Answers(ps), true)
  {
    hide ReplyContent, Answers;
    var ss := ReplyIsSpelled(ps);
    ParseOfSpellings(ss, []);
    assert Spell(ss) + [] == Spell(ss);
  }

  lemma {:induction false} AnswersAre(ps: seq<Pair>, i: nat)
    requires i < |Answers(ps)|
    ensures var a := Answers(ps)[i];
            && (a.value == [ONE] <==> a.name == MAX_CONNS || a.name == MAX_REQS)
            && (a.value == [ZERO] <==> a.name == MPXS_CONNS)
  {
    hide Asking;
    assert MPXS_CONNS != MAX_CONNS && MPXS_CONNS != MAX_REQS;
    if KnownValue(Asking(ps[0])).None? {
      AnswersAre(ps[1..], i);
    } else if i > 0 {
      AnswersAre(ps[1..], i - 1);
    }
  }

  /** How often a query asks for a name. */
  function Asked(ps: seq<Pair>, name: seq<byte>): nat {
    if ps == [] then 0 else (if Asking(ps[0]) == name then 1 else 0) + Asked(ps[1..], name)
  }

  lemma {:induction false} ReplySize(ps: seq<Pair>)
    ensures |ReplyContent(Entries(ps))| ==
            17 * Asked(ps, MAX_CONNS) + 16 * Asked(ps, MAX_REQS) + 18 * Asked(ps, MPXS_CONNS)
  {
    hide UpTo;
    assert |MAX_CONNS| == 14 && |MAX_REQS| == 13 && |MPXS_CONNS| == 15;
    if ps != [] {
      ReplySize(ps[1..]);
      assert Entries(ps)[1..] == Entries(ps[1..]);
    }
  }

  /**
   * The exact condition for C to define the reply: every environment string has its '=' before
   * any NUL, and the answers fit; asking each name at most once is enough for the latter.
   */
  lemma AnswerableIff(ps: seq<Pair>)
    ensures Answerable(Entries(ps)) <==>
            && AllNamed(ps)
            && 17 * Asked(ps, MAX_CONNS) + 16 * Asked(ps, MAX_REQS) + 18 * Asked(ps, MPXS_CONNS) <= 55
    ensures AllNamed(ps) && Asked(ps, MAX_CONNS) <= 1 && Asked(ps, MAX_REQS) <= 1 && Asked(ps, MPXS_CONNS) <= 1 ==>
              Answerable(Entries(ps))
  {
    hide ReplyContent, Asked, HasName;
    ReplySize(ps);
    if Answerable(Entries(ps)) {
      forall i | 0 <= i < |ps|
        ensures HasName(ps[i].Entry())
      {
        assert HasName(Entries(ps)[i]);
      }
    }
  }

  /** A name is readable exactly if it has no NUL, or none before its first '='. */
  lemma HasNameIff(p: Pair)
    ensures HasName(p.Entry()) <==> NUL !in if EQUALS in p.name then UpTo(p.name, EQUALS) else p.name
  {
    AskingPlain(p);
  }

  /** A reply that fits is one whole record, a multiple of 8 bytes long, within the buffer. */
  lemma ReplyIsRecord(content: seq<byte>)
    requires FitsResponse(content)
    ensures GetValuesReply(content) == Padded(GET_VALUES_RESULT, 0, content).Bytes()
    ensures |GetValuesReply(content)| <= RESPONSE_SIZE
  {
  }

  /** Asking four times for one variable is already too much. */
  lemma RepeatedNamesOverrun(value: seq<byte>)
    ensures var p := Pair(MAX_CONNS, value);
            !FitsResponse(ReplyContent(Entries([p, p, p, p])))
  {
    var p := Pair(MAX_CONNS, value);
    assert EQUALS !in MAX_CONNS;
    AskingPlain(p);
    var ps := [p, p, p, p];
    assert ps[1..] == [p, p, p] && [p, p, p][1..] == [p, p] && [p, p][1..] == [p];
    assert Asked([p], MAX_CONNS) == 1;
    assert Asked([p, p], MAX_CONNS) == 2;
    assert Asked([p, p, p], MAX_CONNS) == 3;
    assert Asked(ps, MAX_CONNS) == 4;
    ReplySize(ps);
  }

  /** A query whose one name is a NUL: strchr finds no '=' and the library writes through NULL. */
  lemma NulNameUndefined()
    ensures ParsePairs([1, 0, 0]) == Parsed([Pair([NUL], [])], true)
    ensures !Answerable(Entries([Pair([NUL], [])]))
  {
    var p := Pair([NUL], []);
    var b: seq<byte> := [1, 0, 0];
    assert b[1..] == [0, 0] && b[1..][1..] == [0] && b[1..][1..][..1] == [0] && b[1..][1..][1..1] == [];
    assert TakePair(b) == Some(Taken(p, 3));
    assert [1, 0, 0][3..] == [];
    HasNameIff(p);
    AnswerableIff([p]);
    assert !HasName([p][0].Entry());
  }
}
