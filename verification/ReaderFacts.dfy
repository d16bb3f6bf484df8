/** Bulk forms of the byte-at-a-time reads, and the splits a buffered reader makes. */
module ReaderFacts {
  import opened Wire
  import opened NameValue
  import opened ReaderSpec

  lemma GetCharDeliverable(s: State)
    requires s.Deliverable()
    ensures Advance(s) == s
    ensures s.Readable() ==> GetChar(s) == Got(Deliver(s, 1), s.Unread()[0])
  {
  }

  lemma GetCharStep(s: State)
    requires s.Readable()
    ensures s.closed ==> GetChar(s) == Got(s, EOF)
    ensures !s.closed ==> GetChar(s) == if Advance(s).closed then Got(Advance(s), EOF)
                                        else Got(Deliver(Advance(s), 1), Advance(s).Unread()[0])
  {
    hide Advance;
  }

  lemma DeliverSplit(s: State, m: nat)
    requires 0 < m <= s.content && m <= |s.Unread()|
    ensures Deliver(Deliver(s, 1), m - 1) == Deliver(s, m)
    ensures [s.Unread()[0]] + Deliver(s, 1).Unread()[..m - 1] == s.Unread()[..m]
    ensures var one := Deliver(s, 1);
            && m - 1 <= one.content && m - 1 <= |one.Unread()| && one.Readable() == s.Readable()
            && one.closed == s.closed && one.skip == s.skip
    ensures m <= |s.Unread()| && Deliver(s, m).Readable() == s.Readable()
  {
    assert Deliver(Deliver(s, 1), m - 1).Unread() == Deliver(s, m).Unread();
  }

  lemma GetStrStep(s: State, n: nat)
    requires s.Deliverable() && s.Readable() && n > 0
    ensures GetStr(s, n) == var rest := GetStr(Deliver(s, 1), n - 1);
                            Read(rest.state, [s.Unread()[0]] + rest.bytes)
  {
    GetCharDeliverable(s);
  }

  /** m bytes at hand are handed over at once. */
  lemma {:induction false} GetStrBulk(s: State, m: nat, n: nat)
    requires s.Readable() && m <= n && m <= s.content && m <= |s.Unread()|
    requires m > 0 ==> !s.closed && !s.skip
    ensures GetStr(s, n) == var rest := GetStr(Deliver(s, m), n - m);
                            Read(rest.state, s.Unread()[..m] + rest.bytes)
    decreases m
  {
    hide GetChar, Advance, GetStr;
    if m == 0 {
      assert Deliver(s, 0) == s;
    } else {
      GetStrStep(s, n);
      DeliverSplit(s, m);
      hide Deliver;
      GetStrBulk(Deliver(s, 1), m - 1, n - 1);
      JoinThree([s.Unread()[0]], Deliver(s, 1).Unread()[..m - 1], GetStr(Deliver(s, m), n - m).bytes);
    }
  }

  lemma JoinThree(a: seq<byte>, b: seq<byte>, c: seq<byte>)
    ensures a + (b + c) == a + b + c
  {
  }

  lemma {:induction false} DrainBulk(s: State, m: nat)
    requires s.Readable() && m <= s.content && m <= |s.Unread()|
    requires m > 0 ==> !s.closed && !s.skip
    ensures Drain(s) == var rest := Drain(Deliver(s, m));
                        Read(rest.state, s.Unread()[..m] + rest.bytes)
    decreases m
  {
    hide GetChar, Advance;
    if m == 0 {
      assert Deliver(s, 0) == s;
    } else {
      GetCharDeliverable(s);
      DrainBulk(Deliver(s, 1), m - 1);
      DeliverSplit(s, m);
    }
  }

  lemma DrainAtEnd(s: State)
    requires s.Readable() && (s.closed || Advance(s).closed)
    ensures Drain(s) == Read(if s.closed then s else Advance(s), [])
  {
  }

  /** Inside a record, GetStr of at most its content is TakeNested. */
  lemma TakeNestedIsGetStr(s: State, n: nat)
    requires s.eor && !s.closed && 0 < n <= s.content
    ensures GetStr(s, n) == TakeNested(s, n)
  {
    var k := if s.skip then 0 else if n <= |s.Unread()| then n else |s.Unread()|;
    GetStrBulk(s, k, n);
    var rest := GetStr(Deliver(s, k), n - k);
    if k < n {
      assert Advance(Deliver(s, k)).closed;
      assert rest.bytes == [];
    }
  }

  /** Inside a record, reading to EOF is DrainNested. */
  lemma DrainNestedIsDrain(s: State)
    requires s.eor && !s.closed
    ensures Drain(s) == DrainNested(s)
  {
    var k := if s.skip then 0 else if s.content <= |s.Unread()| then s.content else |s.Unread()|;
    DrainBulk(s, k);
    DrainAtEnd(Deliver(s, k));
  }

  /** Reading m bytes and then the rest to EOF is reading to EOF. */
  lemma {:induction false} DrainAfterGetStr(s: State, m: nat)
    requires s.Readable()
    ensures var r := GetStr(s, m);
            var rest := Drain(r.state);
            Drain(s) == Read(rest.state, r.bytes + rest.bytes)
    decreases m
  {
    hide GetChar, Advance;
    if m == 0 {
    } else {
      var got := GetChar(s);
      if got.c == EOF {
        DrainAtEnd(got.state);
      } else {
        DrainAfterGetStr(got.state, m - 1);
        var taken, rest := GetStr(got.state, m - 1), Drain(GetStr(got.state, m - 1).state);
        assert [got.c] + (taken.bytes + rest.bytes) == [got.c] + taken.bytes + rest.bytes;
      }
    }
  }

  /** What fgets takes of the bytes ahead: n of them, or up to and with the first newline, or all. */
  ghost predicate IsLine(ahead: seq<byte>, line: seq<byte>, n: nat) {
    && line <= ahead && |line| <= n
    && (forall i :: 0 <= i < |line| - 1 ==> line[i] != 10)
    && (|line| < n && line != ahead ==> line != [] && line[|line| - 1] == 10)
  }

  /** A line is that of the bytes up to EOF, and reading goes on behind it. */
  lemma {:induction false} ReadLineIsLine(s: State, n: nat)
    requires s.Readable()
    ensures var r := ReadLine(s, n);
            var rest := Drain(r.state);
            Drain(s) == Read(rest.state, r.bytes + rest.bytes) && IsLine(Drain(s).bytes, r.bytes, n)
    ensures ReadLine(s, n).bytes == [] <==> n == 0 || Drain(s).bytes == []
    decreases n
  {
    hide GetChar, Advance, Drain;
    if n > 0 {
      DrainStep(s);
      var got := GetChar(s);
      if got.c != EOF && got.c != NEWLINE as int {
        ReadLineIsLine(got.state, n - 1);
        var line, rest := ReadLine(got.state, n - 1), Drain(ReadLine(got.state, n - 1).state);
        assert [got.c] + (line.bytes + rest.bytes) == [got.c] + line.bytes + rest.bytes;
        LineGrows(got.c, Drain(got.state).bytes, line.bytes, n - 1);
      }
    }
  }

  lemma LineGrows(c: byte, ahead: seq<byte>, line: seq<byte>, n: nat)
    requires IsLine(ahead, line, n) && c != 10
    ensures IsLine([c] + ahead, [c] + line, n + 1)
  {
  }

  /** FCGX_GetLine is NULL exactly at EOF; else it is a line of at most n - 1 bytes. */
  lemma GetLineIsLine(s: State, n: int)
    requires s.Readable()
    ensures var r := GetLine(s, n);
            var ahead := Drain(s).bytes;
            if n <= 1 then r == Line(s, Some([]))
            else (r.str == None <==> ahead == [])
                 && Drain(r.state).state == Drain(s).state
                 && (r.str.Some? ==> IsLine(ahead, r.str.value, n - 1)
                                     && Drain(r.state).bytes == ahead[|r.str.value|..])
  {
    hide ReadLine, Drain, IsLine;
    if n > 1 {
      ReadLineIsLine(s, n - 1);
    }
  }

  /** What Advance gives: the header bytes collected so far matter outside nested calls only. */
  function Outcome(s: State, header: seq<byte>): State
    requires !s.closed && |header| < HEADER_LEN
  {
    if s.eor then FillNested(s) else Fill(s, header)
  }

  /** What Advance gives once the content of the current record is used up. */
  function OutcomeAfterContent(s: State, header: seq<byte>): State
    requires !s.closed && |header| < HEADER_LEN
  {
    var a := SkipPadding(s);
    if s.eor then a.(closed := true) else if a.closed then Settle(a) else TakeHeader(a, header)
  }

  lemma OutcomeReady(s: State, header: seq<byte>)
    requires !s.closed && |header| < HEADER_LEN
    ensures s.Unread() == [] ==> Outcome(s, header) == if s.eor then Starve(s) else Settle(Starve(s))
    ensures s.Deliverable() ==> Outcome(s, header) == s
  {
  }

  /** Skipping part of the content, as far as the buffer goes, changes nothing. */
  lemma SkipSplit(s: State, header: seq<byte>, k: nat)
    requires !s.closed && s.skip && 0 < k < s.content && k <= |s.Unread()| && |header| < HEADER_LEN
    ensures Outcome(s, header) == Outcome(Deliver(s, k), header)
  {
    hide TakeHeader, SkipPadding;
    assert SkipContent(s) == SkipContent(Deliver(s, k));
  }

  /** After the last content byte no further byte is asked for. */
  lemma SkipDone(s: State, header: seq<byte>)
    requires !s.closed && s.Unread() != [] && s.content <= |s.Unread()| && (s.skip || s.content == 0)
    requires |header| < HEADER_LEN
    ensures Outcome(s, header) == OutcomeAfterContent(SkipContent(s), header)
  {
    hide TakeHeader, SkipPadding;
  }

  lemma PadSplit(s: State, k: nat)
    requires !s.closed && k < s.padding && k <= |s.Unread()|
    ensures SkipPadding(s) == SkipPadding(Drop(s, k).(padding := s.padding - k))
  {
  }

  /** Skipping part of the padding, as far as the buffer goes, changes nothing. */
  lemma SkipPaddingSplit(s: State, header: seq<byte>, k: nat)
    requires !s.closed && s.content == 0 && k < s.padding && k <= |s.Unread()| && |header| < HEADER_LEN
    ensures OutcomeAfterContent(s, header) == Outcome(Drop(s, k).(padding := s.padding - k), header)
  {
    hide TakeHeader;
    PadSplit(s, k);
    var t := Drop(s, k).(padding := s.padding - k);
    assert SkipContent(t) == t;
    if t.Unread() == [] {
      assert SkipPadding(t) == Starve(t.(padding := t.padding)) == Starve(t);
    }
  }

  /** A header may arrive in pieces. */
  lemma TakeHeaderSplit(s: State, header: seq<byte>, k: nat)
    requires !s.eor && !s.closed && s.content == 0 && s.padding == 0
    requires |header| + k < HEADER_LEN && k <= |s.Unread()|
    ensures TakeHeader(s, header) == Fill(Drop(s, k), header + s.Unread()[..k])
  {
    hide ProcessHeader, Resume, ParseHeader, TakeHeader, Fill, Drop;
    DropKeeps(s, k);
    var t, more := Drop(s, k), header + s.Unread()[..k];
    FillAtHeaderStart(t, more);
    var m := HEADER_LEN - |header|;
    if |s.Unread()| >= m {
      TakeWholeHeader(s, header);
      TakeWholeHeader(t, more);
      DropTwice(s, header, k, m);
    } else {
      TakeTornHeader(s, header);
      TakeTornHeader(t, more);
    }
  }

  lemma DropKeeps(s: State, k: nat)
    requires k <= |s.Unread()|
    ensures var t := Drop(s, k);
            && t.eor == s.eor && t.closed == s.closed && t.content == s.content && t.padding == s.padding
            && |t.Unread()| == |s.Unread()| - k && Settle(Starve(t)) == Settle(Starve(s))
  {
  }

  lemma DropTwice(s: State, header: seq<byte>, k: nat, m: nat)
    requires k <= m <= |s.Unread()|
    ensures var t := Drop(s, k);
            && |t.Unread()| == |s.Unread()| - k && Drop(t, m - k) == Drop(s, m)
            && header + s.Unread()[..k] + t.Unread()[..m - k] == header + s.Unread()[..m]
  {
    assert s.Unread()[k..][m - k..] == s.Unread()[m..];
    assert s.Unread()[..k] + s.Unread()[k..][..m - k] == s.Unread()[..m];
  }

  lemma TakeTornHeader(s: State, header: seq<byte>)
    requires !s.eor && !s.closed && |header| < HEADER_LEN && |header| + |s.Unread()| < HEADER_LEN
    ensures TakeHeader(s, header) == Settle(Starve(s))
  {
  }

  /** Where nothing of a record is left, filling is taking a header. */
  lemma FillAtHeaderStart(s: State, header: seq<byte>)
    requires !s.eor && !s.closed && s.content == 0 && s.padding == 0 && |header| < HEADER_LEN
    ensures Fill(s, header) == TakeHeader(s, header)
  {
    hide ProcessHeader, Resume;
    assert FinishRecord(s) == s;
    hide FinishRecord;
  }

  lemma TakeWholeHeader(s: State, header: seq<byte>)
    requires !s.eor && !s.closed && |header| < HEADER_LEN <= |header| + |s.Unread()|
    ensures var k := HEADER_LEN - |header|;
            TakeHeader(s, header) ==
            Resume(ProcessHeader(ParseHeader(header + s.Unread()[..k]), Drop(s, k).(eor := true)))
  {
    hide ProcessHeader, Resume;
  }

  lemma OutcomeIsFill(s: State, header: seq<byte>)
    requires !s.closed && !s.eor && |header| < HEADER_LEN
    ensures Outcome(s, header) == Fill(s, header)
  {
  }

  lemma SkipContentIs(s: State)
    requires !s.closed && (s.skip || s.content == 0) && s.content <= |s.Unread()|
    ensures SkipContent(s) == if s.content == 0 then s else Deliver(s, s.content).(skip := false)
  {
  }

  /** Filling the buffer ahead of a read does not change what the read returns. */
  lemma GetStrAfterAdvance(s: State, n: nat)
    requires !s.closed && s.Readable() && 0 < n
    ensures GetStr(s, n) == GetStr(Advance(s), n)
  {
    hide Fill, FillNested;
    var a := Advance(s);
    if !a.closed {
      GetCharDeliverable(a);
    }
  }

  lemma GetStrNothing(s: State, n: int)
    requires s.Readable() && (s.closed || n <= 0)
    ensures GetStr(s, if n < 0 then 0 else n) == Read(s, [])
  {
    hide Advance;
  }

  lemma GetStrAll(s: State, n: nat)
    requires s.Readable() && !s.closed && !s.skip && n <= s.content && n <= |s.Unread()|
    ensures GetStr(s, n) == Read(Deliver(s, n), s.Unread()[..n])
  {
    hide Advance;
    GetStrBulk(s, n, n);
  }

  lemma DrainClosed(s: State)
    requires s.closed && s.Readable()
    ensures Drain(s) == Read(s, [])
  {
  }

  lemma DrainStep(s: State)
    requires s.Readable()
    ensures var got := GetChar(s);
            if got.c == EOF then Drain(s) == Read(got.state, []) && Drain(got.state) == Drain(s)
            else Drain(s) == Read(Drain(got.state).state, [got.c] + Drain(got.state).bytes)
  {
    hide Advance;
  }

  lemma ReplyContentNil()
    ensures ReplyContent([]) == []
  {
  }

  lemma ReplyContentStep(es: seq<seq<byte>>, rest: seq<seq<byte>>)
    requires es != [] && rest == es[1..]
    ensures var name := UpTo(es[0], EQUALS);
            ReplyContent(es) == if KnownValue(name) == None then ReplyContent(rest)
                                else [|name|, 1] + name + [KnownValue(name).value] + ReplyContent(rest)
  {
  }

  /** ReadParams in a nested call learns what the record holds. */
  lemma ReadQueryIsReadParams(s: State)
    requires s.eor && !s.closed
    ensures ReadQuery(s) == ReadParams(s)
  {
    hide DrainNested, Drain;
    DrainNestedIsDrain(s);
  }

  /** A query read without an error is read to its end: the test of contentLen after it never decides. */
  lemma QueryReadToEnd(s: State)
    requires s.eor && !s.closed
    ensures ReadQuery(s).state.errno == 0 ==> ReadQuery(s).state.content == 0
  {
    hide ParsePairs;
  }

  lemma ParseStep(b: seq<byte>)
    ensures ParsePairs(b) ==
            if b == [] then Parsed([], true)
            else match TakePair(b)
                 case None => Parsed([], false)
                 case Some(t) => Parsed([t.pair] + ParsePairs(b[t.used..]).pairs, ParsePairs(b[t.used..]).complete)
  {
    hide TakePair;
  }

  /** The bookkeeping of GetStr: str is collected, m more bytes are handed over. */
  lemma GetStrTaken(s: State, n: nat, str: seq<byte>, a: State, m: nat)
    requires s.Readable() && a.Readable() && !a.closed && !a.skip
    requires |str| + m <= n && m <= a.content && m <= |a.Unread()|
    requires GetStr(s, n) == var rest := GetStr(a, n - |str|); Read(rest.state, str + rest.bytes)
    ensures var more := str + a.Unread()[..m];
            GetStr(s, n) == var rest := GetStr(Deliver(a, m), n - |more|); Read(rest.state, more + rest.bytes)
  {
    hide GetStr, Advance;
    GetStrBulk(a, m, n - |str|);
    var rest := GetStr(Deliver(a, m), n - |str| - m).bytes;
    assert str + (a.Unread()[..m] + rest) == str + a.Unread()[..m] + rest;
  }

  lemma ReadParamsIs(s: State)
    requires s.Readable()
    ensures var d := Drain(s);
            var parsed := ParsePairs(d.bytes);
            ReadParams(s) == if parsed.complete then ParamsRead(d.state, parsed.pairs, 0)
                             else ParamsRead(SetError(d.state, -4), parsed.pairs, -1)
  {
    hide Drain, ParsePairs;
  }
}
