/** What FCGX_FClose puts on the wire after a write has failed, and when that is what it should be. */
module WriterFailures {
  import opened Wire
  import opened Links
  import opened WriterSpec

  function Min(a: nat, b: nat): nat {
    if a <= b then a else b
  }

  /** The closing records that still fit the buffer of a failed stream, the last one torn. */
  lemma ClosedTail(x: Writing, y: Writing)
    requires x.Sound() && y.Sound() && y.w.closed
    ensures var tail := Bytes(CloseRecords(x));
            CloseTail(x, y) == Holding(y, tail[..Min(|tail|, y.w.Free())])
  {
    hide PutAll, EofBytes, EndBytes, CloseRecords;
    CloseBytes(x);
    var eof := if NeedsEof(x) then EofBytes(x) else [];
    var end := if x.shared.nWriters == 1 then EndBytes(x) else [];
    var a := if NeedsEof(x) then PutAll(y, eof).x else y;
    ClosedPuts(y, eof);
    var m := Min(|eof|, y.w.Free());
    assert Holding(y, []) == y by { assert y.w.held + [] == y.w.held; }
    assert a == Holding(y, eof[..m]);
    hide Writer.Valid;
    ClosedPuts(a, end);
    TwoCuts(y.w.held, eof, end, y.w.Free());
    assert a.w.Free() == y.w.Free() - m;
    if x.shared.nWriters != 1 {
      assert eof + [] == eof;
    }
  }

  lemma TwoCuts(held: seq<byte>, a: seq<byte>, b: seq<byte>, free: nat)
    ensures var m := Min(|a|, free);
            held + (a + b)[..Min(|a + b|, free)] == held + a[..m] + b[..Min(|b|, free - m)]
  {
    var m := Min(|a|, free);
    assert (a + b)[..Min(|a + b|, free)] == a[..m] + b[..Min(|b|, free - m)];
  }

  lemma RawBody(x: Writing)
    requires x.Sound() && x.w.raw
    ensures Body(x) == x.w.held == Kept(x)
  {
  }

  /**
   * FCGX_FClose on a failed stream makes a record of what the buffer has kept and writes it
   * together with as much of the closing records as the buffer has space for.
   */
  lemma CloseFailed(x: Writing)
    requires x.Valid() && x.w.closed && !x.w.finished
    ensures |Body(x)| <= x.w.capacity + HEADER_LEN
    ensures var all := Body(x) + Bytes(CloseRecords(x));
            var n := Min(|all|, x.w.capacity + HEADER_LEN);
            Close(x).shared.link == Send(x.shared.link, all[..n]).link && Close(x).w.errno == x.w.errno
  {
    hide CloseTail, CloseRecords, Body, Bytes, Kept;
    var y := Closing(x);
    var tail := Bytes(CloseRecords(x));
    ClosedTail(x, y);
    var m := Min(|tail|, y.w.Free());
    var z := CloseTail(x, y);
    var all := Body(x) + tail;
    assert all[..Min(|all|, x.w.capacity + HEADER_LEN)] == Body(x) + tail[..m];
    RawBody(z);
    if z.w.held == [] {
      assert x.shared.link.out + [] == x.shared.link.out;
    }
  }

  /** The record made of what a failed write of content has left in the buffer. */
  function Again(x: Writing): (r: Record)
    requires x.Valid() && x.w.held != []
    ensures r.Fits() && r.padding == []
  {
    var record := Padded(x.w.typ, x.shared.id, x.w.held);
    Record(x.w.typ, x.shared.id, record.content + record.padding, [], 0)
  }

  lemma AgainLength(x: Writing)
    requires x.Valid() && x.w.held != []
    ensures |Again(x).Bytes()| == |Body(x)|
    ensures Again(x).Bytes() == Body(x) <==> |x.w.held| % 8 == 0
  {
    var record := Padded(x.w.typ, x.shared.id, x.w.held);
    assert record.Bytes()[6] == |record.padding|;
    assert Again(x).Bytes()[6] == 0;
    if record.padding == [] {
      assert record.content + record.padding == record.content;
      assert record.Header() + record.content + [] == record.Bytes();
    }
  }

  /** What FCGX_FClose writes after a failed write, if the connection takes it then. */
  function Reemitted(x: Writing): seq<byte>
    requires x.Valid() && x.w.held != []
  {
    var all := Again(x).Bytes() + Bytes(CloseRecords(x));
    all[..Min(|all|, x.w.capacity + HEADER_LEN)]
  }

  /**
   * A write of content fails, and then FCGX_FClose finds that the connection takes bytes
   * again: behind the torn record come the content once more, now with its padding as content,
   * and the closing records, cut off where the buffer ends.
   */
  lemma FailedThenClosed(x: Writing)
    requires x.Valid() && !x.w.closed && x.w.held != []
    requires |Body(x)| > x.shared.link.room && |Reemitted(x)| <= Empty(x).shared.link.room
    ensures var z := Close(Empty(x));
            && z.shared.link.out == x.shared.link.out + Body(x)[..x.shared.link.room] + Reemitted(x)
            && z.w.errno != 0
  {
    hide CloseRecords, Bytes, Record.Bytes, Padded;
    var y := Empty(x);
    BodyAgain(x);
    assert CloseRecords(y) == CloseRecords(x) by { SameTail(x, y); }
    CloseFailed(y);
    hide Body, Close, Empty, Again;
  }

  lemma SameTail(x: Writing, y: Writing)
    requires x.Sound() && y.Sound() && x.w.held != [] && y.w.held != [] && x.w.typ == y.w.typ
    requires x.shared.(link := y.shared.link) == y.shared
    ensures CloseRecords(y) == CloseRecords(x)
  {
    hide Padded, EndRequest;
  }

  lemma BodyAgain(x: Writing)
    requires x.Valid() && !x.w.closed && x.w.held != [] && |Body(x)| > x.shared.link.room
    ensures Empty(x).Valid() && Empty(x).w.held != [] && Body(Empty(x)) == Again(x).Bytes()
  {
    var y := Empty(x);
    var again := Padded(x.w.typ, x.shared.id, y.w.held);
    assert again.padding == [];
    assert again == Again(x);
  }

  /**
   * These bytes are the ones that should have been written exactly if the content needed no
   * padding and the buffer has space for the closing records.
   */
  lemma ReemittedRightIff(x: Writing)
    requires x.Valid() && x.w.held != []
    ensures Reemitted(x) == Body(x) + Bytes(CloseRecords(x)) <==>
            |x.w.held| % 8 == 0 && |Body(x)| + |Bytes(CloseRecords(x))| <= x.w.capacity + HEADER_LEN
  {
    hide Body, CloseRecords, Bytes, Again, Record.Bytes;
    AgainLength(x);
    var tail := Bytes(CloseRecords(x));
    var all := Again(x).Bytes() + tail;
    if Reemitted(x) == Body(x) + tail {
      assert all == Reemitted(x);
      assert all[..|Body(x)|] == Again(x).Bytes() && (Body(x) + tail)[..|Body(x)|] == Body(x);
    } else if |all| <= x.w.capacity + HEADER_LEN {
      assert all[..|all|] == all;
    }
  }

  /** If they fit, they are whole records, and their reader gets the padding as content. */
  lemma ReemittedRecords(x: Writing)
    requires x.Valid() && x.w.held != [] && x.w.typ != END_REQUEST
    requires |Body(x)| + |Bytes(CloseRecords(x))| <= x.w.capacity + HEADER_LEN
    ensures var rs := [Again(x)] + CloseRecords(x);
            && AllFit(rs) && Reemitted(x) == Bytes(rs)
            && Project(rs, x.w.typ, x.shared.id) == x.w.held + Zeros(AlignInt8(|x.w.held|) - |x.w.held|)
  {
    AgainLength(x);
    var tail := CloseRecords(x);
    var rs := [Again(x)] + tail;
    assert rs[1..] == tail;
    var all := Again(x).Bytes() + Bytes(tail);
    assert all[..|all|] == all;
    assert Project(tail, x.w.typ, x.shared.id) == [] by { NoContent(x); }
    hide CloseRecords, Bytes;
    assert Again(x).content + [] == Again(x).content;
  }

  lemma NoContent(x: Writing)
    requires x.Sound() && x.w.typ != END_REQUEST
    ensures Project(CloseRecords(x), x.w.typ, x.shared.id) == []
  {
    var rs := CloseRecords(x);
    if |rs| > 0 {
      assert Project(rs[1..], x.w.typ, x.shared.id) == [] by {
        if |rs| > 1 {
          assert rs[1..][1..] == [];
        }
      }
    }
  }

  /** The wire as a whole is right exactly if, besides, nothing of the failed write got through. */
  lemma RecoveredRightIff(x: Writing)
    requires x.Valid() && !x.w.closed && x.w.held != []
    requires |Body(x)| > x.shared.link.room && |Reemitted(x)| <= Empty(x).shared.link.room
    requires |Body(x)| + |Bytes(CloseRecords(x))| <= x.w.capacity + HEADER_LEN
    ensures Close(Empty(x)).shared.link.out == x.shared.link.out + (Body(x) + Bytes(CloseRecords(x))) <==>
            x.shared.link.room == 0 && |x.w.held| % 8 == 0
  {
    hide Body, CloseRecords, Bytes, Again, Record.Bytes, Close, Empty;
    FailedThenClosed(x);
    ReemittedRightIff(x);
    AgainLength(x);
    var before, torn, right := x.shared.link.out, Body(x)[..x.shared.link.room], Body(x) + Bytes(CloseRecords(x));
    assert |Reemitted(x)| == |right|;
    if torn == [] {
      assert before + torn + Reemitted(x) == before + Reemitted(x);
      assert (before + Reemitted(x))[|before|..] == Reemitted(x) && (before + right)[|before|..] == right;
    }
  }

  /** One byte put on a stream whose first write fails: its reader gets eight. */
  lemma OneByteBecomesEight(out: seq<byte>, id: int)
    requires 0 <= id <= MAX_LENGTH
    ensures var x := Writing(Writer(STDOUT, 504, [65], false, false, false, 0, false),
                             Shared(Link([], 0, out, 0, [512], 0, 5, false), id, 0, 2));
            && x.Valid()
            && Close(Empty(x)).shared.link.out == out + Bytes([Again(x)] + CloseRecords(x))
            && Project([Again(x)] + CloseRecords(x), STDOUT, id) == [65, 0, 0, 0, 0, 0, 0, 0]
  {
    var x := Writing(Writer(STDOUT, 504, [65], false, false, false, 0, false),
                     Shared(Link([], 0, out, 0, [512], 0, 5, false), id, 0, 2));
    assert Padded(STDOUT, id, [65]).padding == Zeros(7);
    CloseBytes(x);
    ReemittedRecords(x);
    FailedThenClosed(x);
    assert out + Body(x)[..0] == out;
    assert [65] + Zeros(7) == [65, 0, 0, 0, 0, 0, 0, 0];
  }
}
