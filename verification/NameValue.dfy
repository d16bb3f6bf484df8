/** Name-value pairs as section 3.4 lays them out in a byte stream. */
module NameValue {
  import opened Wire

  const MAX_LONG := 0x8000_0000
  const EQUALS: byte := 61
  const NUL: byte := 0

  datatype Pair = Pair(name: seq<byte>, value: seq<byte>) {
    /** The environment string ReadParams builds, without its terminating NUL. */
    function Entry(): seq<byte> {
      name + [EQUALS] + value
    }
  }

  function Entries(ps: seq<Pair>): (es: seq<seq<byte>>)
    ensures |es| == |ps|
    ensures forall i :: 0 <= i < |ps| ==> es[i] == ps[i].Entry()
  {
    if ps == [] then [] else [ps[0].Entry()] + Entries(ps[1..])
  }

  /** One spelling of a pair: each of its two lengths takes one byte or four. */
  datatype Spelling = Spelling(pair: Pair, longName: bool, longValue: bool) {
    predicate Valid() {
      && |pair.name| < (if longName then MAX_LONG else 0x80)
      && |pair.value| < (if longValue then MAX_LONG else 0x80)
    }

    function Bytes(): seq<byte>
      requires Valid()
    {
      SpellLength(|pair.name|, longName) + (SpellLength(|pair.value|, longValue) + (pair.name + pair.value))
    }
  }

  function SpellLength(n: nat, long: bool): (b: seq<byte>)
    requires n < if long then MAX_LONG else 0x80
    ensures |b| == if long then 4 else 1
  {
    if long then TwoBytes(0x8000 + n / 0x1_0000) + TwoBytes(n % 0x1_0000) else [n]
  }

  predicate AllValid(ss: seq<Spelling>) {
    forall i :: 0 <= i < |ss| ==> ss[i].Valid()
  }

  function Spell(ss: seq<Spelling>): seq<byte>
    requires AllValid(ss)
  {
    if ss == [] then [] else ss[0].Bytes() + Spell(ss[1..])
  }

  function Pairs(ss: seq<Spelling>): (ps: seq<Pair>)
    ensures |ps| == |ss|
    ensures forall i :: 0 <= i < |ss| ==> ps[i] == ss[i].pair
  {
    if ss == [] then [] else [ss[0].pair] + Pairs(ss[1..])
  }

  /** The value of a four-byte length whose first byte has its top bit set. */
  function LongLength(b: seq<byte>): (n: nat)
    requires |b| == 4 && 0x80 <= b[0]
    ensures n < MAX_LONG
  {
    (Word(b[0], b[1]) - 0x8000) * 0x1_0000 + Word(b[2], b[3])
  }

  /** Big-endian, without the top bit of the first byte. */
  lemma LongLengthIs(b: seq<byte>)
    requires |b| == 4 && 0x80 <= b[0]
    ensures LongLength(b) ==
            (b[0] as int - 0x80) * 0x100_0000 + (b[1] as int) * 0x1_0000 + (b[2] as int) * 0x100 + b[3] as int
  {
  }

  datatype Length = Length(n: nat, used: nat)

  /** The length at the front of b, one byte or four. */
  function TakeLength(b: seq<byte>): (r: Option<Length>)
    ensures r.Some? ==> 0 < r.value.used <= |b|
  {
    if b == [] then None
    else if b[0] < 0x80 then Some(Length(b[0], 1))
    else if |b| < 4 then None
    else Some(Length(LongLength(b[..4]), 4))
  }

  datatype Taken = Taken(pair: Pair, used: nat)

  /** The whole pair at the front of b, in the order ReadParams reads its parts. */
  function TakePair(b: seq<byte>): (r: Option<Taken>)
    ensures r.Some? ==> 1 < r.value.used <= |b|
  {
    match TakeLength(b)
    case None => None
    case Some(nl) =>
      var afterName := b[nl.used..];
      match TakeLength(afterName)
      case None => None
      case Some(vl) =>
        var body := afterName[vl.used..];
        var size := nl.n + vl.n;
        if |body| < size then None
        else Some(Taken(Pair(body[..nl.n], body[nl.n..size]), nl.used + vl.used + size))
  }

  lemma TakePairOfNothing()
    ensures TakePair([]) == None
  {
  }

  lemma TakePairParts(b: seq<byte>, name: seq<byte>, value: seq<byte>, rest: seq<byte>)
    requires TakeLength(b).Some? && TakeLength(b[TakeLength(b).value.used..]).Some?
    requires var nl := TakeLength(b).value;
             var vl := TakeLength(b[nl.used..]).value;
             && nl.n == |name| && vl.n == |value|
             && b[nl.used..][vl.used..] == name + (value + rest)
    ensures TakePair(b).Some? && TakePair(b).value.pair == Pair(name, value)
    ensures b[TakePair(b).value.used..] == rest
  {
    hide TakeLength;
    var body := name + (value + rest);
    assert body[..|name|] == name && body[|name|..|name| + |value|] == value;
    assert body[|name| + |value|..] == rest;
  }

  datatype Parsed = Parsed(pairs: seq<Pair>, complete: bool)

  /** The complete leading pairs of b, and whether b holds nothing else. */
  function ParsePairs(b: seq<byte>): Parsed {
    if b == [] then Parsed([], true)
    else
      match TakePair(b)
      case None => Parsed([], false)
      case Some(t) =>
        var rest := ParsePairs(b[t.used..]);
        Parsed([t.pair] + rest.pairs, rest.complete)
  }

  lemma TakeLengthOfSpelling(n: nat, long: bool, rest: seq<byte>)
    requires n < if long then MAX_LONG else 0x80
    ensures TakeLength(SpellLength(n, long) + rest) == Some(Length(n, if long then 4 else 1))
  {
    var b := SpellLength(n, long) + rest;
    if long {
      hide TwoBytes, Word;
      assert b[..4] == SpellLength(n, long);
      var q := n / 0x1_0000;
      WordIsBack(0x8000 + q);
      WordIsBack(n % 0x1_0000);
      TopBit(q);
    }
  }

  lemma TopBit(q: nat)
    requires q < 0x8000
    ensures 0x80 <= TwoBytes(0x8000 + q)[0]
  {
  }

  lemma SpellingOfLongLength(b: seq<byte>)
    requires |b| == 4 && 0x80 <= b[0]
    ensures SpellLength(LongLength(b), true) == b
  {
    var high, low := Word(b[0], b[1]), Word(b[2], b[3]);
    var n := (high - 0x8000) * 0x1_0000 + low;
    assert 0x8000 + n / 0x1_0000 == high;
    TwoBytesOfWord(b[0], b[1]);
    TwoBytesOfWord(b[2], b[3]);
    assert n % 0x1_0000 == low;
  }

  lemma SpellingOfTakeLength(b: seq<byte>)
    requires TakeLength(b).Some?
    ensures var l := TakeLength(b).value;
            && l.n < (if b[0] < 0x80 then 0x80 else MAX_LONG)
            && SpellLength(l.n, 0x80 <= b[0]) == b[..l.used]
  {
    if 0x80 <= b[0] {
      SpellingOfLongLength(b[..4]);
    }
  }

  lemma TakePairOfSpelling(s: Spelling, rest: seq<byte>)
    requires s.Valid()
    ensures TakePair(s.Bytes() + rest) == Some(Taken(s.pair, |s.Bytes()|))
  {
    var name, value := s.pair.name, s.pair.value;
    var nl, vl := SpellLength(|name|, s.longName), SpellLength(|value|, s.longValue);
    var b := s.Bytes() + rest;
    var body := name + value + rest;
    assert b == nl + (vl + body);
    TakeLengthOfSpelling(|name|, s.longName, vl + body);
    assert b[|nl|..] == vl + body;
    TakeLengthOfSpelling(|value|, s.longValue, body);
    assert (vl + body)[|vl|..] == body;
    assert body[..|name|] == name;
    assert body[|name|..|name| + |value|] == value;
  }

  lemma TwoSlices(b: seq<byte>, m: nat, n: nat)
    requires m + n <= |b|
    ensures b[..m] + b[m..][..n] == b[..m + n]
  {
  }

  /** The spelling found at the front of b. */
  lemma SpellingOfTakePair(b: seq<byte>) returns (s: Spelling)
    requires TakePair(b).Some?
    ensures s.Valid() && s.pair == TakePair(b).value.pair
    ensures s.Bytes() == b[..TakePair(b).value.used]
  {
    var t := TakePair(b).value;
    var nl := TakeLength(b).value;
    var c := b[nl.used..];
    var vl := TakeLength(c).value;
    var body := c[vl.used..];
    SpellingOfTakeLength(b);
    SpellingOfTakeLength(c);
    hide TakeLength, SpellLength;
    s := Spelling(t.pair, 0x80 <= b[0], 0x80 <= c[0]);
    var size := nl.n + vl.n;
    assert t.used == nl.used + vl.used + size && |t.pair.name| == nl.n && |t.pair.value| == vl.n;
    assert t.pair.name + t.pair.value == body[..size];
    hide TakePair;
    assert c[..vl.used] + body[..size] == c[..vl.used + size] by { TwoSlices(c, vl.used, size); }
    assert b[..nl.used] + c[..vl.used + size] == b[..t.used] by { TwoSlices(b, nl.used, vl.used + size); }
  }

  /** TakePair finds a pair exactly when some spelling of a pair is a prefix. */
  lemma TakePairExact(b: seq<byte>)
    ensures TakePair(b).Some? <==> exists s: Spelling :: s.Valid() && s.Bytes() <= b
  {
    if TakePair(b).Some? {
      var s := SpellingOfTakePair(b);
      assert s.Valid() && s.Bytes() <= b;
    }
    if s: Spelling :| s.Valid() && s.Bytes() <= b {
      TakePairOfSpelling(s, b[|s.Bytes()|..]);
      assert s.Bytes() + b[|s.Bytes()|..] == b;
    }
  }

  lemma ParseCons(s: Spelling, rest: seq<byte>)
    requires s.Valid()
    ensures var p := ParsePairs(rest);
            ParsePairs(s.Bytes() + rest) == Parsed([s.pair] + p.pairs, p.complete)
  {
    TakePairOfSpelling(s, rest);
    assert (s.Bytes() + rest)[|s.Bytes()|..] == rest;
  }

  /** Whatever mix of length forms spells the pairs, and whatever torn pair follows. */
  lemma {:induction false} ParseOfSpellings(ss: seq<Spelling>, torn: seq<byte>)
    requires AllValid(ss) && TakePair(torn).None?
    ensures ParsePairs(Spell(ss) + torn) == Parsed(Pairs(ss), torn == [])
  {
    if ss == [] {
      assert Spell(ss) + torn == torn;
    } else {
      var rest := Spell(ss[1..]) + torn;
      ParseOfSpellings(ss[1..], torn);
      ParseCons(ss[0], rest);
      assert ss[0].Bytes() + Spell(ss[1..]) + torn == ss[0].Bytes() + rest;
    }
  }

  /** Every byte string is some spelled pairs followed by a torn rest. */
  lemma {:induction false} SpellingsOfParse(b: seq<byte>) returns (ss: seq<Spelling>, torn: seq<byte>)
    ensures AllValid(ss) && TakePair(torn).None?
    ensures b == Spell(ss) + torn
    ensures ParsePairs(b) == Parsed(Pairs(ss), torn == [])
  {
    hide TakePair, Spelling.Bytes;
    if TakePair(b).None? {
      ss, torn := [], b;
    } else {
      var used := TakePair(b).value.used;
      var s := SpellingOfTakePair(b);
      var ss', torn' := SpellingsOfParse(b[used..]);
      ss, torn := [s] + ss', torn';
      assert ss[1..] == ss';
      assert b == s.Bytes() + (Spell(ss') + torn') == s.Bytes() + Spell(ss') + torn';
    }
  }

  /** ParsePairs is complete exactly on the concatenations of spelled pairs. */
  lemma ParseCompleteExact(b: seq<byte>)
    ensures ParsePairs(b).complete <==> exists ss: seq<Spelling> :: AllValid(ss) && Spell(ss) == b
  {
    if ParsePairs(b).complete {
      var ss, torn := SpellingsOfParse(b);
      assert AllValid(ss) && Spell(ss) == b;
    }
    if ss: seq<Spelling> :| AllValid(ss) && Spell(ss) == b {
      ParseOfSpellings(ss, []);
      assert Spell(ss) + [] == b;
    }
  }

  /** The bytes before the first c, or all of them. */
  function UpTo(b: seq<byte>, c: byte): seq<byte> {
    if b == [] || b[0] == c then [] else [b[0]] + UpTo(b[1..], c)
  }

  lemma {:induction false} UpToFirst(a: seq<byte>, c: byte, rest: seq<byte>)
    requires c !in a
    ensures UpTo(a + [c] + rest, c) == a
  {
    if a != [] {
      assert (a + [c] + rest)[1..] == a[1..] + [c] + rest;
      UpToFirst(a[1..], c, rest);
    }
  }

  lemma {:induction false} EntriesAppend(a: seq<Pair>, b: seq<Pair>)
    ensures Entries(a + b) == Entries(a) + Entries(b)
  {
    if a == [] {
      assert a + b == b;
    } else {
      assert (a + b)[0] == a[0] && (a + b)[1..] == a[1..] + b;
      EntriesAppend(a[1..], b);
    }
  }

  lemma EntriesSnoc(a: seq<Pair>, p: Pair)
    ensures Entries(a + [p]) == Entries(a) + [p.Entry()]
  {
    EntriesAppend(a, [p]);
  }
}
