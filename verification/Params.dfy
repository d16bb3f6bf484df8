/** The growable environment vector, and looking a name up in it. */
module Params {
  import opened Wire
  import opened NameValue

  /** The entries of a vector, its capacity, and how many entries reallocation has moved. */
  datatype Vector = Vector(entries: seq<seq<byte>>, capacity: nat, moved: nat)

  function NewVector(capacity: nat): Vector {
    Vector([], capacity, 0)
  }

  /** One PutParam: the new entry, then twice the room when the terminator has none left. */
  function Put(v: Vector, entry: seq<byte>): Vector {
    var entries := v.entries + [entry];
    if |entries| >= v.capacity then Vector(entries, 2 * v.capacity, v.moved + |entries|)
    else Vector(entries, v.capacity, v.moved)
  }

  function PutAll(v: Vector, es: seq<seq<byte>>): Vector
    decreases |es|
  {
    if es == [] then v else Put(PutAll(v, es[..|es| - 1]), es[|es| - 1])
  }

  /** n doubled k times. */
  function Doubled(n: nat, k: nat): nat {
    if k == 0 then n else 2 * Doubled(n, k - 1)
  }

  /** The room, doublings and moves of a vector that was put n entries. */
  ghost predicate Amortised(v: Vector, initial: nat, n: nat, k: nat) {
    && |v.entries| == n < v.capacity == Doubled(initial, k)
    && v.moved == v.capacity - initial
    && (k > 0 ==> v.capacity <= 2 * n)
  }

  lemma PutAmortised(v: Vector, entry: seq<byte>, initial: nat, n: nat, k: nat) returns (k': nat)
    requires Amortised(v, initial, n, k)
    ensures Amortised(Put(v, entry), initial, n + 1, k')
  {
    k' := if n + 1 >= v.capacity then k + 1 else k;
  }

  /**
   * After any puts: the entries in order, room left for the terminator, a capacity that is
   * the initial one doubled k times, and fewer than two entries moved for each one put.
   */
  lemma {:induction false} PutAllLaws(initial: nat, es: seq<seq<byte>>) returns (k: nat)
    requires initial >= 1
    ensures var v := PutAll(NewVector(initial), es);
            && v.entries == es
            && Amortised(v, initial, |es|, k)
            && (es != [] ==> v.moved < 2 * |es|)
    decreases |es|
  {
    if es == [] {
      k := 0;
    } else {
      var last := |es| - 1;
      k := PutAllLaws(initial, es[..last]);
      assert es == es[..last] + [es[last]];
      k := PutAmortised(PutAll(NewVector(initial), es[..last]), es[last], initial, last, k);
    }
  }

  /** What a C program sees of a string: the bytes before the first NUL. */
  function CString(b: seq<byte>): seq<byte> {
    if b == [] || b[0] == NUL then [] else [b[0]] + CString(b[1..])
  }

  lemma {:induction false} CStringWithoutNul(b: seq<byte>)
    requires NUL !in b
    ensures CString(b) == b
  {
    if b != [] {
      CStringWithoutNul(b[1..]);
    }
  }

  /** FCGX_GetParam: the text after name= in the first entry that starts so. */
  function Lookup(name: seq<byte>, es: seq<seq<byte>>): Option<seq<byte>> {
    if es == [] then None
    else if name + [EQUALS] <= es[0] then Some(CString(es[0][|name| + 1..]))
    else Lookup(name, es[1..])
  }

  /** The value of the first pair with this name. */
  function FirstNamed(name: seq<byte>, ps: seq<Pair>): Option<seq<byte>> {
    if ps == [] then None
    else if ps[0].name == name then Some(ps[0].value)
    else FirstNamed(name, ps[1..])
  }

  /** An entry starts with name= exactly when its pair has that name, if neither has an '='. */
  lemma EntryMatches(name: seq<byte>, p: Pair)
    requires EQUALS !in name && EQUALS !in p.name
    ensures name + [EQUALS] <= p.Entry() <==> p.name == name
    ensures p.name == name ==> p.Entry()[|name| + 1..] == p.value
  {
    var key := name + [EQUALS];
    UpToFirst(p.name, EQUALS, p.value);
    if key <= p.Entry() {
      var rest := p.Entry()[|key|..];
      assert p.Entry() == name + [EQUALS] + rest;
      UpToFirst(name, EQUALS, rest);
    }
  }

  predicate Plain(ps: seq<Pair>) {
    forall i :: 0 <= i < |ps| ==> EQUALS !in ps[i].name && NUL !in ps[i].value
  }

  /** Looking a name up in the environment finds the first pair sent under that name. */
  lemma {:induction false} LookupIsFirstNamed(name: seq<byte>, ps: seq<Pair>)
    requires EQUALS !in name && Plain(ps)
    ensures Lookup(name, Entries(ps)) == FirstNamed(name, ps)
  {
    if ps != [] {
      EntryMatches(name, ps[0]);
      CStringWithoutNul(ps[0].value);
      LookupIsFirstNamed(name, ps[1..]);
    }
  }

  /** With an '=' in a name the environment can answer for a variable nobody sent. */
  lemma LookupSeesThroughEquals()
    ensures exists name, ps: seq<Pair> :: EQUALS !in name && Lookup(name, Entries(ps)) != FirstNamed(name, ps)
  {
    var p := Pair([65, EQUALS, 66], [67]);
    assert [65] + [EQUALS] <= p.Entry();
    assert Entries([p])[0] == p.Entry();
    assert Lookup([65], Entries([p])).Some?;
    assert FirstNamed([65], [p]).None?;
  }

  class ParamVector {
    var vec: array<Option<seq<byte>>>
    var length: nat
    var cur: nat
    ghost var moved: nat

    ghost predicate Valid()
      reads this, vec
    {
      && length == vec.Length
      && cur < vec.Length && vec[cur] == None
      && forall i :: 0 <= i < cur ==> vec[i].Some?
    }

    ghost function Contents(): (es: seq<seq<byte>>)
      requires Valid()
      reads this, vec
      ensures |es| == cur
    {
      seq(cur, i requires 0 <= i < cur reads this, vec requires Valid() => vec[i].value)
    }

    ghost function Value(): Vector
      requires Valid()
      reads this, vec
    {
      Vector(Contents(), length, moved)
    }

    /** NewParams */
    constructor (length: nat)
      requires length >= 1
      ensures Valid() && fresh(vec) && Value() == NewVector(length)
    {
      vec := new Option<seq<byte>>[length](_ => None);
      this.length, cur, moved := length, 0, 0;
      new;
      assert Contents() == [];
    }

    method PutParam(nameValue: seq<byte>)
      requires Valid()
      modifies this, vec
      ensures Valid() && (vec == old(vec) || fresh(vec))
      ensures Value() == Put(old(Value()), nameValue)
    {
      ghost var before := Contents();
      vec[cur] := Some(nameValue);
      cur := cur + 1;
      var size := cur;
      if size >= length {
        length := length * 2;
        var bigger := new Option<seq<byte>>[length](_ => None);
        forall i | 0 <= i < size {
          bigger[i] := vec[i];
        }
        vec := bigger;
        moved := moved + size;
      }
      vec[cur] := None;
      assert Contents() == before + [nameValue];
    }

    /** FCGX_GetParam on the vector; name is a C string, so it holds no NUL. */
    method GetParam(name: seq<byte>) returns (value: Option<seq<byte>>)
      requires Valid() && NUL !in name
      ensures value == Lookup(name, Contents())
    {
      var p := 0;
      while vec[p].Some?
        invariant 0 <= p <= cur
        invariant Lookup(name, Contents()) == Lookup(name, Contents()[p..])
        decreases cur - p
      {
        var entry := vec[p].value;
        assert Contents()[p..][0] == entry && Contents()[p..][1..] == Contents()[p + 1..];
        if name + [EQUALS] <= entry {
          return Some(CString(entry[|name| + 1..]));
        }
        p := p + 1;
      }
      return None;
    }
  }
}
