/** One connection to the web server, and what the operating system does with it. */
module Links {
  import opened Wire

  type errno = e: int | 0 < e witness 1

  const PROTOCOL_ERROR := -3

  /**
   * The value of a connection: the bytes still to be read, what a read reports after them
   * (0 for end of file, otherwise the errno of a failure), the bytes written so far, how many
   * more the peer takes before a write fails with writeErrno, how many it takes after each
   * such failure before the next, and the number of failures so far. `undefined` says that the
   * library, serving this connection, did something that C leaves undefined.
   */
  datatype Link = Link(
    input: seq<byte>, ending: nat, out: seq<byte>, room: nat, later: seq<nat>, failed: nat,
    writeErrno: errno, undefined: bool)
  {
    /** The error a stream records when it needs a byte and there is none. */
    function EndError(): (e: int)
      ensures e != 0
    {
      if ending == 0 then PROTOCOL_ERROR else ending
    }

    /** A write fails; the next one finds the room that comes after. */
    function Fail(): Link {
      this.(room := if later == [] then 0 else later[0], later := if later == [] then [] else later[1..],
            failed := failed + 1)
    }
  }

  datatype Sent = Sent(link: Link, ok: bool)

  /** Writing data: all of it, or the prefix there is room for and then failure. */
  function Send(l: Link, data: seq<byte>): Sent {
    if |data| <= l.room then Sent(l.(out := l.out + data, room := l.room - |data|), true)
    else Sent(l.(out := l.out + data[..l.room]).Fail(), false)
  }

  /** All that differs is what writing changes. */
  predicate OnlyWritten(a: Link, b: Link) {
    b == a.(out := b.out, room := b.room, later := b.later, failed := b.failed)
  }

  /** Two writes in a row are one write of the joined data, up to the first failure. */
  lemma SendJoin(l: Link, a: seq<byte>, b: seq<byte>)
    ensures Send(l, a).ok ==> Send(l, a + b) == Send(Send(l, a).link, b)
    ensures !Send(l, a).ok ==> Send(l, a + b) == Send(l, a)
  {
    if Send(l, a).ok {
      assert l.out + (a + b) == l.out + a + b;
      if |b| > l.room - |a| {
        assert (a + b)[..l.room] == a + b[..l.room - |a|];
        assert l.out + (a + b[..l.room - |a|]) == l.out + a + b[..l.room - |a|];
      }
    } else {
      assert (a + b)[..l.room] == a[..l.room];
    }
  }

  /** A write counts as failed exactly if it does not get everything through. */
  lemma SendCounts(l: Link, data: seq<byte>)
    ensures Send(l, data).link.failed == l.failed + if Send(l, data).ok then 0 else 1
    ensures OnlyWritten(l, Send(l, data).link)
  {
  }

  class Connection {
    var input: seq<byte>
    var out: seq<byte>
    var room: nat
    var later: seq<nat>
    ghost var failed: nat
    ghost var undefined: bool
    const ending: nat
    const writeErrno: errno

    constructor (input: seq<byte>, ending: nat, room: nat, later: seq<nat>, writeErrno: errno)
      ensures Value() == Link(input, ending, [], room, later, 0, writeErrno, false)
    {
      this.input, this.out, this.room, this.later, failed, undefined := input, [], room, later, 0, false;
      this.ending, this.writeErrno := ending, writeErrno;
    }

    ghost function Value(): Link
      reads this
    {
      Link(input, ending, out, room, later, failed, writeErrno, undefined)
    }

    /** OS_Read: any nonempty prefix that fits the buffer, however the network cut it. */
    method Read(buff: array<byte>) returns (count: int)
      requires buff.Length > 0
      modifies this`input, buff
      ensures old(input) == [] ==> count <= 0 && input == [] && buff[..] == old(buff[..])
      ensures old(input) == [] ==> (count == 0 <==> ending == 0)
      ensures old(input) != [] ==>
        && 0 < count <= buff.Length && count <= |old(input)|
        && buff[..count] == old(input)[..count] && input == old(input)[count..]
    {
      if input == [] {
        return if ending == 0 then 0 else -1;
      }
      var n: nat :| 0 < n <= buff.Length && n <= |input|;
      forall i | 0 <= i < n {
        buff[i] := input[i];
      }
      count, input := n, input[n..];
    }

    /** OS_Write: between one byte and all of them, or -1 when there is no room left. */
    method Write(data: seq<byte>) returns (wrote: int)
      requires data != []
      modifies this`out, this`room, this`later, this`failed
      ensures wrote < 0 <==> old(room) == 0
      ensures wrote < 0 ==> Value() == old(Value()).Fail()
      ensures wrote >= 0 ==> 0 < wrote <= |data| && wrote <= old(room)
      ensures wrote >= 0 ==>
        Value() == old(Value()).(out := old(out) + data[..wrote], room := old(room) - wrote)
    {
      if room == 0 {
        if later != [] {
          room, later := later[0], later[1..];
        }
        failed := failed + 1;
        return -1;
      }
      var n: nat :| 0 < n <= |data| && n <= room;
      out, room, wrote := out + data[..n], room - n, n;
    }

    /** write_it_all: repeats Write until everything is gone or a write fails. */
    method WriteAll(data: seq<byte>) returns (rc: int)
      modifies this`out, this`room, this`later, this`failed
      ensures Value() == Send(old(Value()), data).link
      ensures rc < 0 <==> !Send(old(Value()), data).ok
    {
      ghost var start := Value();
      ghost var done := 0;
      var rest := data;
      while rest != []
        invariant 0 <= done <= |data| && rest == data[done..]
        invariant done <= start.room && Value() == Send(start, data[..done]).link
        decreases |rest|
      {
        var wrote := Write(rest);
        if wrote < 0 {
          return wrote;
        }
        assert data[..done + wrote] == data[..done] + rest[..wrote];
        assert start.out + data[..done + wrote] == start.out + data[..done] + rest[..wrote];
        rest, done := rest[wrote..], done + wrote;
      }
      assert data[..done] == data;
      return 0;
    }
  }
}
