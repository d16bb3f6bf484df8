/** The asynchronous I/O table of os_unix.c, updated in place, against AsyncSpec. */
module AsyncIo {
  import opened AsyncSpec
  import opened AsyncInvariant
  import AR = AsyncRuns

  const NULL := 0

  const NO_ORDER := Order(Rd, 0, 0, 0, 0, NULL, 0)

  /** One slot of the table; `entry` is meaningful while `inUse` is set. */
  datatype AioInfo = AioInfo(entry: Entry, inUse: bool)

  const FREE := AioInfo(Entry(0, NO_ORDER), false)

  /** The entries in use on the even (read) or the odd (write) places of the table. */
  function Slots(table: seq<AioInfo>, dir: Direction): map<nat, Entry> {
    map fd: nat | fd < |table| && IndexOf(dir, fd) < |table| && table[IndexOf(dir, fd)].inUse ::
      table[IndexOf(dir, fd)].entry
  }

  lemma SlotAt(table: seq<AioInfo>, dir: Direction, fd: nat)
    requires IndexOf(dir, fd) < |table|
    ensures fd in Slots(table, dir) <==> table[IndexOf(dir, fd)].inUse
    ensures fd in Slots(table, dir) ==> Slots(table, dir)[fd] == table[IndexOf(dir, fd)].entry
  {
  }

  function Other(dir: Direction): Direction {
    if dir.Rd? then Wr else Rd
  }

  lemma SlotsApart(table: seq<AioInfo>, dir: Direction, fd: nat, info: AioInfo)
    requires IndexOf(dir, fd) < |table|
    ensures Slots(table[IndexOf(dir, fd) := info], Other(dir)) == Slots(table, Other(dir))
  {
  }

  lemma SlotsFilled(table: seq<AioInfo>, dir: Direction, fd: nat, e: Entry)
    requires IndexOf(dir, fd) < |table|
    ensures Slots(table[IndexOf(dir, fd) := AioInfo(e, true)], dir) == Slots(table, dir)[fd := e]
  {
  }

  lemma SlotsFreed(table: seq<AioInfo>, dir: Direction, fd: nat, e: Entry)
    requires IndexOf(dir, fd) < |table|
    ensures Slots(table[IndexOf(dir, fd) := AioInfo(e, false)], dir) == Slots(table, dir) - {fd}
  {
  }

  lemma SlotsGrown(table: seq<AioInfo>, more: seq<AioInfo>, dir: Direction)
    requires forall i :: 0 <= i < |more| ==> !more[i].inUse
    ensures Slots(table + more, dir) == Slots(table, dir)
  {
  }

  lemma SlotsFree(table: seq<AioInfo>, dir: Direction)
    requires forall i :: 0 <= i < |table| ==> !table[i].inUse
    ensures Slots(table, dir) == map[]
  {
  }

  function Lower(fds: set<nat>, n: int): set<nat> {
    set f | f in fds && f < n
  }

  lemma LowerStep(fds: set<nat>, n: nat)
    ensures n !in Lower(fds, n)
    ensures Lower(fds, n + 1) == if n in fds then Lower(fds, n) + {n} else Lower(fds, n)
  {
  }

  lemma LowerEnds(fds: set<nat>, n: int)
    ensures n <= 0 ==> Lower(fds, n) == {}
    ensures (forall f :: f in fds ==> f < n) ==> Lower(fds, n) == fds
  {
  }

  /** The descriptors in `done` have gone from waiting to posted, and are counted. */
  predicate Moved(was: Side, pending: set<nat>, posted: set<nat>, count: int, done: set<nat>) {
    pending == was.pending - done && posted == was.posted + done && count == was.count + |done|
  }

  lemma MovedNothing(was: Side)
    ensures Moved(was, was.pending, was.posted, was.count, {})
  {
  }

  lemma MovedIsPolled(was: Side, pending: set<nat>, posted: set<nat>, count: int, ready: set<nat>, maxFd: int)
    requires Moved(was, pending, posted, count, Found(was, ready, maxFd))
    ensures PollHalf(was, ready, maxFd) == was.(pending := pending, posted := posted, count := count)
  {
  }

  lemma FoundIsSelected(half: Side, ready: set<nat>, maxFd: int, waiting: set<nat>)
    requires waiting == set f | f in half.pending && f <= maxFd
    ensures waiting * ready == Found(half, ready, maxFd)
    ensures forall f :: f in waiting ==> f <= maxFd
  {
  }

  class AsyncTable {
    var asyncIoTable: array<AioInfo>
    var readFdSet: set<nat>
    var writeFdSet: set<nat>
    var readFdSetPost: set<nat>
    var writeFdSetPost: set<nat>
    var numRdPosted: int
    var numWrPosted: int
    var maxFd: int
    var asyncIoInUse: bool

    // The history: what was registered, what was called back, what closes took away.
    var registered: seq<Order>
    var called: seq<Entry>
    ghost var cancelled: set<nat>
    ghost var lostRd: nat
    ghost var lostWr: nat
    ghost var crossed: bool

    ghost function Abs(): State
      reads this, asyncIoTable
    {
      State(
        Side(Slots(asyncIoTable[..], Rd), readFdSet, readFdSetPost, numRdPosted, lostRd),
        Side(Slots(asyncIoTable[..], Wr), writeFdSet, writeFdSetPost, numWrPosted, lostWr),
        registered, called, cancelled, maxFd, asyncIoTable.Length, asyncIoInUse, crossed)
    }

    /** OS_LibInit. */
    constructor ()
      ensures Abs() == INITIAL && fresh(asyncIoTable)
    {
      asyncIoTable := new AioInfo[TABLE_SIZE](_ => FREE);
      readFdSet, writeFdSet, readFdSetPost, writeFdSetPost := {}, {}, {}, {};
      numRdPosted, numWrPosted, maxFd, asyncIoInUse := 0, 0, -1, false;
      registered, called, cancelled, lostRd, lostWr, crossed := [], [], {}, 0, 0, false;
      new;
      SlotsFree(asyncIoTable[..], Rd);
      SlotsFree(asyncIoTable[..], Wr);
    }

    method GrowAsyncTable()
      modifies this`asyncIoTable
      ensures fresh(asyncIoTable)
      ensures Abs() == old(Abs()).(size := 2 * old(asyncIoTable.Length))
    {
      var oldSize := asyncIoTable.Length;
      var table := new AioInfo[2 * oldSize](_ => FREE);
      var i := 0;
      while i < oldSize
        invariant 0 <= i <= oldSize
        invariant asyncIoTable == old(asyncIoTable)
        invariant forall j :: 0 <= j < i ==> table[j] == asyncIoTable[j]
        invariant forall j :: i <= j < table.Length ==> table[j] == FREE
        invariant asyncIoTable[..] == old(asyncIoTable[..])
      {
        table[i] := asyncIoTable[i];
        i := i + 1;
      }
      ghost var more := table[oldSize..];
      assert table[..] == asyncIoTable[..] + more;
      SlotsGrown(asyncIoTable[..], more, Rd);
      SlotsGrown(asyncIoTable[..], more, Wr);
      asyncIoTable := table;
    }

    method Reserve(index: nat)
      requires 0 < asyncIoTable.Length
      modifies this`asyncIoTable
      ensures asyncIoTable == old(asyncIoTable) || fresh(asyncIoTable)
      ensures Abs() == old(Abs()).(size := Grown(old(asyncIoTable.Length), index))
      ensures index < asyncIoTable.Length
    {
      while index >= asyncIoTable.Length
        invariant 0 < asyncIoTable.Length
        invariant asyncIoTable == old(asyncIoTable) || fresh(asyncIoTable)
        invariant Abs() == old(Abs()).(size := asyncIoTable.Length)
        invariant Grown(asyncIoTable.Length, index) == Grown(old(asyncIoTable.Length), index)
        decreases index + 1 - asyncIoTable.Length
      {
        GrowAsyncTable();
      }
    }

    /** Fills the entry at one index. */
    method Occupy(o: Order)
      requires IndexOf(o.dir, o.fd) < asyncIoTable.Length
      modifies this`registered, asyncIoTable
      ensures Slots(asyncIoTable[..], o.dir) == old(Slots(asyncIoTable[..], o.dir))[o.fd := Entry(|old(registered)|, o)]
      ensures Slots(asyncIoTable[..], Other(o.dir)) == old(Slots(asyncIoTable[..], Other(o.dir)))
      ensures registered == old(registered) + [o]
    {
      SlotsFilled(asyncIoTable[..], o.dir, o.fd, Entry(|registered|, o));
      SlotsApart(asyncIoTable[..], o.dir, o.fd, AioInfo(Entry(|registered|, o), true));
      asyncIoTable[IndexOf(o.dir, o.fd)] := AioInfo(Entry(|registered|, o), true);
      registered := registered + [o];
    }

    method AsyncRead(fd: nat, offset: int, buf: int, len: int, proc: int, data: int)
      requires 0 < asyncIoTable.Length
      requires fd !in Abs().rd.slots
      modifies this, asyncIoTable
      ensures asyncIoTable == old(asyncIoTable) || fresh(asyncIoTable)
      ensures Abs() == Begin(old(Abs()), Order(Rd, fd, offset, buf, len, proc, data))
    {
      hide Slots, Grown;
      asyncIoInUse := true;
      if fd > maxFd {
        maxFd := fd;
      }
      Reserve(2 * fd);
      Occupy(Order(Rd, fd, offset, buf, len, proc, data));
      readFdSet := readFdSet + {fd};
    }

    method AsyncWrite(fd: nat, offset: int, buf: int, len: int, proc: int, data: int)
      requires 0 < asyncIoTable.Length
      requires fd !in Abs().wr.slots
      modifies this, asyncIoTable
      ensures asyncIoTable == old(asyncIoTable) || fresh(asyncIoTable)
      ensures Abs() == Begin(old(Abs()), Order(Wr, fd, offset, buf, len, proc, data))
    {
      hide Slots, Grown;
      asyncIoInUse := true;
      if fd > maxFd {
        maxFd := fd;
      }
      Reserve(2 * fd + 1);
      Occupy(Order(Wr, fd, offset, buf, len, proc, data));
      writeFdSet := writeFdSet + {fd};
    }

    method AsyncReadStdin(buf: int, len: int, proc: int, data: int)
      requires 0 < asyncIoTable.Length
      requires 0 !in Abs().rd.slots
      modifies this, asyncIoTable
      ensures asyncIoTable == old(asyncIoTable)
      ensures Abs() == Begin(old(Abs()), Order(Rd, 0, 0, buf, len, proc, data))
      ensures Abs().registered == old(Abs().registered) + [Order(Rd, 0, 0, buf, len, proc, data)]
    {
      hide Slots;
      asyncIoInUse := true;
      Occupy(Order(Rd, 0, 0, buf, len, proc, data));
      readFdSet := readFdSet + {0};
      if 0 > maxFd {
        maxFd := 0;
      }
    }

    /** Frees the entry at one index, as both closes do. */
    method Release(dir: Direction, fd: nat)
      requires IndexOf(dir, fd) < asyncIoTable.Length
      modifies this`cancelled, asyncIoTable
      ensures Slots(asyncIoTable[..], dir) == old(Slots(asyncIoTable[..], dir)) - {fd}
      ensures Slots(asyncIoTable[..], Other(dir)) == old(Slots(asyncIoTable[..], Other(dir)))
      ensures cancelled == old(cancelled) + SerialAt(old(Slots(asyncIoTable[..], dir)), fd)
    {
      var index := IndexOf(dir, fd);
      SlotAt(asyncIoTable[..], dir, fd);
      SlotsFreed(asyncIoTable[..], dir, fd, asyncIoTable[index].entry);
      SlotsApart(asyncIoTable[..], dir, fd, asyncIoTable[index].(inUse := false));
      if asyncIoTable[index].inUse {
        cancelled := cancelled + {asyncIoTable[index].entry.serial};
        asyncIoTable[index] := asyncIoTable[index].(inUse := false);
      } else {
        assert Slots(asyncIoTable[..], dir) == Slots(asyncIoTable[..], dir) - {fd};
      }
    }

    method ForgetRead(fd: nat)
      requires 2 * fd < asyncIoTable.Length
      modifies this`readFdSet, this`readFdSetPost, this`lostRd, this`cancelled, asyncIoTable
      ensures var s := old(Abs());
        Abs() == s.(rd := Forget(s.rd, fd), cancelled := s.cancelled + SerialAt(s.rd.slots, fd))
    {
      hide Slots, SerialAt;
      lostRd := lostRd + if fd in readFdSetPost then 1 else 0;
      readFdSet := readFdSet - {fd};
      readFdSetPost := readFdSetPost - {fd};
      Release(Rd, fd);
    }

    method ForgetWrite(fd: nat)
      requires 2 * fd + 1 < asyncIoTable.Length
      modifies this`writeFdSet, this`writeFdSetPost, this`lostWr, this`cancelled, asyncIoTable
      ensures var s := old(Abs());
        Abs() == s.(wr := Forget(s.wr, fd), cancelled := s.cancelled + SerialAt(s.wr.slots, fd))
    {
      hide Slots, SerialAt;
      lostWr := lostWr + if fd in writeFdSetPost then 1 else 0;
      writeFdSet := writeFdSet - {fd};
      writeFdSetPost := writeFdSetPost - {fd};
      Release(Wr, fd);
    }

    /** The part of OS_Close that concerns the table. */
    method Close(fd: int)
      requires fd == -1 || (0 <= fd && (asyncIoInUse ==> 2 * fd + 1 < asyncIoTable.Length))
      modifies this, asyncIoTable
      ensures asyncIoTable == old(asyncIoTable)
      ensures Abs() == CloseFd(old(Abs()), fd)
    {
      hide Slots, SerialAt, Forget;
      if fd == -1 {
        return;
      }
      if asyncIoInUse {
        ForgetRead(fd);
        ForgetWrite(fd);
        if maxFd == fd {
          maxFd := maxFd - 1;
        }
      }
    }

    /** The part of OS_CloseRead that concerns the table. */
    method CloseRead(fd: nat)
      requires 2 * fd < asyncIoTable.Length
      modifies this, asyncIoTable
      ensures asyncIoTable == old(asyncIoTable)
      ensures Abs() == CloseReadFd(old(Abs()), fd)
    {
      SlotAt(asyncIoTable[..], Rd, fd);
      if asyncIoTable[2 * fd].inUse {
        Release(Rd, fd);
        crossed := crossed || fd in readFdSetPost;
        readFdSet := readFdSet - {fd};
      }
    }

    /** One call an application or a callback makes, if it may make it. */
    method Call(a: Action)
      requires 0 < asyncIoTable.Length
      modifies this, asyncIoTable
      ensures asyncIoTable == old(asyncIoTable) || fresh(asyncIoTable)
      ensures Abs() == Perform(old(Abs()), a)
      ensures 0 < asyncIoTable.Length
    {
      hide Begin, CloseFd, CloseReadFd;
      match a
      case Start(o) =>
        var free := IsFree(o.dir, o.fd);
        if free {
          if o.dir.Rd? {
            AsyncRead(o.fd, o.offset, o.buf, o.len, o.proc, o.data);
          } else {
            AsyncWrite(o.fd, o.offset, o.buf, o.len, o.proc, o.data);
          }
        }
      case StartStdin(buf, len, proc, data) =>
        var free := IsFree(Rd, 0);
        if free {
          AsyncReadStdin(buf, len, proc, data);
        }
      case Close(fd) =>
        if fd == -1 || (0 <= fd && (asyncIoInUse ==> 2 * fd + 1 < asyncIoTable.Length)) {
          Close(fd);
        }
      case CloseRead(fd) =>
        if 2 * fd < asyncIoTable.Length {
          CloseRead(fd);
        }
    }

    method IsFree(dir: Direction, fd: nat) returns (free: bool)
      ensures free <==> fd !in Half(Abs(), dir).slots
    {
      if IndexOf(dir, fd) < asyncIoTable.Length {
        SlotAt(asyncIoTable[..], dir, fd);
        free := !asyncIoTable[IndexOf(dir, fd)].inUse;
      } else {
        free := true;
      }
    }

    /** A callback runs: any sequence of calls on the table it was made from. */
    method Callback(actions: seq<Action>)
      requires 0 < asyncIoTable.Length
      modifies this, asyncIoTable
      ensures asyncIoTable == old(asyncIoTable) || fresh(asyncIoTable)
      ensures Abs() == PerformAll(old(Abs()), actions)
      ensures 0 < asyncIoTable.Length
    {
      hide Perform;
      var i := 0;
      while i < |actions|
        invariant 0 <= i <= |actions|
        invariant 0 < asyncIoTable.Length
        invariant asyncIoTable == old(asyncIoTable) || fresh(asyncIoTable)
        invariant PerformAll(Abs(), actions[i..]) == PerformAll(old(Abs()), actions)
      {
        assert actions[i..][1..] == actions[i + 1..];
        Call(actions[i]);
        i := i + 1;
      }
    }

    /** Frees a due entry and records the callback about to be made. */
    method TakeRead(fd: nat)
      requires Due(Abs(), Rd, fd) && 2 * fd < asyncIoTable.Length
      modifies this`numRdPosted, this`readFdSetPost, this`called, asyncIoTable
      ensures Abs() == Take(old(Abs()), Rd, fd)
    {
      SlotAt(asyncIoTable[..], Rd, fd);
      numRdPosted := numRdPosted - 1;
      readFdSetPost := readFdSetPost - {fd};
      var aio := asyncIoTable[2 * fd];
      var cleared := aio.entry.(order := aio.entry.order.(proc := NULL));
      SlotsFreed(asyncIoTable[..], Rd, fd, cleared);
      SlotsApart(asyncIoTable[..], Rd, fd, AioInfo(cleared, false));
      asyncIoTable[2 * fd] := AioInfo(cleared, false);
      called := called + [aio.entry];
    }

    method TakeWrite(fd: nat)
      requires Due(Abs(), Wr, fd) && 2 * fd + 1 < asyncIoTable.Length
      modifies this`numWrPosted, this`writeFdSetPost, this`called, asyncIoTable
      ensures Abs() == Take(old(Abs()), Wr, fd)
    {
      SlotAt(asyncIoTable[..], Wr, fd);
      numWrPosted := numWrPosted - 1;
      writeFdSetPost := writeFdSetPost - {fd};
      var aio := asyncIoTable[2 * fd + 1];
      var cleared := aio.entry.(order := aio.entry.order.(proc := NULL));
      SlotsFreed(asyncIoTable[..], Wr, fd, cleared);
      SlotsApart(asyncIoTable[..], Wr, fd, AioInfo(cleared, false));
      asyncIoTable[2 * fd + 1] := AioInfo(cleared, false);
      called := called + [aio.entry];
    }

    method ServeRead(fd: nat, play: nat -> seq<Action>)
      requires Inv(Abs())
      modifies this, asyncIoTable
      ensures asyncIoTable == old(asyncIoTable) || fresh(asyncIoTable)
      ensures 0 < old(asyncIoTable.Length) && Abs() == Serve(old(Abs()), Rd, fd, play)
    {
      hide Inv, PerformAll, Take;
      TalliedSize(Abs());
      if fd in readFdSetPost {
        assert 2 * fd < asyncIoTable.Length by { PostedWithin(Abs(), Rd, fd); }
        SlotAt(asyncIoTable[..], Rd, fd);
        if asyncIoTable[2 * fd].inUse {
          var n := |called|;
          TakeRead(fd);
          Callback(play(n));
        }
      }
    }

    method ServeWrite(fd: nat, play: nat -> seq<Action>)
      requires Inv(Abs())
      modifies this, asyncIoTable
      ensures asyncIoTable == old(asyncIoTable) || fresh(asyncIoTable)
      ensures 0 < old(asyncIoTable.Length) && Abs() == Serve(old(Abs()), Wr, fd, play)
    {
      hide Inv, PerformAll, Take;
      TalliedSize(Abs());
      if fd in writeFdSetPost {
        assert 2 * fd + 1 < asyncIoTable.Length by { PostedWithin(Abs(), Wr, fd); }
        SlotAt(asyncIoTable[..], Wr, fd);
        if asyncIoTable[2 * fd + 1].inUse {
          var n := |called|;
          TakeWrite(fd);
          Callback(play(n));
        }
      }
    }

    lemma PostedWithin(s: State, dir: Direction, fd: nat)
      requires Inv(s) && fd in Half(s, dir).posted
      ensures IndexOf(dir, fd) < s.size
    {
      assert Within(Half(s, dir), dir, s.size);
    }

    /** The dispatch loop: `maxFd` and the posted sets may change under it. */
    method DispatchPosted(play: nat -> seq<Action>)
      requires Inv(Abs())
      modifies this, asyncIoTable
      ensures asyncIoTable == old(asyncIoTable) || fresh(asyncIoTable)
      ensures 0 < old(asyncIoTable.Length) && Abs() == Pass(old(Abs()), 0, play)
    {
      hide Inv, Serve;
      TalliedSize(Abs());
      var fd := 0;
      while fd <= maxFd
        invariant Inv(Abs()) && 0 < asyncIoTable.Length
        invariant asyncIoTable == old(asyncIoTable) || fresh(asyncIoTable)
        invariant 0 < old(asyncIoTable.Length) && Pass(Abs(), fd, play) == Pass(old(Abs()), 0, play)
        decreases readFdSetPost, writeFdSetPost, maxFd + 1 - fd
      {
        ServeKeeps(Abs(), Rd, fd, play);
        ServeRead(fd, play);
        ServeKeeps(Abs(), Wr, fd, play);
        ServeWrite(fd, play);
        TalliedSize(Abs());
        fd := fd + 1;
      }
    }

    method CopyWaiting() returns (rdCpy: set<nat>, wrCpy: set<nat>)
      ensures rdCpy == set f | f in readFdSet && f <= maxFd
      ensures wrCpy == set f | f in writeFdSet && f <= maxFd
    {
      rdCpy, wrCpy := {}, {};
      var fd := 0;
      while fd <= maxFd
        invariant 0 <= fd
        invariant rdCpy == set f | f in readFdSet && f < fd && f <= maxFd
        invariant wrCpy == set f | f in writeFdSet && f < fd && f <= maxFd
        decreases maxFd + 1 - fd
      {
        if fd in readFdSet {
          rdCpy := rdCpy + {fd};
        }
        if fd in writeFdSet {
          wrCpy := wrCpy + {fd};
        }
        fd := fd + 1;
      }
    }

    method PostRead(fd: nat, rdCpy: set<nat>, ghost was: Side)
      requires Moved(was, readFdSet, readFdSetPost, numRdPosted, Lower(rdCpy, fd))
      modifies this`readFdSet, this`readFdSetPost, this`numRdPosted
      ensures Moved(was, readFdSet, readFdSetPost, numRdPosted, Lower(rdCpy, fd + 1))
    {
      LowerStep(rdCpy, fd);
      if fd in rdCpy {
        numRdPosted := numRdPosted + 1;
        readFdSetPost := readFdSetPost + {fd};
        readFdSet := readFdSet - {fd};
      }
    }

    method PostWrite(fd: nat, wrCpy: set<nat>, ghost was: Side)
      requires Moved(was, writeFdSet, writeFdSetPost, numWrPosted, Lower(wrCpy, fd))
      modifies this`writeFdSet, this`writeFdSetPost, this`numWrPosted
      ensures Moved(was, writeFdSet, writeFdSetPost, numWrPosted, Lower(wrCpy, fd + 1))
    {
      LowerStep(wrCpy, fd);
      if fd in wrCpy {
        numWrPosted := numWrPosted + 1;
        writeFdSetPost := writeFdSetPost + {fd};
        writeFdSet := writeFdSet - {fd};
      }
    }

    method PostReady(rdCpy: set<nat>, wrCpy: set<nat>)
      requires forall f :: f in rdCpy ==> f <= maxFd
      requires forall f :: f in wrCpy ==> f <= maxFd
      modifies this`readFdSet, this`readFdSetPost, this`numRdPosted
      modifies this`writeFdSet, this`writeFdSetPost, this`numWrPosted
      ensures Moved(old(Abs()).rd, readFdSet, readFdSetPost, numRdPosted, rdCpy)
      ensures Moved(old(Abs()).wr, writeFdSet, writeFdSetPost, numWrPosted, wrCpy)
    {
      hide Lower, Moved, Slots;
      ghost var was := Abs();
      var fd := 0;
      LowerEnds(rdCpy, 0);
      LowerEnds(wrCpy, 0);
      MovedNothing(was.rd);
      MovedNothing(was.wr);
      while fd <= maxFd
        invariant 0 <= fd
        invariant Moved(was.rd, readFdSet, readFdSetPost, numRdPosted, Lower(rdCpy, fd))
        invariant Moved(was.wr, writeFdSet, writeFdSetPost, numWrPosted, Lower(wrCpy, fd))
        decreases maxFd + 1 - fd
      {
        PostRead(fd, rdCpy, was.rd);
        PostWrite(fd, wrCpy, was.wr);
        fd := fd + 1;
      }
      LowerEnds(rdCpy, fd);
      LowerEnds(wrCpy, fd);
    }

    /** The poll of OS_DoIo: `select` leaves those of the waiting descriptors that are in `ready`. */
    method Select(ready: Ready, waitingRd: set<nat>, waitingWr: set<nat>)
      requires waitingRd == set f | f in readFdSet && f <= maxFd
      requires waitingWr == set f | f in writeFdSet && f <= maxFd
      modifies this`readFdSet, this`readFdSetPost, this`numRdPosted
      modifies this`writeFdSet, this`writeFdSetPost, this`numWrPosted
      ensures Abs() == Poll(old(Abs()), ready)
    {
      hide Slots, Found, Moved;
      ghost var s := Abs();
      FoundIsSelected(s.rd, ready.rd, maxFd, waitingRd);
      FoundIsSelected(s.wr, ready.wr, maxFd, waitingWr);
      PostReady(waitingRd * ready.rd, waitingWr * ready.wr);
      MovedIsPolled(s.rd, readFdSet, readFdSetPost, numRdPosted, ready.rd, maxFd);
      MovedIsPolled(s.wr, writeFdSet, writeFdSetPost, numWrPosted, ready.wr, maxFd);
    }

    method DoIo(ready: Ready, play: nat -> seq<Action>)
      requires Inv(Abs())
      modifies this, asyncIoTable
      ensures asyncIoTable == old(asyncIoTable) || fresh(asyncIoTable)
      ensures 0 < old(asyncIoTable.Length) && Abs() == Served(old(Abs()), ready, play)
      ensures Inv(Abs())
    {
      hide Inv, Pass, Slots, Poll;
      TalliedSize(Abs());
      ServedKeeps(Abs(), ready, play);
      WakeKeeps(Abs());
      asyncIoInUse := true;
      ghost var woken := Abs();
      var rdCpy, wrCpy := CopyWaiting();
      if numRdPosted == 0 && numWrPosted == 0 {
        PollKeeps(woken, ready);
        Select(ready, rdCpy, wrCpy);
      }
      if numRdPosted == 0 && numWrPosted == 0 {
        return;
      }
      DispatchPosted(play);
    }
  }

  /** A program that makes calls and lets OS_DoIo run the callbacks ends where the spec's run ends. */
  method RunEvents(events: seq<Event>, play: nat -> seq<Action>) returns (table: AsyncTable)
    ensures fresh(table) && fresh(table.asyncIoTable)
    ensures table.Abs() == Run(INITIAL, events, play) && Inv(table.Abs())
    ensures var t := table.Abs();
      !t.crossed ==>
        && AR.Resting(t)
        && (table.numRdPosted == 0 && table.numWrPosted == 0 <==> Lost(t) == 0)
  {
    hide Inv, Served, Perform;
    AR.InitialInv();
    AR.EveryRun(events, play);
    table := new AsyncTable();
    var i := 0;
    while i < |events|
      invariant 0 <= i <= |events|
      invariant fresh(table) && fresh(table.asyncIoTable)
      invariant Inv(table.Abs()) && 0 < table.asyncIoTable.Length
      invariant Run(table.Abs(), events[i..], play) == Run(INITIAL, events, play)
    {
      assert events[i..][1..] == events[i + 1..];
      AR.StepKeeps(table.Abs(), events[i], play);
      match events[i] {
        case Act(a) => table.Call(a);
        case DoIo(ready) => table.DoIo(ready, play);
      }
      TalliedSize(table.Abs());
      i := i + 1;
    }
  }
}
