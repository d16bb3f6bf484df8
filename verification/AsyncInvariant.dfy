/** What every call, poll and callback keeps true of the asynchronous table. */
module AsyncInvariant {
  import opened AsyncSpec

  // The invariant.

  predicate WasCalled(called: seq<Entry>, k: nat) {
    exists i :: 0 <= i < |called| && called[i].serial == k
  }

  /** Registration number k still has its entry. */
  predicate Live(s: State, k: nat) {
    && k < |s.registered|
    && var o := s.registered[k];
       o.fd in Half(s, o.dir).slots && Half(s, o.dir).slots[o.fd].serial == k
  }

  /** Number k is over: it was called back, or a close freed its entry. */
  predicate Over(s: State, k: nat) {
    WasCalled(s.called, k) || k in s.cancelled
  }

  /** The entry of `fd` is the order of that number, reachable by the loops, inside the table. */
  predicate Held(s: State, dir: Direction, fd: nat)
    requires fd in Half(s, dir).slots
  {
    var e := Half(s, dir).slots[fd];
    && e.serial < |s.registered| && s.registered[e.serial] == e.order
    && e.order.dir == dir && e.order.fd == fd
    && fd <= s.maxFd && IndexOf(dir, fd) < s.size
    && fd in Half(s, dir).pending + Half(s, dir).posted
    && !Over(s, e.serial)
  }

  predicate AllHeld(s: State) {
    forall dir: Direction, fd :: fd in Half(s, dir).slots ==> Held(s, dir, fd)
  }

  /** Each operation in use is in exactly one of pending and posted, and nothing else is. */
  predicate Exact(half: Side) {
    half.pending !! half.posted && half.slots.Keys == half.pending + half.posted
  }

  predicate Counted(half: Side) {
    half.count == |half.posted| + half.lost
  }

  /** Every bit the loops look at has its index inside the table. */
  predicate Within(half: Side, dir: Direction, size: nat) {
    forall fd :: fd in half.pending + half.posted ==> IndexOf(dir, fd) < size
  }

  predicate Untouched(s: State) {
    s == INITIAL
  }

  predicate Tallied(s: State) {
    && Within(s.rd, Rd, s.size) && Within(s.wr, Wr, s.size)
    && Counted(s.rd) && Counted(s.wr)
    && Exact(s.wr) && (!s.crossed ==> Exact(s.rd))
    && (!s.on ==> Untouched(s))
    && -1 <= s.maxFd && 0 < s.size
  }

  /** Callbacks got what was registered, each registration at most once and none cancelled. */
  predicate Called(registered: seq<Order>, called: seq<Entry>, cancelled: set<nat>) {
    && (forall i :: 0 <= i < |called| ==>
          && called[i].serial < |registered|
          && registered[called[i].serial] == called[i].order
          && called[i].serial !in cancelled)
    && (forall i, j :: 0 <= i < j < |called| ==> called[i].serial != called[j].serial)
  }

  /** No registration is forgotten. */
  predicate Accounted(s: State) {
    && (forall k :: k in s.cancelled ==> k < |s.registered|)
    && (forall k: nat :: k < |s.registered| ==> Live(s, k) || Over(s, k))
  }

  predicate Inv(s: State) {
    && AllHeld(s)
    && Called(s.registered, s.called, s.cancelled)
    && Accounted(s)
    && Tallied(s)
  }

  lemma CalledBefore(s: State, k: nat)
    requires Inv(s) && Over(s, k)
    ensures k < |s.registered|
    ensures !(WasCalled(s.called, k) && k in s.cancelled)
  {
  }

  /** A number that is neither called nor cancelled has an entry, and conversely. */
  lemma LiveIffNotOver(s: State, k: nat)
    requires Inv(s) && k < |s.registered|
    ensures Live(s, k) <==> !Over(s, k)
  {
    hide Over, Called, Tallied;
    var o := s.registered[k];
    if Live(s, k) {
      assert Held(s, o.dir, o.fd);
    }
  }

  // Registering.

  lemma BeginHeld(s: State, o: Order, dir: Direction, fd: nat)
    requires Inv(s) && o.fd !in Half(s, o.dir).slots
    requires fd in Half(Begin(s, o), dir).slots
    ensures Held(Begin(s, o), dir, fd)
  {
    hide WasCalled, Called, Accounted, Tallied;
    var n := |s.registered|;
    assert !Over(s, n) by {
      if Over(s, n) {
        CalledBefore(s, n);
      }
    }
    assert 0 < s.size by { TalliedSize(s); }
    if !(dir == o.dir && fd == o.fd) {
      assert Held(s, dir, fd);
    }
  }

  lemma TalliedSize(s: State)
    requires Inv(s)
    ensures 0 < s.size && -1 <= s.maxFd
  {
  }

  lemma BeginAccounted(s: State, o: Order)
    requires Inv(s) && o.fd !in Half(s, o.dir).slots
    ensures Accounted(Begin(s, o))
  {
    hide WasCalled, Called, Tallied;
    TalliedSize(s);
    var t := Begin(s, o);
    forall k: nat | k < |t.registered|
      ensures Live(t, k) || Over(t, k)
    {
      if k < |s.registered| && Live(s, k) {
        assert t.registered[k] == s.registered[k];
        assert Live(t, k);
      }
    }
  }

  lemma ExactGains(half: Side, fd: nat, e: Entry)
    requires Exact(half) && fd !in half.slots
    ensures Exact(half.(slots := half.slots[fd := e], pending := half.pending + {fd}))
  {
  }

  lemma WithinGrows(half: Side, dir: Direction, size: nat, more: nat)
    requires Within(half, dir, size) && size <= more
    ensures Within(half, dir, more)
  {
  }

  lemma BeginParts(s: State, o: Order)
    requires 0 < s.size
    ensures var t := Begin(s, o);
      && t.size == Grown(s.size, IndexOf(o.dir, o.fd)) && t.on && s.maxFd <= t.maxFd && t.crossed == s.crossed
      && var half := Half(s, o.dir).(
           slots := Half(s, o.dir).slots[o.fd := Entry(|s.registered|, o)],
           pending := Half(s, o.dir).pending + {o.fd});
      t.rd == (if o.dir.Rd? then half else s.rd) && t.wr == (if o.dir.Wr? then half else s.wr)
  {
    hide Grown;
  }

  /** A half that gains an entry in a table that may have grown. */
  lemma HalfGains(half: Side, dir: Direction, size: nat, more: nat, fd: nat, e: Entry, crossed: bool)
    requires Within(half, dir, size) && Counted(half) && (!crossed ==> Exact(half))
    requires size <= more && IndexOf(dir, fd) < more && fd !in half.slots
    ensures var h := half.(slots := half.slots[fd := e], pending := half.pending + {fd});
            Within(h, dir, more) && Counted(h) && (!crossed ==> Exact(h))
  {
    hide Exact;
    if !crossed {
      ExactGains(half, fd, e);
    }
  }

  lemma BeginTallied(s: State, o: Order)
    requires Tallied(s) && o.fd !in Half(s, o.dir).slots
    ensures Tallied(Begin(s, o))
  {
    hide Exact, Within, Counted, Untouched, Grown, Begin;
    var size := Grown(s.size, IndexOf(o.dir, o.fd));
    BeginParts(s, o);
    if o.dir.Rd? {
      HalfGains(s.rd, Rd, s.size, size, o.fd, Entry(|s.registered|, o), s.crossed);
      WithinGrows(s.wr, Wr, s.size, size);
    } else {
      HalfGains(s.wr, Wr, s.size, size, o.fd, Entry(|s.registered|, o), false);
      WithinGrows(s.rd, Rd, s.size, size);
    }
  }

  lemma CalledExtends(registered: seq<Order>, o: Order, called: seq<Entry>, cancelled: set<nat>)
    requires Called(registered, called, cancelled)
    ensures Called(registered + [o], called, cancelled)
  {
  }

  lemma BeginKeeps(s: State, o: Order)
    requires Inv(s) && o.fd !in Half(s, o.dir).slots
    ensures Inv(Begin(s, o))
  {
    hide Held, Accounted, Called, Tallied, Half;
    TalliedSize(s);
    var t := Begin(s, o);
    assert AllHeld(t) by {
      forall dir: Direction, fd | fd in Half(t, dir).slots
        ensures Held(t, dir, fd)
      {
        BeginHeld(s, o, dir, fd);
      }
    }
    assert Accounted(t) by { BeginAccounted(s, o); }
    assert Tallied(t) by { BeginTallied(s, o); }
    assert Called(t.registered, t.called, t.cancelled) by {
      CalledExtends(s.registered, o, s.called, s.cancelled);
    }
  }

  // Closing.

  lemma SerialsDiffer(s: State, d1: Direction, f1: nat, d2: Direction, f2: nat)
    requires AllHeld(s)
    requires f1 in Half(s, d1).slots && f2 in Half(s, d2).slots
    requires Half(s, d1).slots[f1].serial == Half(s, d2).slots[f2].serial
    ensures d1 == d2 && f1 == f2
  {
    hide Over;
    assert Held(s, d1, f1) && Held(s, d2, f2);
  }

  /** A step that takes entries out of the table, gives each a fate and adds none. */
  ghost predicate Drops(s: State, t: State) {
    && t.registered == s.registered && t.size == s.size && t.maxFd <= s.maxFd
    && (forall dir: Direction, fd :: fd in Half(t, dir).slots ==>
          && fd in Half(s, dir).slots && Half(t, dir).slots[fd] == Half(s, dir).slots[fd]
          && fd <= t.maxFd && !Over(t, Half(s, dir).slots[fd].serial)
          && fd in Half(t, dir).pending + Half(t, dir).posted)
    && (forall dir: Direction, fd :: fd in Half(s, dir).slots && fd !in Half(t, dir).slots ==>
          Over(t, Half(s, dir).slots[fd].serial))
    && (forall k :: Over(s, k) ==> Over(t, k))
    && (forall k :: k in t.cancelled ==> k < |t.registered|)
  }

  lemma DropsKeep(s: State, t: State)
    requires Inv(s) && Drops(s, t)
    ensures AllHeld(t) && Accounted(t)
  {
    hide Over, Called, Tallied;
    assert AllHeld(t) by {
      forall dir: Direction, fd | fd in Half(t, dir).slots
        ensures Held(t, dir, fd)
      {
        assert Held(s, dir, fd);
      }
    }
    forall k: nat | k < |t.registered|
      ensures Live(t, k) || Over(t, k)
    {
      if Live(s, k) {
        var o := s.registered[k];
        assert o.fd !in Half(t, o.dir).slots ==> Over(t, k);
      }
    }
  }

  lemma CloseSpares(s: State, fd: nat, dir: Direction, f: nat)
    requires Inv(s) && s.on && f in Half(CloseFd(s, fd), dir).slots
    ensures var t := CloseFd(s, fd);
      && f in Half(s, dir).slots && Half(t, dir).slots[f] == Half(s, dir).slots[f]
      && f <= t.maxFd && f in Half(t, dir).pending + Half(t, dir).posted
      && !Over(t, Half(s, dir).slots[f].serial)
  {
    hide WasCalled, Called, Accounted, Tallied;
    assert Held(s, dir, f);
    if fd in s.rd.slots && s.rd.slots[fd].serial == Half(s, dir).slots[f].serial {
      SerialsDiffer(s, Rd, fd, dir, f);
    }
    if fd in s.wr.slots && s.wr.slots[fd].serial == Half(s, dir).slots[f].serial {
      SerialsDiffer(s, Wr, fd, dir, f);
    }
  }

  lemma CloseCancels(s: State, fd: nat)
    requires Inv(s) && s.on
    ensures forall k :: k in CloseFd(s, fd).cancelled ==> k < |s.registered|
  {
    hide WasCalled, Called, Tallied;
    forall dir: Direction | fd in Half(s, dir).slots
      ensures Half(s, dir).slots[fd].serial < |s.registered|
    {
      assert Held(s, dir, fd);
    }
    assert fd in Half(s, Rd).slots ==> Half(s, Rd).slots[fd].serial < |s.registered|;
    assert fd in Half(s, Wr).slots ==> Half(s, Wr).slots[fd].serial < |s.registered|;
  }

  lemma CloseDrops(s: State, fd: nat)
    requires Inv(s) && s.on
    ensures Drops(s, CloseFd(s, fd))
  {
    hide WasCalled, Inv, Half;
    var t := CloseFd(s, fd);
    forall dir: Direction, f | f in Half(t, dir).slots
      ensures f in Half(s, dir).slots && Half(t, dir).slots[f] == Half(s, dir).slots[f]
      ensures f <= t.maxFd && f in Half(t, dir).pending + Half(t, dir).posted
      ensures !Over(t, Half(s, dir).slots[f].serial)
    {
      CloseSpares(s, fd, dir, f);
    }
    CloseCancels(s, fd);
    forall dir: Direction, f | f in Half(s, dir).slots && f !in Half(t, dir).slots
      ensures Over(t, Half(s, dir).slots[f].serial)
    {
      CloseEnds(s, fd, dir, f);
    }
  }

  lemma CloseEnds(s: State, fd: nat, dir: Direction, f: nat)
    requires s.on && f in Half(s, dir).slots && f !in Half(CloseFd(s, fd), dir).slots
    ensures Half(s, dir).slots[f].serial in CloseFd(s, fd).cancelled
  {
  }

  lemma ExactLoses(half: Side, fd: nat)
    requires Exact(half)
    ensures Exact(Forget(half, fd))
  {
  }

  lemma WithinLoses(half: Side, dir: Direction, size: nat, fd: nat)
    requires Within(half, dir, size)
    ensures Within(Forget(half, fd), dir, size)
  {
  }

  lemma CountedLoses(half: Side, fd: nat)
    requires Counted(half)
    ensures Counted(Forget(half, fd))
  {
    if fd in half.posted {
      assert half.posted == (half.posted - {fd}) + {fd};
    } else {
      assert half.posted == half.posted - {fd};
    }
  }

  lemma CloseTallied(s: State, fd: nat)
    requires Tallied(s) && s.on
    ensures Tallied(CloseFd(s, fd))
  {
    hide Exact, Counted, Within, Untouched, Forget;
    WithinLoses(s.rd, Rd, s.size, fd);
    WithinLoses(s.wr, Wr, s.size, fd);
    CountedLoses(s.rd, fd);
    CountedLoses(s.wr, fd);
    ExactLoses(s.wr, fd);
    if !s.crossed {
      ExactLoses(s.rd, fd);
    }
  }

  lemma CalledSpared(registered: seq<Order>, called: seq<Entry>, cancelled: set<nat>, more: set<nat>)
    requires Called(registered, called, cancelled)
    requires forall k :: k in more ==> !WasCalled(called, k)
    ensures Called(registered, called, cancelled + more)
  {
    forall i | 0 <= i < |called|
      ensures called[i].serial !in more
    {
      assert WasCalled(called, called[i].serial);
    }
  }

  lemma SerialAtLive(s: State, dir: Direction, fd: nat)
    requires AllHeld(s)
    ensures forall k :: k in SerialAt(Half(s, dir).slots, fd) ==> !WasCalled(s.called, k) && k < |s.registered|
  {
    hide WasCalled;
    if fd in Half(s, dir).slots {
      assert Held(s, dir, fd);
    }
  }

  lemma CloseKeeps(s: State, fd: nat)
    requires Inv(s) && s.on
    ensures Inv(CloseFd(s, fd))
  {
    hide WasCalled, AllHeld, Called, Accounted, Tallied, Half, Drops, SerialAt, Forget;
    var t := CloseFd(s, fd);
    assert AllHeld(t) && Accounted(t) by {
      CloseDrops(s, fd);
      DropsKeep(s, t);
    }
    assert Called(t.registered, t.called, t.cancelled) by {
      var r, w := SerialAt(Half(s, Rd).slots, fd), SerialAt(Half(s, Wr).slots, fd);
      SerialAtLive(s, Rd, fd);
      SerialAtLive(s, Wr, fd);
      CalledSpared(s.registered, s.called, s.cancelled, r);
      CalledSpared(s.registered, s.called, s.cancelled + r, w);
      Halves(s);
    }
    assert Tallied(t) by { CloseTallied(s, fd); }
  }

  lemma Halves(s: State)
    ensures Half(s, Rd) == s.rd && Half(s, Wr) == s.wr
  {
  }

  lemma CloseReadDrops(s: State, fd: nat)
    requires Inv(s) && fd in s.rd.slots
    ensures Drops(s, CloseReadFd(s, fd))
  {
    hide WasCalled, Called, Accounted, Tallied;
    var t := CloseReadFd(s, fd);
    assert Held(s, Rd, fd);
    CancelledBefore(s);
    forall dir: Direction, f | f in Half(t, dir).slots
      ensures f in Half(s, dir).slots && Half(t, dir).slots[f] == Half(s, dir).slots[f]
      ensures f <= t.maxFd && f in Half(t, dir).pending + Half(t, dir).posted
      ensures !Over(t, Half(s, dir).slots[f].serial)
    {
      assert Held(s, dir, f);
    }
  }

  lemma CancelledBefore(s: State)
    requires Inv(s)
    ensures forall k :: k in s.cancelled ==> k < |s.registered|
  {
  }

  lemma CloseReadTallied(s: State, fd: nat)
    requires Tallied(s) && s.on && fd in s.rd.slots
    ensures Tallied(CloseReadFd(s, fd))
  {
    hide SerialAt, Untouched, Within, Exact, Counted;
    WithinFreed(s.rd, s.size, fd);
    CountedFreed(s.rd, fd);
    if !s.crossed && fd !in s.rd.posted {
      ExactFreed(s.rd, fd);
    }
  }

  lemma CountedFreed(half: Side, fd: nat)
    requires Counted(half)
    ensures Counted(half.(slots := half.slots - {fd}, pending := half.pending - {fd}))
  {
  }

  lemma ExactFreed(half: Side, fd: nat)
    requires Exact(half) && fd !in half.posted
    ensures Exact(half.(slots := half.slots - {fd}, pending := half.pending - {fd}))
  {
    var freed := half.(slots := half.slots - {fd}, pending := half.pending - {fd});
    assert freed.slots.Keys == half.slots.Keys - {fd};
  }

  lemma WithinFreed(half: Side, size: nat, fd: nat)
    requires Within(half, Rd, size)
    ensures Within(half.(slots := half.slots - {fd}, pending := half.pending - {fd}), Rd, size)
  {
  }

  lemma StartedIfUsed(s: State, fd: nat)
    requires Inv(s) && fd in s.rd.slots
    ensures s.on
  {
  }

  lemma CloseReadKeeps(s: State, fd: nat)
    requires Inv(s)
    ensures Inv(CloseReadFd(s, fd))
  {
    hide WasCalled, AllHeld, Called, Accounted, Tallied, Half, Drops, SerialAt;
    if fd in s.rd.slots {
      var t := CloseReadFd(s, fd);
      assert s.on by { StartedIfUsed(s, fd); }
      assert AllHeld(t) && Accounted(t) by {
        CloseReadDrops(s, fd);
        DropsKeep(s, t);
      }
      assert Called(t.registered, t.called, t.cancelled) by {
        SerialAtLive(s, Rd, fd);
        CalledSpared(s.registered, s.called, s.cancelled, SerialAt(Half(s, Rd).slots, fd));
        Halves(s);
      }
      assert Tallied(t) by { CloseReadTallied(s, fd); }
    }
  }

  lemma FreedIsExact(half: Side, fd: nat)
    requires Exact(half) && fd in half.slots
    ensures var t := half.(slots := half.slots - {fd}, pending := half.pending - {fd});
      Exact(t) <==> fd !in half.posted
  {
    var t := half.(slots := half.slots - {fd}, pending := half.pending - {fd});
    if fd in half.posted {
      assert fd in t.pending + t.posted && fd !in t.slots.Keys;
    }
  }

  /** Freeing a read entry breaks the one-of-two rule exactly when its descriptor is posted. */
  lemma CloseReadBreaks(s: State, fd: nat)
    requires Inv(s) && !s.crossed
    ensures Exact(CloseReadFd(s, fd).rd) <==> !(fd in s.rd.slots && fd in s.rd.posted)
  {
    hide AllHeld, Called, Accounted, Untouched, Within, Counted, Exact, SerialAt;
    if fd in s.rd.slots {
      FreedIsExact(s.rd, fd);
    }
  }

  // Calls from outside and from callbacks.

  lemma PerformKeeps(s: State, a: Action)
    requires Inv(s)
    ensures Inv(Perform(s, a))
  {
    hide Inv, Begin, CloseFd, CloseReadFd;
    TalliedSize(s);
    if Allowed(s, a) {
      match a
      case Start(o) => BeginKeeps(s, o);
      case StartStdin(buf, len, proc, data) =>
        BeginKeeps(s, Order(Rd, 0, 0, buf, len, proc, data));
      case Close(fd) =>
        if fd != -1 && s.on {
          CloseKeeps(s, fd);
        } else {
          assert CloseFd(s, fd) == s by { CloseNothing(s, fd); }
        }
      case CloseRead(fd) => CloseReadKeeps(s, fd);
    }
  }

  lemma CloseNothing(s: State, fd: int)
    requires fd == -1 || (0 <= fd && !s.on)
    ensures CloseFd(s, fd) == s
  {
  }

  lemma {:induction false} PerformAllKeeps(s: State, actions: seq<Action>)
    requires Inv(s)
    ensures Inv(PerformAll(s, actions))
    decreases |actions|
  {
    hide Inv, Perform;
    TalliedSize(s);
    if actions != [] {
      PerformKeeps(s, actions[0]);
      PerformAllKeeps(Perform(s, actions[0]), actions[1..]);
    }
  }

  // Polling and serving.

  lemma PollHalfKeeps(half: Side, ready: set<nat>, maxFd: int)
    ensures Exact(half) ==> Exact(PollHalf(half, ready, maxFd))
    ensures Counted(half) && half.posted == {} ==> Counted(PollHalf(half, ready, maxFd))
    ensures var t := PollHalf(half, ready, maxFd); t.pending + t.posted == half.pending + half.posted
  {
  }

  /** Nothing posted and nothing lost is what it takes to poll. */
  lemma QuietHalf(half: Side)
    requires Counted(half)
    ensures half.count == 0 <==> half.posted == {} && half.lost == 0
  {
  }

  lemma PollDrops(s: State, ready: Ready)
    requires Inv(s)
    ensures Drops(s, Poll(s, ready))
  {
    hide WasCalled, Called, Tallied, Found;
    var t := Poll(s, ready);
    PollHalfKeeps(s.rd, ready.rd, s.maxFd);
    PollHalfKeeps(s.wr, ready.wr, s.maxFd);
    CancelledBefore(s);
    forall dir: Direction, fd | fd in Half(t, dir).slots
      ensures fd in Half(s, dir).slots && Half(t, dir).slots[fd] == Half(s, dir).slots[fd]
      ensures fd <= t.maxFd && fd in Half(t, dir).pending + Half(t, dir).posted
      ensures !Over(t, Half(s, dir).slots[fd].serial)
    {
      assert Held(s, dir, fd);
    }
  }

  lemma PollTallied(s: State, ready: Ready)
    requires Tallied(s) && s.on && Quiet(s)
    ensures Tallied(Poll(s, ready))
  {
    hide Exact, Counted, PollHalf;
    QuietHalf(s.rd);
    QuietHalf(s.wr);
    PollHalfKeeps(s.rd, ready.rd, s.maxFd);
    PollHalfKeeps(s.wr, ready.wr, s.maxFd);
  }

  lemma PollKeeps(s: State, ready: Ready)
    requires Inv(s) && s.on && Quiet(s)
    ensures Inv(Poll(s, ready))
  {
    hide AllHeld, Called, Accounted, Tallied, Drops, PollHalf;
    var t := Poll(s, ready);
    assert AllHeld(t) && Accounted(t) by {
      PollDrops(s, ready);
      DropsKeep(s, t);
    }
    assert Tallied(t) by { PollTallied(s, ready); }
  }

  lemma CalledGains(registered: seq<Order>, called: seq<Entry>, cancelled: set<nat>, e: Entry)
    requires Called(registered, called, cancelled)
    requires e.serial < |registered| && registered[e.serial] == e.order && e.serial !in cancelled
    requires !WasCalled(called, e.serial)
    ensures Called(registered, called + [e], cancelled)
    ensures forall k :: WasCalled(called + [e], k) <==> WasCalled(called, k) || k == e.serial
  {
    var more := called + [e];
    forall k | WasCalled(called, k) || k == e.serial
      ensures WasCalled(more, k)
    {
      if k == e.serial {
        assert more[|called|].serial == k;
      } else {
        var i :| 0 <= i < |called| && called[i].serial == k;
        assert more[i].serial == k;
      }
    }
    forall i | 0 <= i < |called|
      ensures called[i].serial != e.serial
    {
    }
  }

  lemma TakeDrops(s: State, dir: Direction, fd: nat)
    requires Inv(s) && Due(s, dir, fd)
    ensures Drops(s, Take(s, dir, fd))
    ensures var t := Take(s, dir, fd); Called(t.registered, t.called, t.cancelled)
  {
    hide WasCalled, Called, Accounted, Tallied;
    var t := Take(s, dir, fd);
    var e := Half(s, dir).slots[fd];
    assert Held(s, dir, fd);
    CancelledBefore(s);
    CalledGains(s.registered, s.called, s.cancelled, e);
    forall d: Direction, f | f in Half(t, d).slots
      ensures f in Half(s, d).slots && Half(t, d).slots[f] == Half(s, d).slots[f]
      ensures f <= t.maxFd && f in Half(t, d).pending + Half(t, d).posted
      ensures !Over(t, Half(s, d).slots[f].serial)
    {
      assert Held(s, d, f);
    }
  }

  lemma TakeHalf(half: Side, fd: nat)
    requires fd in half.posted && fd in half.slots
    ensures var t := half.(slots := half.slots - {fd}, posted := half.posted - {fd}, count := half.count - 1);
      && (Exact(half) ==> Exact(t))
      && (Counted(half) ==> Counted(t))
  {
    assert half.posted == (half.posted - {fd}) + {fd};
  }

  lemma TakeTallied(s: State, dir: Direction, fd: nat)
    requires Tallied(s) && Due(s, dir, fd)
    ensures Tallied(Take(s, dir, fd))
  {
    hide Exact, Counted;
    TakeHalf(Half(s, dir), fd);
  }

  lemma TakeKeeps(s: State, dir: Direction, fd: nat)
    requires Inv(s) && Due(s, dir, fd)
    ensures Inv(Take(s, dir, fd))
  {
    hide AllHeld, Called, Accounted, Tallied, Drops, Take, Due;
    var t := Take(s, dir, fd);
    assert AllHeld(t) && Accounted(t) && Called(t.registered, t.called, t.cancelled) by {
      TakeDrops(s, dir, fd);
      DropsKeep(s, t);
    }
    assert Tallied(t) by { TakeTallied(s, dir, fd); }
  }

  lemma ServeKeeps(s: State, dir: Direction, fd: nat, play: nat -> seq<Action>)
    requires Inv(s)
    ensures Inv(Serve(s, dir, fd, play))
  {
    hide Inv, PerformAll, Take, Due;
    TalliedSize(s);
    if Due(s, dir, fd) {
      TakeKeeps(s, dir, fd);
      PerformAllKeeps(Take(s, dir, fd), play(|s.called|));
    }
  }

  lemma {:induction false} PassKeeps(s: State, fd: nat, play: nat -> seq<Action>)
    requires Inv(s)
    ensures Inv(Pass(s, fd, play))
    decreases s.rd.posted, s.wr.posted, s.maxFd + 1 - fd
  {
    hide Inv, Serve;
    TalliedSize(s);
    if fd <= s.maxFd {
      ServeKeeps(s, Rd, fd, play);
      var t := Serve(s, Rd, fd, play);
      ServeKeeps(t, Wr, fd, play);
      PassKeeps(Serve(t, Wr, fd, play), fd + 1, play);
    }
  }

  lemma WakeKeeps(s: State)
    requires Inv(s)
    ensures Inv(s.(on := true))
  {
    hide Called, WasCalled;
    var t := s.(on := true);
    assert forall k: nat :: k < |s.registered| ==> Live(t, k) == Live(s, k);
    assert forall k: nat :: Over(t, k) == Over(s, k);
    assert AllHeld(t) by {
      forall dir: Direction, fd | fd in Half(t, dir).slots
        ensures Held(t, dir, fd)
      {
        assert Held(s, dir, fd);
      }
    }
  }

  lemma ServedKeeps(s: State, ready: Ready, play: nat -> seq<Action>)
    requires Inv(s)
    ensures Inv(Served(s, ready, play))
  {
    hide Inv, Poll, Pass, Quiet;
    TalliedSize(s);
    WakeKeeps(s);
    var woken := s.(on := true);
    if Quiet(woken) {
      PollKeeps(woken, ready);
    }
    var polled := if Quiet(woken) then Poll(woken, ready) else woken;
    if !Quiet(polled) {
      PassKeeps(polled, 0, play);
    }
  }
}
