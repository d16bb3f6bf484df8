/** What one OS_DoIo promises, and what any run of calls, polls and callbacks adds up to. */
module AsyncRuns {
  import opened AsyncSpec
  import opened AsyncInvariant

  /** Registration number k has its entry, and its descriptor was found ready. */
  predicate Posted(s: State, k: nat) {
    Live(s, k) && s.registered[k].fd in Half(s, s.registered[k].dir).posted
  }

  /** Registration number k has its entry and waits for a poll. */
  predicate Pending(s: State, k: nat) {
    Live(s, k) && s.registered[k].fd in Half(s, s.registered[k].dir).pending
  }

  /** Nothing becomes posted from s to t, nothing old becomes pending, only the posted are called. */
  ghost predicate Follows(s: State, t: State) {
    && s.registered <= t.registered && s.called <= t.called
    && (forall k: nat :: Posted(t, k) ==> Posted(s, k))
    && (forall k: nat :: Pending(t, k) && k < |s.registered| ==> Pending(s, k))
    && (forall i :: |s.called| <= i < |t.called| ==> Posted(s, t.called[i].serial))
  }

  lemma FollowsTwice(s: State, t: State, u: State)
    requires Follows(s, t) && Follows(t, u)
    ensures Follows(s, u)
  {
    hide Posted, Pending;
    forall i | |s.called| <= i < |u.called|
      ensures Posted(s, u.called[i].serial)
    {
      if i < |t.called| {
        assert u.called[i] == t.called[i];
      }
    }
  }

  lemma BeginFollows(s: State, o: Order)
    requires Inv(s) && !s.crossed && o.fd !in Half(s, o.dir).slots
    ensures Follows(s, Begin(s, o))
  {
    hide AllHeld, Called, Accounted, Counted;
    var t := Begin(s, o);
    forall k: nat | Posted(t, k)
      ensures Posted(s, k)
    {
      assert k < |s.registered|;
    }
  }

  lemma CloseFollows(s: State, fd: int)
    requires -1 <= fd
    ensures Follows(s, CloseFd(s, fd))
  {
  }

  lemma CloseReadFollows(s: State, fd: nat)
    ensures Follows(s, CloseReadFd(s, fd))
  {
  }

  lemma PerformFollows(s: State, a: Action)
    requires Inv(s) && !s.crossed
    ensures Follows(s, Perform(s, a))
  {
    hide Inv, Begin, CloseFd, CloseReadFd, Posted, Pending;
    TalliedSize(s);
    if Allowed(s, a) {
      match a
      case Start(o) => BeginFollows(s, o);
      case StartStdin(buf, len, proc, data) =>
        BeginFollows(s, Order(Rd, 0, 0, buf, len, proc, data));
      case Close(fd) => CloseFollows(s, fd);
      case CloseRead(fd) => CloseReadFollows(s, fd);
    }
  }

  lemma {:induction false} PerformAllFollows(s: State, actions: seq<Action>)
    requires Inv(s) && !PerformAll(s, actions).crossed
    ensures Follows(s, PerformAll(s, actions))
    decreases |actions|
  {
    hide Inv, Perform, Posted, Pending;
    TalliedSize(s);
    if actions != [] {
      var t := Perform(s, actions[0]);
      PerformKeeps(s, actions[0]);
      PerformFollows(s, actions[0]);
      PerformAllFollows(t, actions[1..]);
      FollowsTwice(s, t, PerformAll(t, actions[1..]));
    }
  }

  lemma TakeFollows(s: State, dir: Direction, fd: nat)
    requires Inv(s) && Due(s, dir, fd)
    ensures Follows(s, Take(s, dir, fd))
  {
    hide Called, Accounted, Tallied, Over;
    assert Held(s, dir, fd);
  }

  lemma ServeFollows(s: State, dir: Direction, fd: nat, play: nat -> seq<Action>)
    requires Inv(s) && !Serve(s, dir, fd, play).crossed
    ensures Follows(s, Serve(s, dir, fd, play))
    ensures fd !in Half(Serve(s, dir, fd, play), dir).posted
  {
    hide Inv, PerformAll, Posted, Pending, Take;
    TalliedSize(s);
    if Due(s, dir, fd) {
      var t := Take(s, dir, fd);
      TakeKeeps(s, dir, fd);
      TalliedSize(t);
      TakeFollows(s, dir, fd);
      PerformAllFollows(t, play(|s.called|));
      FollowsTwice(s, t, PerformAll(t, play(|s.called|)));
      TakeClears(s, dir, fd);
    } else {
      DueWhenPosted(s, dir, fd);
    }
  }

  lemma TakeClears(s: State, dir: Direction, fd: nat)
    requires Due(s, dir, fd)
    ensures fd !in Half(Take(s, dir, fd), dir).posted
  {
  }

  lemma DueWhenPosted(s: State, dir: Direction, fd: nat)
    requires Inv(s) && !s.crossed
    ensures fd in Half(s, dir).posted ==> Due(s, dir, fd) && fd <= s.maxFd
  {
    hide Called, Accounted, Counted, Over;
    if fd in Half(s, dir).posted {
      assert fd in Half(s, dir).slots;
      assert Held(s, dir, fd);
    }
  }

  predicate PostedFrom(s: State, fd: nat) {
    (forall f :: f in s.rd.posted ==> fd <= f) && (forall f :: f in s.wr.posted ==> fd <= f)
  }

  lemma {:induction false} PassServes(s: State, fd: nat, play: nat -> seq<Action>)
    requires Inv(s) && PostedFrom(s, fd) && !Pass(s, fd, play).crossed
    ensures var t := Pass(s, fd, play);
      Follows(s, t) && t.rd.posted == {} && t.wr.posted == {}
    decreases s.rd.posted, s.wr.posted, s.maxFd + 1 - fd
  {
    hide Inv, Serve, Posted, Pending;
    TalliedSize(s);
    if fd <= s.maxFd {
      var t := Serve(s, Rd, fd, play);
      var u := Serve(t, Wr, fd, play);
      ServeKeeps(s, Rd, fd, play);
      ServeFollows(s, Rd, fd, play);
      ServeKeeps(t, Wr, fd, play);
      ServeFollows(t, Wr, fd, play);
      FollowsTwice(s, t, u);
      PassServes(u, fd + 1, play);
      FollowsTwice(s, u, Pass(u, fd + 1, play));
    } else {
      PastTheEnd(s, fd);
    }
  }

  lemma PastTheEnd(s: State, fd: nat)
    requires Inv(s) && PostedFrom(s, fd) && !s.crossed && s.maxFd < fd
    ensures s.rd.posted == {} && s.wr.posted == {}
  {
    hide Inv, Due;
    forall f
      ensures f !in s.rd.posted && f !in s.wr.posted
    {
      DueWhenPosted(s, Rd, f);
      DueWhenPosted(s, Wr, f);
    }
  }

  // One OS_DoIo.

  predicate IsReady(ready: Ready, o: Order) {
    o.fd in if o.dir.Rd? then ready.rd else ready.wr
  }

  /** Number k waits for a poll and this poll finds it. */
  predicate Wanted(s: State, ready: Ready, k: nat) {
    Pending(s, k) && IsReady(ready, s.registered[k])
  }

  lemma PollFinds(s: State, ready: Ready, k: nat)
    requires Inv(s) && s.rd.posted == {} && s.wr.posted == {}
    ensures Posted(Poll(s, ready), k) <==> Wanted(s, ready, k)
    ensures Pending(Poll(s, ready), k) <==> Pending(s, k) && !IsReady(ready, s.registered[k])
  {
    hide Called, Accounted, Tallied, Over;
    if Live(s, k) {
      var o := s.registered[k];
      assert Held(s, o.dir, o.fd);
    }
  }

  /** What leaves the posted set over a whole pass has been called or cancelled. */
  lemma PostedIsServed(s: State, t: State, k: nat)
    requires Inv(s) && Inv(t) && !t.crossed && !s.crossed && Follows(s, t)
    requires t.rd.posted == {} && t.wr.posted == {}
    requires Posted(s, k)
    ensures Over(t, k)
  {
    hide Called, Over, Counted;
    var o := s.registered[k];
    assert t.registered[k] == o;
    assert !Pending(s, k);
    assert !Pending(t, k);
    assert o.fd !in Half(t, o.dir).posted;
  }

  /**
   * OS_DoIo that polls: it calls back only operations that were pending and found ready when it
   * started, so nothing registered by a callback; each of those is called back unless a callback
   * closed it first; and nothing is left posted.
   */
  lemma DoIoServesTheReady(s: State, ready: Ready, play: nat -> seq<Action>)
    requires Inv(s) && Quiet(s) && !Served(s, ready, play).crossed
    ensures var t := Served(s, ready, play);
      && t.rd.posted == {} && t.wr.posted == {} && s.called <= t.called
      && (forall i :: |s.called| <= i < |t.called| ==> Wanted(s, ready, t.called[i].serial))
      && (forall k: nat :: Wanted(s, ready, k) ==> Over(t, k))
  {
    hide Inv, Posted, Pending, Wanted, Pass, Poll, Over;
    TalliedSize(s);
    var t := Served(s, ready, play);
    var woken := s.(on := true);
    var polled := Poll(woken, ready);
    WakeKeeps(s);
    PollKeeps(woken, ready);
    PollTidy(s, ready);
    assert t.rd.posted == {} && t.wr.posted == {} && Follows(polled, t) && Inv(t) && !polled.crossed by {
      if Quiet(polled) {
        QuietPosted(polled);
        FollowsSelf(polled);
      } else {
        PassKeeps(polled, 0, play);
        PassServes(polled, 0, play);
      }
    }
    forall i | |s.called| <= i < |t.called|
      ensures Wanted(s, ready, t.called[i].serial)
    {
      assert Posted(polled, t.called[i].serial);
      PostedWasWanted(s, ready, t.called[i].serial);
    }
    forall k: nat | Wanted(s, ready, k)
      ensures Over(t, k)
    {
      PostedWasWanted(s, ready, k);
      PostedIsServed(polled, t, k);
    }
  }

  lemma PollTidy(s: State, ready: Ready)
    requires Inv(s)
    ensures var p := Poll(s.(on := true), ready);
      p.called == s.called && p.registered == s.registered && PostedFrom(p, 0) && p.crossed == s.crossed
  {
  }

  lemma FollowsSelf(s: State)
    ensures Follows(s, s)
  {
  }

  lemma QuietPosted(s: State)
    requires Inv(s)
    ensures Quiet(s) <==> s.rd.posted == {} && s.wr.posted == {} && s.rd.lost + s.wr.lost == 0
  {
    QuietHalf(s.rd);
    QuietHalf(s.wr);
  }

  lemma PostedWasWanted(s: State, ready: Ready, k: nat)
    requires Inv(s) && Quiet(s)
    ensures Posted(Poll(s.(on := true), ready), k) <==> Wanted(s, ready, k)
  {
    hide Inv, Poll, IsReady;
    WakeKeeps(s);
    QuietPosted(s);
    PollFinds(s.(on := true), ready, k);
  }

  // The order of callbacks.

  /** a comes before b in one pass: a lower descriptor, or the same one's read before its write. */
  predicate Before(a: Order, b: Order) {
    a.fd < b.fd || (a.fd == b.fd && a.dir == Rd && b.dir == Wr)
  }

  /** From callback number n on, each comes before all that follow it. */
  predicate InOrder(called: seq<Entry>, n: nat) {
    forall i, j :: n <= i < j < |called| ==> Before(called[i].order, called[j].order)
  }

  /** Half a turn of the loop makes at most one callback, for its own descriptor and direction. */
  lemma ServeCalls(s: State, dir: Direction, fd: nat, play: nat -> seq<Action>)
    requires Inv(s)
    ensures 0 < s.size
    ensures var t := Serve(s, dir, fd, play);
            && s.called <= t.called && |t.called| <= |s.called| + 1
            && (forall i :: |s.called| <= i < |t.called| ==> t.called[i].order.fd == fd && t.called[i].order.dir == dir)
  {
    hide Inv, PerformAll;
    TalliedSize(s);
    if Due(s, dir, fd) {
      HeldOrder(s, dir, fd);
    }
  }

  lemma HeldOrder(s: State, dir: Direction, fd: nat)
    requires Inv(s) && fd in Half(s, dir).slots
    ensures Half(s, dir).slots[fd].order.fd == fd && Half(s, dir).slots[fd].order.dir == dir
  {
    hide Over, Called, Accounted, Tallied;
    assert Held(s, dir, fd);
  }

  lemma {:induction false} PassInOrder(s: State, fd: nat, play: nat -> seq<Action>)
    requires Inv(s)
    ensures 0 < s.size
    ensures var t := Pass(s, fd, play);
            && s.called <= t.called && InOrder(t.called, |s.called|)
            && (forall i :: |s.called| <= i < |t.called| ==> fd <= t.called[i].order.fd)
    decreases s.rd.posted, s.wr.posted, s.maxFd + 1 - fd
  {
    hide Inv, Serve;
    TalliedSize(s);
    if fd <= s.maxFd {
      var t := Serve(s, Rd, fd, play);
      ServeKeeps(s, Rd, fd, play);
      ServeCalls(s, Rd, fd, play);
      var u := Serve(t, Wr, fd, play);
      ServeKeeps(t, Wr, fd, play);
      ServeCalls(t, Wr, fd, play);
      PassInOrder(u, fd + 1, play);
    }
  }

  /** Whatever the callbacks do, OS_DoIo makes them by descriptor, reads before writes. */
  lemma DoIoInOrder(s: State, ready: Ready, play: nat -> seq<Action>)
    requires Inv(s)
    ensures 0 < s.size
    ensures var t := Served(s, ready, play); s.called <= t.called && InOrder(t.called, |s.called|)
  {
    hide Inv, Pass, InOrder;
    TalliedSize(s);
    var woken := s.(on := true);
    WakeKeeps(s);
    NoneOutOfOrder(s.called);
    if Quiet(woken) {
      PollKeeps(woken, ready);
      PassInOrder(Poll(woken, ready), 0, play);
    } else {
      PassInOrder(woken, 0, play);
    }
  }

  lemma NoneOutOfOrder(called: seq<Entry>)
    ensures InOrder(called, |called|)
  {
  }

  // Runs.

  lemma StepKeeps(s: State, e: Event, play: nat -> seq<Action>)
    requires Inv(s)
    ensures Inv(Step(s, e, play))
  {
    hide Inv;
    TalliedSize(s);
    match e
    case Act(a) => PerformKeeps(s, a);
    case DoIo(ready) => ServedKeeps(s, ready, play);
  }

  /** Between calls of OS_DoIo nothing is posted. */
  predicate Resting(s: State) {
    s.rd.posted == {} && s.wr.posted == {}
  }

  lemma UnpostedPass(s: State, fd: nat, play: nat -> seq<Action>)
    requires 0 < s.size && Resting(s)
    ensures Pass(s, fd, play) == s
    decreases s.maxFd + 1 - fd
  {
    hide PerformAll, Take;
    if fd <= s.maxFd {
      UnpostedPass(s, fd + 1, play);
    }
  }

  lemma DoIoDoesNothing(s: State, ready: Ready, play: nat -> seq<Action>)
    requires 0 < s.size && Resting(s) && !Quiet(s)
    ensures Served(s, ready, play) == s.(on := true)
  {
    UnpostedPass(s.(on := true), 0, play);
  }

  lemma StepRests(s: State, e: Event, play: nat -> seq<Action>)
    requires Inv(s) && Resting(s) && !Step(s, e, play).crossed
    ensures Resting(Step(s, e, play))
  {
    hide Inv, Served, Perform;
    TalliedSize(s);
    match e
    case Act(a) =>
    case DoIo(ready) =>
      if Quiet(s) {
        DoIoServesTheReady(s, ready, play);
      } else {
        DoIoDoesNothing(s, ready, play);
      }
  }

  /** Every run from a resting state keeps the invariant and, unless crossed, ends resting. */
  lemma {:induction false} RunKeeps(s: State, events: seq<Event>, play: nat -> seq<Action>)
    requires Inv(s) && Resting(s)
    ensures Inv(Run(s, events, play))
    ensures !Run(s, events, play).crossed ==> Resting(Run(s, events, play))
    decreases |events|
  {
    hide Inv, Step;
    TalliedSize(s);
    if events != [] {
      var t := Step(s, events[0], play);
      StepKeeps(s, events[0], play);
      RunInv(t, events[1..], play);
      if !Run(s, events, play).crossed {
        StepRests(s, events[0], play);
        RunKeeps(t, events[1..], play);
      }
    }
  }

  lemma {:induction false} RunInv(s: State, events: seq<Event>, play: nat -> seq<Action>)
    requires Inv(s)
    ensures Inv(Run(s, events, play))
    decreases |events|
  {
    hide Inv, Step;
    TalliedSize(s);
    if events != [] {
      StepKeeps(s, events[0], play);
      RunInv(Step(s, events[0], play), events[1..], play);
    }
  }

  lemma InitialInv()
    ensures Inv(INITIAL) && Resting(INITIAL)
  {
  }

  /**
   * Whatever the application registers, closes and does in its callbacks: the invariant holds,
   * and if no OS_CloseRead freed a posted entry, nothing stays posted, both counters are zero
   * exactly when no close has taken a posted descriptor away, and then the next OS_DoIo polls.
   */
  lemma EveryRun(events: seq<Event>, play: nat -> seq<Action>)
    ensures var t := Run(INITIAL, events, play);
      && Inv(t)
      && (!t.crossed ==> Resting(t) && (Quiet(t) <==> Lost(t) == 0))
  {
    hide Inv, Quiet;
    InitialInv();
    RunKeeps(INITIAL, events, play);
    QuietPosted(Run(INITIAL, events, play));
  }

  // What becomes of one registration, in any state at all.

  /**
   * From s to t: if number k was posted it still is, or is over; if not, it has not become so,
   * and has not been called back.
   */
  ghost predicate Moves(s: State, t: State, k: nat) {
    && k < |s.registered| <= |t.registered| && t.registered[k] == s.registered[k]
    && (Posted(s, k) ==> Posted(t, k) || Over(t, k)) && (Over(s, k) ==> Over(t, k))
    && (!Posted(s, k) ==> !Posted(t, k) && (WasCalled(t.called, k) ==> WasCalled(s.called, k)))
  }

  lemma MovesTwice(s: State, t: State, u: State, k: nat)
    requires Moves(s, t, k) && Moves(t, u, k)
    ensures Moves(s, u, k)
  {
    hide Posted, Over, WasCalled;
  }

  lemma BeginMoves(s: State, o: Order, k: nat)
    requires Inv(s) && o.fd !in Half(s, o.dir).slots && k < |s.registered|
    ensures Moves(s, Begin(s, o), k)
  {
    hide AllHeld, Called, Accounted, Counted, Exact, WasCalled;
  }

  lemma CloseMoves(s: State, fd: int, k: nat)
    requires -1 <= fd && k < |s.registered|
    ensures Moves(s, CloseFd(s, fd), k)
  {
    hide WasCalled;
  }

  lemma CloseReadMoves(s: State, fd: nat, k: nat)
    requires k < |s.registered|
    ensures Moves(s, CloseReadFd(s, fd), k)
  {
    hide WasCalled;
  }

  lemma PerformMoves(s: State, a: Action, k: nat)
    requires Inv(s) && k < |s.registered|
    ensures Moves(s, Perform(s, a), k)
  {
    hide Inv, Begin, CloseFd, CloseReadFd, Posted, Over;
    TalliedSize(s);
    if Allowed(s, a) {
      match a
      case Start(o) => BeginMoves(s, o, k);
      case StartStdin(buf, len, proc, data) =>
        BeginMoves(s, Order(Rd, 0, 0, buf, len, proc, data), k);
      case Close(fd) => CloseMoves(s, fd, k);
      case CloseRead(fd) => CloseReadMoves(s, fd, k);
    }
  }

  lemma {:induction false} PerformAllMoves(s: State, actions: seq<Action>, k: nat)
    requires Inv(s) && k < |s.registered|
    ensures Moves(s, PerformAll(s, actions), k)
    decreases |actions|
  {
    hide Inv, Perform, Posted, Over;
    TalliedSize(s);
    if actions != [] {
      var t := Perform(s, actions[0]);
      PerformKeeps(s, actions[0]);
      PerformMoves(s, actions[0], k);
      PerformAllMoves(t, actions[1..], k);
      MovesTwice(s, t, PerformAll(t, actions[1..]), k);
    }
  }

  lemma TakeMoves(s: State, dir: Direction, fd: nat, k: nat)
    requires Inv(s) && Due(s, dir, fd) && k < |s.registered|
    ensures Moves(s, Take(s, dir, fd), k)
    ensures Posted(s, k) && s.registered[k].dir == dir && s.registered[k].fd == fd ==> Over(Take(s, dir, fd), k)
  {
    hide Called, Accounted, Tallied, WasCalled;
    assert Held(s, dir, fd);
    CalledOneMore(s.called, Half(s, dir).slots[fd], k);
  }

  lemma CalledOneMore(called: seq<Entry>, e: Entry, k: nat)
    ensures WasCalled(called + [e], k) <==> WasCalled(called, k) || e.serial == k
  {
    var more := called + [e];
    assert more[|called|] == e;
    if WasCalled(called, k) {
      var i :| 0 <= i < |called| && called[i].serial == k;
      assert more[i].serial == k;
    }
  }

  lemma ServeMoves(s: State, dir: Direction, fd: nat, play: nat -> seq<Action>, k: nat)
    requires Inv(s) && k < |s.registered|
    ensures Moves(s, Serve(s, dir, fd, play), k)
    ensures Posted(s, k) && s.registered[k].dir == dir && s.registered[k].fd == fd ==> Over(Serve(s, dir, fd, play), k)
  {
    hide Inv, PerformAll, Take, Over;
    TalliedSize(s);
    if Due(s, dir, fd) {
      var t := Take(s, dir, fd);
      TakeKeeps(s, dir, fd);
      TalliedSize(t);
      TakeMoves(s, dir, fd, k);
      PerformAllMoves(t, play(|s.called|), k);
      MovesTwice(s, t, PerformAll(t, play(|s.called|)), k);
    }
  }

  /** The dispatch loop gets to every posted entry, unless a callback closes it first. */
  lemma {:induction false} PassMoves(s: State, fd: nat, play: nat -> seq<Action>, k: nat)
    requires Inv(s) && k < |s.registered|
    ensures Moves(s, Pass(s, fd, play), k)
    ensures Posted(s, k) && fd <= s.registered[k].fd ==> Over(Pass(s, fd, play), k)
    decreases s.rd.posted, s.wr.posted, s.maxFd + 1 - fd
  {
    hide Inv, Serve, Posted, Over, WasCalled;
    TalliedSize(s);
    if fd <= s.maxFd {
      var t := Serve(s, Rd, fd, play);
      var u := Serve(t, Wr, fd, play);
      ServeKeeps(s, Rd, fd, play);
      ServeMoves(s, Rd, fd, play, k);
      ServeKeeps(t, Wr, fd, play);
      ServeMoves(t, Wr, fd, play, k);
      MovesTwice(s, t, u, k);
      PassMoves(u, fd + 1, play, k);
      MovesTwice(s, u, Pass(u, fd + 1, play), k);
    } else {
      PostedInReach(s, k);
    }
  }

  lemma PostedInReach(s: State, k: nat)
    requires Inv(s)
    ensures Posted(s, k) ==> s.registered[k].fd <= s.maxFd
    ensures Posted(s, k) ==> !Quiet(s)
  {
    hide Called, Accounted, Over;
    if Posted(s, k) {
      assert Held(s, s.registered[k].dir, s.registered[k].fd);
    }
  }

  /** Whether OS_DoIo means to call number k back: it polls and finds it, or it was posted before. */
  predicate Claimed(s: State, ready: Ready, k: nat) {
    if Quiet(s) then Wanted(s, ready, k) else Posted(s, k)
  }

  /**
   * OS_DoIo in any reachable state whatever: it polls exactly if both counters are zero; it
   * calls back the operations which that poll finds ready, or, without a poll, those posted
   * before, except those a callback closes first; and no other operation of the table.
   */
  lemma DoIoServesExactly(s: State, ready: Ready, play: nat -> seq<Action>, k: nat)
    requires Inv(s) && Live(s, k)
    ensures var t := Served(s, ready, play);
            && (Claimed(s, ready, k) ==> Over(t, k))
            && (k !in t.cancelled ==> (WasCalled(t.called, k) <==> Claimed(s, ready, k)))
  {
    hide Inv, Posted, Wanted, Pass, Poll, WasCalled, Quiet;
    TalliedSize(s);
    WakeKeeps(s);
    LiveIffNotOver(s, k);
    var woken := s.(on := true);
    assert Posted(woken, k) == Posted(s, k) && Quiet(woken) == Quiet(s) by { Woken(s, k); }
    if Quiet(s) {
      PollKeeps(woken, ready);
      PostedWasWanted(s, ready, k);
    }
    var polled := if Quiet(s) then Poll(woken, ready) else woken;
    assert polled.called == s.called && polled.cancelled == s.cancelled && polled.registered == s.registered by {
      PollTidy(s, ready);
      PollHistory(s, ready);
    }
    PostedInReach(polled, k);
    if !Quiet(polled) {
      PassMoves(polled, 0, play, k);
    }
  }

  lemma Woken(s: State, k: nat)
    ensures Posted(s.(on := true), k) == Posted(s, k) && Quiet(s.(on := true)) == Quiet(s)
  {
  }

  lemma PollHistory(s: State, ready: Ready)
    ensures Poll(s.(on := true), ready).cancelled == s.cancelled
  {
  }

  /** A new registration is posted from the start exactly if its descriptor's bit was left set. */
  lemma StartedPostedIff(s: State, o: Order)
    requires Inv(s) && o.fd !in Half(s, o.dir).slots
    ensures Posted(Begin(s, o), |s.registered|) <==> o.fd in Half(s, o.dir).posted
  {
    hide AllHeld, Called, Accounted, Tallied;
    TalliedSize(s);
  }

  /** The counters say that something is posted, but nothing that is has an entry. */
  predicate Stale(s: State) {
    && !Quiet(s)
    && (forall fd :: fd in s.rd.posted ==> fd !in s.rd.slots)
    && (forall fd :: fd in s.wr.posted ==> fd !in s.wr.slots)
  }

  lemma StalePass(s: State, fd: nat, play: nat -> seq<Action>)
    requires 0 < s.size && Stale(s)
    ensures Pass(s, fd, play) == s
    decreases s.maxFd + 1 - fd
  {
    hide PerformAll, Take;
    if fd <= s.maxFd {
      StalePass(s, fd + 1, play);
    }
  }

  /** None of the events registers an operation on a descriptor whose posted bit is set in s. */
  predicate Avoids(s: State, events: seq<Event>) {
    forall i :: 0 <= i < |events| && events[i].Act? ==>
      match events[i].action
      case Start(o) => o.fd !in Half(s, o.dir).posted
      case StartStdin(_, _, _, _) => 0 !in s.rd.posted
      case _ => true
  }

  lemma StaleStep(s: State, e: Event, play: nat -> seq<Action>)
    requires 0 < s.size && Stale(s) && Avoids(s, [e])
    ensures var t := Step(s, e, play);
            && Stale(t) && t.called == s.called && t.rd.posted <= s.rd.posted && t.wr.posted <= s.wr.posted
  {
    hide Pass;
    assert [e][0] == e;
    match e
    case Act(a) =>
    case DoIo(ready) => StalePass(s.(on := true), 0, play);
  }

  /**
   * While every posted bit is stale, OS_DoIo neither polls nor calls anything back, whatever is
   * registered and closed, until an operation is registered on such a descriptor.
   */
  lemma {:induction false} SilentWhileStale(s: State, events: seq<Event>, play: nat -> seq<Action>)
    requires 0 < s.size && Stale(s) && Avoids(s, events)
    ensures Stale(Run(s, events, play)) && Run(s, events, play).called == s.called
    decreases |events|
  {
    hide Step, Stale;
    if events != [] {
      var t := Step(s, events[0], play);
      assert Avoids(s, [events[0]]) by { assert [events[0]][0] == events[0]; }
      StaleStep(s, events[0], play);
      assert Avoids(t, events[1..]) by {
        forall i | 0 <= i < |events[1..]|
          ensures events[1..][i] == events[i + 1]
        {
        }
      }
      SilentWhileStale(t, events[1..], play);
    }
  }

  /** Once a close has taken a posted descriptor away and nothing is posted, this lasts for ever. */
  lemma SilentForever(s: State, events: seq<Event>, play: nat -> seq<Action>)
    requires Inv(s) && Resting(s) && Lost(s) > 0
    ensures Run(s, events, play).called == s.called
  {
    hide Inv;
    TalliedSize(s);
    QuietPosted(s);
    SilentWhileStale(s, events, play);
  }

  /** After OS_Close nothing of the descriptor is left in either half. */
  lemma ClosedIsGone(s: State, fd: nat, dir: Direction)
    requires Inv(s) && Allowed(s, Close(fd))
    ensures var half := Half(Perform(s, Close(fd)), dir);
      fd !in half.slots && fd !in half.pending && fd !in half.posted
    ensures s.on && 0 <= fd == s.maxFd ==> Perform(s, Close(fd)).maxFd == fd - 1
  {
    TalliedSize(s);
  }

  // Where the hypotheses are needed.

  const READ_ONE := Order(Rd, 0, 0, 0, 1, 100, 200)
  const READ_TWO := Order(Rd, 1, 0, 0, 1, 101, 201)

  /** Reads on descriptors 0 and 1. */
  function TwoReads(): State {
    Begin(Begin(INITIAL, READ_ONE), READ_TWO)
  }

  function Both(): Ready {
    Ready({0, 1}, {})
  }

  function Polled(): State {
    State(
      Side(map[0 := Entry(0, READ_ONE), 1 := Entry(1, READ_TWO)], {}, {0, 1}, 2, 0),
      IDLE, [READ_ONE, READ_TWO], [], {}, 1, TABLE_SIZE, true, false)
  }

  lemma TwoReadsInv()
    ensures Inv(TwoReads()) && Resting(TwoReads()) && Quiet(TwoReads())
  {
    hide Inv, Grown;
    InitialInv();
    BeginKeeps(INITIAL, READ_ONE);
    BeginKeeps(Begin(INITIAL, READ_ONE), READ_TWO);
  }

  lemma TwoReadsPolled()
    ensures TwoReads().on && 0 < TwoReads().size
    ensures Poll(TwoReads(), Both()) == Polled()
  {
    hide Found;
    var s := TwoReads();
    assert s.rd.pending == {0, 1} && s.wr.pending == {} && s.maxFd == 1;
    assert Found(s.rd, {0, 1}, s.maxFd) == {0, 1} && Found(s.wr, {}, s.maxFd) == {} by {
      FoundAll(s.rd, {0, 1}, s.maxFd);
      FoundAll(s.wr, {}, s.maxFd);
    }
  }

  lemma FoundAll(half: Side, ready: set<nat>, maxFd: int)
    requires half.pending == ready && forall f :: f in ready ==> f <= maxFd
    ensures Found(half, ready, maxFd) == ready
  {
  }

  /** The first callback performs these calls, the later ones none. */
  function First(actions: seq<Action>): nat -> seq<Action> {
    n => if n == 0 then actions else []
  }

  lemma PassOnce(s: State, fd: nat, play: nat -> seq<Action>)
    requires 0 < s.size && fd <= s.maxFd
    requires !Due(Serve(s, Rd, fd, play), Wr, fd)
    ensures Pass(s, fd, play) == Pass(Serve(s, Rd, fd, play), fd + 1, play)
  {
    hide PerformAll, Take, Due;
  }

  lemma ServedOnce(play: nat -> seq<Action>)
    ensures 0 < TwoReads().size
    ensures Served(TwoReads(), Both(), play) == Pass(Polled(), 0, play)
  {
    hide Inv, Pass, Poll, TwoReads;
    TwoReadsInv();
    TwoReadsPolled();
    var s := TwoReads();
    assert s.(on := true) == s;
  }

  lemma PassOver(s: State, fd: nat, play: nat -> seq<Action>)
    requires 0 < s.size && s.maxFd < fd
    ensures Pass(s, fd, play) == s
  {
  }

  /** The first callback closes the other descriptor, which this pass has found ready. */
  lemma CloseOfPostedSilences(events: seq<Event>)
    ensures 0 < TwoReads().size
    ensures var play := First([Close(1)]);
      var t := Served(TwoReads(), Both(), play);
      Run(t, events, play).called == t.called == [Entry(0, READ_ONE)]
  {
    hide PerformAll, Pass, Served, Inv, TwoReads;
    var play := First([Close(1)]);
    TwoReadsInv();
    ServedOnce(play);
    var t := Served(TwoReads(), Both(), play);
    var taken := Take(Polled(), Rd, 0);
    var closed := CloseFd(taken, 1);
    assert PerformAll(taken, [Close(1)]) == closed by { OneClose(taken); }
    assert Serve(Polled(), Rd, 0, play) == closed;
    assert Pass(Polled(), 0, play) == Pass(closed, 1, play) by { PassOnce(Polled(), 0, play); }
    PassOver(closed, 1, play);
    assert t == closed && Lost(t) == 1 && Resting(t);
    ServedKeeps(TwoReads(), Both(), play);
    SilentForever(t, events, play);
  }

  lemma OneClose(s: State)
    requires 0 < s.size && Allowed(s, Close(1))
    ensures PerformAll(s, [Close(1)]) == CloseFd(s, 1)
  {
    var t := CloseFd(s, 1);
    assert PerformAll(t, []) == t;
  }

  lemma CloseReadThenStart(s: State)
    requires 0 < s.size && 2 < s.size && 1 in s.rd.slots
    ensures PerformAll(s, [CloseRead(1), Start(READ_TWO)]) == Begin(CloseReadFd(s, 1), READ_TWO)
  {
    hide Begin, CloseReadFd;
    var t := CloseReadFd(s, 1);
    assert 0 < t.size && 1 !in t.rd.slots by { CloseReadFrees(s, 1); }
    assert Perform(s, CloseRead(1)) == t;
    var u := Begin(t, READ_TWO);
    assert Perform(t, Start(READ_TWO)) == u;
    assert PerformAll(u, []) == u;
    assert [CloseRead(1), Start(READ_TWO)][1..] == [Start(READ_TWO)];
    assert [Start(READ_TWO)][1..] == [];
    assert PerformAll(t, [Start(READ_TWO)]) == u;
  }

  lemma CloseReadFrees(s: State, fd: nat)
    requires 0 < s.size
    ensures CloseReadFd(s, fd).size == s.size && fd !in CloseReadFd(s, fd).rd.slots
  {
  }

  /**
   * The first callback cancels the other read with OS_CloseRead. No posted descriptor is lost,
   * yet no later poll takes place until a read of descriptor 1 is registered.
   */
  lemma CloseReadOfPostedSilences(events: seq<Event>)
    requires forall i :: 0 <= i < |events| && events[i].Act? && events[i].action.Start? ==>
               events[i].action.order.dir == Rd ==> events[i].action.order.fd != 1
    ensures 0 < TwoReads().size
    ensures var play := First([CloseRead(1)]);
            var t := Served(TwoReads(), Both(), play);
            Lost(t) == 0 && Run(t, events, play).called == t.called == [Entry(0, READ_ONE)]
  {
    hide PerformAll, Pass, Served, Inv, TwoReads;
    var play := First([CloseRead(1)]);
    ServedOnce(play);
    var t := CloseReadLeaves(play);
    assert Avoids(t, events);
    SilentWhileStale(t, events, play);
  }

  /** After that pass the bit of descriptor 1 is left posted, without an entry. */
  lemma CloseReadLeaves(play: nat -> seq<Action>) returns (t: State)
    requires play == First([CloseRead(1)])
    ensures 0 < TwoReads().size && t == Served(TwoReads(), Both(), play)
    ensures t.rd.posted == {1} && t.rd.slots == map[] && t.wr.posted == {} && t.called == [Entry(0, READ_ONE)]
    ensures 0 < t.size && Stale(t) && Lost(t) == 0
  {
    hide PerformAll, Pass, Served, Inv, TwoReads;
    ServedOnce(play);
    var taken := Take(Polled(), Rd, 0);
    t := CloseReadFd(taken, 1);
    assert PerformAll(taken, [CloseRead(1)]) == t by { OneCloseRead(taken); }
    assert Serve(Polled(), Rd, 0, play) == t;
    assert Pass(Polled(), 0, play) == Pass(t, 1, play) by { PassOnce(Polled(), 0, play); }
    assert t.rd.posted == {1} && t.rd.slots == map[] && t.wr.posted == {} && t.rd.count == 1;
    StalePass(t, 1, play);
  }

  lemma OneCloseRead(s: State)
    requires 2 < s.size
    ensures PerformAll(s, [CloseRead(1)]) == CloseReadFd(s, 1)
  {
    var t := CloseReadFd(s, 1);
    assert PerformAll(t, []) == t;
  }

  /**
   * The first callback cancels the other read with OS_CloseRead and starts it again: the new
   * registration is called back in the same pass, though no poll has found it ready.
   */
  lemma CloseReadOfPostedServesNew()
    ensures 0 < TwoReads().size && |TwoReads().registered| == 2
    ensures Served(TwoReads(), Both(), First([CloseRead(1), Start(READ_TWO)])).called ==
            [Entry(0, READ_ONE), Entry(2, READ_TWO)]
  {
    hide PerformAll, Pass, Served, Inv;
    var play := First([CloseRead(1), Start(READ_TWO)]);
    ServedOnce(play);
    var taken := Take(Polled(), Rd, 0);
    var again := Begin(CloseReadFd(taken, 1), READ_TWO);
    assert PerformAll(taken, [CloseRead(1), Start(READ_TWO)]) == again by { CloseReadThenStart(taken); }
    assert Serve(Polled(), Rd, 0, play) == again;
    assert Pass(Polled(), 0, play) == Pass(again, 1, play) by { PassOnce(Polled(), 0, play); }
    assert Due(again, Rd, 1) && again.rd.slots[1] == Entry(2, READ_TWO) && again.maxFd == 1;
    var done := Take(again, Rd, 1);
    assert PerformAll(done, []) == done by { NoActions(done); }
    assert Serve(again, Rd, 1, play) == done;
    assert Pass(again, 1, play) == Pass(done, 2, play) by { PassOnce(again, 1, play); }
    PassOver(done, 2, play);
  }

  lemma NoActions(s: State)
    requires 0 < s.size
    ensures PerformAll(s, []) == s
  {
  }
}
