/**
 * The table of asynchronous operations of os_unix.c as a value: what each call does to it, and
 * what holds however the calls, the polls and the callbacks are interleaved.
 */
module AsyncSpec {
  datatype Direction = Rd | Wr

  /** One request for an operation; `proc` and `data` are the callback and its argument. */
  datatype Order = Order(dir: Direction, fd: nat, offset: int, buf: int, len: int, proc: int, data: int)

  /** A table entry in use: the order, numbered by the registrations made before it. */
  datatype Entry = Entry(serial: nat, order: Order)

  /**
   * The read half or the write half: the entries in use by descriptor, the descriptors waiting
   * for the next poll, those found ready and not yet served, the counter of the latter, and how
   * many of them a close has taken away.
   */
  datatype Side = Side(slots: map<nat, Entry>, pending: set<nat>, posted: set<nat>, count: int, lost: nat)

  /**
   * `registered`, `called` and `cancelled` are the history: every order, every callback made,
   * and the serials whose entry a close freed. `crossed` says that OS_CloseRead has freed an
   * entry whose descriptor was already posted.
   */
  datatype State = State(
    rd: Side, wr: Side,
    registered: seq<Order>, called: seq<Entry>, cancelled: set<nat>,
    maxFd: int, size: nat, on: bool, crossed: bool)

  datatype Action =
    | Start(order: Order)
    | StartStdin(buf: int, len: int, proc: int, data: int)
    | Close(fd: int)
    | CloseRead(sock: nat)

  datatype Ready = Ready(rd: set<nat>, wr: set<nat>)

  datatype Event = Act(action: Action) | DoIo(ready: Ready)

  const TABLE_SIZE := 16

  const IDLE := Side(map[], {}, {}, 0, 0)

  const INITIAL := State(IDLE, IDLE, [], [], {}, -1, TABLE_SIZE, false, false)

  function IndexOf(dir: Direction, fd: nat): nat {
    if dir.Rd? then 2 * fd else 2 * fd + 1
  }

  function Half(s: State, dir: Direction): Side {
    if dir.Rd? then s.rd else s.wr
  }

  function WithHalf(s: State, dir: Direction, half: Side): State {
    if dir.Rd? then s.(rd := half) else s.(wr := half)
  }

  /** The size after doubling until `index` fits. */
  function Grown(size: nat, index: nat): (r: nat)
    requires 0 < size
    ensures index < r && size <= r
    ensures r == size || r <= 2 * index
    decreases index + 1 - size
  {
    if index < size then size else Grown(2 * size, index)
  }

  function Begin(s: State, o: Order): State
    requires 0 < s.size
  {
    var half := Half(s, o.dir);
    WithHalf(
      s.(registered := s.registered + [o],
         maxFd := if o.fd > s.maxFd then o.fd else s.maxFd,
         size := Grown(s.size, IndexOf(o.dir, o.fd)),
         on := true),
      o.dir,
      half.(slots := half.slots[o.fd := Entry(|s.registered|, o)], pending := half.pending + {o.fd}))
  }

  function Forget(half: Side, fd: nat): Side {
    Side(half.slots - {fd}, half.pending - {fd}, half.posted - {fd}, half.count,
         half.lost + if fd in half.posted then 1 else 0)
  }

  function SerialAt(slots: map<nat, Entry>, fd: nat): set<nat> {
    if fd in slots then {slots[fd].serial} else {}
  }

  function CloseFd(s: State, fd: int): State
    requires -1 <= fd
  {
    if fd == -1 || !s.on then s
    else
      s.(rd := Forget(s.rd, fd), wr := Forget(s.wr, fd),
         cancelled := s.cancelled + SerialAt(s.rd.slots, fd) + SerialAt(s.wr.slots, fd),
         maxFd := if s.maxFd == fd then s.maxFd - 1 else s.maxFd)
  }

  function CloseReadFd(s: State, fd: nat): State {
    if fd !in s.rd.slots then s
    else
      s.(rd := s.rd.(slots := s.rd.slots - {fd}, pending := s.rd.pending - {fd}),
         cancelled := s.cancelled + SerialAt(s.rd.slots, fd),
         crossed := s.crossed || fd in s.rd.posted)
  }

  /** How many posted descriptors closes have taken away; the counters still count them. */
  function Lost(s: State): nat {
    s.rd.lost + s.wr.lost
  }

  /** What the calls ask of their caller: an entry that is free, an index inside the table. */
  predicate Allowed(s: State, a: Action) {
    match a
    case Start(o) => o.fd !in Half(s, o.dir).slots
    case StartStdin(_, _, _, _) => 0 !in s.rd.slots
    case Close(fd) => fd == -1 || (0 <= fd && (s.on ==> 2 * fd + 1 < s.size))
    case CloseRead(fd) => 2 * fd < s.size
  }

  /** One call; a call its caller may not make is not made. */
  function Perform(s: State, a: Action): (t: State)
    requires 0 < s.size
    ensures 0 < t.size
    ensures t.called == s.called && (s.crossed ==> t.crossed)
    ensures t.rd.count == s.rd.count && t.wr.count == s.wr.count && Lost(s) <= Lost(t)
    ensures t.rd.posted <= s.rd.posted && t.wr.posted <= s.wr.posted
  {
    if !Allowed(s, a) then s
    else
      match a
      case Start(o) => Begin(s, o)
      case StartStdin(buf, len, proc, data) => Begin(s, Order(Rd, 0, 0, buf, len, proc, data))
      case Close(fd) => CloseFd(s, fd)
      case CloseRead(fd) => CloseReadFd(s, fd)
  }

  function PerformAll(s: State, actions: seq<Action>): (t: State)
    requires 0 < s.size
    ensures 0 < t.size
    ensures t.called == s.called && (s.crossed ==> t.crossed)
    ensures t.rd.count == s.rd.count && t.wr.count == s.wr.count && Lost(s) <= Lost(t)
    ensures t.rd.posted <= s.rd.posted && t.wr.posted <= s.wr.posted
    decreases |actions|
  {
    if actions == [] then s else PerformAll(Perform(s, actions[0]), actions[1..])
  }

  function Found(half: Side, ready: set<nat>, maxFd: int): set<nat> {
    set f | f in half.pending && f in ready && f <= maxFd
  }

  function PollHalf(half: Side, ready: set<nat>, maxFd: int): Side {
    var found := Found(half, ready, maxFd);
    half.(pending := half.pending - found, posted := half.posted + found, count := half.count + |found|)
  }

  function Poll(s: State, ready: Ready): State {
    s.(rd := PollHalf(s.rd, ready.rd, s.maxFd), wr := PollHalf(s.wr, ready.wr, s.maxFd))
  }

  predicate Quiet(s: State) {
    s.rd.count == 0 && s.wr.count == 0
  }

  predicate Due(s: State, dir: Direction, fd: nat) {
    fd in Half(s, dir).posted && fd in Half(s, dir).slots
  }

  /** The entry leaves the table and its callback is about to run. */
  function Take(s: State, dir: Direction, fd: nat): State
    requires Due(s, dir, fd)
  {
    var half := Half(s, dir);
    WithHalf(s.(called := s.called + [half.slots[fd]]), dir,
             half.(slots := half.slots - {fd}, posted := half.posted - {fd}, count := half.count - 1))
  }

  /** One half of one turn of the dispatch loop; the nth callback ever made performs `play(n)`. */
  function Serve(s: State, dir: Direction, fd: nat, play: nat -> seq<Action>): (t: State)
    requires 0 < s.size
    ensures 0 < t.size && (s.crossed ==> t.crossed)
    ensures Lost(s) <= Lost(t)
    ensures t.rd.posted <= s.rd.posted && t.wr.posted <= s.wr.posted
    ensures t.rd.posted == s.rd.posted && t.wr.posted == s.wr.posted ==> t == s
  {
    if Due(s, dir, fd) then PerformAll(Take(s, dir, fd), play(|s.called|)) else s
  }

  function Pass(s: State, fd: nat, play: nat -> seq<Action>): (t: State)
    requires 0 < s.size
    ensures 0 < t.size && (s.crossed ==> t.crossed)
    ensures Lost(s) <= Lost(t)
    decreases s.rd.posted, s.wr.posted, s.maxFd + 1 - fd
  {
    if fd > s.maxFd then s
    else Pass(Serve(Serve(s, Rd, fd, play), Wr, fd, play), fd + 1, play)
  }

  /** OS_DoIo: poll only when nothing is left over, then serve what is posted. */
  function Served(s: State, ready: Ready, play: nat -> seq<Action>): (t: State)
    requires 0 < s.size
    ensures 0 < t.size && (s.crossed ==> t.crossed)
    ensures Lost(s) <= Lost(t)
  {
    var woken := s.(on := true);
    var polled := if Quiet(woken) then Poll(woken, ready) else woken;
    if Quiet(polled) then polled else Pass(polled, 0, play)
  }

  function Step(s: State, e: Event, play: nat -> seq<Action>): (t: State)
    requires 0 < s.size
    ensures 0 < t.size && (s.crossed ==> t.crossed)
    ensures Lost(s) <= Lost(t)
  {
    match e
    case Act(a) => Perform(s, a)
    case DoIo(ready) => Served(s, ready, play)
  }

  function Run(s: State, events: seq<Event>, play: nat -> seq<Action>): (t: State)
    requires 0 < s.size
    ensures 0 < t.size && (s.crossed ==> t.crossed)
    ensures Lost(s) <= Lost(t)
    decreases |events|
  {
    if events == [] then s else Run(Step(s, events[0], play), events[1..], play)
  }
}
