/** Who can wait for whom: the mutexes of yatb and the join of a data thread, over all
    interleavings of the main, traffic, control and data threads, any of which the handler of SIGHUP
    may interrupt anywhere. */
module Locks {
  import opened Strings

  /** Every mutex that the threads use. A counter lock is named by its counter; `LocalCounter`,
      `ReadWrite` and `Direction` belong to a control thread, `Quit` to a data thread. */
  datatype Lock =
    | ListLock
    | GlobalsLock
    | ReadWrite(control: nat)
    | SockLock
    | IpListLock(listen: bool)
    | LocalCounter(control: nat)
    | TotalCounter
    | DayCounter
    | WeekCounter
    | MonthCounter
    | Direction(control: nat)
    | Quit(data: nat)
    | ConfigLock

  /** The lock order that the code keeps. The last two are those of the signal handler. */
  function Rank(l: Lock): nat {
    match l
    case ListLock => 0
    case GlobalsLock => 0
    case ReadWrite(_) => 0
    case IpListLock(listen) => if listen then 1 else 2
    case ConfigLock => 3
    case _ => 1
  }

  /** A step of a thread. `Message` is a call of `debugmsg` or `cmddebugmsg`, which take the config lock
      if debugging is on by then; `Reconfigure` is `config = tmpconf`. */
  datatype Action =
    | Acquire(lock: Lock)
    | Release(lock: Lock)
    | Join(thread: nat)
    | Message
    | Reconfigure(debug: bool)

  /** A part of a script without joins. */
  type Locking = s: seq<Action> | forall a | a in s :: !a.Join?

  // What the functions of the source do with locks

  function Section(l: Lock, body: Locking): Locking {
    [Acquire(l)] + body + [Release(l)]
  }

  const NOTE: Locking := [Message]

  /** One counter method. */
  function Count(l: Lock): Locking {
    Section(l, [])
  }

  /** The five additions for bytes exchanged with a client. */
  function CountAll(c: nat): Locking {
    Count(LocalCounter(c)) + (Count(TotalCounter) + (Count(DayCounter) + (Count(WeekCounter) + Count(MonthCounter))))
  }

  /** Which of the three traffic limits are compared. */
  datatype Limits = Limits(day: bool, week: bool, month: bool)

  function CountIf(b: bool, l: Lock): Locking {
    if b then Count(l) else []
  }

  function CountLimits(n: Limits): Locking {
    CountIf(n.day, DayCounter) + (CountIf(n.week, WeekCounter) + CountIf(n.month, MonthCounter))
  }

  function TrafficCheck(n: Limits): Locking {
    CountLimits(n) + NOTE
  }

  function CountLocals(cs: seq<nat>): Locking {
    if cs == [] then [] else Count(LocalCounter(cs[0])) + CountLocals(cs[1..])
  }

  function GetIp(listen: bool): Locking {
    NOTE + (Section(IpListLock(listen), []) + NOTE)
  }

  /** `readlist`, which says something with the lock held if the lists are good. */
  function ReadIpList(good: bool): Locking {
    NOTE + (Section(IpListLock(false), if good then NOTE else []) + NOTE)
  }

  /** What a readable configuration file says about debugging, and whether its address list is good. */
  datatype Conf = Conf(debug: bool, good: bool)

  /** The handler of SIGHUP; None is a file that cannot be read. */
  function Handler(conf: Option<Conf>): Locking {
    match conf
    case None => NOTE + NOTE
    case Some(c) => NOTE + ([Reconfigure(c.debug)] + (ReadIpList(c.good) + NOTE))
  }

  /** The operations the threads are made of. `c` is the control thread whose members are used. */
  datatype Op =
    | Talk                     // debug output on its own
    | OpenSocket               // GetSock
    | CloseSocket              // Close
    | CheckTraffic(n: Limits)  // trafficcheck
    | ReadUncounted(c: nat)    // Read, TryRead: failed, nothing there, or from the site
    | ReadCounted(c: nat)      // Read, TryRead from the client
    | WriteUncounted(c: nat)   // Write: failed, or to the site
    | WriteCounted(c: nat, n: Limits)   // Write to the client
    | WriteSiteAddress(c: nat) // Write returning early because of the site address
    | WriteOverLimit(c: nat, n: Limits) // Write returning early because of the traffic limit
    | SetDirection(c: nat)     // SetDirection, DirectionSet
    | StopData(d: nat)         // deletedatathread: setQuit and join
    | TestQuit(d: nat)         // getQuit
    | LeaveList                // destructor of a control thread, or a thread that could not start
    | ShowInfo(cs: seq<nat>)   // the info command, with the sessions it lists
    | OwnTraffic(c: nat)       // the summary before QUIT
    | ReloadIps(conf: Conf)    // the reload command
    | NewClient                // accept loop: the next site address and a new control thread
    | NextListenIp             // listeniplist.getip
    | CountData(c: nat)        // Read, Write of a data thread
    | ResetDay
    | ResetWeek
    | ResetMonth

  function Script(op: Op): (s: seq<Action>)
    ensures !op.StopData? ==> forall a | a in s :: !a.Join?
  {
    match op
    case Talk => NOTE
    case OpenSocket => Section(SockLock, [])
    case CloseSocket => Section(SockLock, NOTE)
    case CheckTraffic(n) => TrafficCheck(n)
    case ReadUncounted(c) => Section(ReadWrite(c), NOTE)
    case ReadCounted(c) => Section(ReadWrite(c), NOTE + (CountAll(c) + NOTE))
    case WriteUncounted(c) => Section(ReadWrite(c), NOTE)
    case WriteCounted(c, n) => Section(ReadWrite(c), NOTE + (CountAll(c) + (NOTE + TrafficCheck(n))))
    case WriteSiteAddress(c) => [Acquire(ReadWrite(c))] + NOTE
    case WriteOverLimit(c, n) => [Acquire(ReadWrite(c))] + (NOTE + (CountAll(c) + (NOTE + TrafficCheck(n))))
    case SetDirection(c) => Section(Direction(c), [])
    case StopData(d) => Section(Quit(d), []) + (NOTE + [Join(d)])
    case TestQuit(d) => Section(Quit(d), [])
    case LeaveList => Section(ListLock, [])
    case ShowInfo(cs) => Section(GlobalsLock, Count(TotalCounter) + (CountLimits(Limits(true, true, true)) + CountLocals(cs)))
    case OwnTraffic(c) => Count(LocalCounter(c))
    case ReloadIps(conf) => [Reconfigure(conf.debug)] + ReadIpList(conf.good)
    case NewClient => Section(ListLock, GetIp(false) + NOTE)
    case NextListenIp => Section(ListLock, GetIp(true))
    case CountData(c) => CountAll(c)
    case ResetDay => Count(DayCounter)
    case ResetWeek => Count(WeekCounter)
    case ResetMonth => Count(MonthCounter)
  }

  ghost function Asked(script: seq<Action>): set<Lock> {
    if script == [] then {}
    else (if script[0].Acquire? then {script[0].lock} else {}) + Asked(script[1..])
  }

  lemma {:induction false} AskedBoth(a: seq<Action>, b: seq<Action>)
    ensures Asked(a + b) == Asked(a) + Asked(b)
  {
    if a == [] {
      assert a + b == b;
    } else {
      assert (a + b)[1..] == a[1..] + b;
      AskedBoth(a[1..], b);
    }
  }

  lemma AskedSection(l: Lock, body: Locking)
    ensures Asked(Section(l, body)) == {l} + Asked(body)
  {
    AskedBoth([Acquire(l)] + body, [Release(l)]);
    AskedBoth([Acquire(l)], body);
    assert Asked([Acquire(l)][1..]) == {} && Asked([Release(l)][1..]) == {};
  }

  lemma AskedCount(l: Lock, rest: Locking)
    ensures Asked(Count(l)) == {l} && Asked(Count(l) + rest) == {l} + Asked(rest)
  {
    AskedSection(l, []);
    AskedBoth(Count(l), rest);
  }

  lemma AskedPeriods()
    ensures Asked(Count(DayCounter) + (Count(WeekCounter) + Count(MonthCounter))) == {DayCounter, WeekCounter, MonthCounter}
  {
    AskedCount(MonthCounter, []);
    AskedCount(WeekCounter, Count(MonthCounter));
    AskedCount(DayCounter, Count(WeekCounter) + Count(MonthCounter));
  }

  lemma AskedTwo(l: Lock, m: Lock, rest: Locking)
    ensures Asked(Count(l) + (Count(m) + rest)) == {l, m} + Asked(rest)
  {
    AskedCount(m, rest);
    AskedCount(l, Count(m) + rest);
  }

  lemma AskedCountAll(c: nat)
    ensures Asked(CountAll(c)) == Counted(c)
  {
    AskedPeriods();
    AskedTwo(LocalCounter(c), TotalCounter, Count(DayCounter) + (Count(WeekCounter) + Count(MonthCounter)));
  }

  function Compared(n: Limits): set<Lock> {
    (if n.day then {DayCounter} else {}) + (if n.week then {WeekCounter} else {}) + (if n.month then {MonthCounter} else {})
  }

  lemma AskedLimits(n: Limits)
    ensures Asked(CountLimits(n)) == Compared(n) == Asked(TrafficCheck(n))
  {
    AskedSection(DayCounter, []);
    AskedSection(WeekCounter, []);
    AskedSection(MonthCounter, []);
    AskedBoth(CountIf(n.week, WeekCounter), CountIf(n.month, MonthCounter));
    AskedBoth(CountIf(n.day, DayCounter), CountIf(n.week, WeekCounter) + CountIf(n.month, MonthCounter));
    AskedBoth(CountLimits(n), NOTE);
  }

  lemma {:induction false} AskedLocals(cs: seq<nat>)
    ensures Asked(CountLocals(cs)) == set c | c in cs :: LocalCounter(c)
  {
    if cs != [] {
      AskedSection(LocalCounter(cs[0]), []);
      AskedLocals(cs[1..]);
      AskedBoth(Count(LocalCounter(cs[0])), CountLocals(cs[1..]));
      assert cs == [cs[0]] + cs[1..];
    }
  }

  /** The locks that an operation asks for. */
  function LocksOf(op: Op): set<Lock> {
    match op
    case Talk => {}
    case OpenSocket => {SockLock}
    case CloseSocket => {SockLock}
    case CheckTraffic(n) => Compared(n)
    case ReadUncounted(c) => {ReadWrite(c)}
    case WriteUncounted(c) => {ReadWrite(c)}
    case WriteSiteAddress(c) => {ReadWrite(c)}
    case ReadCounted(c) => {ReadWrite(c)} + Counted(c)
    case WriteCounted(c, n) => {ReadWrite(c)} + Counted(c)
    case WriteOverLimit(c, n) => {ReadWrite(c)} + Counted(c)
    case CountData(c) => Counted(c)
    case SetDirection(c) => {Direction(c)}
    case StopData(d) => {Quit(d)}
    case TestQuit(d) => {Quit(d)}
    case LeaveList => {ListLock}
    case ShowInfo(cs) => {GlobalsLock, TotalCounter, DayCounter, WeekCounter, MonthCounter} + set c | c in cs :: LocalCounter(c)
    case OwnTraffic(c) => {LocalCounter(c)}
    case ReloadIps(_) => {IpListLock(false)}
    case NewClient => {ListLock, IpListLock(false)}
    case NextListenIp => {ListLock, IpListLock(true)}
    case ResetDay => {DayCounter}
    case ResetWeek => {WeekCounter}
    case ResetMonth => {MonthCounter}
  }

  function Counted(c: nat): set<Lock> {
    {LocalCounter(c), TotalCounter, DayCounter, WeekCounter, MonthCounter}
  }

  /** What is protected by what: sockets by their lock, the messages of a session by its read-write lock, with the
      five counters inside where bytes of the client are counted, the lists of threads and addresses by theirs. */
  lemma AsksExactly(op: Op)
    ensures Asked(Script(op)) == LocksOf(op)
  {
    match op
    case ReadCounted(c) => ReadAsks(c);
    case WriteCounted(c, n) => WriteAsks(c, n);
    case WriteOverLimit(c, n) => OverLimitAsks(c, n);
    case ShowInfo(cs) => InfoAsks(cs);
    case CheckTraffic(n) => AskedLimits(n);
    case CountData(c) => AskedCountAll(c);
    case StopData(d) => StopAsks(d);
    case _ => if op.ReloadIps? || op.NewClient? || op.NextListenIp? { AddressesAsk(op); } else { SectionAsks(op); }
  }

  predicate OneSection(op: Op) {
    || op.OpenSocket? || op.CloseSocket? || op.ReadUncounted? || op.WriteUncounted? || op.WriteSiteAddress? || op.SetDirection?
    || op.TestQuit? || op.LeaveList? || op.OwnTraffic? || op.ResetDay? || op.ResetWeek? || op.ResetMonth? || op.Talk?
  }

  lemma SectionAsks(op: Op)
    requires OneSection(op)
    ensures Asked(Script(op)) == LocksOf(op)
  {
    match op
    case OpenSocket => AskedSection(SockLock, []);
    case CloseSocket => AskedSection(SockLock, NOTE);
    case ReadUncounted(c) => AskedSection(ReadWrite(c), NOTE);
    case WriteUncounted(c) => AskedSection(ReadWrite(c), NOTE);
    case WriteSiteAddress(c) => AskedFirst(ReadWrite(c), NOTE);
    case SetDirection(c) => AskedSection(Direction(c), []);
    case TestQuit(d) => AskedSection(Quit(d), []);
    case LeaveList => AskedSection(ListLock, []);
    case OwnTraffic(c) => AskedSection(LocalCounter(c), []);
    case ResetDay => AskedSection(DayCounter, []);
    case ResetWeek => AskedSection(WeekCounter, []);
    case ResetMonth => AskedSection(MonthCounter, []);
    case Talk =>
  }

  /** Between messages. */
  lemma AskedBetween(body: Locking)
    ensures Asked(NOTE + (body + NOTE)) == Asked(body)
  {
    AskedBoth(body, NOTE);
    AskedBoth(NOTE, body + NOTE);
  }

  lemma ReadAsks(c: nat)
    ensures Asked(Script(ReadCounted(c))) == {ReadWrite(c)} + Counted(c)
  {
    AskedCountAll(c);
    AskedBetween(CountAll(c));
    AskedSection(ReadWrite(c), NOTE + (CountAll(c) + NOTE));
  }

  lemma WriteAsks(c: nat, n: Limits)
    ensures Asked(Script(WriteCounted(c, n))) == {ReadWrite(c)} + Counted(c)
  {
    AskedWrite(c, n);
    AskedSection(ReadWrite(c), NOTE + (CountAll(c) + (NOTE + TrafficCheck(n))));
  }

  lemma OverLimitAsks(c: nat, n: Limits)
    ensures Asked(Script(WriteOverLimit(c, n))) == {ReadWrite(c)} + Counted(c)
  {
    AskedWrite(c, n);
    AskedFirst(ReadWrite(c), NOTE + (CountAll(c) + (NOTE + TrafficCheck(n))));
  }

  lemma AskedFirst(l: Lock, rest: Locking)
    ensures Asked([Acquire(l)] + rest) == {l} + Asked(rest)
  {
    AskedBoth([Acquire(l)], rest);
    assert Asked([Acquire(l)][1..]) == {};
  }

  lemma AskedThree(l: Lock, m: Lock, limits: Locking, locals: Locking)
    ensures Asked(Section(l, Count(m) + (limits + locals))) == {l, m} + Asked(limits) + Asked(locals)
  {
    AskedSection(m, []);
    AskedBoth(limits, locals);
    AskedBoth(Count(m), limits + locals);
    AskedSection(l, Count(m) + (limits + locals));
  }

  lemma InfoAsksBut(locals: Locking, own: set<Lock>)
    requires Asked(locals) == own
    ensures Asked(Section(GlobalsLock, Count(TotalCounter) + (CountLimits(Limits(true, true, true)) + locals)))
         == {GlobalsLock, TotalCounter, DayCounter, WeekCounter, MonthCounter} + own
  {
    AskedLimits(Limits(true, true, true));
    AskedThree(GlobalsLock, TotalCounter, CountLimits(Limits(true, true, true)), locals);
  }

  lemma InfoAsks(cs: seq<nat>)
    ensures Asked(Script(ShowInfo(cs))) == LocksOf(ShowInfo(cs))
  {
    AskedLocals(cs);
    InfoAsksBut(CountLocals(cs), set c | c in cs :: LocalCounter(c));
  }

  lemma StopAsks(d: nat)
    ensures Asked(Script(StopData(d))) == {Quit(d)}
  {
    AskedSection(Quit(d), []);
    AskedBoth(NOTE, [Join(d)]);
    AskedBoth(Section(Quit(d), []), NOTE + [Join(d)]);
  }

  lemma AddressesAsk(op: Op)
    requires op.ReloadIps? || op.NewClient? || op.NextListenIp?
    ensures Asked(Script(op)) == LocksOf(op)
  {
    match op
    case ReloadIps(conf) =>
      AskedReadIpList(conf.good);
      AskedBoth([Reconfigure(conf.debug)], ReadIpList(conf.good));
    case NewClient =>
      AskedGetIp(false);
      AskedBoth(GetIp(false), NOTE);
      AskedSection(ListLock, GetIp(false) + NOTE);
    case NextListenIp =>
      AskedGetIp(true);
      AskedSection(ListLock, GetIp(true));
  }

  lemma AskedWrite(c: nat, n: Limits)
    ensures Asked(NOTE + (CountAll(c) + (NOTE + TrafficCheck(n)))) == Counted(c)
  {
    AskedCountAll(c);
    AskedLimits(n);
    AskedBoth(NOTE, TrafficCheck(n));
    AskedBoth(CountAll(c), NOTE + TrafficCheck(n));
    AskedBoth(NOTE, CountAll(c) + (NOTE + TrafficCheck(n)));
  }

  lemma AskedGetIp(listen: bool)
    ensures Asked(GetIp(listen)) == {IpListLock(listen)}
  {
    AskedSection(IpListLock(listen), []);
    AskedBoth(Section(IpListLock(listen), []), NOTE);
    AskedBoth(NOTE, Section(IpListLock(listen), []) + NOTE);
  }

  lemma AskedReadIpList(good: bool)
    ensures Asked(ReadIpList(good)) == {IpListLock(false)}
  {
    var body: Locking := if good then NOTE else [];
    AskedSection(IpListLock(false), body);
    AskedBoth(Section(IpListLock(false), body), NOTE);
    AskedBoth(NOTE, Section(IpListLock(false), body) + NOTE);
  }

  /** The two early returns of `Write`, which leave the lock held. */
  predicate Leaks(op: Op) {
    op.WriteSiteAddress? || op.WriteOverLimit?
  }

  datatype Kind = MainThread | TrafficThread | ControlThread | DataThread(owner: nat)

  /** Which operations a thread with number `t` may run. */
  predicate MayRun(kinds: seq<Kind>, t: nat, op: Op)
    requires t < |kinds|
  {
    match kinds[t]
    case MainThread => op.Talk? || op.CheckTraffic? || op.NewClient? || op.LeaveList? || op.CloseSocket?
    case TrafficThread => op.Talk? || op.ResetDay? || op.ResetWeek? || op.ResetMonth?
    case ControlThread => (
      match op
      case ReadUncounted(c) => c == t
      case ReadCounted(c) => c == t
      case WriteUncounted(c) => c == t
      case WriteCounted(c, _) => c == t
      case WriteSiteAddress(c) => c == t
      case WriteOverLimit(c, _) => c == t
      case SetDirection(c) => c == t
      case OwnTraffic(c) => c == t
      case ShowInfo(_) => true
      case StopData(d) => d < |kinds| && kinds[d] == DataThread(t)
      case _ => op.Talk? || op.OpenSocket? || op.CloseSocket? || op.CheckTraffic? || op.LeaveList? || op.ReloadIps?)
    case DataThread(owner) => (
      match op
      case WriteUncounted(c) => c == owner
      case WriteCounted(c, _) => c == owner
      case WriteSiteAddress(c) => c == owner
      case WriteOverLimit(c, _) => c == owner
      case SetDirection(c) => c == owner
      case CountData(c) => c == owner
      case TestQuit(d) => d == t
      case _ => op.Talk? || op.OpenSocket? || op.CloseSocket? || op.NextListenIp?)
  }

  // The system

  /** What a thread still has to do in its present operation, in the signal handler that interrupts it,
      and the locks it holds. */
  datatype Thread = Thread(script: seq<Action>, handler: seq<Action>, held: set<Lock>, done: bool)
  {
    function Rest(): seq<Action> {
      handler + script
    }

    /** The next action is gone, and something may stand in its place. */
    function Past(front: seq<Action>): Thread
      requires Rest() != []
    {
      if handler != [] then this.(handler := front + handler[1..]) else this.(script := front + script[1..])
    }
  }

  datatype System = System(kinds: seq<Kind>, threads: seq<Thread>, owner: map<Lock, nat>, debug: bool)

  /** `Hup` is the arrival of SIGHUP, for which the system picks any thread. */
  datatype Move =
    | Spawn(kind: Kind)
    | Begin(thread: nat, op: Op)
    | Advance(thread: nat)
    | Exit(thread: nat)
    | Hup(thread: nat, conf: Option<Conf>)

  /** The start of the program, with or without debugging. */
  function Boot(debug: bool): System {
    System([], [], map[], debug)
  }

  /** A data thread whose `Write` returned early closes its sockets and ends. */
  predicate MayBegin(s: System, t: nat, op: Op)
    requires t < |s.threads| == |s.kinds|
  {
    MayRun(s.kinds, t, op) && (s.kinds[t].DataThread? && s.threads[t].held != {} ==> op.Talk? || op.CloseSocket?)
  }

  predicate Enabled(s: System, m: Move) {
    |s.kinds| == |s.threads| &&
    match m
    case Spawn(kind) => true
    case Begin(t, op) => t < |s.threads| && !s.threads[t].done && s.threads[t].Rest() == [] && MayBegin(s, t, op)
    case Exit(t) => t < |s.threads| && !s.threads[t].done && s.threads[t].Rest() == []
    case Hup(t, conf) => t < |s.threads| && !s.threads[t].done && s.threads[t].handler == []
    case Advance(t) =>
      && t < |s.threads| && s.threads[t].Rest() != []
      && match s.threads[t].Rest()[0]
         case Acquire(l) => l !in s.owner
         case Join(d) => d < |s.threads| && s.threads[d].done
         case _ => true
  }

  function HeldAfter(h: set<Lock>, a: Action): set<Lock> {
    match a
    case Acquire(l) => h + {l}
    case Release(l) => h - {l}
    case _ => h
  }

  function OwnerAfter(owner: map<Lock, nat>, t: nat, a: Action): map<Lock, nat> {
    match a
    case Acquire(l) => owner[l := t]
    case Release(l) => owner - {l}
    case _ => owner
  }

  /** What an action turns into: a message takes the config lock while debugging is on. */
  function Becomes(a: Action, debug: bool): seq<Action> {
    if a.Message? && debug then [Acquire(ConfigLock), Release(ConfigLock)] else []
  }

  function DebugAfter(debug: bool, a: Action): bool {
    if a.Reconfigure? then a.debug else debug
  }

  function Advanced(s: System, t: nat): System
    requires t < |s.threads| && s.threads[t].Rest() != []
  {
    var th := s.threads[t];
    var a := th.Rest()[0];
    System(s.kinds, s.threads[t := th.Past(Becomes(a, s.debug)).(held := HeldAfter(th.held, a))],
           OwnerAfter(s.owner, t, a), DebugAfter(s.debug, a))
  }

  function Apply(s: System, m: Move): System
    requires Enabled(s, m)
  {
    match m
    case Spawn(kind) => s.(kinds := s.kinds + [kind], threads := s.threads + [Thread([], [], {}, false)])
    case Begin(t, op) => s.(threads := s.threads[t := s.threads[t].(script := Script(op))])
    case Hup(t, conf) => s.(threads := s.threads[t := s.threads[t].(handler := Handler(conf))])
    case Exit(t) => s.(threads := s.threads[t := s.threads[t].(done := true)])
    case Advance(t) => Advanced(s, t)
  }

  /** A run: every move is possible when it is made. */
  predicate Runs(s: System, ms: seq<Move>)
    decreases |ms|
  {
    ms == [] || (Enabled(s, ms[0]) && Runs(Apply(s, ms[0]), ms[1..]))
  }

  function After(s: System, ms: seq<Move>): System
    requires Runs(s, ms)
    decreases |ms|
  {
    if ms == [] then s else After(Apply(s, ms[0]), ms[1..])
  }

  // Waiting

  predicate WaitsFor(s: System, t: nat, u: nat) {
    && t < |s.threads| && u < |s.threads| && s.threads[t].Rest() != []
    && match s.threads[t].Rest()[0]
       case Acquire(l) => l in s.owner && s.owner[l] == u
       case Join(d) => d == u && !s.threads[u].done
       case _ => false
  }

  /** Each thread of the circle waits for the next one. */
  predicate Circle(s: System, ts: seq<nat>) {
    && ts != []
    && forall i | 0 <= i < |ts| :: WaitsFor(s, ts[i], ts[if i + 1 < |ts| then i + 1 else 0])
  }

  // The discipline of the scripts

  ghost predicate Below(h: set<Lock>, rank: nat) {
    forall k | k in h :: Rank(k) < rank
  }

  /** What is held after the actions, from holding `h`; None unless they ask for locks in rising rank
      only, release only what is held, say nothing while holding the config lock, and join with nothing
      held. */
  ghost function Ends(h: set<Lock>, script: seq<Action>): Option<set<Lock>>
    decreases |script|
  {
    if script == [] then Some(h)
    else
      match script[0]
      case Acquire(l) => if Below(h, Rank(l)) then Ends(h + {l}, script[1..]) else None
      case Release(l) => if l in h then Ends(h - {l}, script[1..]) else None
      case Join(d) => if h == {} then Ends(h, script[1..]) else None
      case Message => if Below(h, Rank(ConfigLock)) then Ends(h, script[1..]) else None
      case Reconfigure(_) => Ends(h, script[1..])
  }

  /** A part of a script that gives back exactly what it takes. */
  ghost predicate Balanced(h: set<Lock>, part: seq<Action>) {
    Ends(h, part) == Some(h)
  }

  lemma {:induction false} EndsBoth(h: set<Lock>, a: seq<Action>, b: seq<Action>)
    requires Ends(h, a).Some?
    ensures Ends(h, a + b) == Ends(Ends(h, a).value, b)
    decreases |a|
  {
    if a == [] {
      assert a + b == b;
    } else {
      assert (a + b)[1..] == a[1..] + b;
      EndsBoth(HeldAfter(h, a[0]), a[1..], b);
    }
  }

  lemma BalancedBoth(h: set<Lock>, a: seq<Action>, b: seq<Action>)
    requires Balanced(h, a) && Balanced(h, b)
    ensures Balanced(h, a + b)
  {
    EndsBoth(h, a, b);
  }

  lemma BalancedSection(h: set<Lock>, l: Lock, body: Locking)
    requires Below(h, Rank(l))
    requires Balanced(h + {l}, body)
    ensures Balanced(h, Section(l, body))
  {
    assert l !in h;
    EndsBoth(h + {l}, body, [Release(l)]);
    assert [Release(l)][1..] == [] && (h + {l}) - {l} == h;
    assert Section(l, body) == [Acquire(l)] + (body + [Release(l)]);
    assert ([Acquire(l)] + (body + [Release(l)]))[1..] == body + [Release(l)];
  }

  lemma BalancedNote(h: set<Lock>)
    requires Below(h, 3)
    ensures Balanced(h, NOTE)
  {
    assert NOTE[1..] == [];
  }

  lemma BalancedLeaf(h: set<Lock>, l: Lock)
    requires Below(h, Rank(l))
    ensures Balanced(h, Section(l, []))
  {
    BalancedSection(h, l, []);
  }

  lemma BalancedCountAll(h: set<Lock>, c: nat)
    requires Below(h, 1)
    ensures Balanced(h, CountAll(c))
  {
    BalancedLeaf(h, LocalCounter(c));
    BalancedLeaf(h, TotalCounter);
    BalancedLeaf(h, DayCounter);
    BalancedLeaf(h, WeekCounter);
    BalancedLeaf(h, MonthCounter);
    BalancedBoth(h, Count(WeekCounter), Count(MonthCounter));
    BalancedBoth(h, Count(DayCounter), Count(WeekCounter) + Count(MonthCounter));
    BalancedBoth(h, Count(TotalCounter), Count(DayCounter) + (Count(WeekCounter) + Count(MonthCounter)));
    BalancedBoth(h, Count(LocalCounter(c)), Count(TotalCounter) + (Count(DayCounter) + (Count(WeekCounter) + Count(MonthCounter))));
  }

  lemma BalancedCountIf(h: set<Lock>, b: bool, l: Lock)
    requires Below(h, Rank(l))
    ensures Balanced(h, CountIf(b, l))
  {
    BalancedLeaf(h, l);
  }

  lemma BalancedLimits(h: set<Lock>, n: Limits)
    requires Below(h, 1)
    ensures Balanced(h, CountLimits(n))
  {
    var (day, week, month) := (CountIf(n.day, DayCounter), CountIf(n.week, WeekCounter), CountIf(n.month, MonthCounter));
    BalancedCountIf(h, n.day, DayCounter);
    BalancedCountIf(h, n.week, WeekCounter);
    BalancedCountIf(h, n.month, MonthCounter);
    BalancedBoth(h, week, month);
    BalancedBoth(h, day, week + month);
  }

  lemma BalancedTrafficCheck(h: set<Lock>, n: Limits)
    requires Below(h, 1)
    ensures Balanced(h, TrafficCheck(n))
  {
    BalancedLimits(h, n);
    BalancedNote(h);
    BalancedBoth(h, CountLimits(n), NOTE);
  }

  lemma {:induction false} BalancedCountLocals(h: set<Lock>, cs: seq<nat>)
    requires Below(h, 1)
    ensures Balanced(h, CountLocals(cs))
  {
    if cs == [] {
      assert CountLocals(cs) == [];
    } else {
      BalancedLeaf(h, LocalCounter(cs[0]));
      BalancedCountLocals(h, cs[1..]);
      BalancedBoth(h, Count(LocalCounter(cs[0])), CountLocals(cs[1..]));
    }
  }

  lemma BalancedThree(l: Lock, a: Locking, b: Locking, c: Locking)
    requires Balanced({l}, a) && Balanced({l}, b) && Balanced({l}, c)
    ensures Balanced({}, Section(l, a + (b + c)))
  {
    var none: set<Lock> := {};
    assert none + {l} == {l};
    BalancedBoth({l}, b, c);
    BalancedBoth({l}, a, b + c);
    BalancedSection(none, l, a + (b + c));
  }

  lemma BalancedInfo(cs: seq<nat>, n: Limits)
    ensures Balanced({}, Section(GlobalsLock, Count(TotalCounter) + (CountLimits(n) + CountLocals(cs))))
  {
    BalancedLeaf({GlobalsLock}, TotalCounter);
    BalancedLimits({GlobalsLock}, n);
    BalancedCountLocals({GlobalsLock}, cs);
    BalancedThree(GlobalsLock, Count(TotalCounter), CountLimits(n), CountLocals(cs));
  }

  lemma BalancedGetIp(h: set<Lock>, listen: bool)
    requires Below(h, 1)
    ensures Balanced(h, GetIp(listen))
  {
    BalancedNote(h);
    BalancedLeaf(h, IpListLock(listen));
    BalancedBoth(h, Section(IpListLock(listen), []), NOTE);
    BalancedBoth(h, NOTE, Section(IpListLock(listen), []) + NOTE);
  }

  lemma BalancedReadIpList(h: set<Lock>, good: bool)
    requires Below(h, 2)
    ensures Balanced(h, ReadIpList(good))
  {
    var l := IpListLock(false);
    var body := if good then NOTE else [];
    BalancedNote(h);
    BalancedNote(h + {l});
    BalancedSection(h, l, body);
    BalancedBoth(h, Section(l, body), NOTE);
    BalancedBoth(h, NOTE, Section(l, body) + NOTE);
  }

  lemma BalancedReload(h: set<Lock>, debug: bool, good: bool)
    requires Below(h, 2)
    ensures Balanced(h, [Reconfigure(debug)] + ReadIpList(good))
  {
    BalancedReadIpList(h, good);
    assert [Reconfigure(debug)][1..] == [];
    BalancedBoth(h, [Reconfigure(debug)], ReadIpList(good));
  }

  lemma BalancedRead(c: nat)
    ensures Balanced({}, Script(ReadUncounted(c))) && Balanced({}, Script(ReadCounted(c)))
  {
    var l := ReadWrite(c);
    var h := {} + {l};
    BalancedNote(h);
    BalancedCountAll(h, c);
    BalancedSection({}, l, NOTE);
    BalancedBoth(h, CountAll(c), NOTE);
    BalancedBoth(h, NOTE, CountAll(c) + NOTE);
    BalancedSection({}, l, NOTE + (CountAll(c) + NOTE));
  }

  lemma BalancedWrite(c: nat, n: Limits)
    ensures Balanced({}, Script(WriteCounted(c, n)))
  {
    var l := ReadWrite(c);
    var h := {} + {l};
    BalancedNote(h);
    BalancedCountAll(h, c);
    BalancedTrafficCheck(h, n);
    BalancedBoth(h, NOTE, TrafficCheck(n));
    BalancedBoth(h, CountAll(c), NOTE + TrafficCheck(n));
    BalancedBoth(h, NOTE, CountAll(c) + (NOTE + TrafficCheck(n)));
    BalancedSection({}, l, NOTE + (CountAll(c) + (NOTE + TrafficCheck(n))));
  }

  lemma BalancedStop(d: nat)
    ensures Balanced({}, Script(StopData(d)))
  {
    var none: set<Lock> := {};
    BalancedLeaf(none, Quit(d));
    BalancedNote(none);
    assert [Join(d)][1..] == [];
    assert Ends(none, [Join(d)]) == Some(none);
    EndsBoth(none, NOTE, [Join(d)]);
    EndsBoth(none, Section(Quit(d), []), NOTE + [Join(d)]);
  }

  lemma BalancedNewClient()
    ensures Balanced({}, Section(ListLock, GetIp(false) + NOTE))
  {
    var none: set<Lock> := {};
    assert none + {ListLock} == {ListLock};
    BalancedGetIp({ListLock}, false);
    BalancedNote({ListLock});
    BalancedBoth({ListLock}, GetIp(false), NOTE);
    BalancedSection(none, ListLock, GetIp(false) + NOTE);
  }

  lemma BalancedListenIp()
    ensures Balanced({}, Section(ListLock, GetIp(true)))
  {
    var none: set<Lock> := {};
    assert none + {ListLock} == {ListLock};
    BalancedGetIp({ListLock}, true);
    BalancedSection(none, ListLock, GetIp(true));
  }

  /** Every operation but the two early returns of `Write` keeps the discipline and gives everything back. */
  lemma ScriptsAreDisciplined(op: Op)
    requires !Leaks(op)
    ensures Balanced({}, Script(op))
  {
    var none: set<Lock> := {};
    match op {
      case StopData(d) => BalancedStop(d);
      case Talk => BalancedNote(none);
      case OpenSocket => BalancedLeaf(none, SockLock);
      case CloseSocket => BalancedClosing(none);
      case CheckTraffic(n) => BalancedTrafficCheck(none, n);
      case ReadUncounted(c) => BalancedRead(c);
      case ReadCounted(c) => BalancedRead(c);
      case WriteUncounted(c) => BalancedRead(c);
      case WriteCounted(c, n) => BalancedWrite(c, n);
      case SetDirection(c) => BalancedLeaf(none, Direction(c));
      case TestQuit(d) => BalancedLeaf(none, Quit(d));
      case ShowInfo(cs) => BalancedInfo(cs, Limits(true, true, true));
      case OwnTraffic(c) => BalancedLeaf(none, LocalCounter(c));
      case ReloadIps(conf) => BalancedReload(none, conf.debug, conf.good);
      case CountData(c) => BalancedCountAll(none, c);
      case ResetDay => BalancedLeaf(none, DayCounter);
      case ResetWeek => BalancedLeaf(none, WeekCounter);
      case ResetMonth => BalancedLeaf(none, MonthCounter);
      case LeaveList => BalancedSection(none, ListLock, []);
      case NewClient => BalancedNewClient();
      case NextListenIp => BalancedListenIp();
    }
  }

  lemma BalancedClosing(h: set<Lock>)
    requires Below(h, 1)
    ensures Balanced(h, Script(CloseSocket))
  {
    BalancedNote(h + {SockLock});
    BalancedSection(h, SockLock, NOTE);
  }

  // The signal handler

  /** Whether the handler asks for nothing that its thread holds already. */
  predicate SafeFor(h: set<Lock>, conf: Option<Conf>) {
    ConfigLock !in h && (conf.Some? ==> IpListLock(false) !in h)
  }

  lemma SafeIsBelow(h: set<Lock>)
    ensures Below(h, 3) <==> ConfigLock !in h
    ensures Below(h, 2) <==> ConfigLock !in h && IpListLock(false) !in h
  {
  }

  /** The handler keeps the discipline of the thread that it interrupts exactly when that thread does not
      hold the config lock nor, if there is an address list to be read, the lock of that list. */
  lemma HandlerIsDisciplinedExactly(h: set<Lock>, conf: Option<Conf>)
    ensures Balanced(h, Handler(conf)) <==> SafeFor(h, conf)
    ensures !SafeFor(h, conf) ==> Ends(h, Handler(conf)).None?
  {
    SafeIsBelow(h);
    if ConfigLock in h {
      assert Handler(conf)[0] == Message;
    } else {
      BalancedNote(h);
      match conf
      case None => BalancedBoth(h, NOTE, NOTE);
      case Some(c) => HandlerReads(h, c);
    }
  }

  lemma HandlerReads(h: set<Lock>, c: Conf)
    requires ConfigLock !in h
    ensures Ends(h, Handler(Some(c))) == if IpListLock(false) in h then None else Some(h)
  {
    var (re, body) := ([Reconfigure(c.debug)], if c.good then NOTE else []);
    SafeIsBelow(h);
    BalancedNote(h);
    assert re[1..] == [] && Balanced(h, re);
    EndsBoth(h, NOTE, re + (ReadIpList(c.good) + NOTE));
    EndsBoth(h, re, ReadIpList(c.good) + NOTE);
    if IpListLock(false) in h {
      var rest := Section(IpListLock(false), body) + NOTE;
      assert ReadIpList(c.good) + NOTE == NOTE + (rest + NOTE);
      EndsBoth(h, NOTE, rest + NOTE);
      assert (rest + NOTE)[0] == Acquire(IpListLock(false));
      assert !Below(h, Rank(IpListLock(false)));
    } else {
      BalancedReadIpList(h, c.good);
      BalancedBoth(h, ReadIpList(c.good), NOTE);
    }
  }

  // The invariant

  /** Joins are made by control threads on data threads only. */
  predicate JoinsData(kinds: seq<Kind>, t: nat, script: seq<Action>)
    requires t < |kinds|
  {
    forall i | 0 <= i < |script| :: script[i].Join? ==>
      kinds[t].ControlThread? && script[i].thread < |kinds| && kinds[script[i].thread].DataThread?
  }

  /** What the signal handler does: nothing but to say something, read and take its two locks. */
  predicate OfHandler(a: Action) {
    match a
    case Acquire(l) => l == IpListLock(false) || l == ConfigLock
    case Release(l) => l == IpListLock(false) || l == ConfigLock
    case Join(_) => false
    case _ => true
  }

  predicate HandlerOnly(handler: seq<Action>) {
    forall i | 0 <= i < |handler| :: OfHandler(handler[i])
  }

  /** A lock has an owner exactly when that thread, and no other, holds it. */
  ghost predicate Owned(s: System) {
    && (forall l | l in s.owner :: s.owner[l] < |s.threads| && l in s.threads[s.owner[l]].held)
    && (forall t, l | 0 <= t < |s.threads| && l in s.threads[t].held :: l in s.owner && s.owner[l] == t)
  }

  /** No two locks of the same rank. */
  ghost predicate Apart(h: set<Lock>) {
    forall k, l | k in h && l in h :: Rank(k) == Rank(l) ==> k == l
  }

  /** The thread keeps the discipline to the end, when at most locks of the lowest rank are left. */
  ghost predicate Disciplined(th: Thread) {
    && Ends(th.held, th.Rest()).Some?
    && Below(Ends(th.held, th.Rest()).value, 1)
    && Apart(th.held)
  }

  ghost function Kept(th: Thread): set<Lock>
    requires Disciplined(th)
  {
    Ends(th.held, th.Rest()).value
  }

  ghost predicate Sane(kinds: seq<Kind>, t: nat, th: Thread)
    requires t < |kinds|
  {
    && JoinsData(kinds, t, th.script)
    && HandlerOnly(th.handler)
    && (th.done ==> th.Rest() == [])
  }

  ghost predicate Base(s: System) {
    && |s.kinds| == |s.threads|
    && Owned(s)
    && (forall t | 0 <= t < |s.threads| :: Sane(s.kinds, t, s.threads[t]))
    && (forall t | 0 <= t < |s.threads| :: Disciplined(s.threads[t]))
  }

  /** Only a data thread may end with a lock in its hands, the read-write lock of its control thread. */
  ghost predicate KeepsLittle(kind: Kind, th: Thread)
    requires Disciplined(th)
  {
    Kept(th) == {} || (kind.DataThread? && Kept(th) == {ReadWrite(kind.owner)})
  }

  ghost predicate Inv(s: System) {
    Base(s) && forall t | 0 <= t < |s.threads| :: KeepsLittle(s.kinds[t], s.threads[t])
  }

  // Single steps

  lemma RestPast(th: Thread, front: seq<Action>)
    requires th.Rest() != []
    ensures th.Past(front).Rest() == front + th.Rest()[1..]
  {
  }

  lemma MessageEnds(h: set<Lock>, rest: seq<Action>)
    requires Below(h, 3)
    ensures Ends(h, [Acquire(ConfigLock), Release(ConfigLock)] + rest) == Ends(h, rest)
  {
    var section := [Acquire(ConfigLock), Release(ConfigLock)] + rest;
    assert section[1..] == [Release(ConfigLock)] + rest && section[1..][1..] == rest;
    assert (h + {ConfigLock}) - {ConfigLock} == h;
  }

  lemma ApartGrows(h: set<Lock>, l: Lock)
    requires Apart(h) && Below(h, Rank(l))
    ensures Apart(h + {l})
  {
  }

  /** A step ends where the thread was going to end. */
  lemma StepDisciplined(th: Thread, debug: bool)
    requires Disciplined(th) && th.Rest() != []
    ensures var a := th.Rest()[0];
      var th' := th.Past(Becomes(a, debug)).(held := HeldAfter(th.held, a));
      && Disciplined(th') && Kept(th') == Kept(th)
      && (a.Release? ==> a.lock in th.held)
      && (a.Acquire? ==> Below(th.held, Rank(a.lock)))
      && (a.Join? ==> th.held == {})
  {
    var a := th.Rest()[0];
    RestPast(th, Becomes(a, debug));
    if a.Message? && debug {
      MessageEnds(th.held, th.Rest()[1..]);
    } else {
      assert Becomes(a, debug) + th.Rest()[1..] == th.Rest()[1..];
    }
    if a.Acquire? {
      ApartGrows(th.held, a.lock);
    }
  }

  lemma StepSane(kinds: seq<Kind>, t: nat, th: Thread, debug: bool)
    requires t < |kinds| && Sane(kinds, t, th) && th.Rest() != []
    ensures Sane(kinds, t, th.Past(Becomes(th.Rest()[0], debug)).(held := HeldAfter(th.held, th.Rest()[0])))
  {
    var front := Becomes(th.Rest()[0], debug);
    var th' := th.Past(front);
    if th.handler != [] {
      forall i | 0 <= i < |th'.handler| ensures OfHandler(th'.handler[i]) {
        assert i >= |front| ==> th'.handler[i] == th.handler[i - |front| + 1];
      }
    } else {
      forall i | 0 <= i < |th'.script| && th'.script[i].Join?
        ensures kinds[t].ControlThread? && th'.script[i].thread < |kinds| && kinds[th'.script[i].thread].DataThread?
      {
        assert i >= |front| && th'.script[i] == th.script[i - |front| + 1];
      }
    }
  }

  lemma StepOwned(s: System, t: nat)
    requires Owned(s) && |s.kinds| == |s.threads| && Enabled(s, Advance(t))
    requires s.threads[t].Rest()[0].Release? ==> s.threads[t].Rest()[0].lock in s.threads[t].held
    ensures Owned(Advanced(s, t))
  {
    var s' := Advanced(s, t);
    var a := s.threads[t].Rest()[0];
    forall u, l | 0 <= u < |s'.threads| && l in s'.threads[u].held ensures l in s'.owner && s'.owner[l] == u {
      assert l in s.threads[u].held || a == Acquire(l);
      if a.Release? {
        assert s.owner[a.lock] == t;
      }
    }
  }

  lemma AdvanceKeepsBase(s: System, t: nat)
    requires Base(s) && Enabled(s, Advance(t))
    ensures var s' := Advanced(s, t);
      Base(s') && forall u | 0 <= u < |s.threads| :: Kept(s'.threads[u]) == Kept(s.threads[u])
  {
    StepDisciplined(s.threads[t], s.debug);
    StepSane(s.kinds, t, s.threads[t], s.debug);
    StepOwned(s, t);
  }

  lemma SpawnKeepsSane(s: System, kind: Kind, t: nat)
    requires Base(s) && t <= |s.threads|
    ensures var s' := Apply(s, Spawn(kind)); Sane(s'.kinds, t, s'.threads[t]) && Disciplined(s'.threads[t])
  {
    if t < |s.threads| {
      assert Sane(s.kinds, t, s.threads[t]);
      assert Apply(s, Spawn(kind)).threads[t] == s.threads[t];
    }
  }

  lemma SpawnKeepsBase(s: System, kind: Kind)
    requires Base(s)
    ensures Base(Apply(s, Spawn(kind)))
  {
    var s' := Apply(s, Spawn(kind));
    forall t | 0 <= t < |s'.threads| ensures Sane(s'.kinds, t, s'.threads[t]) && Disciplined(s'.threads[t]) {
      SpawnKeepsSane(s, kind, t);
    }
    assert Owned(s') by {
      assert forall t | 0 <= t < |s.threads| :: s'.threads[t] == s.threads[t];
      assert s'.threads[|s.threads|].held == {};
    }
  }

  lemma ExitKeepsBase(s: System, t: nat)
    requires Base(s) && Enabled(s, Exit(t))
    ensures var s' := Apply(s, Exit(t));
      Base(s') && forall u | 0 <= u < |s.threads| :: Kept(s'.threads[u]) == Kept(s.threads[u])
  {
    var s' := Apply(s, Exit(t));
    assert s'.threads[t].Rest() == s.threads[t].Rest();
    assert forall u | 0 <= u < |s.threads| && u != t :: s'.threads[u] == s.threads[u];
  }

  // What the two early returns of `Write` leave behind

  /** The locks that an operation started with empty hands still holds at its end. */
  function LeftHeld(op: Op): set<Lock> {
    match op
    case WriteSiteAddress(c) => {ReadWrite(c)}
    case WriteOverLimit(c, _) => {ReadWrite(c)}
    case _ => {}
  }

  /** Both early returns leave the read-write lock held, and no other operation leaves anything held. */
  lemma OnlyEarlyReturnsLeave(op: Op)
    ensures Ends({}, Script(op)) == Some(LeftHeld(op))
    ensures LeftHeld(op) == {} <==> !Leaks(op)
  {
    match op {
      case WriteSiteAddress(c) => TakesAndKeeps(c, NOTE);
      case WriteOverLimit(c, n) => OverLimitLeaves(c, n);
      case _ => ScriptsAreDisciplined(op);
    }
  }

  lemma TakesAndKeeps(c: nat, rest: Locking)
    requires Below({ReadWrite(c)}, 3) ==> Balanced({ReadWrite(c)}, rest)
    ensures Ends({}, [Acquire(ReadWrite(c))] + rest) == Some({ReadWrite(c)})
  {
    var script := [Acquire(ReadWrite(c))] + rest;
    assert {} + {ReadWrite(c)} == {ReadWrite(c)};
    assert script[1..] == rest;
  }

  lemma OverLimitLeaves(c: nat, n: Limits)
    ensures Ends({}, Script(WriteOverLimit(c, n))) == Some({ReadWrite(c)})
  {
    var h := {ReadWrite(c)};
    BalancedNote(h);
    BalancedCountAll(h, c);
    BalancedTrafficCheck(h, n);
    BalancedBoth(h, NOTE, TrafficCheck(n));
    BalancedBoth(h, CountAll(c), NOTE + TrafficCheck(n));
    BalancedBoth(h, NOTE, CountAll(c) + (NOTE + TrafficCheck(n)));
    TakesAndKeeps(c, NOTE + (CountAll(c) + (NOTE + TrafficCheck(n))));
  }

  // Every step but the two that close a circle

  /** An early return of `Write` in a control thread, or a signal whose handler asks its thread for a lock
      that it holds. */
  predicate Closes(s: System, m: Move)
    requires Enabled(s, m)
  {
    match m
    case Begin(t, op) => Leaks(op) && s.kinds[t].ControlThread?
    case Hup(t, conf) => !SafeFor(s.threads[t].held, conf)
    case _ => false
  }

  /** A run without such moves. */
  predicate Harmless(s: System, ms: seq<Move>)
    decreases |ms|
  {
    ms == [] || (Enabled(s, ms[0]) && !Closes(s, ms[0]) && Harmless(Apply(s, ms[0]), ms[1..]))
  }

  lemma ScriptJoins(kinds: seq<Kind>, t: nat, op: Op)
    requires t < |kinds| && MayRun(kinds, t, op)
    ensures JoinsData(kinds, t, Script(op))
  {
    forall i | 0 <= i < |Script(op)| && Script(op)[i].Join?
      ensures kinds[t].ControlThread? && Script(op)[i].thread < |kinds| && kinds[Script(op)[i].thread].DataThread?
    {
      assert Script(op)[i] in Script(op);
    }
  }

  lemma BeginDisciplined(s: System, t: nat, op: Op)
    requires Inv(s) && Enabled(s, Begin(t, op)) && !Closes(s, Begin(t, op))
    ensures var th := s.threads[t].(script := Script(op)); Disciplined(th) && KeepsLittle(s.kinds[t], th)
  {
    var th := s.threads[t];
    assert KeepsLittle(s.kinds[t], th) && Kept(th) == th.held;
    assert th.(script := Script(op)).Rest() == Script(op);
    if th.held == {} {
      OnlyEarlyReturnsLeave(op);
    } else if op.Talk? {
      BalancedNote(th.held);
    } else {
      BalancedClosing(th.held);
    }
  }

  lemma HandlerKeepsToItself(conf: Option<Conf>)
    ensures HandlerOnly(Handler(conf))
  {
  }

  lemma HupDisciplined(th: Thread, conf: Option<Conf>)
    requires Disciplined(th) && th.handler == [] && SafeFor(th.held, conf)
    ensures var th' := th.(handler := Handler(conf)); Disciplined(th') && Kept(th') == Kept(th)
  {
    HandlerIsDisciplinedExactly(th.held, conf);
    EndsBoth(th.held, Handler(conf), th.script);
    assert th.Rest() == th.script;
  }

  /** Another thing to do for a thread, with the same locks in its hands. */
  lemma LoadKeepsBase(s: System, t: nat, th: Thread)
    requires Base(s) && t < |s.threads| && th.held == s.threads[t].held
    requires Sane(s.kinds, t, th) && Disciplined(th)
    ensures Base(s.(threads := s.threads[t := th]))
  {
    var s' := s.(threads := s.threads[t := th]);
    assert forall u | 0 <= u < |s.threads| :: s'.threads[u].held == s.threads[u].held;
    assert Owned(s');
  }

  lemma LoadKeepsInv(s: System, t: nat, th: Thread)
    requires Inv(s) && t < |s.threads| && th.held == s.threads[t].held
    requires Sane(s.kinds, t, th) && Disciplined(th) && KeepsLittle(s.kinds[t], th)
    ensures Inv(s.(threads := s.threads[t := th]))
  {
    LoadKeepsBase(s, t, th);
  }

  lemma BeginKeepsInv(s: System, t: nat, op: Op)
    requires Inv(s) && Enabled(s, Begin(t, op)) && !Closes(s, Begin(t, op))
    ensures Inv(Apply(s, Begin(t, op)))
  {
    ScriptJoins(s.kinds, t, op);
    BeginDisciplined(s, t, op);
    LoadKeepsInv(s, t, s.threads[t].(script := Script(op)));
  }

  lemma HupKeepsInv(s: System, t: nat, conf: Option<Conf>)
    requires Inv(s) && Enabled(s, Hup(t, conf)) && !Closes(s, Hup(t, conf))
    ensures Inv(Apply(s, Hup(t, conf)))
  {
    assert Sane(s.kinds, t, s.threads[t]) && KeepsLittle(s.kinds[t], s.threads[t]);
    HandlerKeepsToItself(conf);
    HupDisciplined(s.threads[t], conf);
    LoadKeepsInv(s, t, s.threads[t].(handler := Handler(conf)));
  }

  lemma StepKeepsInv(s: System, m: Move)
    requires Inv(s) && Enabled(s, m) && !Closes(s, m)
    ensures Inv(Apply(s, m))
  {
    match m {
      case Begin(t, op) => BeginKeepsInv(s, t, op);
      case Hup(t, conf) => HupKeepsInv(s, t, conf);
      case Advance(t) => AdvanceKeepsBase(s, t);
      case Spawn(kind) => SpawnKeepsBase(s, kind);
      case Exit(t) => ExitKeepsBase(s, t);
    }
  }

  lemma {:induction false} RunKeepsInv(s: System, ms: seq<Move>)
    requires Inv(s) && Harmless(s, ms)
    ensures Runs(s, ms) && Inv(After(s, ms))
    decreases |ms|
  {
    if ms != [] {
      StepKeepsInv(s, ms[0]);
      RunKeepsInv(Apply(s, ms[0]), ms[1..]);
    }
  }

  // No circle

  /** The rank of the lock a thread is waiting for. */
  function Wanted(s: System, t: nat): nat {
    if t < |s.threads| && s.threads[t].Rest() != [] && s.threads[t].Rest()[0].Acquire?
    then Rank(s.threads[t].Rest()[0].lock) else 0
  }

  lemma JoinsNext(s: System, t: nat)
    requires |s.kinds| == |s.threads| && t < |s.threads| && Sane(s.kinds, t, s.threads[t])
    requires s.threads[t].Rest() != [] && s.threads[t].Rest()[0].Join?
    ensures s.kinds[t].ControlThread? && s.threads[t].Rest()[0].thread < |s.kinds| && s.kinds[s.threads[t].Rest()[0].thread].DataThread?
  {
    var handler := s.threads[t].handler;
    assert handler != [] ==> OfHandler(handler[0]);
  }

  /** A thread that another one waits for is not joining. */
  lemma AwaitedAcquires(s: System, t: nat, u: nat, v: nat)
    requires Inv(s) && WaitsFor(s, t, u) && WaitsFor(s, u, v)
    ensures s.threads[u].Rest()[0].Acquire?
    ensures s.threads[t].Rest()[0].Acquire? ==> Wanted(s, t) < Wanted(s, u)
  {
    StepDisciplined(s.threads[u], s.debug);
    if s.threads[u].Rest()[0].Join? {
      JoinsNext(s, u);
    }
    if s.threads[t].Rest()[0].Join? {
      JoinsNext(s, t);
    }
  }

  lemma CircleAcquires(s: System, ts: seq<nat>, i: nat)
    requires Inv(s) && Circle(s, ts) && i < |ts|
    ensures var next := ts[if i + 1 < |ts| then i + 1 else 0];
      Wanted(s, ts[i]) < Wanted(s, next)
  {
    var before := if i == 0 then |ts| - 1 else i - 1;
    var next := if i + 1 < |ts| then i + 1 else 0;
    var last := if next + 1 < |ts| then next + 1 else 0;
    assert WaitsFor(s, ts[before], ts[i]) && WaitsFor(s, ts[i], ts[next]) && WaitsFor(s, ts[next], ts[last]);
    AwaitedAcquires(s, ts[before], ts[i], ts[next]);
    AwaitedAcquires(s, ts[i], ts[next], ts[last]);
  }

  lemma {:induction false} RanksAlongCircle(s: System, ts: seq<nat>, i: nat)
    requires Inv(s) && Circle(s, ts) && i < |ts|
    ensures Wanted(s, ts[i]) >= Wanted(s, ts[0]) + i
  {
    if i > 0 {
      RanksAlongCircle(s, ts, i - 1);
      CircleAcquires(s, ts, i - 1);
    }
  }

  lemma NoCircleWhileInv(s: System, ts: seq<nat>)
    requires Inv(s) && |ts| > 0
    ensures !Circle(s, ts)
  {
    if Circle(s, ts) {
      var last := |ts| - 1;
      RanksAlongCircle(s, ts, last);
      CircleAcquires(s, ts, last);
    }
  }

  /** No circular wait is reachable in any interleaving, however often the program is signalled, without an
      early return of `Write` in a control thread and without a signal whose handler asks its thread for a
      lock that it holds. */
  lemma NoCircularWait(debug: bool, ms: seq<Move>, ts: seq<nat>)
    requires Harmless(Boot(debug), ms) && |ts| > 0
    ensures Runs(Boot(debug), ms) && !Circle(After(Boot(debug), ms), ts)
  {
    RunKeepsInv(Boot(debug), ms);
    NoCircleWhileInv(After(Boot(debug), ms), ts);
  }

  /** The connection list lock, the globals lock and the read-write locks are never held together, none of
      them is asked for with anything in hand, and a thread that joins holds nothing at all. */
  lemma LocksHeldApart(debug: bool, ms: seq<Move>, t: nat)
    requires Harmless(Boot(debug), ms)
    ensures Runs(Boot(debug), ms)
    ensures var s := After(Boot(debug), ms); t < |s.threads| ==>
      var held, rest := s.threads[t].held, s.threads[t].Rest();
      && (forall k, l | k in held && l in held && Rank(k) == 0 && Rank(l) == 0 :: k == l)
      && (rest != [] && rest[0].Acquire? && Rank(rest[0].lock) == 0 ==> held == {})
      && (rest != [] && rest[0].Join? ==> held == {})
  {
    RunKeepsInv(Boot(debug), ms);
    var s := After(Boot(debug), ms);
    if t < |s.threads| && s.threads[t].Rest() != [] {
      StepDisciplined(s.threads[t], s.debug);
    }
  }
}
