/** Waits that nothing ever ends: after a signal in the wrong moment, and after an early return of
    `Write`. */
module LockTraps {
  import opened Strings
  import opened Locks
  import opened LockProgress

  // What is never resolved

  /** A script that releases only what is held at that point, as far as it can get. */
  predicate ReleasesOwn(h: set<Lock>, script: seq<Action>)
    decreases |script|
  {
    script == [] ||
      match script[0]
      case Acquire(l) => l in h || ReleasesOwn(h + {l}, script[1..])
      case Release(l) => l in h && ReleasesOwn(h - {l}, script[1..])
      case _ => ReleasesOwn(h, script[1..])
  }

  lemma {:induction false} EndsReleaseOwn(h: set<Lock>, script: seq<Action>, more: set<Lock>)
    requires Ends(h, script).Some? && h <= more
    ensures ReleasesOwn(more, script)
    decreases |script|
  {
    if script != [] {
      EndsReleaseOwn(HeldAfter(h, script[0]), script[1..], HeldAfter(more, script[0]));
    }
  }

  lemma NotesReleaseNothing(h: set<Lock>, rest: seq<Action>)
    requires ReleasesOwn(h, rest)
    ensures ReleasesOwn(h, NOTE + rest)
  {
    assert (NOTE + rest)[1..] == rest;
  }

  lemma ReleaseOfOwn(h: set<Lock>, l: Lock, rest: seq<Action>)
    requires l !in h && ReleasesOwn(h, rest)
    ensures ReleasesOwn(h + {l}, [Release(l)] + rest)
  {
    assert ([Release(l)] + rest)[1..] == rest && (h + {l}) - {l} == h;
  }

  lemma SectionReleasesOwn(h: set<Lock>, l: Lock, noisy: bool, rest: seq<Action>)
    requires ReleasesOwn(h, rest)
    ensures ReleasesOwn(h, Section(l, if noisy then NOTE else []) + rest)
  {
    var end := [Release(l)] + rest;
    var inside := if noisy then NOTE + end else end;
    var section := Section(l, if noisy then NOTE else []) + rest;
    assert section == [Acquire(l)] + inside && section[1..] == inside;
    if l !in h {
      ReleaseOfOwn(h, l, rest);
      NotesReleaseNothing(h + {l}, end);
    }
  }

  lemma ReadingReleasesOwn(h: set<Lock>, good: bool, rest: seq<Action>)
    requires ReleasesOwn(h, rest)
    ensures ReleasesOwn(h, ReadingTail(good) + rest)
  {
    var l := IpListLock(false);
    NotesReleaseNothing(h, rest);
    NotesReleaseNothing(h, NOTE + rest);
    SectionReleasesOwn(h, l, good, NOTE + (NOTE + rest));
    assert ReadingTail(good) + rest == Section(l, if good then NOTE else []) + (NOTE + (NOTE + rest));
  }

  lemma HandlerReleasesOwn(h: set<Lock>, conf: Option<Conf>, rest: seq<Action>)
    requires ReleasesOwn(h, rest)
    ensures ReleasesOwn(h, Handler(conf) + rest)
  {
    match conf
    case None =>
      NotesReleaseNothing(h, rest);
      NotesReleaseNothing(h, NOTE + rest);
      assert NOTE + (NOTE + rest) == Handler(conf) + rest;
    case Some(c) =>
      var a := ReadingTail(c.good) + rest;
      var b := [Reconfigure(c.debug)] + (NOTE + a);
      ReadingReleasesOwn(h, c.good, rest);
      NotesReleaseNothing(h, a);
      assert b[1..] == NOTE + a;
      NotesReleaseNothing(h, b);
      assert NOTE + b == Handler(conf) + rest;
  }

  /** What holds in every run, whatever is done and whenever it is signalled. */
  ghost predicate WeakInv(s: System) {
    && |s.kinds| == |s.threads|
    && Owned(s)
    && (forall t | 0 <= t < |s.threads| :: ReleasesOwn(s.threads[t].held, s.threads[t].Rest()))
    && (forall t | 0 <= t < |s.threads| :: HandlerOnly(s.threads[t].handler))
  }

  lemma StepReleasesOwn(th: Thread, debug: bool)
    requires th.Rest() != [] && ReleasesOwn(th.held, th.Rest())
    requires th.Rest()[0].Acquire? ==> th.Rest()[0].lock !in th.held
    ensures var a := th.Rest()[0]; ReleasesOwn(HeldAfter(th.held, a), th.Past(Becomes(a, debug)).Rest())
  {
    var a := th.Rest()[0];
    var rest := th.Rest()[1..];
    RestPast(th, Becomes(a, debug));
    if a.Message? && debug {
      SectionReleasesOwn(th.held, ConfigLock, false, rest);
      assert Section(ConfigLock, []) == [Acquire(ConfigLock), Release(ConfigLock)];
    } else {
      assert Becomes(a, debug) + rest == rest;
    }
  }

  lemma StepHandlerOnly(th: Thread, debug: bool)
    requires th.Rest() != [] && HandlerOnly(th.handler)
    ensures HandlerOnly(th.Past(Becomes(th.Rest()[0], debug)).handler)
  {
    var front := Becomes(th.Rest()[0], debug);
    var th' := th.Past(front);
    if th.handler != [] {
      forall i | 0 <= i < |th'.handler| ensures OfHandler(th'.handler[i]) {
        assert i >= |front| ==> th'.handler[i] == th.handler[i - |front| + 1];
      }
    }
  }

  lemma WeakLoad(s: System, t: nat, th: Thread)
    requires WeakInv(s) && t < |s.threads| && th.held == s.threads[t].held
    requires ReleasesOwn(th.held, th.Rest()) && HandlerOnly(th.handler)
    ensures WeakInv(s.(threads := s.threads[t := th]))
  {
    var s' := s.(threads := s.threads[t := th]);
    assert forall u | 0 <= u < |s.threads| :: s'.threads[u].held == s.threads[u].held;
    assert Owned(s');
  }

  lemma WeakSpawn(s: System, kind: Kind)
    requires WeakInv(s)
    ensures WeakInv(Apply(s, Spawn(kind)))
  {
    var s' := Apply(s, Spawn(kind));
    assert forall t | 0 <= t < |s.threads| :: s'.threads[t] == s.threads[t];
    assert s'.threads[|s.threads|] == Thread([], [], {}, false);
    assert Owned(s');
  }

  lemma AnyStepKeepsWeakInv(s: System, m: Move)
    requires WeakInv(s) && Enabled(s, m)
    ensures WeakInv(Apply(s, m))
  {
    match m {
      case Begin(t, op) =>
        OnlyEarlyReturnsLeave(op);
        EndsReleaseOwn({}, Script(op), s.threads[t].held);
        assert s.threads[t].(script := Script(op)).Rest() == Script(op);
        WeakLoad(s, t, s.threads[t].(script := Script(op)));
      case Hup(t, conf) =>
        assert s.threads[t].Rest() == s.threads[t].script;
        HandlerReleasesOwn(s.threads[t].held, conf, s.threads[t].script);
        HandlerKeepsToItself(conf);
        WeakLoad(s, t, s.threads[t].(handler := Handler(conf)));
      case Advance(t) =>
        StepReleasesOwn(s.threads[t], s.debug);
        StepHandlerOnly(s.threads[t], s.debug);
        StepOwned(s, t);
      case Spawn(kind) => WeakSpawn(s, kind);
      case Exit(t) =>
        assert s.threads[t].(done := true).Rest() == s.threads[t].Rest();
        WeakLoad(s, t, s.threads[t].(done := true));
    }
  }

  lemma {:induction false} RunKeepsWeakInv(s: System, ms: seq<Move>)
    requires WeakInv(s) && Runs(s, ms)
    ensures WeakInv(After(s, ms))
    decreases |ms|
  {
    if ms != [] {
      AnyStepKeepsWeakInv(s, ms[0]);
      RunKeepsWeakInv(Apply(s, ms[0]), ms[1..]);
    }
  }

  /** Nobody gives back a lock of others. */
  lemma OwnerStays(s: System, m: Move, l: Lock, u: nat)
    requires WeakInv(s) && Enabled(s, m) && l in s.owner && s.owner[l] == u
    requires m == Advance(u) ==> s.threads[u].Rest()[0] != Release(l)
    ensures l in Apply(s, m).owner && Apply(s, m).owner[l] == u
  {
    if m.Advance? && s.threads[m.thread].Rest()[0].Release? {
      assert s.threads[m.thread].Rest()[0].lock in s.threads[m.thread].held;
    }
  }

  // Waiting for ever

  lemma RunsSnoc(s: System, ms: seq<Move>, m: Move)
    requires Runs(s, ms) && Enabled(After(s, ms), m)
    ensures Runs(s, ms + [m]) && After(s, ms + [m]) == Apply(After(s, ms), m)
  {
    RunsOnce(After(s, ms), m);
    RunsBoth(s, ms, [m]);
  }

  /** The thread is in the signal handler and asks for a lock that it holds. */
  predicate StuckInHandler(s: System, t: nat) {
    && t < |s.threads| && s.threads[t].handler != [] && s.threads[t].handler[0].Acquire?
    && s.threads[t].handler[0].lock in s.threads[t].held
  }

  /** It stays there whatever happens, and keeps everything that it holds. */
  lemma {:induction false} StuckForEver(s: System, t: nat, ms: seq<Move>)
    requires WeakInv(s) && StuckInHandler(s, t) && Runs(s, ms)
    ensures var s' := After(s, ms); t < |s'.threads| && s'.threads[t] == s.threads[t] && Circle(s', [t])
    ensures forall l | l in s.threads[t].held :: l in After(s, ms).owner && After(s, ms).owner[l] == t
    decreases |ms|
  {
    var a := s.threads[t].Rest()[0];
    assert a == s.threads[t].handler[0];
    if ms == [] {
      assert Circle(s, [t]);
    } else {
      AnyStepKeepsWeakInv(s, ms[0]);
      assert Apply(s, ms[0]).threads[t] == s.threads[t];
      StuckForEver(Apply(s, ms[0]), t, ms[1..]);
    }
  }

  lemma HandlerStepQuietly(s: System, ms: seq<Move>, t: nat, rest: seq<Action>) returns (more: seq<Move>)
    requires Runs(s, ms) && var s' := After(s, ms);
      |s'.kinds| == |s'.threads| && t < |s'.threads| && !s'.debug && s'.threads[t].handler != [] && s'.threads[t].handler[1..] == rest
      && s'.threads[t].handler[0] in {Message, Reconfigure(false)}
    ensures Runs(s, more)
    ensures var s', s'' := After(s, ms), After(s, more);
      && |s''.kinds| == |s''.threads| == |s'.threads| && !s''.debug && s''.threads[t] == s'.threads[t].(handler := rest)
  {
    var th := After(s, ms).threads[t];
    assert th.Rest()[0] == th.handler[0];
    RunsSnoc(s, ms, Advance(t));
    more := ms + [Advance(t)];
  }

  /** With debugging off, and left off, the handler gets as far as the lock of the address list. */
  lemma SignalledInside(s: System, ms: seq<Move>, t: nat, good: bool) returns (more: seq<Move>)
    requires Runs(s, ms) && var s' := After(s, ms);
      |s'.kinds| == |s'.threads| && t < |s'.threads| && !s'.debug && !s'.threads[t].done && s'.threads[t].handler == []
      && IpListLock(false) in s'.threads[t].held
    ensures Runs(s, more) && t < |After(s, more).threads| && StuckInHandler(After(s, more), t)
    ensures After(s, more).threads[t].held == After(s, ms).threads[t].held
  {
    var conf := Some(Conf(false, good));
    var tail := ReadingTail(good);
    assert Handler(conf) == [Message] + ([Reconfigure(false)] + ([Message] + tail));
    RunsSnoc(s, ms, Hup(t, conf));
    more := HandlerStepQuietly(s, ms + [Hup(t, conf)], t, [Reconfigure(false)] + ([Message] + tail));
    more := HandlerStepQuietly(s, more, t, [Message] + tail);
    more := HandlerStepQuietly(s, more, t, tail);
    assert tail[0] == Acquire(IpListLock(false));
  }

  /** The main thread, about to take the next site address, is signalled in `getip`: from then on it holds
      the connection list lock, so that no session begins or ends any more. */
  lemma SignalBlocksMain(good: bool) returns (ms: seq<Move>)
    ensures Runs(Boot(false), ms) && StuckInHandler(After(Boot(false), ms), 0)
    ensures forall more :: Runs(After(Boot(false), ms), more) ==>
      var s := After(After(Boot(false), ms), more); ListLock in s.owner && s.owner[ListLock] == 0 && Circle(s, [0])
  {
    var start := MainTakesAddress();
    ms := SignalledInside(Boot(false), start, 0, good);
    var s := After(Boot(false), ms);
    RunKeepsWeakInv(Boot(false), ms);
    forall more | Runs(s, more) ensures var s' := After(s, more); ListLock in s'.owner && s'.owner[ListLock] == 0 && Circle(s', [0]) {
      StuckForEver(s, 0, more);
    }
  }

  /** The state after a thread that is in no handler has taken a lock, or said something, or given a lock back. */
  function ScriptStepped(s: System, t: nat, a: Action, rest: seq<Action>): System
    requires t < |s.threads|
  {
    var th := s.threads[t];
    s.(threads := s.threads[t := th.(script := rest, held := HeldAfter(th.held, a))], owner := OwnerAfter(s.owner, t, a))
  }

  lemma ScriptStep(s: System, ms: seq<Move>, t: nat, a: Action, rest: seq<Action>) returns (more: seq<Move>)
    requires Runs(s, ms) && var s' := After(s, ms);
      |s'.kinds| == |s'.threads| && t < |s'.threads| && !s'.debug && s'.threads[t].handler == [] && s'.threads[t].script == [a] + rest
      && (a.Message? || a.Release? || (a.Acquire? && a.lock !in s'.owner))
    ensures Runs(s, more) && After(s, more) == ScriptStepped(After(s, ms), t, a, rest)
    ensures Harmless(s, ms) ==> Harmless(s, more)
  {
    var s' := After(s, ms);
    var th := s'.threads[t];
    assert th.Rest() == [a] + rest && th.script[1..] == rest;
    assert Becomes(a, s'.debug) == [] && [] + rest == rest;
    assert th.Past([]).script == rest;
    RunsSnoc(s, ms, Advance(t));
    more := ms + [Advance(t)];
    if Harmless(s, ms) {
      HarmlessOnce(s', Advance(t));
      HarmlessBoth(s, ms, [Advance(t)]);
    }
  }

  lemma MainTakesAddress() returns (ms: seq<Move>)
    ensures Runs(Boot(false), ms)
    ensures var s := After(Boot(false), ms);
      && |s.threads| == 1 == |s.kinds| && !s.debug && !s.threads[0].done && s.threads[0].handler == []
      && s.threads[0].held == {ListLock, IpListLock(false)}
  {
    var s0 := Boot(false);
    var rest := Script(NewClient)[3..];
    assert Script(NewClient) == [Acquire(ListLock)] + ([Message] + ([Acquire(IpListLock(false))] + rest));
    RunsOnce(s0, Spawn(MainThread));
    RunsSnoc(s0, [Spawn(MainThread)], Begin(0, NewClient));
    ms := [Spawn(MainThread)] + [Begin(0, NewClient)];
    ms := ScriptStep(s0, ms, 0, Acquire(ListLock), [Message] + ([Acquire(IpListLock(false))] + rest));
    ms := ScriptStep(s0, ms, 0, Message, [Acquire(IpListLock(false))] + rest);
    ms := ScriptStep(s0, ms, 0, Acquire(IpListLock(false)), rest);
  }

  // What an early return of `Write` blocks

  /** The thread `c` joins the data thread `d`, which wants the lock that `c` holds; either may be in the
      signal handler just now. */
  predicate BlockedJoin(s: System, c: nat, d: nat) {
    && c < |s.threads| && d < |s.threads|
    && s.threads[c].script != [] && s.threads[c].script[0] == Join(d)
    && !s.threads[d].done && s.threads[d].script != [] && s.threads[d].script[0] == Acquire(ReadWrite(c))
    && ReadWrite(c) in s.owner && s.owner[ReadWrite(c)] == c
  }

  lemma HandlerReleases(th: Thread, l: Lock)
    requires HandlerOnly(th.handler) && th.script != [] && !th.script[0].Release? && l.ReadWrite?
    ensures th.Rest() != [] && th.Rest()[0] != Release(l)
  {
    assert th.handler != [] ==> OfHandler(th.handler[0]);
  }

  lemma StepKeepsBlockedJoin(s: System, c: nat, d: nat, m: Move)
    requires WeakInv(s) && BlockedJoin(s, c, d) && Enabled(s, m)
    ensures BlockedJoin(Apply(s, m), c, d)
  {
    HandlerReleases(s.threads[c], ReadWrite(c));
    OwnerStays(s, m, ReadWrite(c), c);
  }

  /** A blocked join is a circular wait, and no run ever resolves it. */
  lemma {:induction false} BlockedForEver(s: System, c: nat, d: nat, ms: seq<Move>)
    requires WeakInv(s) && BlockedJoin(s, c, d) && Runs(s, ms)
    ensures var s' := After(s, ms);
      BlockedJoin(s', c, d) && (s'.threads[c].handler == [] && s'.threads[d].handler == [] ==> Circle(s', [c, d]))
    decreases |ms|
  {
    if ms != [] {
      AnyStepKeepsWeakInv(s, ms[0]);
      StepKeepsBlockedJoin(s, c, d, ms[0]);
      BlockedForEver(Apply(s, ms[0]), c, d, ms[1..]);
    }
  }

  /** A session whose lock is held stops its data thread. */
  lemma StopsData(s: System, ms: seq<Move>) returns (more: seq<Move>)
    requires Runs(s, ms) && var s' := After(s, ms);
      && s'.kinds == [ControlThread, DataThread(0)] && |s'.threads| == 2 && !s'.debug && s'.owner == map[ReadWrite(0) := 0]
      && s'.threads[0] == Thread([], [], {ReadWrite(0)}, false)
    ensures Runs(s, more)
    ensures var s', s'' := After(s, ms), After(s, more);
      && s''.kinds == s'.kinds && s''.threads == [Thread([Join(1)], [], {ReadWrite(0)}, false), s'.threads[1]]
      && s''.owner == s'.owner && !s''.debug
  {
    var begin := Begin(0, StopData(1));
    var rest := [Release(Quit(1))] + ([Message] + [Join(1)]);
    assert Script(StopData(1)) == [Acquire(Quit(1))] + rest;
    RunsSnoc(s, ms, begin);
    more := ScriptStep(s, ms + [begin], 0, Acquire(Quit(1)), rest);
    more := ScriptStep(s, more, 0, Release(Quit(1)), [Message] + [Join(1)]);
    assert ({ReadWrite(0)} + {Quit(1)}) - {Quit(1)} == {ReadWrite(0)};
    assert map[ReadWrite(0) := 0][Quit(1) := 0] - {Quit(1)} == map[ReadWrite(0) := 0];
    more := ScriptStep(s, more, 0, Message, [Join(1)]);
  }

  /** The early return for the site address really leads there: a run from the start of the program
      ends in a join that stays blocked whatever happens next. */
  lemma EarlyReturnBlocksJoin() returns (ms: seq<Move>, c: nat, d: nat)
    ensures Runs(Boot(false), ms) && BlockedJoin(After(Boot(false), ms), c, d)
    ensures forall more :: Runs(After(Boot(false), ms), more) ==> BlockedJoin(After(After(Boot(false), ms), more), c, d)
  {
    c, d := 0, 1;
    var s0 := Boot(false);
    ms := SessionReturnsEarly(0);
    ms := StopsData(s0, ms);
    RunsSnoc(s0, ms, Begin(1, WriteUncounted(0)));
    ms := ms + [Begin(1, WriteUncounted(0))];
    var s := After(s0, ms);
    assert s.threads[1].script[0] == Acquire(ReadWrite(0));
    RunKeepsWeakInv(s0, ms);
    forall more | Runs(s, more) ensures BlockedJoin(After(s, more), c, d) {
      BlockedForEver(s, c, d, more);
    }
  }

  /** A session with a data thread, one of which has come back from a `Write` that returned early. */
  lemma SessionReturnsEarly(t: nat) returns (ms: seq<Move>)
    requires t <= 1
    ensures Runs(Boot(false), ms) && (t == 1 ==> Harmless(Boot(false), ms))
    ensures var s := After(Boot(false), ms);
      && s.kinds == [ControlThread, DataThread(0)] && |s.threads| == 2 && !s.debug && s.owner == map[ReadWrite(0) := t]
      && s.threads[t] == Thread([], [], {ReadWrite(0)}, false) && s.threads[1 - t] == Thread([], [], {}, false)
  {
    var s0 := Boot(false);
    ms := SessionOpens();
    var s2 := After(s0, ms);
    var begin := Begin(t, WriteSiteAddress(0));
    assert Script(WriteSiteAddress(0)) == [Acquire(ReadWrite(0))] + NOTE;
    if t == 1 {
      HarmlessOnce(s2, begin);
      HarmlessBoth(s0, ms, [begin]);
    }
    RunsSnoc(s0, ms, begin);
    ms := ms + [begin];
    ms := ScriptStep(s0, ms, t, Acquire(ReadWrite(0)), NOTE);
    assert NOTE == [Message] + [];
    ms := ScriptStep(s0, ms, t, Message, []);
  }

  lemma SessionOpens() returns (ms: seq<Move>)
    ensures Runs(Boot(false), ms) && Harmless(Boot(false), ms)
    ensures After(Boot(false), ms) == System([ControlThread, DataThread(0)], [Thread([], [], {}, false), Thread([], [], {}, false)], map[], false)
  {
    var s0 := Boot(false);
    var (a, b) := (Spawn(ControlThread), Spawn(DataThread(0)));
    RunsOnce(s0, a);
    RunsSnoc(s0, [a], b);
    HarmlessOnce(s0, a);
    HarmlessOnce(Apply(s0, a), b);
    HarmlessBoth(s0, [a], [b]);
    ms := [a] + [b];
  }

  /** The control thread `c` wants its lock, and its data thread `d` has kept it. */
  predicate BlockedSession(s: System, c: nat, d: nat) {
    && |s.kinds| == |s.threads| && c < |s.threads| && d < |s.threads| && c != d && s.kinds[d].DataThread?
    && ReadWrite(c) in s.owner && s.owner[ReadWrite(c)] == d && Release(ReadWrite(c)) !in s.threads[d].script
    && s.threads[c].script != [] && s.threads[c].script[0] == Acquire(ReadWrite(c))
  }

  lemma KeepsIt(s: System, c: nat, d: nat, m: Move)
    requires WeakInv(s) && BlockedSession(s, c, d) && Enabled(s, m)
    ensures Release(ReadWrite(c)) !in Apply(s, m).threads[d].script
    ensures m == Advance(d) ==> s.threads[d].Rest()[0] != Release(ReadWrite(c))
  {
    var th := s.threads[d];
    assert ReadWrite(c) in th.held;
    assert th.handler != [] ==> OfHandler(th.handler[0]);
    if m == Advance(d) && th.handler == [] {
      assert th.Rest()[0] == th.script[0] && th.script[0] in th.script;
    }
  }

  lemma StepKeepsBlockedSession(s: System, c: nat, d: nat, m: Move)
    requires WeakInv(s) && BlockedSession(s, c, d) && Enabled(s, m)
    ensures BlockedSession(Apply(s, m), c, d)
  {
    KeepsIt(s, c, d, m);
    OwnerStays(s, m, ReadWrite(c), d);
  }

  lemma {:induction false} BlockedSessionForEver(s: System, c: nat, d: nat, ms: seq<Move>)
    requires WeakInv(s) && BlockedSession(s, c, d) && Runs(s, ms)
    ensures BlockedSession(After(s, ms), c, d)
    decreases |ms|
  {
    if ms != [] {
      AnyStepKeepsWeakInv(s, ms[0]);
      StepKeepsBlockedSession(s, c, d, ms[0]);
      BlockedSessionForEver(Apply(s, ms[0]), c, d, ms[1..]);
    }
  }

  /** An early return in a data thread closes no circle, not even together with others, but it blocks its
      session: in this harmless run the control thread waits for its own lock for ever. */
  lemma EarlyReturnBlocksSession() returns (ms: seq<Move>)
    ensures Harmless(Boot(false), ms) && Runs(Boot(false), ms) && BlockedSession(After(Boot(false), ms), 0, 1)
    ensures forall more :: Runs(After(Boot(false), ms), more) ==> BlockedSession(After(After(Boot(false), ms), more), 0, 1)
  {
    var s0 := Boot(false);
    var read := Begin(0, ReadUncounted(0));
    ms := SessionReturnsEarly(1);
    HarmlessOnce(After(s0, ms), read);
    HarmlessBoth(s0, ms, [read]);
    RunsSnoc(s0, ms, read);
    ms := ms + [read];
    var s := After(s0, ms);
    assert s.threads[0].script[0] == Acquire(ReadWrite(0));
    RunKeepsWeakInv(s0, ms);
    forall more | Runs(s, more) ensures BlockedSession(After(s, more), 0, 1) {
      BlockedSessionForEver(s, 0, 1, more);
    }
  }
}
