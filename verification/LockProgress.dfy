/** Every thread gets on, and when exactly threads can come to wait for each other. */
module LockProgress {
  import opened Strings
  import opened Locks

  // Everybody gets on

  /** Moves that begin nothing: the threads only go on with what they are at. */
  predicate Quiet(ms: seq<Move>) {
    forall m | m in ms :: m.Advance? || m.Exit?
  }

  lemma {:induction false} RunsBoth(s: System, a: seq<Move>, b: seq<Move>)
    requires Runs(s, a) && Runs(After(s, a), b)
    ensures Runs(s, a + b) && After(s, a + b) == After(After(s, a), b)
    decreases |a|
  {
    if a == [] {
      assert a + b == b;
    } else {
      assert (a + b)[1..] == a[1..] + b;
      RunsBoth(Apply(s, a[0]), a[1..], b);
    }
  }

  lemma RunsOnce(s: System, m: Move)
    requires Enabled(s, m)
    ensures Runs(s, [m]) && After(s, [m]) == Apply(s, m)
  {
    assert [m][1..] == [];
    assert Runs(Apply(s, m), []) && After(Apply(s, m), []) == Apply(s, m);
  }

  lemma {:induction false} QuietIsHarmless(s: System, ms: seq<Move>)
    requires Runs(s, ms) && Quiet(ms)
    ensures Harmless(s, ms)
    decreases |ms|
  {
    if ms != [] {
      assert ms[0] in ms && forall m | m in ms[1..] :: m in ms;
      QuietIsHarmless(Apply(s, ms[0]), ms[1..]);
    }
  }

  /** A bound on the steps of a script; a message may take two. */
  function Weight(script: seq<Action>): nat {
    if script == [] then 0 else (if script[0].Message? then 3 else 1) + Weight(script[1..])
  }

  lemma {:induction false} WeightBoth(a: seq<Action>, b: seq<Action>)
    ensures Weight(a + b) == Weight(a) + Weight(b)
    decreases |a|
  {
    if a == [] {
      assert a + b == b;
    } else {
      assert (a + b)[1..] == a[1..] + b;
      WeightBoth(a[1..], b);
    }
  }

  lemma StepIsLighter(th: Thread, debug: bool)
    requires th.Rest() != []
    ensures Weight(th.Past(Becomes(th.Rest()[0], debug)).Rest()) < Weight(th.Rest())
  {
    var front := Becomes(th.Rest()[0], debug);
    RestPast(th, front);
    WeightBoth(front, th.Rest()[1..]);
    assert front != [] ==> front[1..] == [Release(ConfigLock)] && front[1..][1..] == [];
  }

  /** What other threads come to while some thread is helped: the same threads, ending as they were going
      to end; and those that hold only locks below `rank` have made no step. */
  ghost predicate Follows(s: System, s': System, rank: nat) {
    && Base(s) && Base(s') && s'.kinds == s.kinds
    && (forall w | 0 <= w < |s.threads| :: Kept(s'.threads[w]) == Kept(s.threads[w]) && s'.threads[w].done == s.threads[w].done)
    && (forall w | 0 <= w < |s.threads| && Below(s.threads[w].held, rank) :: s'.threads[w] == s.threads[w])
  }

  lemma FollowsOn(s: System, s1: System, s2: System, rank1: nat, rank: nat)
    requires Follows(s, s1, rank1) && Follows(s1, s2, rank) && rank <= rank1
    ensures Follows(s, s2, rank)
  {
    forall w | 0 <= w < |s.threads| && Below(s.threads[w].held, rank) ensures s2.threads[w] == s.threads[w] {
      assert Below(s.threads[w].held, rank1);
      assert s1.threads[w] == s.threads[w];
    }
  }

  lemma AdvanceFollows(s: System, u: nat, l: Lock)
    requires Base(s) && Enabled(s, Advance(u)) && l in s.threads[u].held
    ensures Follows(s, Advanced(s, u), Rank(l))
  {
    AdvanceKeepsBase(s, u);
  }

  /** After some help a thread that holds `l` makes its step. */
  lemma StepAfterHelp(s: System, ms: seq<Move>, help: nat, u: nat, l: Lock)
    requires Base(s) && Runs(s, ms) && Quiet(ms) && Follows(s, After(s, ms), help) && Rank(l) <= help
    requires u < |s.threads| && l in s.threads[u].held && s.threads[u].Rest() != []
    requires After(s, ms).threads[u] == s.threads[u] && Enabled(After(s, ms), Advance(u))
    ensures var more := ms + [Advance(u)];
      && Runs(s, more) && Quiet(more) && Follows(s, After(s, more), Rank(l))
      && After(s, more) == Advanced(After(s, ms), u)
      && Weight(After(s, more).threads[u].Rest()) < Weight(s.threads[u].Rest())
  {
    var s0 := After(s, ms);
    StepIsLighter(s.threads[u], s0.debug);
    AdvanceFollows(s0, u, l);
    FollowsOn(s, s0, Advanced(s0, u), help, Rank(l));
    RunsOnce(s0, Advance(u));
    RunsBoth(s, ms, [Advance(u)]);
  }

  lemma NoHelp(s: System, rank: nat)
    requires Base(s)
    ensures Runs(s, []) && After(s, []) == s && Quiet([]) && Follows(s, s, rank)
  {
  }

  /** A lock that its owner is going to give back can be waited for: the owner gets there, after helping
      the owner of the next lock in the same way if need be. */
  lemma {:induction false} FreeLock(s: System, l: Lock) returns (ms: seq<Move>)
    requires Base(s) && l in s.owner && l !in Kept(s.threads[s.owner[l]])
    ensures Runs(s, ms) && Quiet(ms)
    ensures Follows(s, After(s, ms), Rank(l)) && l !in After(s, ms).owner
    decreases 3 - Rank(l), Weight(s.threads[s.owner[l]].Rest())
  {
    var u := s.owner[l];
    var th := s.threads[u];
    assert l in th.held && th.Rest() != [];
    StepDisciplined(th, s.debug);
    var a := th.Rest()[0];
    var help := Rank(l);
    ms := [];
    NoHelp(s, help);
    if a.Acquire? && a.lock in s.owner {
      help := Rank(a.lock);
      ms := FreeLock(s, a.lock);
    }
    StepAfterHelp(s, ms, help, u, l);
    ms := ms + [Advance(u)];
    var s1 := After(s, ms);
    if l in s1.owner {
      var rest := FreeLock(s1, l);
      FollowsOn(s, s1, After(s1, rest), Rank(l), Rank(l));
      RunsBoth(s, ms, rest);
      ms := ms + rest;
    }
  }

  /** Everybody but thread `t` is going to give back what it holds. */
  ghost predicate OthersClean(s: System, t: nat)
    requires Base(s)
  {
    forall w | 0 <= w < |s.threads| && w != t :: Kept(s.threads[w]) == {}
  }

  /** What became of the threads while `t` went on. */
  ghost predicate Helped(s: System, s': System, t: nat) {
    && Base(s) && Base(s') && s'.kinds == s.kinds
    && (forall w | 0 <= w < |s.threads| :: Kept(s'.threads[w]) == Kept(s.threads[w]) && s'.threads[w].done == s.threads[w].done)
    && (forall w | 0 <= w < |s.threads| && w != t && s.threads[w].held == {} :: s'.threads[w] == s.threads[w])
  }

  lemma FollowsHelps(s: System, s': System, rank: nat, t: nat)
    requires Follows(s, s', rank)
    ensures Helped(s, s', t)
  {
    forall w | 0 <= w < |s.threads| && s.threads[w].held == {} ensures s'.threads[w] == s.threads[w] {
      assert Below(s.threads[w].held, rank);
    }
  }

  lemma AdvanceHelps(s: System, t: nat)
    requires Base(s) && Enabled(s, Advance(t))
    ensures Helped(s, Advanced(s, t), t)
  {
    AdvanceKeepsBase(s, t);
  }

  /** A thread that is not joining gets to its next step. */
  lemma GetToStep(s: System, t: nat) returns (ms: seq<Move>)
    requires Base(s) && t < |s.threads| && OthersClean(s, t)
    requires s.threads[t].Rest() != [] && !s.threads[t].Rest()[0].Join?
    ensures Runs(s, ms) && Quiet(ms) && Helped(s, After(s, ms), t)
    ensures After(s, ms).threads[t] == s.threads[t] && Enabled(After(s, ms), Advance(t))
  {
    var a := s.threads[t].Rest()[0];
    StepDisciplined(s.threads[t], s.debug);
    ms := [];
    if a.Acquire? && a.lock in s.owner {
      assert s.owner[a.lock] != t;
      ms := FreeLock(s, a.lock);
      FollowsHelps(s, After(s, ms), Rank(a.lock), t);
    } else {
      NoHelp(s, 0);
    }
  }

  predicate Joinless(script: seq<Action>) {
    forall i | 0 <= i < |script| :: !script[i].Join?
  }

  lemma StepJoinless(th: Thread, debug: bool)
    requires th.Rest() != [] && Joinless(th.Rest())
    ensures Joinless(th.Past(Becomes(th.Rest()[0], debug)).Rest())
  {
    var front := Becomes(th.Rest()[0], debug);
    RestPast(th, front);
    var rest := th.Past(front).Rest();
    forall i | 0 <= i < |rest| ensures !rest[i].Join? {
      assert i >= |front| ==> rest[i] == th.Rest()[i - |front| + 1];
    }
  }

  /** A thread that joins nobody gets to the end of what it is at. */
  lemma {:induction false} GetToEnd(s: System, t: nat) returns (ms: seq<Move>)
    requires Base(s) && t < |s.threads| && OthersClean(s, t) && Joinless(s.threads[t].Rest())
    ensures Runs(s, ms) && Quiet(ms) && Helped(s, After(s, ms), t) && After(s, ms).threads[t].Rest() == []
    decreases Weight(s.threads[t].Rest())
  {
    ms := [];
    if s.threads[t].Rest() != [] {
      ms := GetToStep(s, t);
      var s0 := After(s, ms);
      RunsOnce(s0, Advance(t));
      RunsBoth(s, ms, [Advance(t)]);
      AdvanceHelps(s0, t);
      StepIsLighter(s.threads[t], s0.debug);
      StepJoinless(s.threads[t], s0.debug);
      var rest := GetToEnd(Advanced(s0, t), t);
      RunsBoth(s, ms + [Advance(t)], rest);
      ms := ms + [Advance(t)] + rest;
    }
  }

  /** Nobody in the run calls `Write` so that it returns early, nor is signalled in the wrong moment. */
  predicate Careful(s: System, ms: seq<Move>)
    decreases |ms|
  {
    ms == [] || (Enabled(s, ms[0]) && !Closes(s, ms[0]) && (ms[0].Begin? ==> !Leaks(ms[0].op)) && Careful(Apply(s, ms[0]), ms[1..]))
  }

  /** Everybody is going to give back everything. */
  ghost predicate Clean(s: System) {
    Base(s) && forall t | 0 <= t < |s.threads| :: Kept(s.threads[t]) == {}
  }

  lemma StepKeepsClean(s: System, m: Move)
    requires Clean(s) && Enabled(s, m) && !Closes(s, m) && (m.Begin? ==> !Leaks(m.op))
    ensures Clean(Apply(s, m))
  {
    StepKeepsInv(s, m);
    match m {
      case Begin(t, op) =>
        assert s.threads[t].held == Kept(s.threads[t]);
        assert s.threads[t].(script := Script(op)).Rest() == Script(op);
        ScriptsAreDisciplined(op);
      case Hup(t, conf) => HupDisciplined(s.threads[t], conf);
      case Advance(t) => AdvanceKeepsBase(s, t);
      case Spawn(kind) =>
      case Exit(t) => ExitKeepsBase(s, t);
    }
  }

  lemma {:induction false} RunKeepsClean(s: System, ms: seq<Move>)
    requires Clean(s) && Careful(s, ms)
    ensures Runs(s, ms) && Clean(After(s, ms))
    decreases |ms|
  {
    if ms != [] {
      StepKeepsClean(s, ms[0]);
      RunKeepsClean(Apply(s, ms[0]), ms[1..]);
    }
  }

  lemma JoinedEnds(s: System, t: nat, d: nat) returns (ms: seq<Move>)
    requires Clean(s) && t < |s.threads| && s.threads[t].Rest() != [] && s.threads[t].Rest()[0] == Join(d)
    ensures Runs(s, ms) && Quiet(ms)
    ensures t < |After(s, ms).threads| && After(s, ms).threads[t] == s.threads[t] && Enabled(After(s, ms), Advance(t))
  {
    JoinsNext(s, t);
    StepDisciplined(s.threads[t], s.debug);
    ms := [];
    if !s.threads[d].done {
      var th := s.threads[d];
      assert Sane(s.kinds, d, th) && s.kinds[d].DataThread?;
      assert Joinless(th.Rest());
      ms := GetToEnd(s, d);
      var s0 := After(s, ms);
      assert s0.threads[t] == s.threads[t];
      RunsOnce(s0, Exit(d));
      RunsBoth(s, ms, [Exit(d)]);
      ms := ms + [Exit(d)];
    }
  }

  /** In every state that careful runs reach, every thread in the middle of something can make its next step,
      if the others only go on with what they are at. */
  lemma EverybodyGetsOn(debug: bool, ms: seq<Move>, t: nat) returns (more: seq<Move>)
    requires Careful(Boot(debug), ms)
    ensures Runs(Boot(debug), ms)
    ensures var s := After(Boot(debug), ms);
      t < |s.threads| && s.threads[t].Rest() != [] ==>
        && Runs(s, more) && Quiet(more)
        && t < |After(s, more).threads| && After(s, more).threads[t] == s.threads[t] && Enabled(After(s, more), Advance(t))
  {
    RunKeepsClean(Boot(debug), ms);
    var s := After(Boot(debug), ms);
    more := [];
    if t < |s.threads| && s.threads[t].Rest() != [] {
      var a := s.threads[t].Rest()[0];
      if a.Join? {
        more := JoinedEnds(s, t, a.thread);
      } else {
        more := GetToStep(s, t);
      }
    }
  }

  /** In particular somebody can always take the next step or finish. */
  lemma NeverStuck(debug: bool, ms: seq<Move>, t: nat) returns (m: Move)
    requires Careful(Boot(debug), ms)
    ensures Runs(Boot(debug), ms)
    ensures var s := After(Boot(debug), ms);
      t < |s.threads| && s.threads[t].Rest() != [] ==> Enabled(s, m) && (m.Advance? || m.Exit?)
  {
    var more := EverybodyGetsOn(debug, ms, t);
    m := if more == [] then Advance(t) else more[0];
    assert more != [] ==> more[0] in more;
  }

  // When a circle can be closed

  /** Some harmless run leads to a circle. */
  ghost predicate CanClose(s: System) {
    exists more: seq<Move>, ts: seq<nat> :: Harmless(s, more) && Runs(s, more) && ts != [] && Circle(After(s, more), ts)
  }

  lemma {:induction false} HarmlessBoth(s: System, a: seq<Move>, b: seq<Move>)
    requires Harmless(s, a) && Runs(s, a) && Harmless(After(s, a), b)
    ensures Harmless(s, a + b)
    decreases |a|
  {
    if a == [] {
      assert a + b == b;
    } else {
      assert (a + b)[1..] == a[1..] + b;
      HarmlessBoth(Apply(s, a[0]), a[1..], b);
    }
  }

  lemma HarmlessOnce(s: System, m: Move)
    requires Enabled(s, m) && !Closes(s, m)
    ensures Harmless(s, [m])
  {
    assert [m][1..] == [];
    assert Harmless(Apply(s, m), []);
  }

  /** A harmless step to a state that can close a circle. */
  lemma CanCloseAfter(s: System, m: Move)
    requires Enabled(s, m) && !Closes(s, m) && CanClose(Apply(s, m))
    ensures CanClose(s)
  {
    var s1 := Apply(s, m);
    var more: seq<Move>, ts: seq<nat> :| Harmless(s1, more) && Runs(s1, more) && ts != [] && Circle(After(s1, more), ts);
    HarmlessOnce(s, m);
    RunsOnce(s, m);
    HarmlessBoth(s, [m], more);
    RunsBoth(s, [m], more);
  }

  lemma CanCloseQuietly(s: System, ms: seq<Move>)
    requires Runs(s, ms) && Quiet(ms) && CanClose(After(s, ms))
    ensures CanClose(s)
  {
    var s1 := After(s, ms);
    var more: seq<Move>, ts: seq<nat> :| Harmless(s1, more) && Runs(s1, more) && ts != [] && Circle(After(s1, more), ts);
    QuietIsHarmless(s, ms);
    HarmlessBoth(s, ms, more);
    RunsBoth(s, ms, more);
  }

  /** A thread that asks for a lock that it holds. */
  predicate WaitsForItself(s: System, t: nat) {
    && t < |s.threads| && s.threads[t].Rest() != [] && s.threads[t].Rest()[0].Acquire?
    && s.threads[t].Rest()[0].lock in s.owner && s.owner[s.threads[t].Rest()[0].lock] == t
  }

  lemma Closed(s: System, t: nat)
    requires WaitsForItself(s, t)
    ensures Circle(s, [t]) && CanClose(s)
  {
    assert Runs(s, []) && Harmless(s, []) && After(s, []) == s;
    var ts: seq<nat> := [t];
    assert Circle(s, ts);
  }

  // After an early return

  lemma EarlyReturnEnds(kinds: seq<Kind>, c: nat, op: Op, th: Thread)
    requires c < |kinds| && kinds[c].ControlThread? && MayRun(kinds, c, op) && Leaks(op)
    requires th == Thread(Script(op), [], {}, false)
    ensures Disciplined(th) && Kept(th) == {ReadWrite(c)} && Sane(kinds, c, th) && Joinless(th.Rest())
  {
    assert th.Rest() == Script(op);
    OnlyEarlyReturnsLeave(op);
    ScriptJoins(kinds, c, op);
    forall i | 0 <= i < |Script(op)| ensures !Script(op)[i].Join? {
      assert Script(op)[i] in Script(op);
    }
  }

  lemma EarlyReturnBase(s: System, c: nat, op: Op)
    requires Clean(s) && Enabled(s, Begin(c, op)) && Leaks(op) && s.kinds[c].ControlThread?
    ensures var s1 := Apply(s, Begin(c, op));
      && Base(s1) && OthersClean(s1, c) && Kept(s1.threads[c]) == {ReadWrite(c)} && Joinless(s1.threads[c].Rest())
  {
    var th := s.threads[c];
    assert th.held == Kept(th) && th == Thread([], [], {}, false);
    EarlyReturnEnds(s.kinds, c, op, th.(script := Script(op)));
    LoadKeepsBase(s, c, th.(script := Script(op)));
  }

  /** The next `Write` of a control thread that kept its lock waits for the thread itself. */
  lemma WriteAgainCloses(s: System, c: nat)
    requires |s.kinds| == |s.threads| && c < |s.threads| && s.kinds[c].ControlThread?
    requires !s.threads[c].done && s.threads[c].Rest() == [] && ReadWrite(c) in s.owner && s.owner[ReadWrite(c)] == c
    ensures CanClose(s)
  {
    var again := Begin(c, WriteUncounted(c));
    var s1 := Apply(s, again);
    assert s.threads[c].handler == [] && Script(WriteUncounted(c))[0] == Acquire(ReadWrite(c));
    assert s1.threads[c].Rest() == Script(WriteUncounted(c));
    Closed(s1, c);
    CanCloseAfter(s, again);
  }

  lemma EarlyReturnCloses(s: System, c: nat, op: Op)
    requires Clean(s) && Enabled(s, Begin(c, op)) && Leaks(op) && s.kinds[c].ControlThread?
    ensures CanClose(Apply(s, Begin(c, op)))
  {
    var s1 := Apply(s, Begin(c, op));
    EarlyReturnBase(s, c, op);
    var ms := GetToEnd(s1, c);
    var th := After(s1, ms).threads[c];
    assert th.held == Kept(th) == {ReadWrite(c)};
    assert ReadWrite(c) in th.held;
    WriteAgainCloses(After(s1, ms), c);
    CanCloseQuietly(s1, ms);
  }

  // After a signal in the wrong moment

  /** All but thread `t` keep the discipline. */
  ghost predicate OthersDisciplined(s: System, t: nat) {
    && |s.kinds| == |s.threads| && Owned(s)
    && forall w | 0 <= w < |s.threads| && w != t :: Disciplined(s.threads[w])
  }

  lemma OtherSteps(s: System, t: nat, v: nat)
    requires OthersDisciplined(s, t) && v != t && Enabled(s, Advance(v))
    ensures OthersDisciplined(Advanced(s, v), t) && Kept(Advanced(s, v).threads[v]) == Kept(s.threads[v])
  {
    StepDisciplined(s.threads[v], s.debug);
    StepOwned(s, v);
  }

  /** The config lock is given back without anybody's help. */
  lemma {:induction false} FreeConfig(s: System, t: nat, v: nat) returns (ms: seq<Move>)
    requires OthersDisciplined(s, t) && t < |s.threads| && v < |s.threads| && v != t && ConfigLock in s.threads[v].held
    ensures Runs(s, ms) && Quiet(ms)
    ensures var s' := After(s, ms);
      OthersDisciplined(s', t) && t < |s'.threads| && s'.threads[t] == s.threads[t] && ConfigLock !in s'.owner
    decreases Weight(s.threads[v].Rest())
  {
    var th := s.threads[v];
    assert Rank(ConfigLock) == 3;
    assert th.Rest() != [];
    StepDisciplined(th, s.debug);
    StepIsLighter(th, s.debug);
    var a := th.Rest()[0];
    assert !a.Acquire?;
    OtherSteps(s, t, v);
    RunsOnce(s, Advance(v));
    ms := [Advance(v)];
    if a != Release(ConfigLock) {
      var rest := FreeConfig(Advanced(s, v), t, v);
      RunsBoth(s, ms, rest);
      ms := ms + rest;
    }
  }

  lemma HandlerSteps(s: System, t: nat)
    requires OthersDisciplined(s, t) && Enabled(s, Advance(t)) && s.threads[t].handler != []
    requires !s.threads[t].handler[0].Release?
    ensures OthersDisciplined(Advanced(s, t), t)
    ensures Advanced(s, t).threads[t].handler == Becomes(s.threads[t].handler[0], s.debug) + s.threads[t].handler[1..]
  {
    StepOwned(s, t);
  }

  /** The handler gets past a message, if it does not hold the config lock. */
  lemma PassMessage(s: System, t: nat) returns (ms: seq<Move>)
    requires OthersDisciplined(s, t) && t < |s.threads| && ConfigLock !in s.threads[t].held
    requires s.threads[t].handler != [] && s.threads[t].handler[0] == Message
    ensures Runs(s, ms) && Quiet(ms)
    ensures var s' := After(s, ms);
      OthersDisciplined(s', t) && t < |s'.threads| && s'.threads[t] == s.threads[t].(handler := s.threads[t].handler[1..])
  {
    var th := s.threads[t];
    HandlerSteps(s, t);
    RunsOnce(s, Advance(t));
    ms := [Advance(t)];
    if s.debug {
      var s1 := Advanced(s, t);
      if ConfigLock in s1.owner {
        var free := FreeConfig(s1, t, s1.owner[ConfigLock]);
        RunsBoth(s, ms, free);
        ms := ms + free;
      }
      var s2 := After(s, ms);
      var section := TakeConfig(s2, t, th.handler[1..]);
      RunsBoth(s, ms, section);
      ms := ms + section;
    }
  }

  lemma TakeConfig(s: System, t: nat, rest: seq<Action>) returns (ms: seq<Move>)
    requires OthersDisciplined(s, t) && t < |s.threads| && ConfigLock !in s.owner
    requires s.threads[t].handler == [Acquire(ConfigLock), Release(ConfigLock)] + rest
    ensures Runs(s, ms) && Quiet(ms)
    ensures var s' := After(s, ms);
      OthersDisciplined(s', t) && t < |s'.threads| && s'.threads[t] == s.threads[t].(handler := rest)
  {
    var th := s.threads[t];
    assert ConfigLock !in th.held;
    HandlerSteps(s, t);
    var s1 := Advanced(s, t);
    assert s1.threads[t].handler == [Release(ConfigLock)] + rest;
    StepOwned(s1, t);
    var s2 := Advanced(s1, t);
    assert s2.threads[t].handler == rest;
    assert (th.held + {ConfigLock}) - {ConfigLock} == th.held;
    RunsOnce(s, Advance(t));
    RunsOnce(s1, Advance(t));
    RunsBoth(s, [Advance(t)], [Advance(t)]);
    ms := [Advance(t)] + [Advance(t)];
  }

  lemma HupOthers(s: System, t: nat, conf: Option<Conf>)
    requires Base(s) && Enabled(s, Hup(t, conf))
    ensures OthersDisciplined(Apply(s, Hup(t, conf)), t)
  {
    var s' := Apply(s, Hup(t, conf));
    assert forall u | 0 <= u < |s.threads| :: s'.threads[u].held == s.threads[u].held;
    assert forall u | 0 <= u < |s.threads| && u != t :: s'.threads[u] == s.threads[u];
  }

  /** Debugging on, the first message of the handler waits for the config lock of its own thread. */
  lemma SaysWhileHolding(s: System, t: nat)
    requires |s.kinds| == |s.threads| && t < |s.threads| && ConfigLock in s.owner && s.owner[ConfigLock] == t && s.debug
    requires s.threads[t].handler != [] && s.threads[t].handler[0] == Message
    ensures CanClose(s)
  {
    var s1 := Advanced(s, t);
    assert s1.threads[t].handler[0] == Acquire(ConfigLock);
    Closed(s1, t);
    CanCloseAfter(s, Advance(t));
  }

  /** Debugging off, another session may switch it on meanwhile. */
  lemma SwitchedOn(s: System, t: nat)
    requires |s.kinds| == |s.threads| && t < |s.threads| && ConfigLock in s.owner && s.owner[ConfigLock] == t
    requires s.threads[t].handler != [] && s.threads[t].handler[0] == Message
    ensures CanClose(s)
  {
    var n := |s.threads|;
    var conf := Conf(true, true);
    var m0, m1, m2 := Spawn(ControlThread), Begin(n, ReloadIps(conf)), Advance(n);
    var s1 := Apply(s, m0);
    var s2 := Apply(s1, m1);
    assert s2.threads[n].script[0] == Reconfigure(true);
    var s3 := Apply(s2, m2);
    assert s3.threads[t] == s.threads[t] && s3.debug;
    SaysWhileHolding(s3, t);
    CanCloseAfter(s2, m2);
    CanCloseAfter(s1, m1);
    CanCloseAfter(s, m0);
  }

  /** What the handler does to the address list. */
  function ReadingTail(good: bool): seq<Action> {
    Section(IpListLock(false), if good then NOTE else []) + NOTE + NOTE
  }

  lemma ReadsNext(s: System, t: nat, good: bool)
    requires OthersDisciplined(s, t) && t < |s.threads| && ConfigLock !in s.threads[t].held && IpListLock(false) in s.threads[t].held
    requires s.threads[t].handler == [Message] + ReadingTail(good)
    ensures CanClose(s)
  {
    var ms := PassMessage(s, t);
    var s1 := After(s, ms);
    assert s1.threads[t].handler == ReadingTail(good) && ReadingTail(good)[0] == Acquire(IpListLock(false));
    Closed(s1, t);
    CanCloseQuietly(s, ms);
  }

  /** The handler gets as far as the lock of the address list. */
  lemma ReadsWhileHolding(s: System, t: nat, c: Conf)
    requires OthersDisciplined(s, t) && t < |s.threads| && ConfigLock !in s.threads[t].held && IpListLock(false) in s.threads[t].held
    requires s.threads[t].handler == Handler(Some(c))
    ensures CanClose(s)
  {
    var tail := [Reconfigure(c.debug)] + ([Message] + ReadingTail(c.good));
    assert Handler(Some(c)) == [Message] + tail;
    var ms := PassMessage(s, t);
    var s1 := After(s, ms);
    assert s1.threads[t].handler == tail && tail[0] == Reconfigure(c.debug);
    HandlerSteps(s1, t);
    var s2 := Advanced(s1, t);
    assert s2.threads[t].handler == [Message] + ReadingTail(c.good);
    ReadsNext(s2, t, c.good);
    CanCloseAfter(s1, Advance(t));
    CanCloseQuietly(s, ms);
  }

  lemma WrongMomentCloses(s: System, t: nat, conf: Option<Conf>)
    requires Clean(s) && Enabled(s, Hup(t, conf)) && !SafeFor(s.threads[t].held, conf)
    ensures CanClose(Apply(s, Hup(t, conf)))
  {
    var s1 := Apply(s, Hup(t, conf));
    HupOthers(s, t, conf);
    assert s1.threads[t].handler[0] == Message;
    if ConfigLock in s.threads[t].held {
      SwitchedOn(s1, t);
    } else {
      ReadsWhileHolding(s1, t, conf.value);
    }
  }

  /** The exact condition, for every state that careful runs reach and every move that is possible there: a
      circular wait can come of it if and only if it is an early return of `Write` in a control thread, or
      a signal for a thread that holds the config lock, or that holds the lock of the address list while
      the configuration can be read. */
  lemma CircleComesOfExactly(debug: bool, ms: seq<Move>, m: Move)
    requires Runs(Boot(debug), ms) && Careful(Boot(debug), ms) && Enabled(After(Boot(debug), ms), m)
    ensures var s := After(Boot(debug), ms); CanClose(Apply(s, m)) <==> Closes(s, m)
  {
    RunKeepsClean(Boot(debug), ms);
    var s := After(Boot(debug), ms);
    if Closes(s, m) {
      if m.Begin? {
        EarlyReturnCloses(s, m.thread, m.op);
      } else {
        WrongMomentCloses(s, m.thread, m.conf);
      }
    } else {
      StepKeepsInv(s, m);
      NeverCloses(Apply(s, m));
    }
  }

  lemma NeverCloses(s: System)
    requires Inv(s)
    ensures !CanClose(s)
  {
    forall more: seq<Move>, ts: seq<nat> | Harmless(s, more) && Runs(s, more) && ts != [] ensures !Circle(After(s, more), ts) {
      RunKeepsInv(s, more);
      NoCircleWhileInv(After(s, more), ts);
    }
  }
}
