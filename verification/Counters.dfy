/** Traffic counters: src/counter.cc, and the accounting that control and data threads do on them. */
module Counters {

  datatype Way = Send | Recvd

  /** The two sums of a counter. */
  datatype Bytes = Bytes(send: nat, recvd: nat)
  {
    function Get(w: Way): nat {
      if w.Send? then send else recvd
    }

    function Plus(w: Way, n: nat): Bytes {
      if w.Send? then this.(send := send + n) else this.(recvd := recvd + n)
    }

    function Add(b: Bytes): Bytes {
      Bytes(send + b.send, recvd + b.recvd)
    }
  }

  const ZERO := Bytes(0, 0)

  /** `CCounter`. Every method body of the source runs under the counter's own lock. */
  class Counter {
    var send: nat
    var recvd: nat

    constructor ()
      ensures Sums() == ZERO
    {
      send, recvd := 0, 0;
    }

    function Sums(): Bytes
      reads this
    {
      Bytes(send, recvd)
    }

    method AddSend(d: nat)
      modifies this
      ensures Sums() == old(Sums()).Plus(Send, d)
      ensures send == old(send) + d && recvd == old(recvd)
    {
      send := send + d;
    }

    method AddRecvd(d: nat)
      modifies this
      ensures Sums() == old(Sums()).Plus(Recvd, d)
      ensures recvd == old(recvd) + d && send == old(send)
    {
      recvd := recvd + d;
    }

    method Reset()
      modifies this
      ensures Sums() == ZERO && send == 0 && recvd == 0
    {
      recvd := 0;
      send := 0;
    }

    method GetTotal() returns (tmp: nat)
      ensures tmp == Sums().Get(Send) + Sums().Get(Recvd) == send + recvd
    {
      tmp := recvd + send;
    }
  }

  /** `trafficcheck`, with the limits in bytes and 0 for no limit. */
  method TrafficCheck(day: Counter, week: Counter, month: Counter, dayLimit: nat, weekLimit: nat, monthLimit: nat)
    returns (ok: bool)
    ensures ok <==>
      && (dayLimit != 0 ==> day.send + day.recvd < dayLimit)
      && (weekLimit != 0 ==> week.send + week.recvd < weekLimit)
      && (monthLimit != 0 ==> month.send + month.recvd < monthLimit)
  {
    if dayLimit == 0 && weekLimit == 0 && monthLimit == 0 {
      return true;
    }
    if dayLimit != 0 {
      var t := day.GetTotal();
      if t >= dayLimit {
        return false;
      }
    }
    if weekLimit != 0 {
      var t := week.GetTotal();
      if t >= weekLimit {
        return false;
      }
    }
    if monthLimit != 0 {
      var t := month.GetTotal();
      if t >= monthLimit {
        return false;
      }
    }
    return true;
  }

  // Interleaved accounting

  /** One message or block being accounted by some thread. The thread adds it to the session's own
      counter, then to the total, day, week and month counters; `stage` is how many are done. */
  datatype Task = Task(session: nat, way: Way, n: nat, stage: nat)

  /** The counters of the process. `locals` has one entry per session ever created; `dayGone` and its
      fellows are what the resets have wiped out so far. */
  datatype Traffic = Traffic(
    locals: seq<Bytes>, total: Bytes, day: Bytes, week: Bytes, month: Bytes,
    dayGone: Bytes, weekGone: Bytes, monthGone: Bytes, tasks: seq<Task>)

  const START := Traffic([], ZERO, ZERO, ZERO, ZERO, ZERO, ZERO, ZERO, [])

  /** Atomic steps of any thread: each counter method is one step. */
  datatype Move =
    | Open
    | Begin(session: nat, way: Way, n: nat)
    | Tick(task: nat)
    | ResetDay
    | ResetWeek
    | ResetMonth

  function Next(t: Traffic, m: Move): Traffic {
    match m
    case Open => t.(locals := t.locals + [ZERO])
    case Begin(s, w, n) => if s < |t.locals| then t.(tasks := t.tasks + [Task(s, w, n, 0)]) else t
    case Tick(k) => if k < |t.tasks| && t.tasks[k].session < |t.locals| then Account(t, k) else t
    case ResetDay => t.(dayGone := t.dayGone.Add(t.day), day := ZERO)
    case ResetWeek => t.(weekGone := t.weekGone.Add(t.week), week := ZERO)
    case ResetMonth => t.(monthGone := t.monthGone.Add(t.month), month := ZERO)
  }

  function Account(t: Traffic, k: nat): Traffic
    requires k < |t.tasks| && t.tasks[k].session < |t.locals|
  {
    var task := t.tasks[k];
    var t' := t.(tasks := t.tasks[k := task.(stage := task.stage + 1)]);
    if task.stage == 0 then
      t'.(locals := t.locals[task.session := t.locals[task.session].Plus(task.way, task.n)])
    else if task.stage == 1 then t'.(total := t.total.Plus(task.way, task.n))
    else if task.stage == 2 then t'.(day := t.day.Plus(task.way, task.n))
    else if task.stage == 3 then t'.(week := t.week.Plus(task.way, task.n))
    else if task.stage == 4 then t'.(month := t.month.Plus(task.way, task.n))
    else t
  }

  function Run(t: Traffic, ms: seq<Move>): Traffic {
    if ms == [] then t else Next(Run(t, ms[..|ms| - 1]), ms[|ms| - 1])
  }

  function Sum(bs: seq<Bytes>, w: Way): nat {
    if bs == [] then 0 else Sum(bs[..|bs| - 1], w) + bs[|bs| - 1].Get(w)
  }

  /** The bytes of a task for way `w`, if its stage is within the bounds. */
  function Share(task: Task, w: Way, from: nat, to: nat): nat {
    if task.way == w && from <= task.stage <= to then task.n else 0
  }

  /** Bytes of the tasks whose stage is within the bounds. */
  function Between(tasks: seq<Task>, w: Way, from: nat, to: nat): nat {
    if tasks == [] then 0
    else Between(tasks[..|tasks| - 1], w, from, to) + Share(tasks[|tasks| - 1], w, from, to)
  }

  /** No byte is lost or counted twice, for one way: the total is what the sessions counted, short of
      what is still between the two counters; and every periodic counter, with what its resets wiped
      out, is the total, short of what has not reached it yet. */
  ghost predicate Conserved(t: Traffic, w: Way) {
    && Sum(t.locals, w) == t.total.Get(w) + Between(t.tasks, w, 1, 1)
    && t.total.Get(w) == t.day.Get(w) + t.dayGone.Get(w) + Between(t.tasks, w, 2, 2)
    && t.total.Get(w) == t.week.Get(w) + t.weekGone.Get(w) + Between(t.tasks, w, 2, 3)
    && t.total.Get(w) == t.month.Get(w) + t.monthGone.Get(w) + Between(t.tasks, w, 2, 4)
  }

  lemma {:induction false} SumUpdate(bs: seq<Bytes>, k: nat, b: Bytes, w: Way)
    requires k < |bs|
    ensures Sum(bs[k := b], w) == Sum(bs, w) - bs[k].Get(w) + b.Get(w)
  {
    var last := |bs| - 1;
    if k < last {
      SumUpdate(bs[..last], k, b, w);
      assert bs[k := b][..last] == bs[..last][k := b];
    } else {
      assert bs[k := b][..last] == bs[..last];
    }
  }

  lemma {:induction false} BetweenUpdate(tasks: seq<Task>, k: nat, task: Task, w: Way, from: nat, to: nat)
    requires k < |tasks|
    ensures Between(tasks[k := task], w, from, to)
         == Between(tasks, w, from, to) - Share(tasks[k], w, from, to) + Share(task, w, from, to)
  {
    var last := |tasks| - 1;
    if k < last {
      BetweenUpdate(tasks[..last], k, task, w, from, to);
      assert tasks[k := task][..last] == tasks[..last][k := task];
    } else {
      assert tasks[k := task][..last] == tasks[..last];
    }
  }

  /** What one more finished stage does to the bytes within the bounds. */
  lemma BetweenStep(tasks: seq<Task>, k: nat, w: Way, from: nat, to: nat)
    requires k < |tasks|
    ensures var task := tasks[k];
      var n := if task.way == w then task.n else 0;
      Between(tasks[k := task.(stage := task.stage + 1)], w, from, to)
         == Between(tasks, w, from, to) + (if from <= task.stage + 1 <= to then n else 0)
                                        - (if from <= task.stage <= to then n else 0)
  {
    BetweenUpdate(tasks, k, tasks[k].(stage := tasks[k].stage + 1), w, from, to);
  }

  function Gain(task: Task, w: Way, stage: nat): nat {
    if task.stage == stage && task.way == w then task.n else 0
  }

  /** Each stage adds the bytes to exactly one counter, on exactly one side. */
  lemma AccountAdds(t: Traffic, k: nat, w: Way)
    requires k < |t.tasks| && t.tasks[k].session < |t.locals|
    ensures var (task, t') := (t.tasks[k], Account(t, k));
      && t'.total.Get(w) == t.total.Get(w) + Gain(task, w, 1)
      && t'.day.Get(w) == t.day.Get(w) + Gain(task, w, 2)
      && t'.week.Get(w) == t.week.Get(w) + Gain(task, w, 3)
      && t'.month.Get(w) == t.month.Get(w) + Gain(task, w, 4)
      && t'.dayGone == t.dayGone && t'.weekGone == t.weekGone && t'.monthGone == t.monthGone
  {
  }

  lemma AccountAddsLocally(t: Traffic, k: nat, w: Way)
    requires k < |t.tasks| && t.tasks[k].session < |t.locals|
    ensures Sum(Account(t, k).locals, w) == Sum(t.locals, w) + Gain(t.tasks[k], w, 0)
  {
    var task := t.tasks[k];
    if task.stage == 0 {
      SumUpdate(t.locals, task.session, t.locals[task.session].Plus(task.way, task.n), w);
    }
  }

  lemma AccountMoves(t: Traffic, k: nat, w: Way, from: nat, to: nat)
    requires k < |t.tasks| && t.tasks[k].session < |t.locals|
    requires 1 <= from <= to <= 4
    ensures Between(Account(t, k).tasks, w, from, to)
         == Between(t.tasks, w, from, to) + Gain(t.tasks[k], w, from - 1) - Gain(t.tasks[k], w, to)
  {
    if t.tasks[k].stage <= 4 {
      BetweenStep(t.tasks, k, w, from, to);
    }
  }

  lemma AccountConserves(t: Traffic, k: nat, w: Way)
    requires k < |t.tasks| && t.tasks[k].session < |t.locals|
    requires Conserved(t, w)
    ensures Conserved(Account(t, k), w)
  {
    AccountAdds(t, k, w);
    AccountAddsLocally(t, k, w);
    AccountMoves(t, k, w, 1, 1);
    AccountMoves(t, k, w, 2, 2);
    AccountMoves(t, k, w, 2, 3);
    AccountMoves(t, k, w, 2, 4);
  }

  lemma BetweenNew(tasks: seq<Task>, task: Task, w: Way, from: nat, to: nat)
    requires task.stage < from
    ensures Between(tasks + [task], w, from, to) == Between(tasks, w, from, to)
  {
    assert (tasks + [task])[..|tasks|] == tasks;
  }

  lemma NextConserves(t: Traffic, m: Move, w: Way)
    requires Conserved(t, w)
    ensures Conserved(Next(t, m), w)
  {
    match m
    case Open =>
      assert (t.locals + [ZERO])[..|t.locals|] == t.locals;
    case Begin(s, way, n) =>
      var task := Task(s, way, n, 0);
      BetweenNew(t.tasks, task, w, 1, 1);
      BetweenNew(t.tasks, task, w, 2, 2);
      BetweenNew(t.tasks, task, w, 2, 3);
      BetweenNew(t.tasks, task, w, 2, 4);
    case Tick(k) =>
      if k < |t.tasks| && t.tasks[k].session < |t.locals| {
        AccountConserves(t, k, w);
      }
    case _ =>
  }

  /** Conservation in every state that any interleaving of sessions, data threads and resets reaches. */
  lemma {:induction false} RunConserves(ms: seq<Move>, w: Way)
    ensures Conserved(Run(START, ms), w)
  {
    if ms != [] {
      RunConserves(ms[..|ms| - 1], w);
      NextConserves(Run(START, ms[..|ms| - 1]), ms[|ms| - 1], w);
    }
  }

  lemma {:induction false} NothingBetween(tasks: seq<Task>, w: Way, from: nat, to: nat)
    requires forall task | task in tasks :: task.stage == 0 || task.stage > to
    requires from >= 1
    ensures Between(tasks, w, from, to) == 0
  {
    if tasks != [] {
      assert tasks[|tasks| - 1] in tasks;
      NothingBetween(tasks[..|tasks| - 1], w, from, to);
    }
  }

  /** Whenever no thread is in the middle of its five updates, the total is exactly the sum over all
      sessions, and what the day counter and its resets have seen is exactly the total. */
  lemma QuietTotals(ms: seq<Move>, w: Way)
    requires forall task | task in Run(START, ms).tasks :: task.stage == 0 || task.stage > 4
    ensures var t := Run(START, ms);
      && t.total.Get(w) == Sum(t.locals, w)
      && t.day.Get(w) + t.dayGone.Get(w) == t.week.Get(w) + t.weekGone.Get(w) == t.total.Get(w)
      && t.month.Get(w) + t.monthGone.Get(w) == t.total.Get(w)
  {
    RunConserves(ms, w);
    var tasks := Run(START, ms).tasks;
    NothingBetween(tasks, w, 1, 1);
    NothingBetween(tasks, w, 2, 2);
    NothingBetween(tasks, w, 2, 3);
    NothingBetween(tasks, w, 2, 4);
  }
}
