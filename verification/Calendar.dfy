/** The periodic resets of `trafficthread` in src/yatb.cc against the Gregorian calendar. */
module Calendars {
  import opened Strings
  import opened Counters

  // Dates

  /** A local date as `localtime` gives it: months from 0, days of the month from 1, days of the week
      from Sunday = 0. */
  datatype Date = Date(year: int, month: nat, dom: nat, wday: nat)

  predicate Leap(y: int) {
    y % 4 == 0 && (y % 100 != 0 || y % 400 == 0)
  }

  function MonthLength(y: int, m: nat): (n: nat)
    ensures 28 <= n <= 31
  {
    if m == 1 then (if Leap(y) then 29 else 28)
    else if m == 3 || m == 5 || m == 8 || m == 10 then 30 else 31
  }

  predicate Valid(d: Date) {
    d.month < 12 && 1 <= d.dom <= MonthLength(d.year, d.month) && d.wday < 7
  }

  function Tomorrow(d: Date): (d': Date)
    requires Valid(d)
    ensures Valid(d')
  {
    var w := if d.wday == 6 then 0 else d.wday + 1;
    if d.dom < MonthLength(d.year, d.month) then Date(d.year, d.month, d.dom + 1, w)
    else if d.month < 11 then Date(d.year, d.month + 1, 1, w)
    else Date(d.year + 1, 0, 1, w)
  }

  function Yesterday(d: Date): (d': Date)
    requires Valid(d)
    ensures Valid(d')
  {
    var w := if d.wday == 0 then 6 else d.wday - 1;
    if d.dom > 1 then Date(d.year, d.month, d.dom - 1, w)
    else if d.month > 0 then Date(d.year, d.month - 1, MonthLength(d.year, d.month - 1), w)
    else Date(d.year - 1, 11, MonthLength(d.year - 1, 11), w)
  }

  function DaysBefore(d: Date, k: nat): (d': Date)
    requires Valid(d)
    ensures Valid(d')
    decreases k
  {
    if k == 0 then d else DaysBefore(Yesterday(d), k - 1)
  }

  function DaysAfter(d: Date, k: nat): (d': Date)
    requires Valid(d)
    ensures Valid(d')
    decreases k
  {
    if k == 0 then d else DaysAfter(Tomorrow(d), k - 1)
  }

  lemma YesterdayOfTomorrow(d: Date)
    requires Valid(d)
    ensures Yesterday(Tomorrow(d)) == d
  {
  }

  const MONDAY := 1

  // asctime

  function DayName(w: nat): string
    requires w < 7
  {
    match w
    case 0 => "Sun" case 1 => "Mon" case 2 => "Tue" case 3 => "Wed"
    case 4 => "Thu" case 5 => "Fri" case _ => "Sat"
  }

  function MonthName(m: nat): string
    requires m < 12
  {
    match m
    case 0 => "Jan" case 1 => "Feb" case 2 => "Mar" case 3 => "Apr"
    case 4 => "May" case 5 => "Jun" case 6 => "Jul" case 7 => "Aug"
    case 8 => "Sep" case 9 => "Oct" case 10 => "Nov" case _ => "Dec"
  }

  /** A number right-aligned in three columns. */
  function Pad3(n: nat): string {
    if n < 10 then "  " + Dec(n) else if n < 100 then " " + Dec(n) else Dec(n)
  }

  /** `asctime`; `clock` is the time of day and everything after it. */
  function Asctime(d: Date, clock: string): string
    requires Valid(d)
  {
    DayName(d.wday) + " " + MonthName(d.month) + Pad3(d.dom) + " " + clock
  }

  lemma DayNames(v: nat, w: nat)
    requires v < 7 && w < 7
    ensures |DayName(v)| == 3
    ensures DayName(v) == DayName(w) <==> v == w
  {
    assert DayName(v)[0] != DayName(w)[0] || DayName(v)[1] != DayName(w)[1] || DayName(v)[2] != DayName(w)[2] || v == w;
  }

  lemma MonthNames(v: nat, w: nat)
    requires v < 12 && w < 12
    ensures |MonthName(v)| == 3
    ensures MonthName(v) == MonthName(w) <==> v == w
  {
    assert MonthName(v)[0] != MonthName(w)[0] || MonthName(v)[1] != MonthName(w)[1]
        || MonthName(v)[2] != MonthName(w)[2] || v == w;
  }

  lemma PaddedDay(n: nat)
    requires 1 <= n <= 31
    ensures |Pad3(n)| == 3
    ensures Atoi(Pad3(n)) == n
  {
    if n < 10 {
      assert Dec(n) == [Digit(n)];
    } else {
      assert Dec(n) == Dec(n / 10) + [Digit(n % 10)];
      assert Dec(n / 10) == [Digit(n / 10)];
    }
    AtoiOfDec(n, "");
    assert Dec(n) + "" == Dec(n);
    assert Dec(n) == DecInt(n);
    SkipSpace(Dec(n));
    SkipSpace(" " + Dec(n));
    assert " " + (" " + Dec(n)) == "  " + Dec(n);
  }

  lemma SkipSpace(s: string)
    ensures Atoi(" " + s) == Atoi(s)
  {
    assert (" " + s)[1..] == s;
  }

  lemma Columns(a: string, b: string, c: string, rest: string)
    requires |a| == 3 && |b| == 3 && |c| == 3
    ensures var s := a + " " + b + c + rest;
      |s| >= 10 && s[0..3] == a && s[4..7] == b && s[7..10] == c
  {
  }

  /** The three substrings that the thread cuts out name the day of the week, the month and the day
      of the month. */
  lemma SubstringsTellTheDate(d: Date, clock: string)
    requires Valid(d)
    ensures var ti := Asctime(d, clock);
      && |ti| >= 10 && ti[0..3] == DayName(d.wday) && ti[4..7] == MonthName(d.month)
      && Atoi(ti[7..10]) == d.dom
  {
    DayNames(d.wday, d.wday);
    MonthNames(d.month, d.month);
    PaddedDay(d.dom);
    Columns(DayName(d.wday), MonthName(d.month), Pad3(d.dom), " " + clock);
    assert Asctime(d, clock) == DayName(d.wday) + " " + MonthName(d.month) + Pad3(d.dom) + (" " + clock);
  }

  // The thread

  /** `lastday`, `lastmonth` and `lastweek`, as the program starts with them. */
  datatype Seen = Seen(lastday: string, lastmonth: string, lastweek: int)

  const UNSEEN := Seen("", "", 0)

  datatype Resets = Resets(day: bool, week: bool, month: bool)

  function Decide(seen: Seen, ti: string): (Seen, Resets)
    requires |ti| >= 10
  {
    var (day, month, week) := (ti[0..3], ti[4..7], Atoi(ti[7..10]));
    var r := Resets(seen.lastday != day, seen.lastweek != week && day == "Mon", seen.lastmonth != month);
    (Seen(day, month, if r.week then week else seen.lastweek), r)
  }

  class TrafficThread {
    var lastday: string
    var lastmonth: string
    var lastweek: int
    const daycounter: Counter
    const weekcounter: Counter
    const monthcounter: Counter

    constructor (day: Counter, week: Counter, month: Counter)
      ensures daycounter == day && weekcounter == week && monthcounter == month
      ensures Known() == UNSEEN
    {
      lastday, lastmonth, lastweek := "", "", 0;
      daycounter, weekcounter, monthcounter := day, week, month;
    }

    function Known(): Seen
      reads this
    {
      Seen(lastday, lastmonth, lastweek)
    }

    /** One turn of the endless loop; `ti` is the text of the current local time. */
    method Pass(ti: string)
      requires |ti| >= 10
      requires daycounter != weekcounter && daycounter != monthcounter && weekcounter != monthcounter
      modifies this, daycounter, weekcounter, monthcounter
      ensures var (seen, r) := Decide(old(Known()), ti);
        && Known() == seen
        && daycounter.Sums() == (if r.day then ZERO else old(daycounter.Sums()))
        && weekcounter.Sums() == (if r.week then ZERO else old(weekcounter.Sums()))
        && monthcounter.Sums() == (if r.month then ZERO else old(monthcounter.Sums()))
    {
      var tmpday := ti[0..3];
      var tmpmonth := ti[4..7];
      var tmpweek := Atoi(ti[7..10]);
      if lastday != tmpday {
        lastday := tmpday;
        daycounter.Reset();
      }
      if lastweek != tmpweek && tmpday == "Mon" {
        lastweek := tmpweek;
        weekcounter.Reset();
      }
      if lastmonth != tmpmonth {
        lastmonth := tmpmonth;
        monthcounter.Reset();
      }
    }
  }

  // Against the calendar

  lemma {:induction false} DomBefore(d: Date, k: nat)
    requires Valid(d) && k <= 7
    ensures k < d.dom ==> DaysBefore(d, k).dom == d.dom - k
    ensures k >= d.dom ==> 28 <= DaysBefore(d, k).dom - d.dom + k <= 31
    decreases k
  {
    if k > 0 {
      DomBefore(Yesterday(d), k - 1);
    }
  }

  /** The same weekday a week ago had another day of the month. */
  lemma WeekAgoDiffers(d: Date, k: nat)
    requires Valid(d) && k == 7
    ensures DaysBefore(d, k).dom != d.dom
  {
    DomBefore(d, k);
  }

  /** How many days ago the latest Monday was. */
  function SinceMonday(d: Date): nat
    requires d.wday < 7
  {
    if d.wday == 0 then 6 else d.wday - 1
  }

  /** What the thread remembers after a pass on date `d`. */
  predicate Remembers(seen: Seen, d: Date)
    requires Valid(d)
  {
    && seen.lastday == DayName(d.wday) && seen.lastmonth == MonthName(d.month)
    && (seen.lastweek == 0 || seen.lastweek == DaysBefore(d, SinceMonday(d)).dom)
    && (d.wday == MONDAY ==> seen.lastweek == d.dom)
  }

  /** Consecutive samples: time does not go backwards and less than a day passes. */
  predicate Follows(previous: Option<Date>, d: Date) {
    && Valid(d)
    && (previous.Some? ==> Valid(previous.value) && (d == previous.value || d == Tomorrow(previous.value)))
  }

  predicate Knows(seen: Seen, previous: Option<Date>) {
    match previous
    case None => seen == UNSEEN
    case Some(p) => Valid(p) && Remembers(seen, p)
  }

  /** What should be reset: the day counter on a new date, the week counter on a new Monday, the month
      counter in a new month; on the first pass, whatever has just begun as far as the thread knows. */
  function Due(previous: Option<Date>, d: Date): Resets {
    var newDate := previous != Some(d);
    Resets(newDate, newDate && d.wday == MONDAY, previous.None? || previous.value.month != d.month)
  }

  lemma MondayMoves(p: Date)
    requires Valid(p)
    ensures DaysBefore(Tomorrow(p), SinceMonday(p) + 1) == DaysBefore(p, SinceMonday(p))
    ensures Tomorrow(p).wday == MONDAY <==> SinceMonday(p) + 1 == 7
    ensures Tomorrow(p).wday != MONDAY ==> SinceMonday(Tomorrow(p)) == SinceMonday(p) + 1
  {
    YesterdayOfTomorrow(p);
  }

  /** The string comparisons reset exactly what is due. */
  lemma DecisionIsDue(seen: Seen, previous: Option<Date>, d: Date, clock: string)
    requires Follows(previous, d) && Knows(seen, previous)
    ensures |Asctime(d, clock)| >= 10
    ensures var (seen', r) := Decide(seen, Asctime(d, clock));
      r == Due(previous, d) && Knows(seen', Some(d))
  {
    SubstringsTellTheDate(d, clock);
    DayNames(d.wday, MONDAY);
    match previous {
      case None =>
        DomBefore(d, 0);
      case Some(p) =>
        DayNames(p.wday, d.wday);
        MonthNames(p.month, d.month);
        if d != p {
          MondayMoves(p);
          if d.wday == MONDAY {
            WeekAgoDiffers(d, SinceMonday(p) + 1);
          }
        }
    }
  }

  // Runs of passes and accounting

  /** Either the thread looks at the clock, or some bytes are accounted as a whole. */
  datatype Event = Pass(date: Date, clock: string) | Traffic(n: nat)

  /** The process: what the thread remembers, and one direction of each counter. */
  datatype Process = Process(seen: Seen, day: nat, week: nat, month: nat, total: nat)

  const BOOT := Process(UNSEEN, 0, 0, 0, 0)

  function Step(s: Process, e: Event): Process {
    match e
    case Traffic(n) => s.(day := s.day + n, week := s.week + n, month := s.month + n, total := s.total + n)
    case Pass(d, clock) =>
      if !Valid(d) || |Asctime(d, clock)| < 10 then s
      else
        var (seen, r) := Decide(s.seen, Asctime(d, clock));
        Process(seen, if r.day then 0 else s.day, if r.week then 0 else s.week, if r.month then 0 else s.month, s.total)
  }

  function Run(es: seq<Event>): Process {
    if es == [] then BOOT else Step(Run(es[..|es| - 1]), es[|es| - 1])
  }

  function LastDate(es: seq<Event>): Option<Date> {
    if es == [] then None
    else
      match es[|es| - 1]
      case Pass(d, _) => Some(d)
      case Traffic(_) => LastDate(es[..|es| - 1])
  }

  /** Every sample of the clock follows the one before it. */
  predicate Steady(es: seq<Event>) {
    if es == [] then true
    else
      && Steady(es[..|es| - 1])
      && (es[|es| - 1].Pass? ==> Follows(LastDate(es[..|es| - 1]), es[|es| - 1].date))
  }

  // Reference definition: the traffic of the present day, week and month

  datatype Period = Day | Week | Month

  function FirstDate(es: seq<Event>): Option<Date> {
    if es == [] then None
    else if FirstDate(es[..|es| - 1]).Some? then FirstDate(es[..|es| - 1])
    else if es[|es| - 1].Pass? then Some(es[|es| - 1].date)
    else None
  }

  /** Dates in order. */
  function Num(d: Date): int {
    (d.year * 12 + d.month) * 32 + d.dom
  }

  function Monday(d: Date): Date
    requires Valid(d)
  {
    DaysBefore(d, SinceMonday(d))
  }

  /** Which day, week or month a date is in; None before the clock was looked at. For the week such
      traffic counts with the first date, unless that is a Monday. */
  function PeriodOf(p: Period, date: Option<Date>, first: Option<Date>): Option<int> {
    match p
    case Day => if date.Some? then Some(Num(date.value)) else None
    case Month => if date.Some? then Some(date.value.year * 12 + date.value.month) else None
    case Week =>
      if date.Some? && Valid(date.value) then Some(Num(Monday(date.value)))
      else if date.None? && first.Some? && Valid(first.value) && first.value.wday != MONDAY then Some(Num(Monday(first.value)))
      else None
  }

  /** The bytes of all traffic in period `k`. */
  function TrafficIn(p: Period, es: seq<Event>, first: Option<Date>, k: Option<int>): nat {
    if es == [] then 0
    else
      var before, e := es[..|es| - 1], es[|es| - 1];
      TrafficIn(p, before, first, k) + if e.Traffic? && PeriodOf(p, LastDate(before), first) == k then e.n else 0
  }

  /** The bytes of all traffic in the present period. */
  function Present(p: Period, es: seq<Event>): nat {
    TrafficIn(p, es, FirstDate(es), PeriodOf(p, LastDate(es), FirstDate(es)))
  }

  lemma {:induction false} NumBefore(d: Date, k: nat)
    requires Valid(d)
    ensures Num(DaysBefore(d, k)) <= Num(d)
    decreases k
  {
    if k > 0 {
      NumBefore(Yesterday(d), k - 1);
    }
  }

  /** The next day is in a later day, and in the same or a later week and month; in the same week
      unless it is a Monday, and in the same month if its month has the same number. */
  lemma PeriodGrows(p: Period, d: Date, first: Option<Date>)
    requires Valid(d)
    ensures var (now, next) := (PeriodOf(p, Some(d), first).value, PeriodOf(p, Some(Tomorrow(d)), first).value);
      && now <= next
      && (p == Day ==> now < next)
      && (p == Week ==> (now < next <==> Tomorrow(d).wday == MONDAY))
      && (p == Month ==> (now < next <==> Tomorrow(d).month != d.month))
  {
    MondayMoves(d);
    NumBefore(d, SinceMonday(d));
    if Tomorrow(d).wday == MONDAY {
      assert Monday(Tomorrow(d)) == Tomorrow(d);
    }
  }

  lemma {:induction false} FirstAndLast(es: seq<Event>)
    requires Steady(es)
    ensures FirstDate(es).Some? <==> LastDate(es).Some?
    ensures FirstDate(es).Some? ==> Valid(FirstDate(es).value) && Valid(LastDate(es).value)
  {
    if es != [] {
      FirstAndLast(es[..|es| - 1]);
    }
  }

  /** No traffic so far is in a later period than the present one. */
  lemma {:induction false} NothingLater(p: Period, es: seq<Event>, first: Option<Date>, k: int)
    requires Steady(es) && FirstDate(es) == first && first.Some?
    requires PeriodOf(p, LastDate(es), first).Some? && PeriodOf(p, LastDate(es), first).value < k
    ensures PeriodOf(p, None, first).Some? ==> PeriodOf(p, None, first).value < k
    ensures TrafficIn(p, es, first, Some(k)) == 0
  {
    var before := es[..|es| - 1];
    FirstAndLast(es);
    FirstAndLast(before);
    if FirstDate(before).None? {
      NumBefore(first.value, SinceMonday(first.value));
      BootTraffic(p, before, first, Some(k));
    } else {
      if LastDate(before) != LastDate(es) {
        PeriodGrows(p, LastDate(before).value, first);
      }
      NothingLater(p, before, first, k);
    }
  }

  /** Before the first look at the clock all traffic is in one period. */
  lemma {:induction false} BootTraffic(p: Period, es: seq<Event>, first: Option<Date>, k: Option<int>)
    requires FirstDate(es).None?
    ensures LastDate(es).None?
    ensures TrafficIn(p, es, first, k) == if PeriodOf(p, None, first) == k then Run(es).total else 0
  {
    if es != [] {
      BootTraffic(p, es[..|es| - 1], first, k);
    }
  }

  lemma PassDates(before: seq<Event>, d: Date, clock: string)
    ensures var es := before + [Pass(d, clock)];
      && LastDate(es) == Some(d)
      && FirstDate(es) == (if FirstDate(before).Some? then FirstDate(before) else Some(d))
      && forall p, first, k :: TrafficIn(p, es, first, k) == TrafficIn(p, before, first, k)
  {
    var es := before + [Pass(d, clock)];
    assert es[..|es| - 1] == before;
  }

  predicate Resetting(p: Period, r: Resets) {
    match p
    case Day => r.day
    case Week => r.week
    case Month => r.month
  }

  lemma FirstPass(p: Period, before: seq<Event>, d: Date)
    requires Steady(before) && LastDate(before).None? && Valid(d)
    ensures TrafficIn(p, before, Some(d), PeriodOf(p, Some(d), Some(d)))
         == if Resetting(p, Due(None, d)) then 0 else Present(p, before)
  {
    FirstAndLast(before);
    BootTraffic(p, before, Some(d), PeriodOf(p, Some(d), Some(d)));
    BootTraffic(p, before, None, None);
  }

  lemma NextPass(p: Period, before: seq<Event>, d: Date)
    requires Steady(before) && LastDate(before).Some? && Follows(LastDate(before), d)
    ensures var first := FirstDate(before);
      TrafficIn(p, before, first, PeriodOf(p, Some(d), first))
        == if Resetting(p, Due(LastDate(before), d)) then 0 else Present(p, before)
  {
    var (last, first) := (LastDate(before).value, FirstDate(before));
    FirstAndLast(before);
    if last != d {
      PeriodGrows(p, last, first);
      var (now, next) := (PeriodOf(p, Some(last), first).value, PeriodOf(p, Some(d), first).value);
      if now < next {
        NothingLater(p, before, first, next);
      }
    }
  }

  /** A pass keeps the traffic of a period or starts an empty one, as it is due. */
  lemma PassMovesOn(p: Period, before: seq<Event>, d: Date, clock: string)
    requires Steady(before) && Follows(LastDate(before), d)
    ensures Present(p, before + [Pass(d, clock)]) == if Resetting(p, Due(LastDate(before), d)) then 0 else Present(p, before)
  {
    PassDates(before, d, clock);
    FirstAndLast(before);
    if LastDate(before).None? {
      FirstPass(p, before, d);
    } else {
      NextPass(p, before, d);
    }
  }

  /** With steady samples the counters hold the traffic of the present date, of the present week from
      Monday on, and of the present month. */
  lemma {:induction false} CountersFollowTheCalendar(es: seq<Event>)
    requires Steady(es)
    ensures Run(es).day == Present(Day, es) && Run(es).week == Present(Week, es) && Run(es).month == Present(Month, es)
    ensures Knows(Run(es).seen, LastDate(es))
  {
    if es != [] {
      var before, e := es[..|es| - 1], es[|es| - 1];
      CountersFollowTheCalendar(before);
      match e
      case Traffic(n) =>
      case Pass(d, clock) =>
        assert es == before + [e];
        DecisionIsDue(Run(before).seen, LastDate(before), d, clock);
        PassMovesOn(Day, before, d, clock);
        PassMovesOn(Week, before, d, clock);
        PassMovesOn(Month, before, d, clock);
    }
  }

  /** Hence a day never exceeds its week or its month, and none exceeds the total. */
  lemma {:induction false} PeriodsAreNested(es: seq<Event>)
    requires Steady(es)
    ensures var s := Run(es);
      s.day <= s.week <= s.total && s.day <= s.month <= s.total
  {
    if es != [] {
      var before, e := es[..|es| - 1], es[|es| - 1];
      PeriodsAreNested(before);
      CountersFollowTheCalendar(before);
      match e
      case Traffic(n) =>
      case Pass(d, clock) =>
        DecisionIsDue(Run(before).seen, LastDate(before), d, clock);
        assert LastDate(before).Some? ==> Valid(LastDate(before).value);
    }
  }

  // Samples further apart

  lemma {:induction false} WdayAfter(d: Date, k: nat)
    requires Valid(d)
    ensures DaysAfter(d, k).wday == (d.wday + k) % 7
    decreases k
  {
    if k > 0 {
      WdayAfter(Tomorrow(d), k - 1);
      assert (Tomorrow(d).wday + (k - 1)) % 7 == (d.wday + k) % 7;
    }
  }

  lemma SameWeekday(d: Date, gap: nat)
    requires Valid(d)
    ensures DaysAfter(d, gap).wday == d.wday <==> gap % 7 == 0
  {
    WdayAfter(d, gap);
  }

  /** For any gap between two passes, the day counter is reset unless the gap is a multiple of seven
      days: a machine that sleeps for exactly a week goes on counting the old day. */
  lemma DayResetExactly(seen: Seen, d: Date, gap: nat, clock: string)
    requires Valid(d) && Remembers(seen, d)
    ensures |Asctime(DaysAfter(d, gap), clock)| >= 10
    ensures Decide(seen, Asctime(DaysAfter(d, gap), clock)).1.day <==> gap % 7 != 0
  {
    var d' := DaysAfter(d, gap);
    SameWeekday(d, gap);
    DayNames(d.wday, d'.wday);
    SubstringsTellTheDate(d', clock);
  }

  function Months(d: Date): int {
    d.year * 12 + d.month
  }

  lemma SameMonth(d: Date, e: Date)
    requires Valid(d) && Valid(e)
    ensures d.month == e.month <==> (Months(e) - Months(d)) % 12 == 0
  {
    var years := e.year - d.year;
    assert Months(e) - Months(d) == 12 * years + (e.month - d.month);
    assert (12 * years + (e.month - d.month)) % 12 == (e.month - d.month) % 12;
  }

  /** The month counter is reset unless the gap covers a multiple of twelve months. */
  lemma MonthResetExactly(seen: Seen, d: Date, gap: nat, clock: string)
    requires Valid(d) && Remembers(seen, d)
    ensures |Asctime(DaysAfter(d, gap), clock)| >= 10
    ensures Decide(seen, Asctime(DaysAfter(d, gap), clock)).1.month <==> (Months(DaysAfter(d, gap)) - Months(d)) % 12 != 0
  {
    var d' := DaysAfter(d, gap);
    MonthNames(d.month, d'.month);
    SubstringsTellTheDate(d', clock);
    SameMonth(d, d');
  }

  lemma {:induction false} NumAfter(d: Date, k: nat)
    requires Valid(d)
    ensures Num(DaysAfter(d, k)) >= Num(d) + k
    decreases k
  {
    if k > 0 {
      assert Num(Tomorrow(d)) > Num(d);
      NumAfter(Tomorrow(d), k - 1);
    }
  }

  lemma {:induction false} WdayBefore(d: Date, k: nat)
    requires Valid(d) && k <= SinceMonday(d)
    ensures SinceMonday(DaysBefore(d, k)) == SinceMonday(d) - k && Num(DaysBefore(d, k)) <= Num(d) - k
    decreases k
  {
    if k > 0 {
      assert Num(Yesterday(d)) < Num(d);
      WdayBefore(Yesterday(d), k - 1);
    }
  }

  /** Only a Monday is its own Monday. */
  lemma MondayItself(d: Date)
    requires Valid(d)
    ensures Monday(d).wday == MONDAY && (d.wday == MONDAY <==> d == Monday(d))
  {
    WdayBefore(d, SinceMonday(d));
  }

  /** The week counter is reset exactly when the pass is on a Monday, of a later week than the last pass, that
      has another day of the month than the Monday of that week. A week without a pass on its Monday goes on
      with the old count, and so does one that begins on the same day of the month. */
  lemma WeekResetExactly(seen: Seen, d: Date, gap: nat, clock: string)
    requires Valid(d) && Remembers(seen, d)
    ensures |Asctime(DaysAfter(d, gap), clock)| >= 10
    ensures var d' := DaysAfter(d, gap);
      (Decide(seen, Asctime(d', clock)).1.week <==>
         d' == Monday(d') && Monday(d) != Monday(d') && (seen.lastweek == 0 || Monday(d).dom != Monday(d').dom))
  {
    var d' := DaysAfter(d, gap);
    SubstringsTellTheDate(d', clock);
    DayNames(d'.wday, MONDAY);
    MondayItself(d');
    MondayItself(d);
    if d' == Monday(d) {
      NumAfter(d, gap);
      WdayBefore(d, SinceMonday(d));
      assert d' == d && d.wday == MONDAY;
    }
  }
}
