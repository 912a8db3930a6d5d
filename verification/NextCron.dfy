/**
 The next instant of a cron schedule: strategies/task-creation/cron/next.ts.
 */
module NextCron {
  import opened Wrappers
  import opened Calendar
  import opened JsDate
  import opened TimeStructs
  import opened CronSpec

  const MAXIMUM_YEAR_IN_FUTURE := 10

  // ----- the day the search settles on -------------------------------------

  /** The first day, from `from` on, whose month and date are listed. */
  ghost predicate FirstDate(c: CronModel, from: int, day: int) {
    && from <= day && DateMatches(c, day)
    && forall e :: from <= e < day ==> !DateMatches(c, e)
  }

  /**
   The search gets as far as `day`. It starts no month at or past January of `farthestYear`, but a
   month it starts before may move on to the first listed month of that year and look there too.
   */
  ghost predicate Reached(c: CronModel, from: int, farthestYear: int, day: int) {
    && MonthOf(from) < 12 * farthestYear
    && (MonthOf(day) < 12 * farthestYear
        || forall m :: 12 * farthestYear - 1 <= m < MonthOf(day) ==> !MonthMatches(c, m))
  }

  ghost predicate Target(c: CronModel, from: int, farthestYear: int, day: int) {
    FirstDate(c, from, day) && Reached(c, from, farthestYear, day)
  }

  /** The first listed month from `month` on. */
  function ListedMonth(months: seq<int>, month: int): int
    requires months != []
  {
    match NextIn(months, month % 12 + 1)
    case Some(next) => 12 * (month / 12) + next - 1
    case None => 12 * (month / 12 + 1) + months[0] - 1
  }

  /**
   Where the search gives up, after the last month it looks at: at once if it starts in the last year;
   on January 1 of that year if it looks at the December before; else after the first listed month of it.
   */
  function GivesUpOn(c: CronModel, from: int, farthestYear: int): int
    requires c.months != []
  {
    if 12 * farthestYear <= MonthOf(from) then from
    else if 12 in c.months then DayFromYear(farthestYear)
    else DayFromMonth(12 * farthestYear + c.months[0])
  }

  lemma GivesUpAfter(c: CronModel, from: int, farthestYear: int)
    requires c.WellFormed()
    ensures MonthOf(from) < 12 * farthestYear ==>
      GivesUpOn(c, from, farthestYear) == DayFromMonth(ListedMonth(c.months, 12 * farthestYear - 1) + 1)
  {
    hide DayFromMonth, DayFromYear, MonthOf;
    YearStart(farthestYear);
    ListFacts(c.months, 1, 12);
    var december := 12 * farthestYear - 1;
    assert december % 12 + 1 == 12 && december / 12 == farthestYear - 1;
  }

  // ----- the setters, on days ----------------------------------------------

  lemma DaySetters(t: int, v: int)
    ensures Day(WithDate(t, v)) == DayFromMonth(MonthOf(Day(t))) + v - 1
    ensures DateOf(Day(t)) == 1 ==> Day(WithMonth(t, v)) == DayFromMonth(12 * Year(t) + v)
    ensures DateOf(Day(t)) == 1 ==> Day(WithFullYear(t, v)) == DayFromMonth(12 * v + MonthInYear(Day(t)))
    ensures TimeOfDay(WithDate(t, v)) == TimeOfDay(WithMonth(t, v)) == TimeOfDay(WithFullYear(t, v)) == TimeOfDay(t)
  {
    hide DayFromMonth, MonthLength, DateOf;
    DivMod(MakeDay(Year(t), MonthInYear(Day(t)), v), TimeOfDay(t), MS_PER_DAY);
    DivMod(MakeDay(Year(t), v, DateOf(Day(t))), TimeOfDay(t), MS_PER_DAY);
    DivMod(MakeDay(v, MonthInYear(Day(t)), DateOf(Day(t))), TimeOfDay(t), MS_PER_DAY);
    assert 12 * Year(t) + MonthInYear(Day(t)) == MonthOf(Day(t));
  }

  lemma FirstOfMonth(month: int)
    ensures MonthOf(DayFromMonth(month)) == month && DateOf(DayFromMonth(month)) == 1
  {
    hide DayFromMonth, MonthLength;
    NextMonth(month);
    MonthOfIsUnique(DayFromMonth(month), month);
  }

  // ----- findNext ----------------------------------------------------------

  method FindNext(value: int, range: seq<int>) returns (next: Option<int>)
    ensures next == NextIn(range, value)
  {
    for i := 0 to |range|
      invariant NextIn(range, value) == NextIn(range[i..], value)
    {
      assert range[i..][1..] == range[i + 1..];
      if range[i] >= value {
        return Some(range[i]);
      }
    }
    return None;
  }

  // ----- the month and day search ------------------------------------------

  lemma ListedMonthIsFirst(c: CronModel, month: int)
    requires c.WellFormed()
    ensures var n := ListedMonth(c.months, month);
      && month <= n && MonthMatches(c, n)
      && forall k :: month <= k < n ==> !MonthMatches(c, k)
  {
    hide NextIn, Sorted;
    ListFacts(c.months, 1, 12);
    var n := ListedMonth(c.months, month);
    forall k | month <= k < n
      ensures !MonthMatches(c, k)
    {
      if k / 12 == month / 12 {
        assert month % 12 <= k % 12;
      } else {
        assert k / 12 == month / 12 + 1 && n / 12 == month / 12 + 1;
      }
    }
  }

  /** Moves to the first listed month, to its first day unless that is the current month. */
  method SeekMonth(ret: Date, c: CronModel)
    requires c.WellFormed()
    modifies ret
    ensures TimeOfDay(ret.time) == TimeOfDay(old(ret.time))
    ensures var m, n := MonthOf(Day(old(ret.time))), ListedMonth(c.months, MonthOf(Day(old(ret.time))));
      && MonthOf(Day(ret.time)) == n
      && (if n == m then ret.time == old(ret.time) else Day(ret.time) == DayFromMonth(n))
  {
    hide DayFromMonth, MonthLength, TimeOfDay, WithDate, WithMonth, WithFullYear, Day, DateOf, NextIn, Sorted;
    ListFacts(c.months, 1, 12);
    ghost var m := MonthOf(Day(ret.time));
    var next := FindNext(ret.GetMonth() + 1, c.months);
    match next
    case Some(next) =>
      if next - 1 != ret.GetMonth() {
        DaySetters(ret.time, 1);
        FirstOfMonth(m);
        ret.SetDate(1);
        DaySetters(ret.time, next - 1);
        ret.SetMonth(next - 1);
        FirstOfMonth(12 * (m / 12) + next - 1);
      }
    case None =>
      DaySetters(ret.time, 1);
      FirstOfMonth(m);
      ret.SetDate(1);
      DaySetters(ret.time, c.months[0] - 1);
      ret.SetMonth(c.months[0] - 1);
      FirstOfMonth(12 * (m / 12) + c.months[0] - 1);
      DaySetters(ret.time, Year(ret.time) + 1);
      ret.SetFullYear(ret.GetFullYear() + 1);
      FirstOfMonth(12 * (m / 12 + 1) + c.months[0] - 1);
  }

  datatype DayStep = Match | Same | Inc

  /** Days of one month are consecutive, and their dates count from one. */
  lemma DaysOfMonth(day: int, e: int)
    requires MonthOf(e) == MonthOf(day)
      || DayFromMonth(MonthOf(day)) <= e < DayFromMonth(MonthOf(day)) + MonthLength(MonthOf(day))
    ensures MonthOf(e) == MonthOf(day) && DateOf(e) == DateOf(day) + (e - day)
  {
    hide DayFromMonth, MonthLength;
    NextMonth(MonthOf(day));
    if MonthOf(e) != MonthOf(day) {
      MonthOfIsUnique(e, MonthOf(day));
    }
  }

  /** The day of this month that `setDate(next)` reaches, if the month is that long. */
  lemma SetDateStays(t: int, next: int)
    requires DateOf(Day(t)) <= next <= 31
    ensures var day, u := Day(t), WithDate(t, next);
      && Day(u) == day + (next - DateOf(day)) && TimeOfDay(u) == TimeOfDay(t)
      && (MonthInYear(Day(u)) == MonthInYear(day) <==> next <= MonthLength(MonthOf(day)))
      && (next <= MonthLength(MonthOf(day)) ==> MonthOf(Day(u)) == MonthOf(day) && DateOf(Day(u)) == next)
  {
    hide DayFromMonth, MonthLength, DateOf, TimeOfDay, WithDate;
    var day := Day(t);
    var m := MonthOf(day);
    DaySetters(t, next);
    DateBounds(day);
    NextMonth(m);
    if next <= MonthLength(m) {
      DaysOfMonth(day, day + (next - DateOf(day)));
    } else {
      NextMonth(m + 1);
      MonthOfIsUnique(day + (next - DateOf(day)), m + 1);
    }
  }

  lemma DateBounds(day: int)
    ensures day == DayFromMonth(MonthOf(day)) + DateOf(day) - 1
    ensures 1 <= DateOf(day) <= MonthLength(MonthOf(day))
  {
    hide DayFromMonth, MonthLength;
  }

  /** No listed date is passed over on the way to the next one, or to the end of the month. */
  lemma DatesPassed(c: CronModel, day: int, until: int)
    requires c.WellFormed() && day <= until <= DayFromMonth(MonthOf(day)) + MonthLength(MonthOf(day))
    requires forall x :: x in c.daysOfMonth && DateOf(day) <= x ==> DateOf(day) + (until - day) <= x
    ensures forall e :: day <= e < until ==> MonthOf(e) == MonthOf(day) && !DateMatches(c, e)
  {
    hide DayFromMonth, MonthLength, DateOf, Sorted;
    forall e | day <= e < until
      ensures MonthOf(e) == MonthOf(day) && !DateMatches(c, e)
    {
      DateBounds(day);
      DaysOfMonth(day, e);
    }
  }

  /** One pass of the inner loop: the next listed date of the current month, and whether its weekday fits. */
  method TryDay(ret: Date, c: CronModel) returns (step: DayStep)
    requires c.WellFormed() && MonthMatches(c, MonthOf(Day(ret.time)))
    modifies ret
    ensures var day, m := Day(old(ret.time)), MonthOf(Day(old(ret.time)));
      && TimeOfDay(ret.time) == TimeOfDay(old(ret.time))
      && (step.Inc? ==>
            && ret.time == old(ret.time)
            && forall e :: day <= e < DayFromMonth(m + 1) ==> !DateMatches(c, e))
      && (!step.Inc? ==>
            && MonthOf(Day(ret.time)) == m
            && FirstDate(c, day, Day(ret.time))
            && (step.Match? <==> WeekdayMatches(c, Day(ret.time))))
  {
    hide DayFromMonth, MonthLength, DateOf, TimeOfDay, WithDate, NextIn, Sorted, Day;
    ghost var day := Day(ret.time);
    DateBounds(day);
    NextMonth(MonthOf(day));
    ListFacts(c.daysOfMonth, 1, 31);
    ListFacts(c.daysOfWeek, 0, 6);
    var next := FindNext(ret.GetDate(), c.daysOfMonth);
    match next
    case Some(next) =>
      SetDateStays(ret.time, next);
      var trial := new Date(ret.time);
      trial.SetDate(next);
      if trial.GetMonth() != ret.GetMonth() {
        DatesPassed(c, day, DayFromMonth(MonthOf(day) + 1));
        return Inc;
      }
      DatesPassed(c, day, day + (next - DateOf(day)));
      ret.SetDate(next);
      var nextWeekDay := FindNext(ret.GetDay(), c.daysOfWeek);
      var isWeekMatch := nextWeekDay.Some? && nextWeekDay.value == ret.GetDay();
      return if isWeekMatch then Match else Same;
    case None =>
      DatesPassed(c, day, DayFromMonth(MonthOf(day) + 1));
      return Inc;
  }

  datatype SearchResult = Found | Exhausted | OutOfPasses

  /** Where the outer loop may stand: at the first day, or at the start of the month after a listed one. */
  ghost predicate Standing(c: CronModel, from: int, farthestYear: int, day: int) {
    && from <= day
    && (forall e :: from <= e < day ==> !DateMatches(c, e))
    && (day == from
        || (&& day == DayFromMonth(MonthOf(day))
            && MonthOf(from) < 12 * farthestYear
            && MonthOf(from) < MonthOf(day)
            && MonthMatches(c, MonthOf(day) - 1)
            && forall m :: 12 * farthestYear - 1 <= m < MonthOf(day) - 1 ==> !MonthMatches(c, m)))
  }

  /** Moving on to the first listed month passes over no listed day, and stays within reach. */
  lemma MonthsPassed(c: CronModel, from: int, farthestYear: int, day: int, next: int)
    requires c.WellFormed() && Standing(c, from, farthestYear, day) && MonthOf(day) < 12 * farthestYear
    requires MonthOf(next) == ListedMonth(c.months, MonthOf(day))
    requires if MonthOf(next) == MonthOf(day) then next == day else next == DayFromMonth(MonthOf(next))
    ensures from <= day <= next && MonthOf(day) <= MonthOf(next) && MonthMatches(c, MonthOf(next))
    ensures forall e :: from <= e < next ==> !DateMatches(c, e)
    ensures forall e :: MonthOf(e) == MonthOf(next) ==> Reached(c, from, farthestYear, e)
  {
    hide DayFromMonth, MonthLength, DateOf, NextIn, ListedMonth;
    ListedMonthIsFirst(c, MonthOf(day));
    if MonthOf(next) != MonthOf(day) {
      MonthsIncrease(MonthOf(day) + 1, MonthOf(next));
    }
    MonthOfIsMonotone(from, day);
    forall e | from <= e < next
      ensures !DateMatches(c, e)
    {
      if day <= e {
        MonthOfIsMonotone(day, e);
        MonthOfIsMonotone(e, next);
        if MonthOf(e) == MonthOf(next) {
          FirstOfMonth(MonthOf(next));
        }
      }
    }
  }

  /** A month without a listed day leaves the loop standing at the next month. */
  lemma MonthDone(c: CronModel, from: int, farthestYear: int, day: int, next: int)
    requires from <= day && (forall e :: from <= e < day ==> !DateMatches(c, e))
    requires MonthMatches(c, MonthOf(day)) && MonthOf(from) < 12 * farthestYear
    requires forall e :: day <= e < DayFromMonth(MonthOf(day) + 1) ==> !DateMatches(c, e)
    requires next == DayFromMonth(MonthOf(day) + 1)
    requires Reached(c, from, farthestYear, day)
    ensures Standing(c, from, farthestYear, next) && MonthOf(next) == MonthOf(day) + 1
  {
    hide DayFromMonth, MonthLength, DateOf;
    FirstOfMonth(MonthOf(day) + 1);
    MonthOfIsMonotone(from, day);
  }

  /** Standing at or past January of the last year, the search has nothing left to reach. */
  lemma NothingReached(c: CronModel, from: int, farthestYear: int, day: int, target: int)
    requires Standing(c, from, farthestYear, day) && 12 * farthestYear <= MonthOf(day)
    ensures !Target(c, from, farthestYear, target)
  {
    hide DayFromMonth, MonthLength, DateOf;
    if day <= target {
      MonthOfIsMonotone(day, target);
      assert day != from ==> MonthMatches(c, MonthOf(day) - 1);
    }
  }

  lemma StandsWhereItGivesUp(c: CronModel, from: int, farthestYear: int, day: int)
    requires c.WellFormed()
    requires Standing(c, from, farthestYear, day) && 12 * farthestYear <= MonthOf(day)
    ensures day == GivesUpOn(c, from, farthestYear)
  {
    hide DayFromMonth, DayFromYear, MonthLength, DateOf, ListedMonth;
    GivesUpAfter(c, from, farthestYear);
    ListedMonthIsFirst(c, 12 * farthestYear - 1);
    MonthOfIsMonotone(from, day);
  }

  /** The search settles on a day exactly when a listed date lies before the day it gives up on. */
  lemma HasTargetIff(c: CronModel, from: int, farthestYear: int)
    requires c.WellFormed()
    ensures forall day :: Target(c, from, farthestYear, day) <==>
      FirstDate(c, from, day) && day < GivesUpOn(c, from, farthestYear)
    ensures HasTarget(c, from, farthestYear) <==>
      exists day :: FirstDate(c, from, day) && day < GivesUpOn(c, from, farthestYear)
  {
    hide DayFromMonth, MonthLength, DateOf, GivesUpOn, FirstDate, Reached;
    forall day
      ensures Target(c, from, farthestYear, day) <==>
        FirstDate(c, from, day) && day < GivesUpOn(c, from, farthestYear)
    {
      if FirstDate(c, from, day) {
        ReachedIff(c, from, farthestYear, day);
      }
    }
    if HasTarget(c, from, farthestYear) {
      var day := TargetDay(c, from, farthestYear);
      assert FirstDate(c, from, day) && day < GivesUpOn(c, from, farthestYear);
    }
  }

  lemma ReachedIff(c: CronModel, from: int, farthestYear: int, day: int)
    requires c.WellFormed() && FirstDate(c, from, day)
    ensures Reached(c, from, farthestYear, day) <==> day < GivesUpOn(c, from, farthestYear)
  {
    hide DayFromMonth, DayFromYear, MonthLength, DateOf, ListedMonth;
    var last := ListedMonth(c.months, 12 * farthestYear - 1);
    GivesUpAfter(c, from, farthestYear);
    ListedMonthIsFirst(c, 12 * farthestYear - 1);
    MonthOfIsMonotone(from, day);
    if MonthOf(from) < 12 * farthestYear {
      if MonthOf(day) <= last {
        MonthsIncrease(MonthOf(day) + 1, last + 1);
      } else {
        MonthsIncrease(last + 1, MonthOf(day));
      }
    }
  }

  /**
   The two nested loops. `passes` bounds the passes of one run of the inner loop, which need not end:
   when the first listed date falls on a weekday that is not listed, the loop finds that date again.
   */
  method SearchDay(ret: Date, c: CronModel, farthestYear: int, passes: nat) returns (found: SearchResult)
    requires c.WellFormed() && 1 <= passes
    modifies ret
    ensures TimeOfDay(ret.time) == TimeOfDay(old(ret.time))
    ensures found.Found? ==>
      Target(c, Day(old(ret.time)), farthestYear, Day(ret.time)) && WeekdayMatches(c, Day(ret.time))
    ensures found.OutOfPasses? ==>
      Target(c, Day(old(ret.time)), farthestYear, Day(ret.time)) && !WeekdayMatches(c, Day(ret.time))
    ensures found.Exhausted? ==>
      && (forall day :: !Target(c, Day(old(ret.time)), farthestYear, day))
      && Day(ret.time) == GivesUpOn(c, Day(old(ret.time)), farthestYear)
  {
    hide DayFromMonth, MonthLength, DateOf, TimeOfDay, WithDate, WithMonth, NextIn, ListedMonth, Reached, Standing;
    hide Sorted, GivesUpOn;
    ghost var from := Day(ret.time);
    var searching := true;
    assert Standing(c, from, farthestYear, from) by {
      StartStanding(c, from, farthestYear);
    }
    while searching && ret.GetFullYear() < farthestYear
      invariant TimeOfDay(ret.time) == TimeOfDay(old(ret.time))
      invariant searching ==> Standing(c, from, farthestYear, Day(ret.time))
      invariant !searching ==> Target(c, from, farthestYear, Day(ret.time)) && WeekdayMatches(c, Day(ret.time))
      decreases searching, 12 * farthestYear - MonthOf(Day(ret.time))
    {
      ghost var day := Day(ret.time);
      SeekMonth(ret, c);
      ghost var start := ret.time;
      MonthsPassed(c, from, farthestYear, day, Day(start));
      var sameMonth := true;
      var left := passes;
      ghost var stuck := false;
      while sameMonth
        invariant TimeOfDay(ret.time) == TimeOfDay(start)
        invariant MonthOf(Day(ret.time)) == MonthOf(Day(start))
        invariant sameMonth && !stuck ==> searching && ret.time == start && left == passes
        invariant sameMonth && stuck ==>
          Target(c, from, farthestYear, Day(ret.time)) && !WeekdayMatches(c, Day(ret.time))
        invariant !sameMonth && !searching ==>
          Target(c, from, farthestYear, Day(ret.time)) && WeekdayMatches(c, Day(ret.time))
        invariant !sameMonth && searching ==>
          && ret.time == start
          && forall e :: Day(start) <= e < DayFromMonth(MonthOf(Day(start)) + 1) ==> !DateMatches(c, e)
        decreases sameMonth, left
      {
        if left == 0 {
          return OutOfPasses;
        }
        left := left - 1;
        var res := TryDay(ret, c);
        match res
        case Match =>
          searching := false;
          sameMonth := false;
        case Inc =>
          sameMonth := false;
        case Same =>
          stuck := true;
      }
      if searching {
        DaySetters(ret.time, 1);
        ret.SetDate(1);
        FirstOfMonth(MonthOf(Day(start)));
        DaySetters(ret.time, MonthInYear(Day(ret.time)) + 1);
        ret.SetMonth(ret.GetMonth() + 1);
        MonthDone(c, from, farthestYear, Day(start), Day(ret.time));
      }
    }
    if searching {
      forall day {
        NothingReached(c, from, farthestYear, Day(ret.time), day);
      }
      StandsWhereItGivesUp(c, from, farthestYear, Day(ret.time));
      return Exhausted;
    }
    return Found;
  }

  lemma StartStanding(c: CronModel, from: int, farthestYear: int)
    ensures Standing(c, from, farthestYear, from)
  {
  }

  // ----- nextCronTime ------------------------------------------------------

  /** `NoTime` is the source's null; `StillSearching` is a call that has not returned. */
  datatype CronResult = FiresAt(t: int) | NoTime | StillSearching | InvalidDate

  /** The instant whose fields are searched: `fromUTC` adds the offset. */
  function Shifted(model: ScheduleCronModel, t: int): int {
    t + model.utcOffsetMinutes * MS_PER_MINUTE
  }

  function FarthestYear(now: int): int {
    Year(now) + MAXIMUM_YEAR_IN_FUTURE
  }

  /** After both `now` and the schedule's own start. */
  predicate IsAfter(model: ScheduleCronModel, now: int, t: int) {
    now < t && (model.startAfter.Some? ==> FromTimeStruct(model.startAfter.value) < t)
  }

  predicate IsBeforeEnd(model: ScheduleCronModel, t: int) {
    model.endBy.Some? ==> t < FromTimeStruct(model.endBy.value)
  }

  /** What the requester's clock shows at an instant. The offset is what moves that clock to UTC. */
  function RequesterClock(model: ScheduleCronModel, t: int): int {
    t - model.utcOffsetMinutes * MS_PER_MINUTE
  }

  /** The schedule's fields, read where the search reads them. */
  predicate Fits(model: ScheduleCronModel, t: int) {
    Matches(model.cron, Shifted(model, t))
  }

  function NextSecond(t: int): int {
    WithMilliseconds(WithSeconds(t, Second(t) + 1), 0)
  }

  /** The first whole second that is late enough, shifted. */
  function ShiftedStart(model: ScheduleCronModel, now: int): int {
    var after := match model.startAfter
      case Some(ts) => if now < FromTimeStruct(ts) then FromTimeStruct(ts) else now
      case None => now;
    Shifted(model, NextSecond(after))
  }

  ghost predicate HasTarget(c: CronModel, from: int, farthestYear: int) {
    exists day :: Target(c, from, farthestYear, day)
  }

  ghost function TargetDay(c: CronModel, from: int, farthestYear: int): (day: int)
    requires HasTarget(c, from, farthestYear)
    ensures Target(c, from, farthestYear, day)
  {
    var day :| Target(c, from, farthestYear, day); day
  }

  /** The aligned time that every answer shows, and the first day it can be shown on. */
  function AlignedStart(model: ScheduleCronModel, now: int): int
    requires model.cron.HasTimes()
  {
    Aligned(model.cron, ShiftedStart(model, now))
  }

  /** The search from the aligned day has a listed date to settle on. */
  ghost predicate DateInReach(model: ScheduleCronModel, now: int)
    requires model.cron.WellFormed()
  {
    HasTarget(model.cron, Day(AlignedStart(model, now)), FarthestYear(now))
  }

  ghost function DateReached(model: ScheduleCronModel, now: int): (day: int)
    requires model.cron.WellFormed() && DateInReach(model, now)
    ensures FirstDate(model.cron, Day(AlignedStart(model, now)), day)
  {
    TargetDay(model.cron, Day(AlignedStart(model, now)), FarthestYear(now))
  }

  predicate InTime(model: ScheduleCronModel, now: int, t: int) {
    IsBeforeEnd(model, t) && Year(t) < FarthestYear(now)
  }

  /** The instant the search has arrived at, shifted back, and dropped when it is too late. */
  function Answer(model: ScheduleCronModel, now: int, shifted: int): CronResult {
    var t := shifted - model.utcOffsetMinutes * MS_PER_MINUTE;
    if InTime(model, now, t) then FiresAt(t) else NoTime
  }

  /** What `nextCronTime` answers: the aligned time on the first listed date in reach. */
  ghost function NextTime(model: ScheduleCronModel, now: int): (r: CronResult)
    requires model.cron.WellFormed()
    ensures !r.InvalidDate?
  {
    var aligned := AlignedStart(model, now);
    if !IsBeforeEnd(model, now) then NoTime
    else if !DateInReach(model, now) then
      Answer(model, now, OnDay(aligned, GivesUpOn(model.cron, Day(aligned), FarthestYear(now))))
    else if WeekdayMatches(model.cron, DateReached(model, now)) then
      Answer(model, now, OnDay(aligned, DateReached(model, now)))
    else StillSearching
  }

  /** The first listed date from the aligned day on lies where the search looks, and its weekday is not listed. */
  ghost predicate Hangs(model: ScheduleCronModel, now: int)
    requires model.cron.WellFormed()
  {
    var from := Day(AlignedStart(model, now));
    && IsBeforeEnd(model, now)
    && exists day ::
         && FirstDate(model.cron, from, day) && day < GivesUpOn(model.cron, from, FarthestYear(now))
         && !WeekdayMatches(model.cron, day)
  }

  lemma HangsIff(model: ScheduleCronModel, now: int)
    requires model.cron.WellFormed()
    ensures NextTime(model, now).StillSearching? <==> Hangs(model, now)
    ensures model.cron.EveryWeekday() ==> !Hangs(model, now)
  {
    hide DayFromMonth, MonthLength, DateOf, Aligned, ShiftedStart, FromTimeStruct, OnDay, GivesUpOn, YearOf;
    hide Target, FirstDate, Day, FarthestYear;
    var from := Day(AlignedStart(model, now));
    HasTargetIff(model.cron, from, FarthestYear(now));
    forall day, other | FirstDate(model.cron, from, day) && FirstDate(model.cron, from, other)
      ensures day == other
    {
      FirstDateIsUnique(model.cron, from, day, other);
    }
  }

  lemma FirstDateIsUnique(c: CronModel, from: int, day: int, other: int)
    requires FirstDate(c, from, day) && FirstDate(c, from, other)
    ensures day == other
  {
  }

  /** With an empty list the first carry into it sets an undefined value, and the date stays invalid. */
  function WithoutList(model: ScheduleCronModel, now: int): CronResult
    requires model.cron.HasTimes() ==> model.cron.months == []
  {
    if !IsBeforeEnd(model, now) then NoTime
    else if !model.cron.HasTimes() || Year(AlignedStart(model, now)) < FarthestYear(now) then InvalidDate
    else Answer(model, now, AlignedStart(model, now))
  }

  method AlignTime(ret: Date, c: CronModel)
    requires c.HasTimes()
    modifies ret
    ensures ret.time == Aligned(c, old(ret.time))
  {
    hide DayFromMonth, MonthLength, DateOf, NextIn, Sorted, Day, Hour, Minute, Second;
    hide WithSeconds, WithMinutes, WithHours, WithDate;
    var next := FindNext(ret.GetSeconds(), c.seconds);
    match next {
      case Some(next) => ret.SetSeconds(next);
      case None =>
        ret.SetSeconds(c.seconds[0]);
        ret.SetMinutes(ret.GetMinutes() + 1);
    }
    next := FindNext(ret.GetMinutes(), c.minutes);
    match next {
      case Some(next) => ret.SetMinutes(next);
      case None =>
        ret.SetMinutes(c.minutes[0]);
        ret.SetHours(ret.GetHours() + 1);
    }
    next := FindNext(ret.GetHours(), c.hours);
    match next {
      case Some(next) => ret.SetHours(next);
      case None =>
        ret.SetHours(c.hours[0]);
        ret.SetDate(ret.GetDate() + 1);
    }
  }

  /** For every positive bound on the passes. The one case in which the bound is used up is a call that hangs. */
  method NextCronTime(model: ScheduleCronModel, now: int, passes: nat) returns (r: CronResult)
    requires model.cron.InOrder() && 1 <= passes
    ensures model.cron.WellFormed() ==> r == NextTime(model, now) && (r.StillSearching? <==> Hangs(model, now))
    ensures !model.cron.WellFormed() ==> r == WithoutList(model, now)
  {
    hide DayFromMonth, MonthLength, DateOf, TimeOfDay, Aligned, Day, FromTimeStruct, Second, Minute, Millisecond;
    hide WithSeconds, WithMilliseconds, WithMinutes, Sorted, GivesUpOn, Target, OnDay, YearOf, Hangs;
    var c := model.cron;
    if c.WellFormed() {
      HangsIff(model, now);
    }
    var ret := new Date(now);
    if model.startAfter.Some? && ret.time < FromTimeStruct(model.startAfter.value) {
      ret := new Date(FromTimeStruct(model.startAfter.value));
    }
    var farthestYear := Year(now) + MAXIMUM_YEAR_IN_FUTURE;
    ret.SetSeconds(ret.GetSeconds() + 1);
    ret.SetMilliseconds(0);
    if model.endBy.Some? && now >= FromTimeStruct(model.endBy.value) {
      return NoTime;
    }
    ret := new Date(ret.time + model.utcOffsetMinutes * MS_PER_MINUTE);
    assert ret.time == ShiftedStart(model, now);
    if !c.HasTimes() {
      return InvalidDate;
    }
    AlignTime(ret, c);
    ghost var aligned := ret.time;
    if c.months == [] {
      if ret.GetFullYear() < farthestYear {
        return InvalidDate;
      }
    } else {
      var found := SearchDay(ret, c, farthestYear, passes);
      FieldsOnDay(aligned, Day(ret.time));
      SameTimeOnDay(aligned, ret.time);
      if found.OutOfPasses? {
        TargetIsUnique(c, Day(aligned), farthestYear, Day(ret.time));
        return StillSearching;
      }
      if found.Found? {
        TargetIsUnique(c, Day(aligned), farthestYear, Day(ret.time));
      }
    }
    SettersShift(ret.time, Minute(ret.time) - model.utcOffsetMinutes);
    ret.SetMinutes(ret.GetMinutes() - model.utcOffsetMinutes);
    if (model.endBy.Some? && ret.time >= FromTimeStruct(model.endBy.value)) || ret.GetFullYear() >= farthestYear {
      return NoTime;
    }
    return FiresAt(ret.time);
  }

  lemma SameTimeOnDay(t: int, u: int)
    requires TimeOfDay(t) == TimeOfDay(u)
    ensures u == OnDay(t, Day(u))
  {
  }

  lemma TargetIsUnique(c: CronModel, from: int, farthestYear: int, day: int)
    requires Target(c, from, farthestYear, day)
    ensures HasTarget(c, from, farthestYear) && TargetDay(c, from, farthestYear) == day
  {
    hide DayFromMonth, MonthLength, DateOf;
  }
}
