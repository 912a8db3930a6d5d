/** The carries of `nextCronTime` do not reset the fields below: when its time of day is still the earliest. */
module CronCarries {
  import opened Wrappers
  import opened Calendar
  import opened JsDate
  import opened CronSpec

  // ----- the earliest listed time of a day ----------------------------------

  /** The aligned time on a day, with every field below the highest one that moved forward set to its first value. */
  function EarliestOn(c: CronModel, start: int, day: int): int
    requires c.WellFormed()
  {
    var r := OnDay(Aligned(c, start), day);
    var dayMoves := day != Day(start);
    var hourMoves := dayMoves || Hour(r) != Hour(start);
    var minuteMoves := hourMoves || Minute(r) != Minute(start);
    var hour := if dayMoves then c.hours[0] else Hour(r);
    var minute := if hourMoves then c.minutes[0] else Minute(r);
    At(60 * (24 * day + hour) + minute, if minuteMoves then c.seconds[0] else Second(r))
  }

  lemma EarliestFields(c: CronModel, start: int, day: int)
    requires c.WellFormed() && Millisecond(start) == 0 && Day(Aligned(c, start)) <= day
    ensures var e := EarliestOn(c, start, day);
      && Day(e) == day && TimeMatches(c, e) && start <= e
      && (e == OnDay(Aligned(c, start), day) || e < OnDay(Aligned(c, start), day))
  {
    hide Day, Hour, Minute, Second, Millisecond, MinuteCount, HourCount, OnDay, Aligned, At;
    var a, r, e := Aligned(c, start), OnDay(Aligned(c, start), day), EarliestOn(c, start, day);
    AlignedMeaning(c, start, start);
    CountsOrder(start, a);
    FieldsOnDay(a, day);
    ListFacts(c.seconds, 0, 59);
    ListFacts(c.minutes, 0, 59);
    ListFacts(c.hours, 0, 23);
    AtDay(day, if day != Day(start) then c.hours[0] else Hour(r),
          if day != Day(start) || Hour(r) != Hour(start) then c.minutes[0] else Minute(r),
          if day != Day(start) || Hour(r) != Hour(start) || Minute(r) != Minute(start) then c.seconds[0]
          else Second(r));
    Whole(r, e);
    if day == Day(start) {
      TimeOrder(start, a);
      TimeOrder(start, e);
    } else {
      InOrder(start, e);
    }
  }

  /** Whole seconds of one day are compared by their fields. */
  lemma Whole(r: int, e: int)
    requires Day(r) == Day(e) && Millisecond(r) == Millisecond(e) == 0
    ensures r == e <==> Hour(r) == Hour(e) && Minute(r) == Minute(e) && Second(r) == Second(e)
    ensures e < r <==>
      (Hour(e) < Hour(r)
       || (Hour(e) == Hour(r) && (Minute(e) < Minute(r) || (Minute(e) == Minute(r) && Second(e) < Second(r)))))
  {
    hide Day, Hour, Minute, Second, Millisecond;
    TimeOrder(e, r);
    TimeOrder(r, e);
  }

  /** No listed time from the start on is earlier on that day. */
  lemma EarliestIs(c: CronModel, start: int, day: int, u: int)
    requires c.WellFormed() && Millisecond(start) == 0 && Day(Aligned(c, start)) <= day
    requires start <= u && TimeMatches(c, u) && Day(u) == day
    ensures EarliestOn(c, start, day) <= u
  {
    hide Day, Hour, Minute, Second, Millisecond, MinuteCount, HourCount, OnDay, Aligned, At;
    var a, r, e := Aligned(c, start), OnDay(Aligned(c, start), day), EarliestOn(c, start, day);
    AlignedMeaning(c, start, u);
    CountsOrder(start, a);
    FieldsOnDay(a, day);
    ListFacts(c.seconds, 0, 59);
    ListFacts(c.minutes, 0, 59);
    ListFacts(c.hours, 0, 23);
    AtDay(day, if day != Day(start) then c.hours[0] else Hour(r),
          if day != Day(start) || Hour(r) != Hour(start) then c.minutes[0] else Minute(r),
          if day != Day(start) || Hour(r) != Hour(start) || Minute(r) != Minute(start) then c.seconds[0]
          else Second(r));
    Whole(e, u);
    Counts(a);
    Counts(u);
    Counts(start);
    if day == Day(start) && Hour(a) == Hour(start) && Hour(u) == Hour(start) {
      AlignedWithinHour(c, start, u);
    }
  }

  // ----- told by the lists -----------------------------------------------------

  /** The next listed value is the first one, or there is none and the first one is taken. */
  predicate AtFirst(xs: seq<int>, v: int)
    requires xs != []
  {
    NextIn(xs, v).None? || NextIn(xs, v).value == xs[0]
  }

  /** The minute that is looked for, from 0 to 60: one more when no listed second is left. */
  function MinuteAsked(c: CronModel, start: int): (minute: int)
    ensures 0 <= minute <= 60
  {
    Minute(start) + if NextIn(c.seconds, Second(start)).None? then 1 else 0
  }

  /** The hour that is looked for, from 0 to 24: one more when no listed minute is left. */
  function HourAsked(c: CronModel, start: int): (hour: int)
    ensures 0 <= hour <= 24
  {
    Hour(start) + if MinuteAsked(c, start) == 60 || NextIn(c.minutes, MinuteAsked(c, start)).None? then 1 else 0
  }

  /**
   Nothing lags: if the day moves on, the aligned hour, minute and second are the first listed ones; else
   if the hour does, the minute and second are; else if the minute does, the second is.
   */
  predicate NothingLags(c: CronModel, start: int, dayMoves: bool)
    requires c.WellFormed()
  {
    var minute, hour := MinuteAsked(c, start) % 60, HourAsked(c, start) % 24;
    var hourMoves := dayMoves || NextIn(c.hours, hour) != Some(Hour(start));
    var minuteMoves := hourMoves || NextIn(c.minutes, minute) != Some(Minute(start));
    && (dayMoves ==> AtFirst(c.hours, hour))
    && (hourMoves ==> AtFirst(c.minutes, minute))
    && (minuteMoves ==> AtFirst(c.seconds, Second(start)))
  }

  function NextOrFirst(xs: seq<int>, v: int): int
    requires xs != []
  {
    if NextIn(xs, v).Some? then NextIn(xs, v).value else xs[0]
  }

  lemma SecondStep(xs: seq<int>, t: int)
    requires ValuesIn(xs, 0, 59) && Millisecond(t) == 0
    ensures var a := AlignSecond(xs, t);
      && Millisecond(a) == 0 && Second(a) == NextOrFirst(xs, Second(t))
      && MinuteCount(a) == MinuteCount(t) + if NextIn(xs, Second(t)).None? then 1 else 0
  {
    hide Day, Hour, Minute, Second, Millisecond, MinuteCount, HourCount, DateOf, NextIn, Sorted;
    hide WithSeconds, WithMinutes, WithHours, WithDate, DayFromMonth, MonthLength, At;
    ListFacts(xs, 0, 59);
    match NextIn(xs, Second(t))
    case Some(next) =>
      SettersAt(t, next);
      FieldsAt(MinuteCount(t), next);
    case None =>
      NextMinute(t, xs[0]);
      FieldsAt(MinuteCount(t) + 1, xs[0]);
  }

  /** The fields of the aligned time, and whether it is on the next day. */
  lemma AlignedFields(c: CronModel, t: int)
    requires c.WellFormed() && Millisecond(t) == 0
    ensures var a, minute, hour := Aligned(c, t), MinuteAsked(c, t), HourAsked(c, t);
      && Second(a) == NextOrFirst(c.seconds, Second(t))
      && Minute(a) == NextOrFirst(c.minutes, minute % 60)
      && Hour(a) == NextOrFirst(c.hours, hour % 24)
      && (HourCount(a) == HourCount(t) ==> hour == Hour(t) && minute < 60 && NextIn(c.minutes, minute).Some?)
      && (Day(a) == Day(t) <==> hour < 24 && NextIn(c.hours, hour).Some?)
  {
    hide Day, Hour, Minute, Second, Millisecond, MinuteCount, HourCount, NextIn, Sorted;
    hide AlignSecond, AlignMinute, AlignHour, DayFromMonth, MonthLength;
    var t1 := AlignSecond(c.seconds, t);
    var t2 := AlignMinute(c.minutes, t1);
    var t3 := AlignHour(c.hours, t2);
    SecondStep(c.seconds, t);
    MinuteStep(c.minutes, t1);
    HourStep(c.hours, t2);
    ListFacts(c.minutes, 0, 59);
    ListFacts(c.hours, 0, 23);
    Counts(t);
    Counts(t1);
    Counts(t2);
    Counts(t3);
    SplitCount(HourCount(t), MinuteAsked(c, t), HourCount(t1), Minute(t1), 60);
    SplitCount(Day(t), HourAsked(c, t), Day(t2), Hour(t2), 24);
  }

  /** A field that has counted up to its length starts again, and the field above counts one more. */
  lemma SplitCount(q: int, r: int, p: int, e: int, k: int)
    requires 0 <= r <= k && 0 <= e < k && k * q + r == k * p + e && 0 < k
    ensures e == r % k && p == q + if r == k then 1 else 0
  {
    if r == k {
      SameQuotient(q + 1, 0, p, e, k);
    } else {
      SameQuotient(q, r, p, e, k);
    }
  }

  /** The aligned time is the earliest of its day exactly if nothing lags. */
  lemma LagsIff(c: CronModel, start: int, day: int)
    requires c.WellFormed() && Millisecond(start) == 0 && Day(Aligned(c, start)) <= day
    ensures OnDay(Aligned(c, start), day) == EarliestOn(c, start, day) <==> NothingLags(c, start, day != Day(start))
  {
    hide Day, Hour, Minute, Second, Millisecond, MinuteCount, HourCount, OnDay, Aligned, At, NextIn;
    hide MinuteAsked, HourAsked;
    var a, r, e := Aligned(c, start), OnDay(Aligned(c, start), day), EarliestOn(c, start, day);
    AlignedMeaning(c, start, start);
    AlignedFields(c, start);
    CountsOrder(start, a);
    FieldsOnDay(a, day);
    ListFacts(c.seconds, 0, 59);
    ListFacts(c.minutes, 0, 59);
    ListFacts(c.hours, 0, 23);
    AtDay(day, if day != Day(start) then c.hours[0] else Hour(r),
          if day != Day(start) || Hour(r) != Hour(start) then c.minutes[0] else Minute(r),
          if day != Day(start) || Hour(r) != Hour(start) || Minute(r) != Minute(start) then c.seconds[0]
          else Second(r));
    Whole(r, e);
    Counts(a);
    Counts(start);
  }
}
