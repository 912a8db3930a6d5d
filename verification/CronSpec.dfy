/**
 What a cron schedule asks for, and the alignment of the clock fields.

 `strategies/task-creation/cron/api.ts` and the first half of `next.ts`.
 */
module CronSpec {
  import opened Wrappers
  import opened Calendar
  import opened JsDate
  import opened TimeStructs

  datatype CronModel = CronModel(
    seconds: seq<int>, minutes: seq<int>, hours: seq<int>,
    daysOfMonth: seq<int>, months: seq<int>, daysOfWeek: seq<int>)
  {
    /** Sorted lists of values in range, as the parser makes them. */
    predicate InOrder() {
      && OrderedIn(seconds, 0, 59)
      && OrderedIn(minutes, 0, 59)
      && OrderedIn(hours, 0, 23)
      && OrderedIn(daysOfMonth, 1, 31)
      && OrderedIn(months, 1, 12)
      && OrderedIn(daysOfWeek, 0, 6)
    }

    /** Besides, the lists whose first value a carry sets are not empty. */
    predicate WellFormed() {
      && ValuesIn(seconds, 0, 59)
      && ValuesIn(minutes, 0, 59)
      && ValuesIn(hours, 0, 23)
      && OrderedIn(daysOfMonth, 1, 31)
      && ValuesIn(months, 1, 12)
      && OrderedIn(daysOfWeek, 0, 6)
    }

    predicate HasTimes() {
      seconds != [] && minutes != [] && hours != []
    }

    ghost predicate EveryWeekday() {
      forall w :: 0 <= w <= 6 ==> w in daysOfWeek
    }

    predicate OneTimeOfDay() {
      |seconds| == 1 && |minutes| == 1 && |hours| == 1
    }
  }

  predicate ValuesIn(xs: seq<int>, lo: int, hi: int) {
    xs != [] && OrderedIn(xs, lo, hi)
  }

  predicate OrderedIn(xs: seq<int>, lo: int, hi: int) {
    Sorted(xs) && forall i :: 0 <= i < |xs| ==> lo <= xs[i] <= hi
  }

  predicate Sorted(xs: seq<int>) {
    forall i, j :: 0 <= i < j < |xs| ==> xs[i] <= xs[j]
  }

  /**
   `utcOffsetMinutes` is what moves the requester's clock to UTC: -330 in India, which is five and a half
   hours ahead.
   */
  datatype ScheduleCronModel = ScheduleCronModel(
    cron: CronModel, utcOffsetMinutes: int, startAfter: Option<TimeStruct>, endBy: Option<TimeStruct>)

  // ----- matching ---------------------------------------------------------

  predicate TimeMatches(c: CronModel, t: int) {
    && Millisecond(t) == 0
    && Second(t) in c.seconds
    && Minute(t) in c.minutes
    && Hour(t) in c.hours
  }

  predicate MonthMatches(c: CronModel, month: int) {
    month % 12 + 1 in c.months
  }

  predicate DateMatches(c: CronModel, day: int) {
    MonthMatches(c, MonthOf(day)) && DateOf(day) in c.daysOfMonth
  }

  predicate WeekdayMatches(c: CronModel, day: int) {
    WeekdayOf(day) in c.daysOfWeek
  }

  /** A fire opportunity: every field of the instant is in its list. */
  predicate Matches(c: CronModel, t: int) {
    TimeMatches(c, t) && DateMatches(c, Day(t)) && WeekdayMatches(c, Day(t))
  }

  // ----- aligning second, minute and hour ---------------------------------

  /** The first listed value that is not below `v`. */
  function NextIn(xs: seq<int>, v: int): (next: Option<int>)
    ensures next.Some? ==> next.value in xs && v <= next.value
    ensures next.None? ==> forall x :: x in xs ==> x < v
    ensures next.Some? && Sorted(xs) ==> forall x :: x in xs && v <= x ==> next.value <= x
  {
    if xs == [] then None
    else if v <= xs[0] then Some(xs[0])
    else
      assert xs == [xs[0]] + xs[1..];
      NextIn(xs[1..], v)
  }

  function AlignSecond(seconds: seq<int>, t: int): int
    requires seconds != []
  {
    match NextIn(seconds, Second(t))
    case Some(next) => WithSeconds(t, next)
    case None => var u := WithSeconds(t, seconds[0]); WithMinutes(u, Minute(u) + 1)
  }

  function AlignMinute(minutes: seq<int>, t: int): int
    requires minutes != []
  {
    match NextIn(minutes, Minute(t))
    case Some(next) => WithMinutes(t, next)
    case None => var u := WithMinutes(t, minutes[0]); WithHours(u, Hour(u) + 1)
  }

  function AlignHour(hours: seq<int>, t: int): int
    requires hours != []
  {
    match NextIn(hours, Hour(t))
    case Some(next) => WithHours(t, next)
    case None => var u := WithHours(t, hours[0]); WithDate(u, DateOf(Day(u)) + 1)
  }

  function Aligned(c: CronModel, t: int): int
    requires c.HasTimes()
  {
    AlignHour(c.hours, AlignMinute(c.minutes, AlignSecond(c.seconds, t)))
  }

  // The whole minutes and hours before an instant: its fields above the second, as one number.

  function MinuteCount(t: int): int { t / MS_PER_MINUTE }

  function HourCount(t: int): int { t / MS_PER_HOUR }

  /** The instant with a whole second in a numbered minute. */
  function At(minutes: int, second: int): int {
    MS_PER_MINUTE * minutes + MS_PER_SECOND * second
  }

  lemma Counts(t: int)
    ensures HourCount(t) == 24 * Day(t) + Hour(t)
    ensures MinuteCount(t) == 60 * HourCount(t) + Minute(t)
    ensures Millisecond(t) == 0 ==> t == At(MinuteCount(t), Second(t))
  {
    assert (t / 1000) / 60 == t / 60_000;
    assert (t / 60_000) / 60 == t / 3_600_000;
    assert (t / 3_600_000) / 24 == t / 86_400_000;
  }

  lemma FieldsAt(minutes: int, second: int)
    requires 0 <= second <= 59
    ensures var t := At(minutes, second);
      MinuteCount(t) == minutes && Second(t) == second && Millisecond(t) == 0
  {
    DivMod(minutes, MS_PER_SECOND * second, MS_PER_MINUTE);
    DivMod(60 * minutes + second, 0, MS_PER_SECOND);
    DivMod(minutes, second, 60);
  }

  lemma FieldsAtHour(hours: int, minute: int, second: int)
    requires 0 <= minute <= 59 && 0 <= second <= 59
    ensures var t := At(60 * hours + minute, second);
      HourCount(t) == hours && Minute(t) == minute && Second(t) == second && Millisecond(t) == 0
  {
    var t := At(60 * hours + minute, second);
    FieldsAt(60 * hours + minute, second);
    Counts(t);
    SameQuotient(hours, minute, HourCount(t), Minute(t), 60);
  }

  lemma FieldsAtDay(day: int, hour: int, minute: int, second: int)
    requires 0 <= hour <= 23 && 0 <= minute <= 59 && 0 <= second <= 59
    ensures var t := At(60 * (24 * day + hour) + minute, second);
      Day(t) == day && Hour(t) == hour && Minute(t) == minute && Second(t) == second && Millisecond(t) == 0
  {
    var t := At(60 * (24 * day + hour) + minute, second);
    FieldsAtHour(24 * day + hour, minute, second);
    Counts(t);
    SameQuotient(day, hour, Day(t), Hour(t), 24);
  }

  /** The setters on whole seconds, in counts. */
  lemma SettersAt(t: int, v: int)
    requires Millisecond(t) == 0
    ensures WithSeconds(t, v) == At(MinuteCount(t), v)
    ensures WithMinutes(t, v) == At(60 * HourCount(t) + v, Second(t))
    ensures WithHours(t, v) == At(60 * (24 * Day(t) + v) + Minute(t), Second(t))
    ensures WithDate(t, DateOf(Day(t)) + 1) == At(60 * (24 * (Day(t) + 1) + Hour(t)) + Minute(t), Second(t))
  {
    Counts(t);
    SettersShift(t, v);
    SettersShift(t, DateOf(Day(t)) + 1);
    hide Day, Hour, Minute, Second, Millisecond, MinuteCount, HourCount, DateOf;
    hide WithSeconds, WithMinutes, WithHours, WithDate, DayFromMonth, MonthLength;
  }

  lemma ListFacts(xs: seq<int>, lo: int, hi: int)
    requires OrderedIn(xs, lo, hi)
    ensures Sorted(xs) && (xs != [] ==> xs[0] in xs)
    ensures forall x :: x in xs ==> lo <= x <= hi && xs[0] <= x
  {
  }

  /** A later count with a smaller last field lies in a later block. */
  lemma LaterBlock(q: int, r: int, q0: int, r0: int, k: int)
    requires 0 <= r < r0 < k && k * q0 + r0 <= k * q + r
    ensures q0 + 1 <= q
  {
    AtLeastOnce(q0 - q, k);
  }

  /** The second's step: stay in the minute if a listed second is left in it, else go to the next minute. */
  lemma AlignedSecond(xs: seq<int>, t: int)
    requires ValuesIn(xs, 0, 59) && Millisecond(t) == 0
    ensures var a := AlignSecond(xs, t);
      && t <= a && Millisecond(a) == 0 && Second(a) in xs
      && (MinuteCount(a) == MinuteCount(t)
          || (MinuteCount(a) == MinuteCount(t) + 1 && forall x :: x in xs ==> x < Second(t)))
      && (MinuteCount(a) == MinuteCount(t) ==> forall x :: x in xs && Second(t) <= x ==> Second(a) <= x)
  {
    hide Day, Hour, Minute, Second, Millisecond, MinuteCount, HourCount, DateOf;
    hide WithSeconds, WithMinutes, WithHours, WithDate, DayFromMonth, MonthLength;
    var m, s := MinuteCount(t), Second(t);
    Counts(t);
    match NextIn(xs, s)
    case Some(next) =>
      SettersAt(t, next);
      FieldsAt(m, next);
    case None =>
      NextMinute(t, xs[0]);
      FieldsAt(m + 1, xs[0]);
  }

  lemma NextMinute(t: int, first: int)
    requires Millisecond(t) == 0 && 0 <= first <= 59
    ensures var u := WithSeconds(t, first); WithMinutes(u, Minute(u) + 1) == At(MinuteCount(t) + 1, first)
  {
    hide *;
    var u := At(MinuteCount(t), first);
    SettersAt(t, first);
    FieldsAt(MinuteCount(t), first);
    Counts(u);
    SettersAt(u, Minute(u) + 1);
  }

  /** The minute's step keeps the second, and passes over no listed minute. */
  lemma AlignedMinute(xs: seq<int>, t: int)
    requires ValuesIn(xs, 0, 59) && Millisecond(t) == 0
    ensures var a := AlignMinute(xs, t);
      && t <= a && Millisecond(a) == 0 && Second(a) == Second(t) && Minute(a) in xs
      && forall u :: MinuteCount(t) <= MinuteCount(u) && Minute(u) in xs ==> MinuteCount(a) <= MinuteCount(u)
  {
    hide Day, Hour, Minute, Second, Millisecond, MinuteCount, HourCount, DateOf;
    hide WithSeconds, WithMinutes, WithHours, WithDate, DayFromMonth, MonthLength;
    MinuteStep(xs, t);
    forall u | MinuteCount(t) <= MinuteCount(u) && Minute(u) in xs
      ensures MinuteAfter(xs, t) <= MinuteCount(u)
    {
      MinutesAhead(xs, t, u);
    }
  }

  /** The first minute, counted from the epoch, that is not before `t`'s and is listed. */
  function MinuteAfter(xs: seq<int>, t: int): int
    requires xs != []
  {
    match NextIn(xs, Minute(t))
    case Some(next) => 60 * HourCount(t) + next
    case None => 60 * (HourCount(t) + 1) + xs[0]
  }

  lemma MinutesAhead(xs: seq<int>, t: int, u: int)
    requires ValuesIn(xs, 0, 59) && MinuteCount(t) <= MinuteCount(u) && Minute(u) in xs
    ensures MinuteAfter(xs, t) <= MinuteCount(u)
  {
    hide Day, Hour, Minute, Second, Millisecond, MinuteCount, HourCount, DateOf;
    hide WithSeconds, WithMinutes, WithHours, WithDate, DayFromMonth, MonthLength;
    hide OrderedIn, Sorted, NextIn;
    ListFacts(xs, 0, 59);
    Counts(t);
    Counts(u);
    if Minute(u) < Minute(t) {
      LaterBlock(HourCount(u), Minute(u), HourCount(t), Minute(t), 60);
    }
  }

  lemma MinuteStep(xs: seq<int>, t: int)
    requires ValuesIn(xs, 0, 59) && Millisecond(t) == 0
    ensures var a := AlignMinute(xs, t);
      && t <= a && MinuteCount(a) == MinuteAfter(xs, t)
      && Millisecond(a) == 0 && Second(a) == Second(t) && Minute(a) in xs
  {
    hide Day, Hour, Minute, Second, Millisecond, MinuteCount, HourCount, DateOf;
    hide WithSeconds, WithMinutes, WithHours, WithDate, DayFromMonth, MonthLength;
    hide At;
    Counts(t);
    Later(MinuteCount(t), MinuteAfter(xs, t), Second(t));
    match NextIn(xs, Minute(t))
    case Some(next) =>
      SettersAt(t, next);
      AtHour(HourCount(t), next, Second(t));
    case None =>
      NextHour(t, xs[0]);
      AtHour(HourCount(t) + 1, xs[0], Second(t));
  }

  lemma Later(m: int, n: int, second: int)
    requires m <= n
    ensures At(m, second) <= At(n, second)
  {
  }

  lemma AtHour(hours: int, minute: int, second: int)
    requires 0 <= minute <= 59 && 0 <= second <= 59
    ensures var t := At(60 * hours + minute, second);
      && MinuteCount(t) == 60 * hours + minute && HourCount(t) == hours
      && Minute(t) == minute && Second(t) == second && Millisecond(t) == 0
  {
    FieldsAt(60 * hours + minute, second);
    FieldsAtHour(hours, minute, second);
  }

  lemma NextHour(t: int, first: int)
    requires Millisecond(t) == 0 && 0 <= first <= 59
    ensures var u := WithMinutes(t, first);
      WithHours(u, Hour(u) + 1) == At(60 * (HourCount(t) + 1) + first, Second(t))
  {
    hide *;
    var u := At(60 * HourCount(t) + first, Second(t));
    SettersAt(t, first);
    AtHour(HourCount(t), first, Second(t));
    Counts(u);
    SettersAt(u, Hour(u) + 1);
  }

  /** The hour's step keeps minute and second, and passes over no listed hour. */
  lemma AlignedHour(xs: seq<int>, t: int)
    requires ValuesIn(xs, 0, 23) && Millisecond(t) == 0
    ensures var a := AlignHour(xs, t);
      && t <= a && Millisecond(a) == 0 && Second(a) == Second(t) && Minute(a) == Minute(t) && Hour(a) in xs
      && forall u :: HourCount(t) <= HourCount(u) && Hour(u) in xs ==> HourCount(a) <= HourCount(u)
  {
    hide Day, Hour, Minute, Second, Millisecond, MinuteCount, HourCount, DateOf;
    hide WithSeconds, WithMinutes, WithHours, WithDate, DayFromMonth, MonthLength;
    HourStep(xs, t);
    forall u | HourCount(t) <= HourCount(u) && Hour(u) in xs
      ensures HourAfter(xs, t) <= HourCount(u)
    {
      HoursAhead(xs, t, u);
    }
  }

  /** The first hour, counted from the epoch, that is not before `t`'s and is listed. */
  function HourAfter(xs: seq<int>, t: int): int
    requires xs != []
  {
    match NextIn(xs, Hour(t))
    case Some(next) => 24 * Day(t) + next
    case None => 24 * (Day(t) + 1) + xs[0]
  }

  lemma HoursAhead(xs: seq<int>, t: int, u: int)
    requires ValuesIn(xs, 0, 23) && HourCount(t) <= HourCount(u) && Hour(u) in xs
    ensures HourAfter(xs, t) <= HourCount(u)
  {
    hide Day, Hour, Minute, Second, Millisecond, MinuteCount, HourCount, DateOf;
    hide WithSeconds, WithMinutes, WithHours, WithDate, DayFromMonth, MonthLength;
    hide OrderedIn, Sorted, NextIn;
    ListFacts(xs, 0, 23);
    Counts(t);
    Counts(u);
    if Hour(u) < Hour(t) {
      LaterBlock(Day(u), Hour(u), Day(t), Hour(t), 24);
    }
  }

  lemma HourStep(xs: seq<int>, t: int)
    requires ValuesIn(xs, 0, 23) && Millisecond(t) == 0
    ensures var a := AlignHour(xs, t);
      && t <= a && HourCount(a) == HourAfter(xs, t)
      && Millisecond(a) == 0 && Second(a) == Second(t) && Minute(a) == Minute(t) && Hour(a) in xs
  {
    hide Day, Hour, Minute, Second, Millisecond, MinuteCount, HourCount, DateOf;
    hide WithSeconds, WithMinutes, WithHours, WithDate, DayFromMonth, MonthLength;
    hide At;
    Counts(t);
    Later(MinuteCount(t), 60 * HourAfter(xs, t) + Minute(t), Second(t));
    match NextIn(xs, Hour(t))
    case Some(next) =>
      SettersAt(t, next);
      AtDay(Day(t), next, Minute(t), Second(t));
    case None =>
      NextDay(t, xs[0]);
      AtDay(Day(t) + 1, xs[0], Minute(t), Second(t));
  }

  lemma AtDay(day: int, hour: int, minute: int, second: int)
    requires 0 <= hour <= 23 && 0 <= minute <= 59 && 0 <= second <= 59
    ensures var t := At(60 * (24 * day + hour) + minute, second);
      && HourCount(t) == 24 * day + hour && Day(t) == day
      && Hour(t) == hour && Minute(t) == minute && Second(t) == second && Millisecond(t) == 0
  {
    FieldsAtHour(24 * day + hour, minute, second);
    FieldsAtDay(day, hour, minute, second);
  }

  lemma NextDay(t: int, first: int)
    requires Millisecond(t) == 0 && 0 <= first <= 23
    ensures var u := WithHours(t, first);
      WithDate(u, DateOf(Day(u)) + 1) == At(60 * (24 * (Day(t) + 1) + first) + Minute(t), Second(t))
  {
    hide *;
    var u := At(60 * (24 * Day(t) + first) + Minute(t), Second(t));
    SettersAt(t, first);
    AtDay(Day(t), first, Minute(t), Second(t));
    Counts(u);
    SettersAt(u, first);
  }

  // ----- what the aligned instant is ---------------------------------------

  /**
   The aligned instant shows a listed time, is not before the start, and lies in the first
   hour (so also on the first day) that still has a listed time from the start on.
   */
  lemma AlignedMeaning(c: CronModel, t: int, u: int)
    requires c.WellFormed() && Millisecond(t) == 0
    ensures t <= Aligned(c, t) && TimeMatches(c, Aligned(c, t))
    ensures t <= u && TimeMatches(c, u) ==> HourCount(Aligned(c, t)) <= HourCount(u) && Day(Aligned(c, t)) <= Day(u)
  {
    hide Day, Hour, Minute, Second, Millisecond, MinuteCount, HourCount;
    hide AlignSecond, AlignMinute, AlignHour, DayFromMonth, MonthLength;
    var t1 := AlignSecond(c.seconds, t);
    var t2 := AlignMinute(c.minutes, t1);
    var t3 := AlignHour(c.hours, t2);
    AlignedSecond(c.seconds, t);
    AlignedMinute(c.minutes, t1);
    AlignedHour(c.hours, t2);
    if t <= u && TimeMatches(c, u) {
      CountsOrder(t, u);
      CountsOrder(t2, u);
      CountsOrder(t3, u);
      assert MinuteCount(t1) <= MinuteCount(u);
    }
  }

  /** Later instants have later counts; in the same minute, a later second. */
  lemma CountsOrder(t: int, u: int)
    ensures t <= u ==> MinuteCount(t) <= MinuteCount(u)
    ensures t <= u && MinuteCount(t) == MinuteCount(u) ==> Second(t) <= Second(u)
    ensures MinuteCount(t) <= MinuteCount(u) ==> HourCount(t) <= HourCount(u)
    ensures HourCount(t) <= HourCount(u) ==> Day(t) <= Day(u)
  {
    DivOrder(t, u, MS_PER_MINUTE);
    Counts(t);
    Counts(u);
    hide Day, Hour, Minute, MinuteCount, HourCount;
    if MinuteCount(t) <= MinuteCount(u) {
      BlockOrder(HourCount(t), Minute(t), HourCount(u), Minute(u), 60);
    }
    if HourCount(t) <= HourCount(u) {
      BlockOrder(Day(t), Hour(t), Day(u), Hour(u), 24);
    }
    if t <= u && MinuteCount(t) == MinuteCount(u) {
      SecondsInMinute(t, u);
    }
  }

  lemma SecondsInMinute(t: int, u: int)
    requires t <= u && MinuteCount(t) == MinuteCount(u)
    ensures Second(t) <= Second(u)
  {
    DivOrder(t, u, MS_PER_SECOND);
    MinuteOfSeconds(t);
    MinuteOfSeconds(u);
  }

  lemma MinuteOfSeconds(t: int)
    ensures t / MS_PER_SECOND == 60 * MinuteCount(t) + Second(t)
  {
    assert (t / 1000) / 60 == t / 60_000;
  }

  lemma BlockOrder(q: int, r: int, p: int, e: int, k: int)
    requires 0 <= r < k && 0 <= e < k && k * q + r <= k * p + e
    ensures q <= p
  {
    AtLeastOnce(q - p, k);
  }

  lemma DivOrder(t: int, u: int, k: int)
    requires 0 < k
    ensures t <= u ==> t / k <= u / k
  {
    if t <= u {
      assert t == k * (t / k) + t % k && u == k * (u / k) + u % k;
      BlockOrder(t / k, t % k, u / k, u % k, k);
    }
  }

  /** The instant with the same time of day on another day. */
  function OnDay(t: int, day: int): int {
    MakeDate(day, TimeOfDay(t))
  }

  lemma FieldsOnDay(t: int, day: int)
    ensures var r := OnDay(t, day);
      && Day(r) == day && Hour(r) == Hour(t) && Minute(r) == Minute(t)
      && Second(r) == Second(t) && Millisecond(r) == Millisecond(t)
    ensures OnDay(t, Day(t)) == t
    ensures Millisecond(t) == 0 ==> OnDay(t, day) == At(60 * (24 * day + Hour(t)) + Minute(t), Second(t))
  {
    InstantFields(t);
    hide Hour, Minute, Second, Millisecond;
    assert TimeOfDay(t) == MakeTime(Hour(t), Minute(t), Second(t), Millisecond(t));
    MakeDateFields(day, Hour(t), Minute(t), Second(t), Millisecond(t));
  }

  /** Within the starting hour no listed minute, and within the starting minute no listed second, is skipped. */
  lemma AlignedWithinHour(c: CronModel, t: int, u: int)
    requires c.WellFormed() && Millisecond(t) == 0 && t <= u && TimeMatches(c, u)
    requires HourCount(Aligned(c, t)) == HourCount(t) == HourCount(u)
    ensures MinuteCount(Aligned(c, t)) <= MinuteCount(u)
    ensures MinuteCount(Aligned(c, t)) == MinuteCount(t) == MinuteCount(u) ==> Second(Aligned(c, t)) <= Second(u)
  {
    hide Day, Hour, Minute, Second, Millisecond, MinuteCount, HourCount;
    hide AlignSecond, AlignMinute, AlignHour, DayFromMonth, MonthLength;
    var t1 := AlignSecond(c.seconds, t);
    var t2 := AlignMinute(c.minutes, t1);
    var t3 := AlignHour(c.hours, t2);
    AlignedSecond(c.seconds, t);
    AlignedMinute(c.minutes, t1);
    AlignedHour(c.hours, t2);
    CountsOrder(t, u);
    CountsOrder(t, t1);
    CountsOrder(t1, t2);
    CountsOrder(t2, t3);
    Counts(t2);
    Counts(t3);
  }

  /** On one day, whole seconds are ordered by hour, then minute, then second. */
  lemma TimeOrder(t: int, u: int)
    requires Millisecond(t) == Millisecond(u) == 0 && Day(t) == Day(u)
    ensures t < u <==>
      (Hour(t) < Hour(u)
       || (Hour(t) == Hour(u) && (Minute(t) < Minute(u)
                                  || (Minute(t) == Minute(u) && Second(t) < Second(u)))))
  {
    Counts(t);
    Counts(u);
    hide Day, Hour, Minute, Second, Millisecond, MinuteCount, HourCount;
  }

  lemma InOrder(t: int, u: int)
    requires Day(t) < Day(u)
    ensures t < u
  {
  }
}
