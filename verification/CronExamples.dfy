/** Schedules that `nextCronTime` does not serve as the cron model promises. */
module CronExamples {
  import opened Wrappers
  import opened Calendar
  import opened JsDate
  import opened TimeStructs
  import opened CronSpec
  import opened NextCron
  import opened CronTheorems

  /**
   A schedule that lists every month and date leaves the choice of the day to the weekdays. Its call
   returns only if the aligned day happens to be a listed weekday.
   */
  lemma EveryDateHangs(model: ScheduleCronModel, now: int)
    requires model.cron.WellFormed() && IsBeforeEnd(model, now)
    requires forall m :: 1 <= m <= 12 ==> m in model.cron.months
    requires forall d :: 1 <= d <= 31 ==> d in model.cron.daysOfMonth
    requires Year(AlignedStart(model, now)) < FarthestYear(now)
    ensures NextTime(model, now).StillSearching?
      <==> !WeekdayMatches(model.cron, Day(AlignedStart(model, now)))
  {
    var from := Day(AlignedStart(model, now));
    NextMonth(MonthOf(from));
    hide DayFromMonth, MonthLength, DateOf, Aligned, ShiftedStart, FromTimeStruct, OnDay, GivesUpOn;
    hide Second, Minute, Hour, Millisecond, Day, FarthestYear;
    assert DateMatches(model.cron, from);
    InReach(model.cron, from, FarthestYear(now), from);
    assert DateReached(model, now) == from;
    HangsIff(model, now);
  }

  // ----- weekdays at midnight -------------------------------------------------------

  function Numbers(n: nat): seq<int> {
    seq(n, i => i + 1)
  }

  /** `0 0 0 * * 1-5`, from Monday to Friday, in UTC. */
  function Weekdays(): (model: ScheduleCronModel)
    ensures model.cron.WellFormed()
  {
    ScheduleCronModel(CronModel([0], [0], [0], Numbers(31), Numbers(12), [1, 2, 3, 4, 5]), 0, None, None)
  }

  ghost predicate AtMidnight(model: ScheduleCronModel) {
    && model.cron.WellFormed() && model.utcOffsetMinutes == 0 && model.startAfter == None && model.endBy == None
    && model.cron.seconds == [0] && model.cron.minutes == [0] && model.cron.hours == [0]
    && (forall m :: 1 <= m <= 12 ==> m in model.cron.months)
    && (forall d :: 1 <= d <= 31 ==> d in model.cron.daysOfMonth)
  }

  lemma NumbersListed(n: nat)
    ensures forall m :: 1 <= m <= n ==> m in Numbers(n)
  {
    forall m | 1 <= m <= n ensures m in Numbers(n) {
      assert Numbers(n)[m - 1] == m;
    }
  }

  lemma WeekdaysAtMidnight()
    ensures AtMidnight(Weekdays())
  {
    NumbersListed(12);
    NumbersListed(31);
  }

  /** At six in the morning of a day. */
  function AtSix(day: int): int {
    day * MS_PER_DAY + 6 * MS_PER_HOUR
  }

  lemma AlignsToTomorrow(model: ScheduleCronModel, day: int)
    requires AtMidnight(model)
    ensures AlignedStart(model, AtSix(day)) == (day + 1) * MS_PER_DAY
    ensures Day((day + 1) * MS_PER_DAY) == day + 1 && Day(AtSix(day)) == day
  {
    hide Aligned, Day, NextSecond;
    NextSecondRounds(AtSix(day));
    assert AtSix(day) / MS_PER_SECOND == day * 86_400 + 21_600;
    AlignsToNextMidnight(model.cron, day);
    MakeDateFields(day + 1, 0, 0, 0, 0);
    MakeDateFields(day, 6, 0, 0, 0);
  }

  lemma January1970(date: int)
    requires 1 <= date <= 31
    ensures MakeDay(1970, 0, date) == date - 1 && YearOf(date - 1) == 1970
  {
    hide DayFromMonth, MonthOf, MonthLength, DateOf, MonthInYear;
    FirstDayOf1970();
    LengthOfJanuary();
    MakeDayFields(1970, 0, date);
  }

  lemma LengthOfJanuary()
    ensures MonthLength(12 * 1970) == 31
  {
  }

  lemma WeekdaysFacts()
    ensures AtMidnight(Weekdays())
    ensures WeekdayMatches(Weekdays().cron, 4) && !WeekdayMatches(Weekdays().cron, 9)
  {
    WeekdaysAtMidnight();
    hide WeekdayMatches, AtMidnight;
    WeekdaysNear(Weekdays().cron);
  }

  lemma InJanuary()
    ensures WeekdayOfDate(1970, 0, 4) == 0 && WeekdayOfDate(1970, 0, 9) == 5
    ensures YearOf(3) == YearOf(4) == YearOf(8) == YearOf(9)
    ensures AtSix(3) == 280_800_000 && AtSix(8) == 712_800_000 && 4 * MS_PER_DAY == 345_600_000
  {
    WeekdaysIn1970();
    hide WeekdayOfDate, DayFromMonth, MonthOf, YearOf, MonthLength, MakeDay;
    January1970(4);
    January1970(5);
    January1970(9);
    January1970(10);
  }

  lemma WeekdaysIn1970()
    ensures WeekdayOfDate(1970, 0, 4) == 0 && WeekdayOfDate(1970, 0, 9) == 5
  {
  }

  /** Asked on Sunday, January 4, 1970, at six, it answers Monday, January 5, at midnight. */
  lemma SundayToMonday()
    ensures WeekdayOfDate(1970, 0, 4) == 0
    ensures NextTime(Weekdays(), 280_800_000) == FiresAt(345_600_000)
  {
    hide *;
    InJanuary();
    WeekdaysFacts();
    AnswersTomorrow(Weekdays(), 3);
  }

  lemma AnswersTomorrow(model: ScheduleCronModel, day: int)
    requires AtMidnight(model) && YearOf(day) == YearOf(day + 1) && WeekdayMatches(model.cron, day + 1)
    ensures NextTime(model, AtSix(day)) == FiresAt((day + 1) * MS_PER_DAY)
  {
    hide DayFromMonth, MonthLength, DateOf, AlignedStart, YearOf, MonthOf, DateMatches, WeekdayMatches, NextTime, Day;
    AlignsToTomorrow(model, day);
    EveryDateMatches(model, day + 1);
    AnswersAtOnce(model, AtSix(day));
  }

  /** Asked on Friday, January 9, it never answers: Saturday is the first listed date, and not a listed weekday. */
  lemma FridayHangs()
    ensures WeekdayOfDate(1970, 0, 9) == 5
    ensures NextTime(Weekdays(), 712_800_000).StillSearching?
  {
    hide *;
    InJanuary();
    WeekdaysFacts();
    HangsTomorrow(Weekdays(), 8);
  }

  lemma HangsTomorrow(model: ScheduleCronModel, day: int)
    requires AtMidnight(model) && YearOf(day) == YearOf(day + 1) && !WeekdayMatches(model.cron, day + 1)
    ensures NextTime(model, AtSix(day)).StillSearching?
  {
    hide DayFromMonth, MonthLength, DateOf, AlignedStart, YearOf, MonthOf, DateMatches, WeekdayMatches, NextTime, Day;
    AlignsToTomorrow(model, day);
    EveryDateHangs(model, AtSix(day));
  }

  lemma WeekdaysNear(c: CronModel)
    requires c.daysOfWeek == [1, 2, 3, 4, 5]
    ensures WeekdayMatches(c, 4) && !WeekdayMatches(c, 9)
  {
    assert WeekdayOf(4) == 1 && WeekdayOf(9) == 6;
    assert [1, 2, 3, 4, 5][0] == 1;
  }

  lemma EveryDateMatches(model: ScheduleCronModel, day: int)
    requires AtMidnight(model)
    ensures DateMatches(model.cron, day)
  {
    NextMonth(MonthOf(day));
    hide DayFromMonth, MonthLength, DateOf;
  }

  /** Seconds 0 and 30 of half past midnight, on January 1. */
  const HALF_PAST := CronModel([0, 30], [30], [0], [1], [1], [0, 1, 2, 3, 4, 5, 6])

  function TwiceAtHalfPast(endBy: Option<TimeStruct>): (model: ScheduleCronModel)
    ensures model.cron.WellFormed() && model.cron.EveryWeekday()
  {
    ScheduleCronModel(HALF_PAST, 0, None, endBy)
  }

  /**
   At 00:10:15 the search moves the second to 30 before it moves the minute, and answers 00:30:30.
   00:30:00 fits too, so a schedule that ends at 00:30:15 gets no answer at all.
   */
  lemma SkipsAnEarlierSecond()
    ensures NextTime(TwiceAtHalfPast(None), 615_000) == FiresAt(1_830_000)
    ensures Fits(TwiceAtHalfPast(None), 1_800_000) && IsAfter(TwiceAtHalfPast(None), 615_000, 1_800_000)
    ensures NextTime(TwiceAtHalfPast(Some(TimeStruct(0, 15, 30, 0, 1, 1, 1970))), 615_000) == NoTime
  {
    Today();
    hide DayFromMonth, MonthLength, DateOf, YearOf, MonthOf, NextTime, FromTimeStruct, DateMatches, WeekdayMatches;
    AtQuarterPastTen(TwiceAtHalfPast(None));
    AtQuarterPastTen(TwiceAtHalfPast(Some(TimeStruct(0, 15, 30, 0, 1, 1, 1970))));
  }

  /** January 1, 1970 suits the schedule. */
  lemma Today()
    ensures DateMatches(HALF_PAST, 0) && WeekdayMatches(HALF_PAST, 0) && YearOf(0) == 1970
    ensures TimeMatches(HALF_PAST, 1_800_000) && Day(1_800_000) == 0
    ensures FromTimeStruct(TimeStruct(0, 15, 30, 0, 1, 1, 1970)) == 1_815_000
  {
    hide DayFromMonth, MonthLength, DateOf, MonthOf, YearOf, FromTimeStruct, MakeDay;
    hide Second, Minute, Hour, Day, Millisecond;
    FirstDayOf1970();
    ThirtyPast();
    ThirtyPastStruct();
  }

  lemma ThirtyPast()
    ensures Day(1_800_000) == 0 && Hour(1_800_000) == 0 && Minute(1_800_000) == 30
    ensures Second(1_800_000) == 0 && Millisecond(1_800_000) == 0
  {
  }

  lemma ThirtyPastStruct()
    ensures FromTimeStruct(TimeStruct(0, 15, 30, 0, 1, 1, 1970)) == 1_815_000
  {
    FirstDayOf1970();
    hide MakeDay;
  }

  /** The answer at 00:10:15, wherever the schedule ends after that. */
  lemma AtQuarterPastTen(model: ScheduleCronModel)
    requires model.cron.WellFormed() && model.utcOffsetMinutes == 0 && model.startAfter == None
    requires model.cron.seconds == [0, 30] && model.cron.minutes == [30] && model.cron.hours == [0]
    requires DateMatches(model.cron, 0) && WeekdayMatches(model.cron, 0) && YearOf(0) == 1970
    requires IsBeforeEnd(model, 615_000)
    ensures NextTime(model, 615_000) == if IsBeforeEnd(model, 1_830_000) then FiresAt(1_830_000) else NoTime
  {
    StartsAt616(model);
    HalfPast(model.cron);
    YearsToday(model);
    assert AlignedStart(model, 615_000) == 1_830_000;
    hide *;
    AnswersAtOnce(model, 615_000);
  }

  lemma StartsAt616(model: ScheduleCronModel)
    requires model.utcOffsetMinutes == 0 && model.startAfter == None
    ensures ShiftedStart(model, 615_000) == 616_000
  {
    NextSecondRounds(615_000);
    hide NextSecond;
  }

  lemma YearsToday(model: ScheduleCronModel)
    requires model.utcOffsetMinutes == 0 && YearOf(0) == 1970
    ensures Day(1_830_000) == 0 && FarthestYear(615_000) == 1980
    ensures Answer(model, 615_000, 1_830_000)
      == if IsBeforeEnd(model, 1_830_000) then FiresAt(1_830_000) else NoTime
  {
    hide YearOf, FromTimeStruct;
    assert Day(1_830_000) == 0 && Day(615_000) == 0;
  }

  /** An aligned day that fits is the day of the answer. */
  lemma AnswersAtOnce(model: ScheduleCronModel, now: int)
    requires model.cron.WellFormed() && IsBeforeEnd(model, now)
    requires var day := Day(AlignedStart(model, now));
      DateMatches(model.cron, day) && WeekdayMatches(model.cron, day) && YearOf(day) < FarthestYear(now)
    ensures NextTime(model, now) == Answer(model, now, AlignedStart(model, now))
  {
    hide DayFromMonth, MonthLength, DateOf, Aligned, ShiftedStart, FromTimeStruct, OnDay, GivesUpOn;
    hide Second, Minute, Hour, Millisecond, Day, FarthestYear;
    var aligned := AlignedStart(model, now);
    InReach(model.cron, Day(aligned), FarthestYear(now), Day(aligned));
    assert DateReached(model, now) == Day(aligned);
    FieldsOnDay(aligned, Day(aligned));
  }

  lemma FirstDayOf1970()
    ensures MonthOf(0) == 12 * 1970 && DateOf(0) == 1 && YearOf(0) == 1970 && MakeDay(1970, 0, 1) == 0
  {
    YearStart(1970);
    NextMonth(12 * 1970);
    hide DayFromMonth, MonthLength;
    MonthOfIsUnique(0, 12 * 1970);
  }

  lemma HalfPast(c: CronModel)
    requires c.WellFormed() && c.seconds == [0, 30] && c.minutes == [30] && c.hours == [0]
    ensures Aligned(c, 616_000) == 1_830_000
  {
    hide DayFromMonth, MonthLength, DateOf;
    FieldsAt(10, 16);
    SettersAt(616_000, 30);
    FieldsAt(10, 30);
    SettersAt(630_000, 30);
    FieldsAt(30, 30);
    SettersAt(1_830_000, 0);
    assert [0, 30][1..] == [30];
  }

  // ----- the wrong clock ---------------------------------------------------------

  /** Midnight of January 2, for a requester six hours behind UTC. */
  function JanuarySecond(): (model: ScheduleCronModel)
    ensures model.cron.WellFormed() && model.cron.EveryWeekday()
  {
    ScheduleCronModel(CronModel([0], [0], [0], [2], [1], [0, 1, 2, 3, 4, 5, 6]), 360, None, None)
  }

  /** It fires on January 1 at 18:00 UTC, when it is noon for the requester, twelve hours early. */
  lemma NoonForMidnight()
    ensures NextTime(JanuarySecond(), 0) == FiresAt(18 * MS_PER_HOUR)
    ensures RequesterClock(JanuarySecond(), 18 * MS_PER_HOUR) == 12 * MS_PER_HOUR
    ensures !Matches(JanuarySecond().cron, RequesterClock(JanuarySecond(), 18 * MS_PER_HOUR))
    ensures Matches(JanuarySecond().cron, RequesterClock(JanuarySecond(), 30 * MS_PER_HOUR))
  {
    SecondOf1970();
    hide DayFromMonth, MonthLength, DateOf, Aligned, ShiftedStart, YearOf, MonthOf, DateMatches;
    var model := JanuarySecond();
    StartsAtSix(model);
    AlignsToNextMidnight(model.cron, 0);
    assert AlignedStart(model, 0) == MS_PER_DAY;
    NoonAndMidnight();
    AnswersOnSecond(model);
    MakeDateFields(0, 12, 0, 0, 0);
    MakeDateFields(1, 0, 0, 0, 0);
  }

  lemma AnswersOnSecond(model: ScheduleCronModel)
    requires model.cron.WellFormed() && model.utcOffsetMinutes == 360 && model.endBy == None
    requires AlignedStart(model, 0) == MS_PER_DAY && YearOf(0) == YearOf(1) == 1970
    requires DateMatches(model.cron, 1) && WeekdayMatches(model.cron, 1)
    ensures NextTime(model, 0) == FiresAt(18 * MS_PER_HOUR)
  {
    hide DayFromMonth, MonthLength, DateOf, AlignedStart, YearOf, MonthOf, DateMatches, NextTime;
    NoonAndMidnight();
    AnswersAtOnce(model, 0);
  }

  lemma NoonAndMidnight()
    ensures Day(0) == 0 && Day(18 * MS_PER_HOUR) == 0 && Day(MS_PER_DAY) == 1
  {
  }

  lemma StartsAtSix(model: ScheduleCronModel)
    requires model.utcOffsetMinutes == 360 && model.startAfter == None
    ensures ShiftedStart(model, 0) == 0 * MS_PER_DAY + 21_601_000
  {
    NextSecondRounds(0);
    hide NextSecond;
  }

  lemma SecondFields()
    ensures YearOf(0) == YearOf(1) == 1970 && MonthInYear(1) == 0 && DateOf(1) == 2
  {
    hide DayFromMonth, DateOf, YearOf, MonthOf, MonthInYear;
    FirstDayOf1970();
    MakeDayFields(1970, 0, 2);
  }

  lemma SecondOf1970()
    ensures DateMatches(JanuarySecond().cron, 1) && WeekdayMatches(JanuarySecond().cron, 1)
    ensures YearOf(0) == YearOf(1) == 1970
  {
    hide DayFromMonth, MonthLength, DateOf, YearOf, MonthOf;
    SecondFields();
  }

  // ----- a stray answer --------------------------------------------------------

  /** Midnight of December 1, for a requester six hours behind UTC, starting on December 20, 1979. */
  function DecemberFirst(): (model: ScheduleCronModel)
    ensures model.cron.WellFormed() && model.cron.EveryWeekday()
  {
    ScheduleCronModel(CronModel([0], [0], [0], [1], [12], [0, 1, 2, 3, 4, 5, 6]), 360,
                      Some(TimeStruct(0, 0, 0, 0, 20, 12, 1979)), None)
  }

  /**
   In 1970 the search gives up on January 1, 1980. Shifted back by six hours that instant lies in
   1979 again, so it is returned, although January is not a listed month.
   */
  lemma StrayAnswer()
    ensures var t := 3_652 * MS_PER_DAY - 6 * MS_PER_HOUR;
      NextTime(DecemberFirst(), 0) == FiresAt(t) && !Fits(DecemberFirst(), t)
  {
    hide DayFromMonth, MonthLength, DateOf, Aligned, NextSecond, YearOf, MonthOf, MakeDay, OnDay, GivesUpOn;
    var model := DecemberFirst();
    var c := model.cron;
    DaysOf1979();
    FirstDayOf1970();
    NextSecondRounds(3_640 * MS_PER_DAY);
    AlignsToNextMidnight(c, 3_640);
    assert AlignedStart(model, 0) == 3_641 * MS_PER_DAY;
    NothingListed(c);
    FieldsOnDay(3_641 * MS_PER_DAY, 3_652);
    YearBounds(3_651, 1980);
    YearBounds(3_652, 1980);
  }

  lemma DaysOf1979()
    ensures MakeDay(1979, 11, 20) == 3_640 && DayFromMonth(12 * 1980) == 3_652 == DayFromYear(1980)
    ensures MonthOf(3_641) == 12 * 1979 + 11 && DateOf(3_641) == 21 && MonthOf(3_652) == 12 * 1980
  {
    December1979();
    hide DayFromMonth, DayFromYear, MonthLength, MonthOf;
    NextMonth(12 * 1980);
    MonthOfIsUnique(3_641, 12 * 1979 + 11);
    MonthOfIsUnique(3_652, 12 * 1980);
  }

  lemma December1979()
    ensures DayFromMonth(12 * 1979 + 11) == 3_621 && DayFromMonth(12 * 1980) == 3_652 == DayFromYear(1980)
  {
    YearStart(1980);
  }

  /** 06:00:01 is aligned to the next midnight. */
  lemma AlignsToNextMidnight(c: CronModel, day: int)
    requires c.WellFormed() && c.seconds == [0] && c.minutes == [0] && c.hours == [0]
    ensures Aligned(c, day * MS_PER_DAY + 21_601_000) == (day + 1) * MS_PER_DAY
  {
    hide DayFromMonth, MonthLength, DateOf, Aligned, Day, Hour, Minute, Second, Millisecond;
    hide HourCount, OrderedIn, Sorted;
    var t, u := day * MS_PER_DAY + 21_601_000, (day + 1) * MS_PER_DAY;
    MakeDateFields(day, 6, 0, 1, 0);
    MakeDateFields(day + 1, 0, 0, 0, 0);
    AlignedMeaning(c, t, u);
    Midnight(Aligned(c, t), day + 1);
  }

  /** A midnight is read from its day. */
  lemma Midnight(t: int, day: int)
    requires Hour(t) == 0 && Minute(t) == 0 && Second(t) == 0 && Millisecond(t) == 0
    requires Day(t) <= day && (day - 1) * MS_PER_DAY < t
    ensures t == day * MS_PER_DAY
  {
    hide Day, Hour, Minute, Second, Millisecond;
    InstantFields(t);
  }

  lemma NothingListed(c: CronModel)
    requires c.WellFormed() && c.daysOfMonth == [1] && c.months == [12]
    ensures !HasTarget(c, 3_641, 1980) && GivesUpOn(c, 3_641, 1980) == 3_652
  {
    DaysOf1979();
    hide DayFromMonth, MonthLength, DateOf;
    forall day
      ensures !Target(c, 3_641, 1980, day)
    {
      if FirstDate(c, 3_641, day) {
        MonthOfIsMonotone(3_641, day);
        if MonthOf(day) == 12 * 1979 + 11 {
          DaysOfMonth(3_641, day);
        } else {
          assert MonthMatches(c, 12 * 1979 + 11);
        }
      }
    }
  }
}
