/** What the answer of `nextCronTime` means for the schedule that asked. */
module CronTheorems {
  import opened Wrappers
  import opened Calendar
  import opened JsDate
  import opened TimeStructs
  import opened CronSpec
  import opened CronCarries
  import opened NextCron

  // ----- from instants to the search --------------------------------------------

  lemma NextSecondRounds(t: int)
    ensures NextSecond(t) == MS_PER_SECOND * (t / MS_PER_SECOND + 1)
  {
    hide DayFromMonth, MonthLength, DateOf, Second, Minute, Hour, WithSeconds, WithMilliseconds, WithDate;
    SettersShift(t, Second(t) + 1);
    SettersShift(t + MS_PER_SECOND, 0);
    DivMod(t / MS_PER_SECOND + 1, Millisecond(t), MS_PER_SECOND);
  }

  /** For whole seconds, being later than `t` is being at or past the next second. */
  lemma WholeSeconds(t: int)
    ensures Millisecond(NextSecond(t)) == 0
    ensures forall u :: Millisecond(u) == 0 ==> (t < u <==> NextSecond(t) <= u)
  {
    NextSecondRounds(t);
    hide NextSecond;
    forall u | Millisecond(u) == 0
      ensures t < u <==> NextSecond(t) <= u
    {
      assert u == MS_PER_SECOND * (u / MS_PER_SECOND);
    }
  }

  lemma WholeSecondsShift(model: ScheduleCronModel, t: int)
    ensures Millisecond(Shifted(model, t)) == Millisecond(t)
  {
    DivMod(t / MS_PER_SECOND + 60 * model.utcOffsetMinutes, Millisecond(t), MS_PER_SECOND);
  }

  /** For whole seconds, being late enough is being at or past the shifted start. */
  lemma LateEnough(model: ScheduleCronModel, now: int, t: int)
    requires Millisecond(t) == 0
    ensures IsAfter(model, now, t) <==> ShiftedStart(model, now) <= Shifted(model, t)
  {
    hide FromTimeStruct, NextSecond, Millisecond;
    WholeSeconds(now);
    WholeSecondsShift(model, NextSecond(now));
    if model.startAfter.Some? {
      var after := FromTimeStruct(model.startAfter.value);
      WholeSeconds(after);
      WholeSecondsShift(model, NextSecond(after));
    }
  }

  lemma StartIsWhole(model: ScheduleCronModel, now: int)
    ensures Millisecond(ShiftedStart(model, now)) == 0
  {
    hide FromTimeStruct, NextSecond, Millisecond;
    WholeSeconds(now);
    WholeSecondsShift(model, NextSecond(now));
    if model.startAfter.Some? {
      var after := FromTimeStruct(model.startAfter.value);
      WholeSeconds(after);
      WholeSecondsShift(model, NextSecond(after));
    }
  }

  /** An instant that fits is at least on the day of the aligned time. */
  lemma FitsFromAlignedDay(model: ScheduleCronModel, now: int, t: int)
    requires model.cron.WellFormed() && IsAfter(model, now, t) && Fits(model, t)
    ensures ShiftedStart(model, now) <= Shifted(model, t)
    ensures Day(AlignedStart(model, now)) <= Day(Shifted(model, t))
  {
    hide DayFromMonth, MonthLength, DateOf, Aligned, ShiftedStart, FromTimeStruct, Second, Minute, Hour;
    WholeSecondsShift(model, t);
    LateEnough(model, now, t);
    StartIsWhole(model, now);
    AlignedMeaning(model.cron, ShiftedStart(model, now), Shifted(model, t));
  }

  /** The fields of an answer: the aligned time of day, on the day it is given. */
  lemma AnswerFields(model: ScheduleCronModel, now: int, day: int)
    requires model.cron.WellFormed() && Day(AlignedStart(model, now)) <= day
    ensures var shifted := OnDay(AlignedStart(model, now), day);
      && Day(shifted) == day && TimeMatches(model.cron, shifted)
      && ShiftedStart(model, now) <= AlignedStart(model, now) <= shifted
      && IsAfter(model, now, shifted - model.utcOffsetMinutes * MS_PER_MINUTE)
  {
    hide DayFromMonth, MonthLength, DateOf, Aligned, ShiftedStart, FromTimeStruct, Second, Minute, Hour, Millisecond;
    var aligned := AlignedStart(model, now);
    var t := OnDay(aligned, day) - model.utcOffsetMinutes * MS_PER_MINUTE;
    StartIsWhole(model, now);
    AlignedMeaning(model.cron, ShiftedStart(model, now), aligned);
    FieldsOnDay(aligned, day);
    FieldsOnDay(aligned, Day(aligned));
    WholeSecondsShift(model, t);
    LateEnough(model, now, t);
  }

  // ----- the answer is sound ------------------------------------------------

  /** An answer found by the search is late enough, in time, and fits all six lists once shifted. */
  lemma Soundness(model: ScheduleCronModel, now: int, t: int)
    requires model.cron.WellFormed() && DateInReach(model, now)
    requires NextTime(model, now) == FiresAt(t)
    ensures IsAfter(model, now, t) && IsBeforeEnd(model, t) && Year(t) < FarthestYear(now)
    ensures Fits(model, t) && Day(Shifted(model, t)) == DateReached(model, now)
  {
    hide DayFromMonth, MonthLength, DateOf, Aligned, ShiftedStart, FromTimeStruct, Second, Minute, Hour, Millisecond;
    hide OnDay, YearOf, GivesUpOn;
    AnswerFields(model, now, DateReached(model, now));
  }

  /**
   Every answer, a stray one too, is later than `now` and the start, earlier than the end, and in one of the ten years
   from the current one on. From its end on, a schedule has no answer.
   */
  lemma AnswerInBounds(model: ScheduleCronModel, now: int)
    requires model.cron.WellFormed()
    ensures NextTime(model, now).FiresAt? ==> var t := NextTime(model, now).t;
      && now < t && Year(t) < Year(now) + 10
      && (model.startAfter.Some? ==> FromTimeStruct(model.startAfter.value) < t)
      && (model.endBy.Some? ==> t < FromTimeStruct(model.endBy.value))
    ensures model.endBy.Some? && FromTimeStruct(model.endBy.value) <= now ==> NextTime(model, now) == NoTime
  {
    hide DayFromMonth, MonthLength, DateOf, Aligned, ShiftedStart, FromTimeStruct, Second, Minute, Hour, Millisecond;
    hide OnDay, YearOf, GivesUpOn, Day;
    if NextTime(model, now).FiresAt? {
      var from := Day(AlignedStart(model, now));
      if DateInReach(model, now) {
        AnswerFields(model, now, DateReached(model, now));
      } else {
        GivesUpNotBefore(model.cron, from, FarthestYear(now));
        AnswerFields(model, now, GivesUpOn(model.cron, from, FarthestYear(now)));
      }
    }
  }

  /** No instant that fits lies on an earlier shifted day. */
  lemma FirstDay(model: ScheduleCronModel, now: int, u: int)
    requires model.cron.WellFormed() && DateInReach(model, now)
    requires IsAfter(model, now, u) && Fits(model, u)
    ensures DateReached(model, now) <= Day(Shifted(model, u))
  {
    hide DayFromMonth, MonthLength, DateOf, Aligned, ShiftedStart, FromTimeStruct, Second, Minute, Hour, Millisecond;
    FitsFromAlignedDay(model, now, u);
  }

  /**
   The answer is the earliest instant that fits, if and only if nothing lags behind at the start: a
   question about the first second looked at, the lists, and whether the first listed date is that day.
   */
  lemma EarliestIff(model: ScheduleCronModel, now: int, t: int)
    requires model.cron.WellFormed() && DateInReach(model, now)
    requires NextTime(model, now) == FiresAt(t)
    ensures (forall u :: IsAfter(model, now, u) && Fits(model, u) ==> t <= u)
      <==> NothingLags(model.cron, ShiftedStart(model, now), DateReached(model, now) != Day(ShiftedStart(model, now)))
  {
    hide DayFromMonth, MonthLength, DateOf, Aligned, ShiftedStart, FromTimeStruct, Second, Minute, Hour, Millisecond;
    hide OnDay, YearOf, GivesUpOn, Day, EarliestOn, NothingLags;
    var c, start, day := model.cron, ShiftedStart(model, now), DateReached(model, now);
    Soundness(model, now, t);
    AnswerFields(model, now, day);
    StartIsWhole(model, now);
    LagsIff(c, start, day);
    EarliestFields(c, start, day);
    if Shifted(model, t) == EarliestOn(c, start, day) {
      forall u | IsAfter(model, now, u) && Fits(model, u)
        ensures t <= u
      {
        FirstDay(model, now, u);
        NotBefore(model, now, day, u);
      }
    } else {
      var u := EarliestOn(c, start, day) - model.utcOffsetMinutes * MS_PER_MINUTE;
      FirstTimeFits(model, now, day);
      assert IsAfter(model, now, u) && Fits(model, u) && u < t;
    }
  }

  /** Nothing that fits on a day or later comes before the earliest time of that day. */
  lemma NotBefore(model: ScheduleCronModel, now: int, day: int, u: int)
    requires model.cron.WellFormed() && Day(AlignedStart(model, now)) <= day <= Day(Shifted(model, u))
    requires IsAfter(model, now, u) && Fits(model, u)
    ensures EarliestOn(model.cron, ShiftedStart(model, now), day) <= Shifted(model, u)
  {
    hide DayFromMonth, MonthLength, DateOf, Aligned, ShiftedStart, FromTimeStruct, Second, Minute, Hour, Millisecond;
    hide Day, EarliestOn;
    FitsFromAlignedDay(model, now, u);
    StartIsWhole(model, now);
    EarliestFields(model.cron, ShiftedStart(model, now), day);
    if day == Day(Shifted(model, u)) {
      EarliestIs(model.cron, ShiftedStart(model, now), day, Shifted(model, u));
    } else {
      InOrder(EarliestOn(model.cron, ShiftedStart(model, now), day), Shifted(model, u));
    }
  }

  /** The earliest time of a listed day is late enough, and fits. */
  lemma FirstTimeFits(model: ScheduleCronModel, now: int, day: int)
    requires model.cron.WellFormed() && Day(AlignedStart(model, now)) <= day
    requires DateMatches(model.cron, day) && WeekdayMatches(model.cron, day)
    ensures var u := EarliestOn(model.cron, ShiftedStart(model, now), day) - model.utcOffsetMinutes * MS_PER_MINUTE;
      IsAfter(model, now, u) && Fits(model, u)
  {
    hide DayFromMonth, MonthLength, DateOf, Aligned, ShiftedStart, FromTimeStruct, Second, Minute, Hour, Millisecond;
    hide Day, EarliestOn, DateMatches, WeekdayMatches;
    var e := EarliestOn(model.cron, ShiftedStart(model, now), day);
    var u := e - model.utcOffsetMinutes * MS_PER_MINUTE;
    StartIsWhole(model, now);
    EarliestFields(model.cron, ShiftedStart(model, now), day);
    WholeSecondsShift(model, u);
    assert Shifted(model, u) == e;
    LateEnough(model, now, u);
  }

  /** One listed second, minute and hour leave nothing to lag behind: the answer is the earliest. */
  lemma EarliestForOneTimeOfDay(model: ScheduleCronModel, now: int, t: int, u: int)
    requires model.cron.WellFormed() && model.cron.OneTimeOfDay() && DateInReach(model, now)
    requires NextTime(model, now) == FiresAt(t)
    requires IsAfter(model, now, u) && Fits(model, u)
    ensures t <= u
  {
    hide DayFromMonth, MonthLength, DateOf, Aligned, ShiftedStart, FromTimeStruct, Second, Minute, Hour, Millisecond;
    hide OnDay, YearOf, GivesUpOn, Day, NextTime, Fits, IsAfter;
    EarliestIff(model, now, t);
  }

  // ----- when there is no answer ---------------------------------------------

  /** A listed date has a first one before it. */
  lemma {:induction false} FirstDateExists(c: CronModel, from: int, day: int) returns (first: int)
    requires from <= day && DateMatches(c, day)
    ensures first <= day && FirstDate(c, from, first)
    decreases day - from
  {
    hide DayFromMonth, MonthLength, DateOf;
    if DateMatches(c, from) {
      first := from;
    } else {
      first := FirstDateExists(c, from + 1, day);
    }
  }

  /** A listed date before the last year is in reach. */
  lemma InReach(c: CronModel, from: int, farthestYear: int, day: int)
    requires from <= day && DateMatches(c, day) && YearOf(day) < farthestYear
    ensures HasTarget(c, from, farthestYear)
  {
    hide DayFromMonth, MonthLength, DateOf;
    var first := FirstDateExists(c, from, day);
    MonthOfIsMonotone(from, first);
    MonthOfIsMonotone(first, day);
    assert Target(c, from, farthestYear, first);
  }

  /** How far past January 1 of the farthest year the search gives up, in milliseconds. */
  function GivesUpLate(model: ScheduleCronModel, now: int): int
    requires model.cron.WellFormed()
  {
    var aligned, farthest := AlignedStart(model, now), FarthestYear(now);
    if farthest <= Year(aligned) then aligned - MS_PER_DAY * DayFromYear(farthest)
    else if 12 in model.cron.months then TimeOfDay(aligned)
    else MS_PER_DAY * DaysBeforeMonth(IsLeap(farthest), model.cron.months[0]) + TimeOfDay(aligned)
  }

  /** Where the search arrives when it finds nothing, shifted back. */
  function GivesUpAt(model: ScheduleCronModel, now: int): int
    requires model.cron.WellFormed()
  {
    var aligned := AlignedStart(model, now);
    OnDay(aligned, GivesUpOn(model.cron, Day(aligned), FarthestYear(now))) - model.utcOffsetMinutes * MS_PER_MINUTE
  }

  lemma GivesUpInYear(model: ScheduleCronModel, now: int)
    requires model.cron.WellFormed()
    ensures Year(GivesUpAt(model, now)) < FarthestYear(now) <==>
      GivesUpLate(model, now) < model.utcOffsetMinutes * MS_PER_MINUTE
  {
    hide DayFromMonth, DayFromYear, MonthLength, DateOf, Aligned, ShiftedStart, FromTimeStruct, Day, FarthestYear;
    hide DaysBeforeMonth, MonthOf;
    var aligned, farthest := AlignedStart(model, now), FarthestYear(now);
    var from := Day(aligned);
    var t := GivesUpAt(model, now);
    ListFacts(model.cron.months, 1, 12);
    assert MonthOf(from) < 12 * farthest <==> YearOf(from) < farthest;
    YearBounds(Day(t), farthest);
    BeforeDay(t, DayFromYear(farthest));
    FieldsOnDay(aligned, from);
    if MonthOf(from) < 12 * farthest && 12 !in model.cron.months {
      MonthOfYear(farthest, model.cron.months[0]);
    }
  }

  lemma BeforeDay(t: int, day: int)
    ensures Day(t) < day <==> t < MS_PER_DAY * day
  {
  }

  lemma MonthOfYear(year: int, month: int)
    requires 0 <= month <= 11
    ensures DayFromMonth(12 * year + month) == DayFromYear(year) + DaysBeforeMonth(IsLeap(year), month)
  {
    hide DayFromYear, DaysBeforeMonth;
    assert (12 * year + month) / 12 == year && (12 * year + month) % 12 == month;
  }

  /**
   The search finds no listed date before the day it gives up on, and what it gives up on is back in time
   once the offset is taken away again.
   */
  ghost predicate Strays(model: ScheduleCronModel, now: int)
    requires model.cron.WellFormed()
  {
    var from := Day(AlignedStart(model, now));
    && IsBeforeEnd(model, now)
    && (forall day :: FirstDate(model.cron, from, day) ==> GivesUpOn(model.cron, from, FarthestYear(now)) <= day)
    && GivesUpLate(model, now) < model.utcOffsetMinutes * MS_PER_MINUTE
    && IsBeforeEnd(model, GivesUpAt(model, now))
  }

  /** Exactly then a search that found nothing is answered with an instant. */
  lemma StraysIff(model: ScheduleCronModel, now: int)
    requires model.cron.WellFormed()
    ensures NextTime(model, now).FiresAt? && !DateInReach(model, now) <==> Strays(model, now)
    ensures Strays(model, now) ==> NextTime(model, now) == FiresAt(GivesUpAt(model, now))
  {
    hide DayFromMonth, MonthLength, DateOf, Aligned, ShiftedStart, FromTimeStruct, OnDay, GivesUpOn, YearOf, Day;
    hide FirstDate, Target, GivesUpLate, FarthestYear;
    HasTargetIff(model.cron, Day(AlignedStart(model, now)), FarthestYear(now));
    GivesUpInYear(model, now);
  }

  /**
   So an answer fits unless it strays, and a stray one fits only if what the search gives up on happens
   to be a listed date on a listed weekday.
   */
  lemma AnswerFitsIff(model: ScheduleCronModel, now: int, t: int)
    requires model.cron.WellFormed() && NextTime(model, now) == FiresAt(t)
    ensures var last := GivesUpOn(model.cron, Day(AlignedStart(model, now)), FarthestYear(now));
      Fits(model, t) <==>
        !Strays(model, now) || (DateMatches(model.cron, last) && WeekdayMatches(model.cron, last))
  {
    hide DayFromMonth, MonthLength, DateOf, Aligned, ShiftedStart, FromTimeStruct, OnDay, GivesUpOn, YearOf, Day;
    hide FirstDate, Target, FarthestYear, Strays, TimeMatches, DateMatches, WeekdayMatches;
    StraysIff(model, now);
    if DateInReach(model, now) {
      Soundness(model, now, t);
    } else {
      var from := Day(AlignedStart(model, now));
      GivesUpNotBefore(model.cron, from, FarthestYear(now));
      AnswerFields(model, now, GivesUpOn(model.cron, from, FarthestYear(now)));
      assert t == GivesUpAt(model, now);
    }
  }

  lemma GivesUpNotBefore(c: CronModel, from: int, farthestYear: int)
    requires c.WellFormed()
    ensures from <= GivesUpOn(c, from, farthestYear)
  {
    hide DayFromMonth, DayFromYear, MonthLength, DateOf;
    ListFacts(c.months, 1, 12);
    YearStart(farthestYear);
    if MonthOf(from) < 12 * farthestYear {
      MonthsIncrease(MonthOf(from) + 1, 12 * farthestYear);
      MonthsIncrease(12 * farthestYear, 12 * farthestYear + c.months[0]);
    }
  }

  /** An answer that strays is possible only with a positive offset: for requesters behind UTC. */
  lemma StraysOnlyBehind(model: ScheduleCronModel, now: int)
    requires model.cron.WellFormed() && Strays(model, now)
    ensures 0 < model.utcOffsetMinutes
  {
    hide DayFromMonth, MonthLength, DateOf, Aligned, ShiftedStart, FromTimeStruct, OnDay, GivesUpOn, MonthOf;
    var aligned := AlignedStart(model, now);
    YearBounds(Day(aligned), FarthestYear(now));
    BeforeDay(aligned, DayFromYear(FarthestYear(now)));
  }

  // ----- null ---------------------------------------------------------------------

  /**
   Null although something fits in time: on the first listed date, on a listed weekday, there is an earlier
   time in time, and the aligned one is too late.
   */
  ghost predicate Misses(model: ScheduleCronModel, now: int)
    requires model.cron.WellFormed()
  {
    var aligned, offset := AlignedStart(model, now), model.utcOffsetMinutes * MS_PER_MINUTE;
    exists day ::
      && FirstDate(model.cron, Day(aligned), day) && WeekdayMatches(model.cron, day)
      && day <= GivesUpOn(model.cron, Day(aligned), FarthestYear(now))
      && InTime(model, now, EarliestOn(model.cron, ShiftedStart(model, now), day) - offset)
      && !InTime(model, now, OnDay(aligned, day) - offset)
  }

  ghost predicate SomethingFits(model: ScheduleCronModel, now: int) {
    exists u :: IsAfter(model, now, u) && Fits(model, u) && InTime(model, now, u)
  }

  lemma InTimeBefore(model: ScheduleCronModel, now: int, t: int, u: int)
    requires t <= u && InTime(model, now, u)
    ensures InTime(model, now, t)
  {
    hide DayFromMonth, MonthLength, YearOf, FarthestYear, FromTimeStruct;
    DaysInOrder(t, u);
    YearsInOrder(Day(t), Day(u));
  }

  /** The answer is null although something fits exactly when the search misses it. */
  lemma MissesIff(model: ScheduleCronModel, now: int)
    requires model.cron.WellFormed()
    ensures NextTime(model, now).NoTime? && SomethingFits(model, now) <==> Misses(model, now)
  {
    hide DayFromMonth, MonthLength, DateOf, Aligned, ShiftedStart, FromTimeStruct, OnDay, GivesUpOn, YearOf, Day;
    hide FirstDate, Target, FarthestYear, NextTime, EarliestOn, Fits, InTime, IsAfter;
    if NextTime(model, now).NoTime? && SomethingFits(model, now) {
      var u :| IsAfter(model, now, u) && Fits(model, u) && InTime(model, now, u);
      NullMisses(model, now, u);
    }
    if Misses(model, now) {
      var aligned, offset := AlignedStart(model, now), model.utcOffsetMinutes * MS_PER_MINUTE;
      var day :|
        && FirstDate(model.cron, Day(aligned), day) && WeekdayMatches(model.cron, day)
        && day <= GivesUpOn(model.cron, Day(aligned), FarthestYear(now))
        && InTime(model, now, EarliestOn(model.cron, ShiftedStart(model, now), day) - offset)
        && !InTime(model, now, OnDay(aligned, day) - offset);
      MissedIsNull(model, now, day);
    }
  }

  /** The candidate of the search: the aligned time on the first listed date, or where it gives up. */
  lemma Candidate(model: ScheduleCronModel, now: int, day: int)
    requires model.cron.WellFormed() && !Hangs(model, now) && IsBeforeEnd(model, now)
    requires FirstDate(model.cron, Day(AlignedStart(model, now)), day)
    ensures var aligned := AlignedStart(model, now);
      var last := GivesUpOn(model.cron, Day(aligned), FarthestYear(now));
      NextTime(model, now) == Answer(model, now, OnDay(aligned, if day < last then day else last))
  {
    hide DayFromMonth, MonthLength, DateOf, Aligned, ShiftedStart, FromTimeStruct, OnDay, GivesUpOn, YearOf, Day;
    hide FirstDate, Target, FarthestYear, Answer, Hangs, WeekdayMatches;
    var from := Day(AlignedStart(model, now));
    HangsIff(model, now);
    HasTargetIff(model.cron, from, FarthestYear(now));
    if DateInReach(model, now) {
      FirstDateIsUnique(model.cron, from, day, DateReached(model, now));
    }
  }

  /** If the first listed date is on a listed weekday, the search ends. */
  lemma NotHanging(model: ScheduleCronModel, now: int, day: int)
    requires model.cron.WellFormed() && WeekdayMatches(model.cron, day)
    requires FirstDate(model.cron, Day(AlignedStart(model, now)), day)
    ensures !Hangs(model, now)
  {
    hide DayFromMonth, MonthLength, DateOf, Aligned, ShiftedStart, FromTimeStruct, GivesUpOn, YearOf, Day;
    hide FirstDate, WeekdayMatches, FarthestYear;
    var from := Day(AlignedStart(model, now));
    forall other | FirstDate(model.cron, from, other)
      ensures other == day
    {
      FirstDateIsUnique(model.cron, from, day, other);
    }
  }

  /** Where the search ends, a first listed date before the day it gives up on is on a listed weekday. */
  lemma NotHangingMatches(model: ScheduleCronModel, now: int, day: int)
    requires model.cron.WellFormed() && !Hangs(model, now) && IsBeforeEnd(model, now)
    requires var from := Day(AlignedStart(model, now));
      FirstDate(model.cron, from, day) && day < GivesUpOn(model.cron, from, FarthestYear(now))
    ensures WeekdayMatches(model.cron, day)
  {
  }

  lemma NullMisses(model: ScheduleCronModel, now: int, u: int)
    requires model.cron.WellFormed() && NextTime(model, now).NoTime?
    requires IsAfter(model, now, u) && Fits(model, u) && InTime(model, now, u)
    ensures Misses(model, now)
  {
    hide DayFromMonth, MonthLength, DateOf, Aligned, ShiftedStart, FromTimeStruct, OnDay, GivesUpOn, YearOf, Day;
    hide FirstDate, Target, FarthestYear, NextTime, EarliestOn, DateMatches, TimeMatches, WeekdayMatches;
    var aligned, offset := AlignedStart(model, now), model.utcOffsetMinutes * MS_PER_MINUTE;
    var last := GivesUpOn(model.cron, Day(aligned), FarthestYear(now));
    FitsFromAlignedDay(model, now, u);
    var day := FirstDateExists(model.cron, Day(aligned), Day(Shifted(model, u)));
    FirstDateNotBefore(model.cron, Day(aligned), day);
    HangsIff(model, now);
    Candidate(model, now, day);
    NotBefore(model, now, day, u);
    InTimeBefore(model, now, EarliestOn(model.cron, ShiftedStart(model, now), day) - offset, u);
    if day < last {
      NotHangingMatches(model, now, day);
    } else if last < Day(Shifted(model, u)) {
      FieldsOnDay(aligned, last);
      InOrder(OnDay(aligned, last), Shifted(model, u));
      InTimeBefore(model, now, OnDay(aligned, last) - offset, u);
    }
  }

  lemma FirstDateNotBefore(c: CronModel, from: int, day: int)
    requires FirstDate(c, from, day)
    ensures from <= day && DateMatches(c, day)
  {
  }

  lemma MissedIsNull(model: ScheduleCronModel, now: int, day: int)
    requires model.cron.WellFormed()
    requires var aligned, offset := AlignedStart(model, now), model.utcOffsetMinutes * MS_PER_MINUTE;
      && FirstDate(model.cron, Day(aligned), day) && WeekdayMatches(model.cron, day)
      && day <= GivesUpOn(model.cron, Day(aligned), FarthestYear(now))
      && InTime(model, now, EarliestOn(model.cron, ShiftedStart(model, now), day) - offset)
      && !InTime(model, now, OnDay(aligned, day) - offset)
    ensures NextTime(model, now).NoTime? && SomethingFits(model, now)
  {
    hide DayFromMonth, MonthLength, DateOf, Aligned, ShiftedStart, FromTimeStruct, OnDay, GivesUpOn, YearOf, Day;
    hide FirstDate, Target, FarthestYear, NextTime, EarliestOn, DateMatches, TimeMatches;
    FirstDateNotBefore(model.cron, Day(AlignedStart(model, now)), day);
    NotHanging(model, now, day);
    FirstTimeFits(model, now, day);
    Candidate(model, now, day);
  }

  /**
   Null means exactly that the search ends, nothing fits in time and no stray instant is answered instead,
   or that the search misses what fits.
   */
  lemma NoTimeIff(model: ScheduleCronModel, now: int)
    requires model.cron.WellFormed()
    ensures NextTime(model, now).NoTime? <==>
      (!Hangs(model, now) && !SomethingFits(model, now) && !Strays(model, now)) || Misses(model, now)
  {
    hide DayFromMonth, MonthLength, DateOf, Aligned, ShiftedStart, FromTimeStruct, OnDay, GivesUpOn, YearOf, Day;
    hide FirstDate, Target, FarthestYear, NextTime, Strays, Misses, Fits, IsAfter, Hangs;
    MissesIff(model, now);
    StraysIff(model, now);
    HangsIff(model, now);
    if NextTime(model, now).FiresAt? && DateInReach(model, now) {
      var t := NextTime(model, now).t;
      Soundness(model, now, t);
      assert IsAfter(model, now, t) && Fits(model, t) && InTime(model, now, t);
    }
  }

  /** With one time of day nothing is missed; without an offset nothing strays either. */
  lemma NeverMisses(model: ScheduleCronModel, now: int)
    requires model.cron.WellFormed()
    ensures model.cron.OneTimeOfDay() ==> !Misses(model, now)
    ensures model.utcOffsetMinutes <= 0 ==> !Strays(model, now)
  {
    hide DayFromMonth, MonthLength, DateOf, Aligned, ShiftedStart, FromTimeStruct, OnDay, GivesUpOn, YearOf, Day;
    hide FarthestYear, EarliestOn, InTime, Strays, Millisecond, DateMatches;
    if Strays(model, now) {
      StraysOnlyBehind(model, now);
    }
    if model.cron.OneTimeOfDay() {
      StartIsWhole(model, now);
      forall day | FirstDate(model.cron, Day(AlignedStart(model, now)), day)
        ensures OnDay(AlignedStart(model, now), day) == EarliestOn(model.cron, ShiftedStart(model, now), day)
      {
        LagsIff(model.cron, ShiftedStart(model, now), day);
      }
    }
  }

  lemma DaysInOrder(t: int, u: int)
    requires t <= u
    ensures Day(t) <= Day(u)
  {
  }

  lemma YearsInOrder(d: int, e: int)
    requires d <= e
    ensures YearOf(d) <= YearOf(e)
  {
    hide DayFromMonth, MonthLength;
    MonthOfIsMonotone(d, e);
  }
}
