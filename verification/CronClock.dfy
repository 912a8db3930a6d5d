/**
 What the requester's clock shows when a schedule fires. The offset is what moves that clock to UTC, so
 the clock shows the instant less the offset; the search reads the instant plus the offset.
 */
module CronClock {
  import opened Wrappers
  import opened Calendar
  import opened JsDate
  import opened TimeStructs
  import opened CronSpec
  import opened NextCron
  import opened CronTheorems

  /** Minutes from the searched midnight to the time the requester's clock shows, both before the call. */
  function ClockMinutes(model: ScheduleCronModel, now: int): int
    requires model.cron.HasTimes()
  {
    60 * Hour(AlignedStart(model, now)) + Minute(AlignedStart(model, now)) - 2 * model.utcOffsetMinutes
  }

  /** Whole seconds, moved by minutes. */
  lemma FieldsMoved(t: int, minutes: int)
    requires Millisecond(t) == 0
    ensures var u, m := t + minutes * MS_PER_MINUTE, 60 * Hour(t) + Minute(t) + minutes;
      && Millisecond(u) == 0 && Second(u) == Second(t)
      && Minute(u) == m % 60 && Hour(u) == m / 60 % 24 && Day(u) == Day(t) + m / 60 / 24
  {
    hide Day, Hour, Minute, Second, Millisecond, MinuteCount, HourCount;
    var u, m := t + minutes * MS_PER_MINUTE, 60 * Hour(t) + Minute(t) + minutes;
    Counts(t);
    assert u == At(MinuteCount(t) + minutes, Second(t));
    FieldsAt(MinuteCount(t) + minutes, Second(t));
    Counts(u);
    SameQuotient(24 * Day(t) + m / 60, m % 60, HourCount(u), Minute(u), 60);
    SameQuotient(Day(t) + m / 60 / 24, m / 60 % 24, Day(u), Hour(u), 24);
  }

  /**
   When a schedule fires, the requester's clock shows a match exactly under this condition on the lists,
   the aligned time and the first listed date.
   */
  lemma ClockMatchesIff(model: ScheduleCronModel, now: int, t: int)
    requires model.cron.WellFormed() && DateInReach(model, now)
    requires NextTime(model, now) == FiresAt(t)
    ensures var m := ClockMinutes(model, now); var day := DateReached(model, now) + m / 60 / 24;
      Matches(model.cron, RequesterClock(model, t)) <==>
        && m % 60 in model.cron.minutes && m / 60 % 24 in model.cron.hours
        && DateMatches(model.cron, day) && WeekdayMatches(model.cron, day)
  {
    hide DayFromMonth, MonthLength, DateOf, Aligned, ShiftedStart, FromTimeStruct, Second, Minute, Hour, Millisecond;
    hide OnDay, YearOf, GivesUpOn, Day, DateMatches, WeekdayMatches;
    var aligned := AlignedStart(model, now);
    Soundness(model, now, t);
    AnswerFields(model, now, DateReached(model, now));
    FieldsOnDay(aligned, DateReached(model, now));
    assert Shifted(model, t) == OnDay(aligned, DateReached(model, now));
    FieldsMoved(Shifted(model, t), -2 * model.utcOffsetMinutes);
  }

  /**
   With one time of day the clock shows it exactly if twice the offset is a number of days, and then the
   date must be listed that many days before.
   */
  lemma OneTimeOnClockIff(model: ScheduleCronModel, now: int, t: int)
    requires model.cron.WellFormed() && model.cron.OneTimeOfDay() && DateInReach(model, now)
    requires NextTime(model, now) == FiresAt(t)
    ensures var days := 2 * model.utcOffsetMinutes / 1440; var day := DateReached(model, now) - days;
      Matches(model.cron, RequesterClock(model, t)) <==>
        2 * model.utcOffsetMinutes % 1440 == 0 && DateMatches(model.cron, day) && WeekdayMatches(model.cron, day)
  {
    hide DayFromMonth, MonthLength, DateOf, Aligned, ShiftedStart, FromTimeStruct, Second, Millisecond;
    hide OnDay, YearOf, GivesUpOn, Day, DateMatches, WeekdayMatches, Minute, Hour, Matches, NextTime, RequesterClock;
    ClockMatchesIff(model, now, t);
    AlignedIsListed(model, now);
    var aligned := AlignedStart(model, now);
    Apart(60 * Hour(aligned) + Minute(aligned), 2 * model.utcOffsetMinutes);
  }

  /** For offsets of less than half a day either way, only UTC itself is served. */
  lemma OneTimeOnlyInUtc(model: ScheduleCronModel, now: int, t: int)
    requires model.cron.WellFormed() && model.cron.OneTimeOfDay() && DateInReach(model, now)
    requires NextTime(model, now) == FiresAt(t) && -720 < model.utcOffsetMinutes < 720
    ensures Matches(model.cron, RequesterClock(model, t)) <==> model.utcOffsetMinutes == 0
  {
    hide DayFromMonth, MonthLength, DateOf, Aligned, ShiftedStart, FromTimeStruct, Second, Millisecond;
    hide OnDay, YearOf, GivesUpOn, Day, DateMatches, WeekdayMatches, Minute, Hour, Matches, NextTime, RequesterClock;
    OneTimeOnClockIff(model, now, t);
    ReachedMatches(model, now, t);
  }

  lemma ReachedMatches(model: ScheduleCronModel, now: int, t: int)
    requires model.cron.WellFormed() && DateInReach(model, now) && NextTime(model, now) == FiresAt(t)
    ensures DateMatches(model.cron, DateReached(model, now)) && WeekdayMatches(model.cron, DateReached(model, now))
  {
    hide DayFromMonth, MonthLength, DateOf, Aligned, ShiftedStart, FromTimeStruct, Second, Minute, Hour, Millisecond;
    hide OnDay, YearOf, GivesUpOn, Day, DateMatches, WeekdayMatches;
  }

  /** The aligned time is the one listed time. */
  lemma AlignedIsListed(model: ScheduleCronModel, now: int)
    requires model.cron.WellFormed() && model.cron.OneTimeOfDay()
    ensures var aligned := AlignedStart(model, now);
      model.cron.hours == [Hour(aligned)] && model.cron.minutes == [Minute(aligned)]
  {
    hide DayFromMonth, MonthLength, DateOf, Aligned, ShiftedStart, Second, Minute, Hour, Millisecond, Day;
    StartIsWhole(model, now);
    AlignedMeaning(model.cron, ShiftedStart(model, now), ShiftedStart(model, now));
  }

  /** Minutes of a day, moved back, show the same time exactly if they are moved by whole days. */
  lemma Apart(time: int, back: int)
    requires 0 <= time < 1440
    ensures (time - back) % 60 == time % 60 && (time - back) / 60 % 24 == time / 60 <==> back % 1440 == 0
    ensures back % 1440 == 0 ==> (time - back) / 60 / 24 == -(back / 1440)
  {
    var m := time - back;
    assert m == 60 * (m / 60) + m % 60 && m / 60 == 24 * (m / 60 / 24) + m / 60 % 24;
    DivMod(-(m / 60 / 24), 0, 1440);
    if back % 1440 == 0 {
      var d := -(back / 1440);
      assert m == 60 * (24 * d + time / 60) + time % 60;
      SameQuotient(24 * d + time / 60, time % 60, m / 60, m % 60, 60);
      SameQuotient(d, time / 60, m / 60 / 24, m / 60 % 24, 24);
    }
  }
}
