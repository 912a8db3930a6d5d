/** From a written cron expression to the instants at which it fires. */
module CronSchedules {
  import opened Wrappers
  import opened Text
  import opened Calendar
  import opened CronSpec
  import opened NextCron
  import opened CronTheorems
  import opened CronClock
  import opened CronExpression
  import opened CronFields
  import opened CronRoundTrip

  /** The six fields of an expression, as written. */
  datatype Expression = Expression(
    second: Field, minute: Field, hour: Field, date: Field, month: Field, weekday: Field)
  {
    predicate Written() {
      && IsWritten(second) && IsWritten(minute) && IsWritten(hour)
      && IsWritten(date) && IsWritten(month) && IsWritten(weekday)
    }

    function Text(): string
      requires Written()
    {
      FieldText(second) + " " +
      Spaced(FieldText(minute), FieldText(hour), FieldText(date), FieldText(month), FieldText(weekday))
    }
  }

  predicate IsWritten(f: Field) {
    f.items != [] && OneAsterisk(f.items)
  }

  lemma FieldHasNoBlank(f: Field)
    requires IsWritten(f)
    ensures Blankless(FieldText(f))
  {
    hide ItemsText, StepText;
    var s := FieldText(f);
    forall i | 0 <= i < |s| ensures !IsSpace(s[i]) {
      assert s[i] in ItemsText(f.items) || s[i] in StepText(f.step);
    }
  }

  lemma SixWords(e: Expression)
    requires e.Written()
    ensures Words(e.Text()) ==
      [FieldText(e.second), FieldText(e.minute), FieldText(e.hour), FieldText(e.date), FieldText(e.month),
       FieldText(e.weekday)]
  {
    hide FieldText, Words, Spaced, OneAsterisk;
    FieldHasNoBlank(e.second);
    FieldHasNoBlank(e.minute);
    FieldHasNoBlank(e.hour);
    FieldHasNoBlank(e.date);
    FieldHasNoBlank(e.month);
    FieldHasNoBlank(e.weekday);
    SpacedWords(FieldText(e.minute), FieldText(e.hour), FieldText(e.date), FieldText(e.month), FieldText(e.weekday));
    WordsOf(FieldText(e.second), " ",
            Spaced(FieldText(e.minute), FieldText(e.hour), FieldText(e.date), FieldText(e.month),
                   FieldText(e.weekday)));
  }

  /** However many blanks there are between the fields. */
  lemma BlanksDoNotMatter(e: Expression, gaps: seq<string>)
    requires e.Written() && |gaps| == 5 && forall i :: 0 <= i < 5 ==> Gap(gaps[i])
    ensures var words := [FieldText(e.second), FieldText(e.minute), FieldText(e.hour), FieldText(e.date),
                          FieldText(e.month), FieldText(e.weekday)];
      ParsedModel(Joined(words, gaps)) == ParsedModel(e.Text())
  {
    hide FieldText, Words, Expression.Text, OneAsterisk, FieldValues, Listed, SundayIsZero, Blankless;
    FieldHasNoBlank(e.second);
    FieldHasNoBlank(e.minute);
    FieldHasNoBlank(e.hour);
    FieldHasNoBlank(e.date);
    FieldHasNoBlank(e.month);
    FieldHasNoBlank(e.weekday);
    SixWords(e);
    var words := [FieldText(e.second), FieldText(e.minute), FieldText(e.hour), FieldText(e.date), FieldText(e.month),
                  FieldText(e.weekday)];
    assert AreWords(words) by {
      BlanklessWords(words);
    }
    WordsOfJoined(words, gaps);
  }

  lemma BlanklessWords(words: seq<string>)
    requires words != [] && forall i :: 0 <= i < |words| ==> Blankless(words[i])
    ensures AreWords(words)
  {
  }

  /** Each list of the parsed model holds exactly what its field says. */
  lemma ExpressionMeaning(e: Expression)
    requires e.Written()
    ensures ParsedModel(e.Text()).Some?
    ensures var c := ParsedModel(e.Text()).value;
      && (forall v :: v in c.seconds <==> Says(e.second, 0, 59, v))
      && (forall v :: v in c.minutes <==> Says(e.minute, 0, 59, v))
      && (forall v :: v in c.hours <==> Says(e.hour, 0, 23, v))
      && (forall v :: v in c.daysOfMonth <==> Says(e.date, 1, 31, v))
      && (forall v :: v in c.months <==> Says(e.month, 1, 12, v))
      && (forall v :: v in c.daysOfWeek <==> SaysWeekday(e.weekday, v))
  {
    hide FieldValues, FieldText, Words, Spaced, Says, Listed, SundayIsZero, Expression.Text;
    SixWords(e);
    FieldMeaning(e.second, 0, 59);
    FieldMeaning(e.minute, 0, 59);
    FieldMeaning(e.hour, 0, 23);
    FieldMeaning(e.date, 1, 31);
    FieldMeaning(e.month, 1, 12);
    WeekdayMeaning(e.weekday);
  }

  ghost predicate SaysWeekday(f: Field, v: int) {
    (v <= 6 && Says(f, 0, 7, v)) || (v == 0 && Says(f, 0, 7, 7))
  }

  /** At this whole second the clock and the calendar read as the expression says. */
  ghost predicate FitsAsWritten(e: Expression, t: int) {
    && Millisecond(t) == 0
    && Says(e.second, 0, 59, Second(t))
    && Says(e.minute, 0, 59, Minute(t))
    && Says(e.hour, 0, 23, Hour(t))
    && SaysDay(e, Day(t))
  }

  ghost predicate SaysDay(e: Expression, day: int) {
    && Says(e.date, 1, 31, DateOf(day))
    && Says(e.month, 1, 12, MonthOf(day) % 12 + 1)
    && SaysWeekday(e.weekday, WeekdayOf(day))
  }

  lemma FitsIff(e: Expression, c: CronModel, t: int)
    requires e.Written() && ParsedModel(e.Text()) == Some(c)
    ensures Matches(c, t) <==> FitsAsWritten(e, t)
  {
    hide ParsedModel, Says, SaysWeekday, DayFromMonth, MonthLength, DateOf, MonthOf, WeekdayOf, Day;
    hide Second, Minute, Hour, Millisecond, IsWritten, Expression.Text;
    ExpressionMeaning(e);
  }

  /**
   An answer that its search found is after `now` and the start, and before the end; once shifted it shows
   what the expression says; and no instant on an earlier shifted day does.
   */
  lemma FiresAsWritten(e: Expression, model: ScheduleCronModel, now: int, t: int)
    requires e.Written() && ParsedModel(e.Text()) == Some(model.cron) && model.cron.WellFormed()
    requires DateInReach(model, now) && NextTime(model, now) == FiresAt(t)
    ensures IsAfter(model, now, t) && IsBeforeEnd(model, t) && FitsAsWritten(e, Shifted(model, t))
    ensures forall u :: IsAfter(model, now, u) && FitsAsWritten(e, Shifted(model, u)) ==>
      Day(Shifted(model, t)) <= Day(Shifted(model, u))
  {
    hide ParsedModel, NextTime, FitsAsWritten, Matches, Day, IsAfter, IsBeforeEnd, Shifted, Expression.Text;
    Soundness(model, now, t);
    FitsIff(e, model.cron, Shifted(model, t));
    forall u | IsAfter(model, now, u) && FitsAsWritten(e, Shifted(model, u))
      ensures Day(Shifted(model, t)) <= Day(Shifted(model, u))
    {
      FitsIff(e, model.cron, Shifted(model, u));
      FirstDay(model, now, u);
    }
  }

  /**
   The requester's own clock shows what the expression says exactly under this condition on the first
   listed date, the aligned time and twice the offset.
   */
  lemma FiresAsRequestedIff(e: Expression, model: ScheduleCronModel, now: int, t: int)
    requires e.Written() && ParsedModel(e.Text()) == Some(model.cron) && model.cron.WellFormed()
    requires DateInReach(model, now) && NextTime(model, now) == FiresAt(t)
    ensures var m := ClockMinutes(model, now);
      FitsAsWritten(e, RequesterClock(model, t)) <==>
        && Says(e.minute, 0, 59, m % 60) && Says(e.hour, 0, 23, m / 60 % 24)
        && SaysDay(e, DateReached(model, now) + m / 60 / 24)
  {
    hide ParsedModel, NextTime, Says, SaysWeekday, DayFromMonth, MonthLength, DateOf, MonthOf, WeekdayOf, Day;
    hide FitsAsWritten, Matches, IsWritten, Expression.Text, ClockMinutes, RequesterClock;
    ClockMatchesIff(model, now, t);
    FitsIff(e, model.cron, RequesterClock(model, t));
    ExpressionMeaning(e);
  }

  /** With one time of day and an offset of less than half a day, only requesters in UTC are served as written. */
  lemma OneTimeAsRequestedIff(e: Expression, model: ScheduleCronModel, now: int, t: int)
    requires e.Written() && ParsedModel(e.Text()) == Some(model.cron) && model.cron.WellFormed()
    requires model.cron.OneTimeOfDay() && -720 < model.utcOffsetMinutes < 720
    requires DateInReach(model, now) && NextTime(model, now) == FiresAt(t)
    ensures FitsAsWritten(e, RequesterClock(model, t)) <==> model.utcOffsetMinutes == 0
  {
    hide ParsedModel, NextTime, FitsAsWritten, Matches, IsWritten, Expression.Text, RequesterClock;
    OneTimeOnlyInUtc(model, now, t);
    FitsIff(e, model.cron, RequesterClock(model, t));
  }
}
