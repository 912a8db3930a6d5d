/** Calendar fields to instants and back: internal/time-util/encoding.ts. */
module TimeStructs {
  import opened Calendar

  /** The month is one-based. */
  datatype TimeStruct = TimeStruct(
    millis: int, seconds: int, minutes: int, hours: int, day: int, month: int, year: int)
  {
    predicate InRange() {
      && 0 <= millis <= 999
      && 0 <= seconds <= 59
      && 0 <= minutes <= 59
      && 0 <= hours <= 23
      && 1 <= month <= 12
      && 1 <= day <= MonthLength(12 * year + month - 1)
    }
  }

  function ToTimeStruct(t: int): TimeStruct {
    TimeStruct(Millisecond(t), Second(t), Minute(t), Hour(t),
               DateOf(Day(t)), MonthInYear(Day(t)) + 1, Year(t))
  }

  /** The `Date` constructor reads a year from 0 to 99 as one of the twentieth century. */
  function FullYear(year: int): int {
    if 0 <= year <= 99 then 1900 + year else year
  }

  function FromTimeStruct(ts: TimeStruct): int {
    MakeDate(MakeDay(FullYear(ts.year), ts.month - 1, ts.day),
             MakeTime(ts.hours, ts.minutes, ts.seconds, ts.millis))
  }

  /** Those years stand for 1900 to 1999. */
  lemma TwoDigitYears(ts: TimeStruct)
    requires 0 <= ts.year <= 99
    ensures FromTimeStruct(ts) == FromTimeStruct(ts.(year := 1900 + ts.year))
  {
    hide MakeDay, MakeTime, MakeDate;
  }

  lemma StructOfInstant(t: int)
    ensures ToTimeStruct(t).InRange()
  {
    hide DayFromMonth, MonthLength;
    assert 12 * (MonthOf(Day(t)) / 12) + MonthOf(Day(t)) % 12 == MonthOf(Day(t));
  }

  /** `fromTimeStruct` undoes `toTimeStruct` for exactly the instants outside the years 0 to 99. */
  lemma InstantRoundTrip(t: int)
    ensures FromTimeStruct(ToTimeStruct(t)) == t <==> !(0 <= Year(t) <= 99)
  {
    InstantFields(t);
    MakeDayOfFields(Day(t));
    StructOfInstant(t);
    hide DayFromMonth, MonthLength;
    if 0 <= Year(t) <= 99 {
      TwentiethCentury(ToTimeStruct(t));
    }
  }

  /** `toTimeStruct` undoes `fromTimeStruct` for exactly the in-range structs outside those years. */
  lemma StructRoundTrip(ts: TimeStruct)
    requires ts.InRange()
    ensures ToTimeStruct(FromTimeStruct(ts)) == ts <==> !(0 <= ts.year <= 99)
  {
    hide DayFromMonth, MonthLength, MakeDay, YearOf, MonthInYear, DateOf;
    hide Hour, Minute, Second, Millisecond, Day, MakeDate, MakeTime;
    if 0 <= ts.year <= 99 {
      TwentiethCentury(ts);
    } else {
      var day := MakeDay(ts.year, ts.month - 1, ts.day);
      MakeDayFields(ts.year, ts.month - 1, ts.day);
      MakeDateFields(day, ts.hours, ts.minutes, ts.seconds, ts.millis);
    }
  }

  lemma TwentiethCentury(ts: TimeStruct)
    requires ts.InRange() && 0 <= ts.year <= 99
    ensures Year(FromTimeStruct(ts)) >= 1900
  {
    hide DayFromMonth, DayFromYear, MonthLength, YearOf, MonthInYear, DateOf;
    var month := 12 * (1900 + ts.year) + ts.month - 1;
    var day := MakeDay(1900 + ts.year, ts.month - 1, ts.day);
    YearStart(1900);
    MonthsIncrease(12 * 1900, month);
    MakeDateFields(day, ts.hours, ts.minutes, ts.seconds, ts.millis);
    YearBounds(day, 1900);
  }
}
