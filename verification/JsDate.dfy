/**
 The mutable `Date` object: section 20.3.4 of ECMA-262, 6th edition.

 Each setter is first a function on instants. A value outside a field's range
 carries into the fields above it, because MakeTime and MakeDay are linear.
 */
module JsDate {
  import opened Calendar

  function TimeOfDay(t: int): (time: int)
    ensures 0 <= time < MS_PER_DAY
  {
    t % MS_PER_DAY
  }

  function WithMilliseconds(t: int, ms: int): int {
    MakeDate(Day(t), MakeTime(Hour(t), Minute(t), Second(t), ms))
  }

  function WithSeconds(t: int, second: int): int {
    MakeDate(Day(t), MakeTime(Hour(t), Minute(t), second, Millisecond(t)))
  }

  function WithMinutes(t: int, minute: int): int {
    MakeDate(Day(t), MakeTime(Hour(t), minute, Second(t), Millisecond(t)))
  }

  function WithHours(t: int, hour: int): int {
    MakeDate(Day(t), MakeTime(hour, Minute(t), Second(t), Millisecond(t)))
  }

  function WithDate(t: int, date: int): int {
    MakeDate(MakeDay(Year(t), MonthInYear(Day(t)), date), TimeOfDay(t))
  }

  function WithMonth(t: int, month: int): int {
    MakeDate(MakeDay(Year(t), month, DateOf(Day(t))), TimeOfDay(t))
  }

  function WithFullYear(t: int, year: int): int {
    MakeDate(MakeDay(year, MonthInYear(Day(t)), DateOf(Day(t))), TimeOfDay(t))
  }

  /** A setter moves the instant by the difference of the field it sets. */
  lemma SettersShift(t: int, v: int)
    ensures WithMilliseconds(t, v) == t + (v - Millisecond(t))
    ensures WithSeconds(t, v) == t + (v - Second(t)) * MS_PER_SECOND
    ensures WithMinutes(t, v) == t + (v - Minute(t)) * MS_PER_MINUTE
    ensures WithHours(t, v) == t + (v - Hour(t)) * MS_PER_HOUR
    ensures WithDate(t, v) == t + (v - DateOf(Day(t))) * MS_PER_DAY
  {
    InstantFields(t);
    MakeDayOfFields(Day(t));
    hide DayFromMonth;
  }

  /** `Date`: one field, the time value, which every setter rewrites. */
  class Date {
    var time: int

    constructor (t: int)
      ensures time == t
    {
      time := t;
    }

    function GetSeconds(): int reads this { Second(time) }
    function GetMinutes(): int reads this { Minute(time) }
    function GetHours(): int reads this { Hour(time) }
    function GetDate(): int reads this { DateOf(Day(time)) }
    function GetDay(): int reads this { WeekdayOf(Day(time)) }
    function GetMonth(): int reads this { MonthInYear(Day(time)) }
    function GetFullYear(): int reads this { Year(time) }

    method SetMilliseconds(ms: int)
      modifies this
      ensures time == WithMilliseconds(old(time), ms)
    {
      time := WithMilliseconds(time, ms);
    }

    method SetSeconds(second: int)
      modifies this
      ensures time == WithSeconds(old(time), second)
    {
      time := WithSeconds(time, second);
    }

    method SetMinutes(minute: int)
      modifies this
      ensures time == WithMinutes(old(time), minute)
    {
      time := WithMinutes(time, minute);
    }

    method SetHours(hour: int)
      modifies this
      ensures time == WithHours(old(time), hour)
    {
      time := WithHours(time, hour);
    }

    method SetDate(date: int)
      modifies this
      ensures time == WithDate(old(time), date)
    {
      time := WithDate(time, date);
    }

    method SetMonth(month: int)
      modifies this
      ensures time == WithMonth(old(time), month)
    {
      time := WithMonth(time, month);
    }

    method SetFullYear(year: int)
      modifies this
      ensures time == WithFullYear(old(time), year)
    {
      time := WithFullYear(time, year);
    }
  }
}
