/**
 The proleptic Gregorian calendar behind JavaScript's `Date`, on integers and
 without daylight saving: section 20.3.1 of ECMA-262, 6th edition.

 Instants are milliseconds since 1970-01-01T00:00:00Z. Days are numbered from
 that date. A month is numbered by `12 * year + month` with a zero-based month,
 so that carrying a month into the next year is plain addition.
 */
module Calendar {

  const MS_PER_SECOND := 1000
  const MS_PER_MINUTE := 60_000
  const MS_PER_HOUR := 3_600_000
  const MS_PER_DAY := 86_400_000

  // ----- years and months -------------------------------------------------

  predicate IsLeap(year: int) {
    year % 4 == 0 && (year % 100 != 0 || year % 400 == 0)
  }

  /** The day number of January 1 of `year`. */
  function DayFromYear(year: int): int {
    365 * (year - 1970) + (year - 1969) / 4 - (year - 1901) / 100 + (year - 1601) / 400
  }

  /** Stepping a dividend by one changes a quotient only on reaching a multiple. */
  lemma NextQuotient(n: int, k: int)
    requires 0 < k
    ensures (n + 1) / k == n / k + if (n + 1) % k == 0 then 1 else 0
  {
    var q, r := n / k, n % k;
    assert n == q * k + r;
    if r + 1 < k {
      DivMod(q, r + 1, k);
    } else {
      assert n + 1 == (q + 1) * k + 0;
      DivMod(q + 1, 0, k);
    }
  }

  lemma DivMod(q: int, r: int, k: int)
    requires 0 <= r < k
    ensures (q * k + r) / k == q && (q * k + r) % k == r
  {
    var x := q * k + r;
    SameQuotient(q, r, x / k, x % k, k);
  }

  lemma SameQuotient(q: int, r: int, p: int, e: int, k: int)
    requires 0 <= r < k && 0 <= e < k
    requires q * k + r == p * k + e
    ensures q == p && r == e
  {
    assert (q - p) * k == e - r;
    AtLeastOnce(q - p, k);
    AtLeastOnce(p - q, k);
  }

  lemma AtLeastOnce(d: int, k: int)
    requires 0 < k
    ensures 1 <= d ==> k <= d * k
  {
    if 1 <= d {
      assert 0 <= (d - 1) * k;
    }
  }

  /** `n + 1` is `k * q` before some year: the quotient steps in the years divisible by `k`. */
  lemma LeapDays(n: int, k: int, q: int)
    requires 0 < k
    ensures (n + 1) / k == n / k + if (n + 1 + q * k) % k == 0 then 1 else 0
  {
    NextQuotient(n, k);
    DivMod((n + 1) / k + q, (n + 1) % k, k);
    assert ((n + 1) / k + q) * k + (n + 1) % k == n + 1 + q * k;
  }

  lemma YearLength(year: int)
    ensures DayFromYear(year + 1) - DayFromYear(year) == if IsLeap(year) then 366 else 365
  {
    LeapDays(year - 1969, 4, 492);
    LeapDays(year - 1901, 100, 19);
    LeapDays(year - 1601, 400, 4);
  }

  /** Days of the year before the first of a zero-based month; 12 stands for the next January. */
  function DaysBeforeMonth(leap: bool, month: int): int
    requires 0 <= month <= 12
  {
    var feb := if leap then 1 else 0;
    if month == 0 then 0
    else if month == 1 then 31
    else if month == 2 then 59 + feb
    else if month == 3 then 90 + feb
    else if month == 4 then 120 + feb
    else if month == 5 then 151 + feb
    else if month == 6 then 181 + feb
    else if month == 7 then 212 + feb
    else if month == 8 then 243 + feb
    else if month == 9 then 273 + feb
    else if month == 10 then 304 + feb
    else if month == 11 then 334 + feb
    else 365 + feb
  }

  /** The day number of the first of the numbered month. */
  function DayFromMonth(month: int): int {
    DayFromYear(month / 12) + DaysBeforeMonth(IsLeap(month / 12), month % 12)
  }

  /** The length of the numbered month, as calendars print it. */
  function MonthLength(month: int): int {
    var m := month % 12;
    if m == 1 then (if IsLeap(month / 12) then 29 else 28)
    else if m == 3 || m == 5 || m == 8 || m == 10 then 30
    else 31
  }

  lemma NextMonth(month: int)
    ensures DayFromMonth(month + 1) == DayFromMonth(month) + MonthLength(month)
    ensures 28 <= MonthLength(month) <= 31
  {
    var y, m := month / 12, month % 12;
    if m == 11 {
      assert (month + 1) / 12 == y + 1 && (month + 1) % 12 == 0;
      YearLength(y);
    } else {
      assert (month + 1) / 12 == y && (month + 1) % 12 == m + 1;
    }
  }

  lemma {:induction false} MonthsIncrease(a: int, b: int)
    requires a <= b
    ensures DayFromMonth(a) + 28 * (b - a) <= DayFromMonth(b)
    decreases b - a
  {
    hide DayFromMonth, MonthLength;
    if a < b {
      MonthsIncrease(a, b - 1);
      NextMonth(b - 1);
    }
  }

  /** The number of the month that holds `day`: the only one whose days surround it. */
  function MonthOf(day: int): (month: int)
    ensures DayFromMonth(month) <= day < DayFromMonth(month + 1)
  {
    hide DayFromMonth;
    FindMonth(day, 12 * 1970)
  }

  function FindMonth(day: int, month: int): (found: int)
    ensures DayFromMonth(found) <= day < DayFromMonth(found + 1)
    decreases if day < DayFromMonth(month) then DayFromMonth(month) - day
              else if day < DayFromMonth(month + 1) then 0
              else day - DayFromMonth(month + 1) + 1
  {
    hide DayFromMonth;
    NextMonth(month);
    if day < DayFromMonth(month) then
      NextMonth(month - 1);
      FindMonth(day, month - 1)
    else if day >= DayFromMonth(month + 1) then
      NextMonth(month + 1);
      FindMonth(day, month + 1)
    else
      month
  }

  lemma MonthOfIsUnique(day: int, month: int)
    requires DayFromMonth(month) <= day < DayFromMonth(month + 1)
    ensures MonthOf(day) == month
  {
    hide DayFromMonth;
    if MonthOf(day) < month {
      MonthsIncrease(MonthOf(day) + 1, month);
    } else if month < MonthOf(day) {
      MonthsIncrease(month + 1, MonthOf(day));
    }
  }

  lemma MonthOfIsMonotone(d: int, e: int)
    requires d <= e
    ensures MonthOf(d) <= MonthOf(e)
  {
    if MonthOf(e) < MonthOf(d) {
      MonthsIncrease(MonthOf(e) + 1, MonthOf(d));
    }
  }

  // ----- the fields of a day ----------------------------------------------

  function YearOf(day: int): int {
    MonthOf(day) / 12
  }

  /** Zero-based month of the year. */
  function MonthInYear(day: int): (month: int)
    ensures 0 <= month <= 11
  {
    MonthOf(day) % 12
  }

  /** One-based day of the month. */
  function DateOf(day: int): (date: int)
    ensures 1 <= date <= MonthLength(MonthOf(day))
  {
    NextMonth(MonthOf(day));
    day - DayFromMonth(MonthOf(day)) + 1
  }

  /** Sunday is 0. */
  function WeekdayOf(day: int): (weekday: int)
    ensures 0 <= weekday <= 6
  {
    (day + 4) % 7
  }

  /** What each month adds to the weekday. */
  const MONTH_SHIFTS := [0, 3, 2, 5, 0, 3, 5, 1, 4, 6, 2, 4]

  /** How many weeks of the year are over before each month. */
  const MONTH_WEEKS := [0, 4, 8, 12, 17, 21, 25, 30, 34, 38, 43, 47]

  /** Years and leap days up to a year. */
  function YearShift(year: int): int {
    year + year / 4 - year / 100 + year / 400
  }

  /** Sakamoto's rule: the weekday of a date, from its year, zero-based month and date. */
  function WeekdayOfDate(year: int, month: int, date: int): int
    requires 0 <= month <= 11
  {
    (YearShift(if month < 2 then year - 1 else year) + MONTH_SHIFTS[month] + date) % 7
  }

  /** The weekday of every day is the one of the civil calendar. */
  lemma WeekdayOfDay(day: int)
    ensures WeekdayOf(day) == WeekdayOfDate(YearOf(day), MonthInYear(day), DateOf(day))
  {
    hide DayFromMonth, WeekdayOfDate;
    var m := MonthOf(day);
    assert 12 * (m / 12) + m % 12 == m;
    WeekdayFromFields(m / 12, m % 12, DateOf(day));
    MakeDayOfFields(day);
  }

  lemma WeekdayFromFields(year: int, month: int, date: int)
    requires 0 <= month <= 11
    ensures WeekdayOf(MakeDay(year, month, date)) == WeekdayOfDate(year, month, date)
  {
    hide DayFromYear, YearShift, IsLeap, DaysBeforeMonth;
    assert (12 * year + month) / 12 == year && (12 * year + month) % 12 == month;
    YearWeeks(year);
    MonthWeeks(IsLeap(year), month);
    var shift := YearShift(if month < 2 then year - 1 else year) + MONTH_SHIFTS[month] + date;
    var weeks := 52 * year - 102789 + MONTH_WEEKS[month];
    assert MakeDay(year, month, date) + 4 == shift + 7 * weeks;
    SameWeekday(shift, weeks);
  }

  lemma YearWeeks(year: int)
    ensures DayFromYear(year) + 3 == YearShift(year - 1) + 7 * (52 * year - 102789)
    ensures YearShift(year) == YearShift(year - 1) + 1 + if IsLeap(year) then 1 else 0
  {
    hide DayFromYear, IsLeap;
    LeapDaysBefore(year);
  }

  lemma MonthWeeks(leap: bool, month: int)
    requires 0 <= month <= 11
    ensures DaysBeforeMonth(leap, month) ==
      MONTH_SHIFTS[month] + 7 * MONTH_WEEKS[month] + if month < 2 then 0 else if leap then 2 else 1
  {
  }

  /** The leap days up to a year, from year 0 on. */
  lemma LeapDaysBefore(year: int)
    ensures var y := year - 1; DayFromYear(year) == 365 * year - 719527 + y / 4 - y / 100 + y / 400
    ensures year / 4 - year / 100 + year / 400 ==
      (year - 1) / 4 - (year - 1) / 100 + (year - 1) / 400 + if IsLeap(year) then 1 else 0
  {
    var y := year - 1;
    LeapDays(y, 4, 0);
    LeapDays(y, 100, 0);
    LeapDays(y, 400, 0);
    ShiftedQuotient(y, 4, 492);
    ShiftedQuotient(y, 100, 19);
    ShiftedQuotient(y, 400, 4);
  }

  lemma ShiftedQuotient(n: int, k: int, q: int)
    requires 0 < k
    ensures (n - q * k) / k == n / k - q
  {
    DivMod(n / k - q, n % k, k);
    assert (n / k - q) * k + n % k == n - q * k;
  }

  lemma SameWeekday(a: int, weeks: int)
    ensures (a + 7 * weeks) % 7 == a % 7
  {
  }

  /** MakeDay: months and dates outside their range carry into the fields above. */
  function MakeDay(year: int, month: int, date: int): int {
    DayFromMonth(12 * year + month) + date - 1
  }

  /** A day is determined by its fields, and every valid combination of fields is a day. */
  lemma MakeDayFields(year: int, month: int, date: int)
    requires 0 <= month <= 11 && 1 <= date <= MonthLength(12 * year + month)
    ensures var day := MakeDay(year, month, date);
      YearOf(day) == year && MonthInYear(day) == month && DateOf(day) == date
  {
    var m := 12 * year + month;
    NextMonth(m);
    MonthOfIsUnique(MakeDay(year, month, date), m);
    assert m / 12 == year && m % 12 == month;
  }

  lemma MakeDayOfFields(day: int)
    ensures MakeDay(YearOf(day), MonthInYear(day), DateOf(day)) == day
  {
    hide DayFromMonth;
    var m := MonthOf(day);
    assert 12 * (m / 12) + m % 12 == m;
  }

  lemma YearStart(year: int)
    ensures DayFromMonth(12 * year) == DayFromYear(year)
  {
    assert (12 * year) / 12 == year && (12 * year) % 12 == 0;
  }

  /** Years are intervals of days. */
  lemma YearBounds(day: int, year: int)
    ensures YearOf(day) < year <==> day < DayFromYear(year)
  {
    hide DayFromMonth, DayFromYear;
    var first := 12 * year;
    YearStart(year);
    if day < DayFromYear(year) {
      if first <= MonthOf(day) {
        MonthsIncrease(first, MonthOf(day));
      }
    } else if MonthOf(day) < first {
      MonthsIncrease(MonthOf(day) + 1, first);
    }
  }

  // ----- the fields of an instant -----------------------------------------

  function Day(t: int): int { t / MS_PER_DAY }

  function Hour(t: int): (hour: int)
    ensures 0 <= hour <= 23
  {
    (t / MS_PER_HOUR) % 24
  }

  function Minute(t: int): (minute: int)
    ensures 0 <= minute <= 59
  {
    (t / MS_PER_MINUTE) % 60
  }

  function Second(t: int): (second: int)
    ensures 0 <= second <= 59
  {
    (t / MS_PER_SECOND) % 60
  }

  function Millisecond(t: int): (ms: int)
    ensures 0 <= ms <= 999
  {
    t % MS_PER_SECOND
  }

  function MakeTime(hour: int, minute: int, second: int, ms: int): int {
    hour * MS_PER_HOUR + minute * MS_PER_MINUTE + second * MS_PER_SECOND + ms
  }

  function MakeDate(day: int, time: int): int {
    day * MS_PER_DAY + time
  }

  /** An instant is its day and its time of day, and both can be read back. */
  lemma InstantFields(t: int)
    ensures t == MakeDate(Day(t), MakeTime(Hour(t), Minute(t), Second(t), Millisecond(t)))
  {
    var s := t / 1000;
    var m := t / 60_000;
    var h := t / 3_600_000;
    assert m == s / 60 && h == m / 60 && t / MS_PER_DAY == h / 24;
  }

  lemma MakeDateFields(day: int, hour: int, minute: int, second: int, ms: int)
    requires 0 <= hour <= 23 && 0 <= minute <= 59 && 0 <= second <= 59 && 0 <= ms <= 999
    ensures var t := MakeDate(day, MakeTime(hour, minute, second, ms));
      Day(t) == day && Hour(t) == hour && Minute(t) == minute && Second(t) == second && Millisecond(t) == ms
  {
    var h := 24 * day + hour;
    var m := 60 * h + minute;
    var s := 60 * m + second;
    DivMod(s, ms, MS_PER_SECOND);
    DivMod(m, second * MS_PER_SECOND + ms, MS_PER_MINUTE);
    DivMod(h, minute * MS_PER_MINUTE + second * MS_PER_SECOND + ms, MS_PER_HOUR);
    DivMod(day, MakeTime(hour, minute, second, ms), MS_PER_DAY);
    DivMod(m, second, 60);
    DivMod(h, minute, 60);
    DivMod(day, hour, 24);
  }

  function Year(t: int): int { YearOf(Day(t)) }
}
