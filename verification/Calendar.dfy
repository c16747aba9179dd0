/**
 * UTC time values and their ISO text: the proleptic Gregorian calendar of ECMA-262 section
 * 21.4.1, `Date.prototype.toISOString` and the parts of `Date.parse` the adapters rely on.
 */
module Calendar {

  const MS_PER_HOUR := 3_600_000
  const MS_PER_DAY := 86_400_000

  /** The time values a Date can hold (TimeClip). */
  const MAX_TIME := 8_640_000_000_000_000

  type Time = t: int | -MAX_TIME <= t <= MAX_TIME

  predicate Leap(year: int) { year % 4 == 0 && (year % 100 != 0 || year % 400 == 0) }

  function DaysInYear(year: int): int { if Leap(year) then 366 else 365 }

  /** The day number, counted from 1970-01-01, of the first day of a year. */
  function DayFromYear(year: int): int {
    365 * (year - 1970) + (year - 1969) / 4 - (year - 1901) / 100 + (year - 1601) / 400
  }

  lemma DivStep(x: int, k: int)
    requires k == 4 || k == 100 || k == 400
    ensures (x + 1) / k == x / k + (if (x + 1) % k == 0 then 1 else 0)
  {}

  lemma YearLength(year: int)
    ensures DayFromYear(year + 1) == DayFromYear(year) + DaysInYear(year)
  {
    DivStep(year - 1969, 4);
    DivStep(year - 1901, 100);
    DivStep(year - 1601, 400);
  }

  lemma {:induction false} YearsAscend(a: int, b: int)
    requires a <= b
    ensures DayFromYear(a) + (b - a) <= DayFromYear(b)
    decreases b - a
  {
    if a < b {
      YearLength(b - 1);
      YearsAscend(a, b - 1);
    }
  }

  /** The year that holds a day, searched for from the year given. */
  function YearFromDay(day: int, year: int := 1970): (r: int)
    ensures DayFromYear(r) <= day < DayFromYear(r + 1)
    decreases day < DayFromYear(year),
      if day < DayFromYear(year) then DayFromYear(year) - day else day - DayFromYear(year)
  {
    YearLength(year - 1);
    YearLength(year);
    if day < DayFromYear(year) then YearFromDay(day, year - 1)
    else if day >= DayFromYear(year + 1) then YearFromDay(day, year + 1)
    else year
  }

  lemma YearUnique(day: int, year: int)
    requires DayFromYear(year) <= day < DayFromYear(year + 1)
    ensures YearFromDay(day) == year
  {
    SameYear(day, YearFromDay(day), year);
  }

  lemma SameYear(day: int, a: int, b: int)
    requires DayFromYear(a) <= day < DayFromYear(a + 1) && DayFromYear(b) <= day < DayFromYear(b + 1)
    ensures a == b
  {
    if a < b { YearsAscend(a + 1, b); }
    if b < a { YearsAscend(b + 1, a); }
  }

  /** Days of the year before the first of a month; month 13 stands for the next year. */
  function DaysBefore(month: int, leap: bool): int
    requires 1 <= month <= 13
  {
    var extra := if leap then 1 else 0;
    if month == 1 then 0
    else if month == 2 then 31
    else if month == 3 then 59 + extra
    else if month == 4 then 90 + extra
    else if month == 5 then 120 + extra
    else if month == 6 then 151 + extra
    else if month == 7 then 181 + extra
    else if month == 8 then 212 + extra
    else if month == 9 then 243 + extra
    else if month == 10 then 273 + extra
    else if month == 11 then 304 + extra
    else if month == 12 then 334 + extra
    else 365 + extra
  }

  function MonthOf(dayInYear: int, leap: bool, month: int := 1): (r: int)
    requires 1 <= month <= 12 && DaysBefore(month, leap) <= dayInYear < DaysBefore(13, leap)
    ensures 1 <= r <= 12 && DaysBefore(r, leap) <= dayInYear < DaysBefore(r + 1, leap)
    decreases 12 - month
  {
    if dayInYear < DaysBefore(month + 1, leap) then month else MonthOf(dayInYear, leap, month + 1)
  }

  lemma MonthUnique(dayInYear: int, leap: bool, month: int)
    requires 1 <= month <= 12 && DaysBefore(month, leap) <= dayInYear < DaysBefore(month + 1, leap)
    requires 0 <= dayInYear < DaysBefore(13, leap)
    ensures MonthOf(dayInYear, leap) == month
  {}

  function DaysInMonth(year: int, month: int): int
    requires 1 <= month <= 12
  {
    DaysBefore(month + 1, Leap(year)) - DaysBefore(month, Leap(year))
  }

  datatype Date = Date(year: int, month: int, day: int) {
    predicate Valid() { 1 <= month <= 12 && 1 <= day <= DaysInMonth(year, month) }
  }

  datatype Clock = Clock(hour: int, minute: int, second: int, ms: int) {
    predicate Valid() { 0 <= hour < 24 && 0 <= minute < 60 && 0 <= second < 60 && 0 <= ms < 1000 }
  }

  /** MakeDay. */
  function DayOf(date: Date): int
    requires date.Valid()
  {
    DayFromYear(date.year) + DaysBefore(date.month, Leap(date.year)) + date.day - 1
  }

  function DateOf(day: int): (date: Date)
    ensures date.Valid()
  {
    var year := YearFromDay(day);
    YearLength(year);
    var dayInYear := day - DayFromYear(year);
    var month := MonthOf(dayInYear, Leap(year));
    Date(year, month, dayInYear - DaysBefore(month, Leap(year)) + 1)
  }

  lemma DayOfDate(day: int)
    ensures DayOf(DateOf(day)) == day
  {}

  lemma DateOfDay(date: Date)
    requires date.Valid()
    ensures DateOf(DayOf(date)) == date
  {
    YearLength(date.year);
    YearUnique(DayOf(date), date.year);
    MonthUnique(DayOf(date) - DayFromYear(date.year), Leap(date.year), date.month);
  }

  /** MakeTime. */
  function WithinOf(clock: Clock): (r: int)
    requires clock.Valid()
    ensures 0 <= r < MS_PER_DAY
  {
    clock.hour * MS_PER_HOUR + clock.minute * 60_000 + clock.second * 1000 + clock.ms
  }

  function ClockOf(within: int): (clock: Clock)
    requires 0 <= within < MS_PER_DAY
    ensures clock.Valid()
  {
    Clock(within / MS_PER_HOUR, within / 60_000 % 60, within / 1000 % 60, within % 1000)
  }

  lemma WithinOfClock(within: int)
    requires 0 <= within < MS_PER_DAY
    ensures WithinOf(ClockOf(within)) == within
  {
    assert within / 1000 == within / 60_000 * 60 + within / 1000 % 60;
    assert within / 60_000 == within / MS_PER_HOUR * 60 + within / 60_000 % 60;
  }

  lemma ClockOfWithin(clock: Clock)
    requires clock.Valid()
    ensures ClockOf(WithinOf(clock)) == clock
  {
    var within := WithinOf(clock);
    assert within / 1000 == clock.hour * 3600 + clock.minute * 60 + clock.second;
    assert within / 60_000 == clock.hour * 60 + clock.minute;
  }

  /** MakeDate. */
  function TimeOf(date: Date, clock: Clock): int
    requires date.Valid() && clock.Valid()
  {
    DayOf(date) * MS_PER_DAY + WithinOf(clock)
  }

  function DateAt(t: int): (date: Date)
    ensures date.Valid()
  {
    DateOf(t / MS_PER_DAY)
  }

  function ClockAt(t: int): (clock: Clock)
    ensures clock.Valid()
  {
    ClockOf(t % MS_PER_DAY)
  }

  /** Reading a time value's fields and reassembling them gives the time value back. */
  lemma TimeOfFields(t: int)
    ensures TimeOf(DateAt(t), ClockAt(t)) == t
  {
    DayOfDate(t / MS_PER_DAY);
    WithinOfClock(t % MS_PER_DAY);
  }

  lemma DayAndWithin(day: int, within: int)
    requires 0 <= within < MS_PER_DAY
    ensures (day * MS_PER_DAY + within) / MS_PER_DAY == day
    ensures (day * MS_PER_DAY + within) % MS_PER_DAY == within
  {}

  /** Every valid date and clock is the reading of exactly the time value it denotes. */
  lemma FieldsOfTime(date: Date, clock: Clock)
    requires date.Valid() && clock.Valid()
    ensures DateAt(TimeOf(date, clock)) == date
    ensures ClockAt(TimeOf(date, clock)) == clock
  {
    PartsOfTime(date, clock);
    DateOfDay(date);
    ClockOfWithin(clock);
  }

  lemma PartsOfTime(date: Date, clock: Clock)
    requires date.Valid() && clock.Valid()
    ensures TimeOf(date, clock) / MS_PER_DAY == DayOf(date) && TimeOf(date, clock) % MS_PER_DAY == WithinOf(clock)
  {
    DayAndWithin(DayOf(date), WithinOf(clock));
  }
}
