/** The text of time values: fixed-width digits, toISOString and the ISO form of Date.parse. */
module IsoText {
  import opened Wrappers
  import opened JsStrings
  import opened Calendar
  import opened Decimals

  const COLON: CodeUnit := 58
  const LETTER_T: CodeUnit := 84
  const LETTER_Z: CodeUnit := 90

  /** The last `width` decimal digits of n. */
  function Digits(n: nat, width: nat): (r: Str)
    ensures |r| == width && AllDigits(r)
  {
    if width == 0 then [] else Digits(n / 10, width - 1) + [48 + n % 10]
  }

  lemma {:induction false} NumberOfDigits(n: nat, width: nat)
    requires n < Pow10(width)
    ensures Number(Digits(n, width)) == n
  {
    if width > 0 {
      NumberOfDigits(n / 10, width - 1);
      assert Digits(n, width)[..width - 1] == Digits(n / 10, width - 1);
    }
  }

  lemma {:induction false} DigitsOfNumber(s: Str)
    requires AllDigits(s)
    ensures Digits(Number(s), |s|) == s
  {
    if s == [] {
    } else {
      DigitsOfNumber(s[..|s| - 1]);
      assert s == s[..|s| - 1] + [s[|s| - 1]];
    }
  }

  lemma {:induction false} DigitsAscend(a: nat, b: nat, width: nat)
    requires a < b < Pow10(width)
    ensures Less(Digits(a, width), Digits(b, width))
  {
    if a / 10 < b / 10 {
      DigitsAscend(a / 10, b / 10, width - 1);
      LessExtends(Digits(a / 10, width - 1), Digits(b / 10, width - 1), [48 + a % 10], [48 + b % 10]);
    } else {
      LessAppended(Digits(a / 10, width - 1), [48 + a % 10], [48 + b % 10]);
    }
  }

  lemma {:induction false} LessExtends(a: Str, b: Str, x: Str, y: Str)
    requires |a| == |b| && Less(a, b)
    ensures Less(a + x, b + y)
  {
    if a[0] == b[0] {
      LessExtends(a[1..], b[1..], x, y);
      assert (a + x)[1..] == a[1..] + x && (b + y)[1..] == b[1..] + y;
    }
  }

  lemma {:induction false} LessAppended(a: Str, x: Str, y: Str)
    requires Less(x, y)
    ensures Less(a + x, a + y)
  {
    if a == [] {
      assert a + x == x && a + y == y;
    } else {
      LessAppended(a[1..], x, y);
      assert (a + x)[1..] == a[1..] + x && (a + y)[1..] == a[1..] + y;
    }
  }

  predicate FourDigit(year: int) { 0 <= year <= 9999 }

  function YearText(year: int): Str {
    if FourDigit(year) then Digits(year, 4)
    else if year < 0 then [DASH] + Digits(-year, 6)
    else [43] + Digits(year, 6)
  }

  function DateText(date: Date): Str
    requires date.Valid()
  {
    YearText(date.year) + [DASH] + Digits(date.month, 2) + [DASH] + Digits(date.day, 2)
  }

  function ClockText(clock: Clock): (r: Str)
    requires clock.Valid()
    ensures |r| == 12
  {
    Digits(clock.hour, 2) + [COLON] + Digits(clock.minute, 2) + [COLON] + Digits(clock.second, 2)
    + [DOT] + Digits(clock.ms, 3)
  }

  /** Date.prototype.toISOString. */
  function Iso(t: Time): Str {
    DateText(DateAt(t)) + [LETTER_T] + ClockText(ClockAt(t)) + [LETTER_Z]
  }

  predicate FourDigitYear(t: int) { FourDigit(DateAt(t).year) }

  /** Text of the shape YYYY-MM-DDTHH:mm:ssZ or YYYY-MM-DDTHH:mm:ss.sssZ. */
  predicate IsoShape(s: Str) {
    && (|s| == 20 || (|s| == 24 && s[19] == DOT && AllDigits(s[20..23])))
    && AllDigits(s[0..4]) && s[4] == DASH && AllDigits(s[5..7]) && s[7] == DASH && AllDigits(s[8..10])
    && s[10] == LETTER_T && AllDigits(s[11..13]) && s[13] == COLON && AllDigits(s[14..16])
    && s[16] == COLON && AllDigits(s[17..19]) && s[|s| - 1] == LETTER_Z
  }

  function IsoDate(s: Str): Date
    requires IsoShape(s)
  {
    Date(Number(s[0..4]), Number(s[5..7]), Number(s[8..10]))
  }

  function IsoClock(s: Str): Clock
    requires IsoShape(s)
  {
    Clock(Number(s[11..13]), Number(s[14..16]), Number(s[17..19]), if |s| == 24 then Number(s[20..23]) else 0)
  }

  /** The ISO forms above; hour 24 is the next midnight. None: not a valid ISO text. */
  function ParseIso(s: Str): (r: Option<int>)
    ensures r.Some? ==> -MAX_TIME <= r.value <= MAX_TIME
  {
    if !IsoShape(s) || !IsoDate(s).Valid() then None
    else
      FourDigitInRange(IsoDate(s));
      if IsoClock(s).Valid() then Some(TimeOf(IsoDate(s), IsoClock(s)))
      else if IsoClock(s) == Clock(24, 0, 0, 0) then Some(DayOf(IsoDate(s)) * MS_PER_DAY + MS_PER_DAY)
      else None
  }

  lemma FourDigitInRange(date: Date)
    requires date.Valid() && FourDigit(date.year)
    ensures -719528 <= DayOf(date) <= 2932896
  {
    YearsAscend(0, date.year);
    YearsAscend(date.year + 1, 10000);
    YearLength(date.year);
    assert DayFromYear(0) == -719528 && DayFromYear(10000) == 2932897;
  }

  /**
   * Date.parse: ECMA-262 fixes the ISO forms and leaves every other text to the host, which
   * is a parameter here.
   */
  function DateParse(s: Str, host: Str -> Option<Time>): Option<Time> {
    match ParseIso(s)
    case Some(t) => Some(t)
    case None => host(s)
  }

  lemma DateTextShape(date: Date)
    requires date.Valid() && FourDigit(date.year)
    ensures |DateText(date)| == 10
    ensures DateText(date)[0..4] == Digits(date.year, 4)
    ensures DateText(date)[5..7] == Digits(date.month, 2)
    ensures DateText(date)[8..10] == Digits(date.day, 2)
    ensures DateText(date)[4] == DateText(date)[7] == DASH
  {}

  lemma ClockTextShape(clock: Clock)
    requires clock.Valid()
    ensures ClockText(clock)[0..2] == Digits(clock.hour, 2)
    ensures ClockText(clock)[3..5] == Digits(clock.minute, 2)
    ensures ClockText(clock)[6..8] == Digits(clock.second, 2)
    ensures ClockText(clock)[9..12] == Digits(clock.ms, 3)
    ensures ClockText(clock)[2] == ClockText(clock)[5] == COLON && ClockText(clock)[8] == DOT
  {}

  lemma Pow10Values()
    ensures Pow10(2) == 100 && Pow10(3) == 1000 && Pow10(4) == 10_000 && Pow10(6) == 1_000_000
  {
    assert Pow10(1) == 10 && Pow10(2) == 100;
    assert Pow10(4) == 10 * Pow10(3);
    assert Pow10(6) == 10 * Pow10(5) && Pow10(5) == 10 * Pow10(4);
  }

  lemma IsoParts(t: Time)
    requires FourDigitYear(t)
    ensures |Iso(t)| == 24
    ensures Iso(t)[..10] == DateText(DateAt(t)) && Iso(t)[10] == LETTER_T
    ensures Iso(t)[11..23] == ClockText(ClockAt(t)) && Iso(t)[23] == LETTER_Z
  {
    DateTextShape(DateAt(t));
  }

  lemma SubSlice(s: Str, lo: nat, hi: nat, a: nat, b: nat)
    requires lo <= hi <= |s| && a <= b <= hi - lo
    ensures s[lo..hi][a..b] == s[lo + a..lo + b]
  {
    assert forall i :: 0 <= i < b - a ==> s[lo..hi][a..b][i] == s[lo + a..lo + b][i];
  }

  lemma IsoSlices(t: Time)
    requires FourDigitYear(t)
    ensures |Iso(t)| == 24
    ensures Iso(t)[0..4] == Digits(DateAt(t).year, 4) && Iso(t)[5..7] == Digits(DateAt(t).month, 2)
    ensures Iso(t)[8..10] == Digits(DateAt(t).day, 2) && Iso(t)[11..13] == Digits(ClockAt(t).hour, 2)
    ensures Iso(t)[14..16] == Digits(ClockAt(t).minute, 2) && Iso(t)[17..19] == Digits(ClockAt(t).second, 2)
    ensures Iso(t)[20..23] == Digits(ClockAt(t).ms, 3)
    ensures IsoShape(Iso(t))
  {
    var s := Iso(t);
    IsoParts(t);
    DateTextShape(DateAt(t));
    ClockTextShape(ClockAt(t));
    assert s[..10] == s[0..10];
    SubSlice(s, 0, 10, 0, 4); SubSlice(s, 0, 10, 5, 7); SubSlice(s, 0, 10, 8, 10);
    SubSlice(s, 11, 23, 0, 2); SubSlice(s, 11, 23, 3, 5); SubSlice(s, 11, 23, 6, 8); SubSlice(s, 11, 23, 9, 12);
    assert s[4] == s[0..10][4] && s[7] == s[0..10][7];
    assert s[13] == s[11..23][2] && s[16] == s[11..23][5] && s[19] == s[11..23][8];
  }

  /** Parsing undoes printing for every instant of the years 0000 to 9999. */
  lemma ParseIsoOfIso(t: Time)
    requires FourDigitYear(t)
    ensures ParseIso(Iso(t)) == Some(t)
  {
    IsoSlices(t);
    DateReadsBack(Iso(t), DateAt(t));
    ClockReadsBack(Iso(t), ClockAt(t));
    TimeOfFields(t);
  }

  lemma DateReadsBack(s: Str, date: Date)
    requires date.Valid() && 0 <= date.year < 10000 && |s| == 24 && IsoShape(s)
    requires s[0..4] == Digits(date.year, 4) && s[5..7] == Digits(date.month, 2) && s[8..10] == Digits(date.day, 2)
    ensures IsoDate(s) == date
  {
    Pow10Values();
    NumberOfDigits(date.year, 4);
    NumberOfDigits(date.month, 2);
    NumberOfDigits(date.day, 2);
  }

  lemma ClockReadsBack(s: Str, clock: Clock)
    requires clock.Valid() && |s| == 24 && IsoShape(s)
    requires s[11..13] == Digits(clock.hour, 2) && s[14..16] == Digits(clock.minute, 2)
    requires s[17..19] == Digits(clock.second, 2) && s[20..23] == Digits(clock.ms, 3)
    ensures IsoClock(s) == clock
  {
    Pow10Values();
    NumberOfDigits(clock.hour, 2);
    NumberOfDigits(clock.minute, 2);
    NumberOfDigits(clock.second, 2);
    NumberOfDigits(clock.ms, 3);
  }

  predicate Earlier(x: Date, y: Date) {
    x.year < y.year || (x.year == y.year && (x.month < y.month || (x.month == y.month && x.day < y.day)))
  }

  lemma MonthsAscend(a: int, b: int, leap: bool)
    requires 1 <= a < b <= 12
    ensures DaysBefore(a + 1, leap) <= DaysBefore(b, leap)
  {}

  lemma DayWithinYear(x: Date)
    requires x.Valid()
    ensures DayOf(x) < DayFromYear(x.year + 1)
  {
    YearLength(x.year);
    if x.month < 12 { MonthsAscend(x.month, 12, Leap(x.year)); }
    assert DaysBefore(x.month + 1, Leap(x.year)) <= DaysInYear(x.year);
  }

  lemma DaysAscend(x: Date, y: Date)
    requires x.Valid() && y.Valid() && Earlier(x, y)
    ensures DayOf(x) < DayOf(y)
  {
    if x.year < y.year {
      DayWithinYear(x);
      YearsAscend(x.year + 1, y.year);
    } else if x.month < y.month {
      MonthsAscend(x.month, y.month, Leap(x.year));
    }
  }

  lemma DatesAscend(a: int, b: int)
    requires a < b
    ensures Earlier(DateOf(a), DateOf(b))
  {
    DayOfDate(a);
    DayOfDate(b);
    if Earlier(DateOf(b), DateOf(a)) { DaysAscend(DateOf(b), DateOf(a)); }
  }

  lemma DateTextsAscend(x: Date, y: Date)
    requires x.Valid() && y.Valid() && FourDigit(x.year) && FourDigit(y.year)
    requires Earlier(x, y)
    ensures Less(DateText(x), DateText(y))
  {
    Pow10Values();
    var tailX := [DASH] + Digits(x.month, 2) + [DASH] + Digits(x.day, 2);
    var tailY := [DASH] + Digits(y.month, 2) + [DASH] + Digits(y.day, 2);
    assert DateText(x) == YearText(x.year) + tailX && DateText(y) == YearText(y.year) + tailY;
    if x.year < y.year {
      DigitsAscend(x.year, y.year, 4);
      LessExtends(YearText(x.year), YearText(y.year), tailX, tailY);
    } else {
      PairsAscend([DASH], x.month, y.month, [DASH], x.day, y.day, []);
      assert tailX == [DASH] + Digits(x.month, 2) + ([DASH] + Digits(x.day, 2) + []);
      assert tailY == [DASH] + Digits(y.month, 2) + ([DASH] + Digits(y.day, 2) + []);
      LessAppended(YearText(x.year), tailX, tailY);
    }
  }

  /** Two two-digit fields compare as the pair of numbers they print. */
  lemma PairsAscend(p: Str, a: nat, b: nat, q: Str, c: nat, d: nat, rest: Str)
    requires a < 100 && b < 100 && c < 100 && d < 100
    requires a < b || (a == b && c < d)
    ensures Less(p + Digits(a, 2) + (q + Digits(c, 2) + rest), p + Digits(b, 2) + (q + Digits(d, 2) + rest))
  {
    Pow10Values();
    if a < b {
      DigitsAscend(a, b, 2);
      LessAppended(p, Digits(a, 2), Digits(b, 2));
      LessExtends(p + Digits(a, 2), p + Digits(b, 2), q + Digits(c, 2) + rest, q + Digits(d, 2) + rest);
    } else {
      DigitsAscend(c, d, 2);
      LessAppended(q, Digits(c, 2), Digits(d, 2));
      LessExtends(q + Digits(c, 2), q + Digits(d, 2), rest, rest);
      LessAppended(p + Digits(a, 2), q + Digits(c, 2) + rest, q + Digits(d, 2) + rest);
    }
  }

  // ---------------------------------------------------------------------------
  // Hours
  // ---------------------------------------------------------------------------

  /** The start of the UTC hour that holds an instant. */
  function HourFloor(t: Time): (r: Time)
    ensures r <= t < r + MS_PER_HOUR && r % MS_PER_HOUR == 0
  {
    t / MS_PER_HOUR * MS_PER_HOUR
  }

  lemma HourFields(t: Time)
    requires t % MS_PER_HOUR == 0
    ensures ClockAt(t) == Clock(ClockAt(t).hour, 0, 0, 0)
  {
    var within := t % MS_PER_DAY;
    assert within % MS_PER_HOUR == 0;
    WithinOfClock(within);
    assert within == ClockAt(t).hour * MS_PER_HOUR;
  }

  /** The text after the date in an hour's ISO form. */
  function HourTail(hour: Str): Str { [LETTER_T] + hour + U(":00:00.000Z") }

  lemma Reassociate(a: Str, b: Str, c: Str, d: Str)
    ensures a + b + c + d == a + (b + (c + d)) && b + c + d == b + (c + d)
  {}

  lemma HourText(t: Time)
    requires FourDigitYear(t) && t % MS_PER_HOUR == 0
    ensures Iso(t) == DateText(DateAt(t)) + HourTail(Digits(ClockAt(t).hour, 2))
  {
    HourFields(t);
    var hour := ClockAt(t).hour;
    var x, text := Digits(hour, 2), ClockText(Clock(hour, 0, 0, 0));
    WholeHour(hour);
    Reassociate(DateText(DateAt(t)), [LETTER_T], text, [LETTER_Z]);
    Reassociate([], [LETTER_T], x, U(":00:00.000Z"));
  }

  lemma WholeHour(hour: nat)
    requires hour < 24
    ensures Clock(hour, 0, 0, 0).Valid()
    ensures ClockText(Clock(hour, 0, 0, 0)) + [LETTER_Z] == Digits(hour, 2) + U(":00:00.000Z")
  {
    ZeroDigits();
    var tail := U(":00:00.000Z");
    assert tail == [COLON, 48, 48, COLON, 48, 48, DOT, 48, 48, 48, LETTER_Z];
    assert [COLON] + Digits(0, 2) + [COLON] + Digits(0, 2) + [DOT] + Digits(0, 3) + [LETTER_Z] == tail;
  }

  lemma ZeroDigits()
    ensures Digits(0, 2) == [48, 48] && Digits(0, 3) == [48, 48, 48]
  {
    assert Digits(0, 1) == [48];
  }

  lemma SameDayHours(a: Time, b: Time)
    requires a % MS_PER_HOUR == 0 && b % MS_PER_HOUR == 0
    requires a < b && a / MS_PER_DAY == b / MS_PER_DAY
    ensures ClockAt(a).hour < ClockAt(b).hour
  {
    HourFields(a);
    HourFields(b);
    WithinOfClock(a % MS_PER_DAY);
    WithinOfClock(b % MS_PER_DAY);
  }

  lemma HourTailsAscend(h: nat, k: nat)
    requires h < k < 100
    ensures Less(HourTail(Digits(h, 2)), HourTail(Digits(k, 2)))
  {
    var x, y, tail := Digits(h, 2), Digits(k, 2), U(":00:00.000Z");
    Pow10Values();
    DigitsAscend(h, k, 2);
    LessExtends(x, y, tail, tail);
    LessAppended([LETTER_T], x + tail, y + tail);
    assert HourTail(x) == [LETTER_T] + (x + tail) && HourTail(y) == [LETTER_T] + (y + tail);
  }

  /** On whole hours of four-digit years, text order is time order. */
  lemma HoursAscend(a: Time, b: Time)
    requires FourDigitYear(a) && FourDigitYear(b)
    requires a % MS_PER_HOUR == 0 && b % MS_PER_HOUR == 0
    requires a < b
    ensures Less(Iso(a), Iso(b))
  {
    HourText(a);
    HourText(b);
    var x, y := DateText(DateAt(a)), DateText(DateAt(b));
    var h, k := HourTail(Digits(ClockAt(a).hour, 2)), HourTail(Digits(ClockAt(b).hour, 2));
    if a / MS_PER_DAY < b / MS_PER_DAY {
      DatesAscend(a / MS_PER_DAY, b / MS_PER_DAY);
      DateTextsAscend(DateAt(a), DateAt(b));
      DateTextShape(DateAt(a));
      DateTextShape(DateAt(b));
      LessExtends(x, y, h, k);
    } else {
      SameDayHours(a, b);
      HourTailsAscend(ClockAt(a).hour, ClockAt(b).hour);
      LessAppended(x, h, k);
    }
  }

  lemma TwoDigits(n: nat)
    requires n < 100
    ensures Digits(n, 2) == [48 + n / 10, 48 + n % 10]
  {
    assert Digits(n / 10, 1) == [] + [48 + n / 10 % 10];
  }

  lemma ThreeDigits(n: nat)
    requires n < 1000
    ensures Digits(n, 3) == [48 + n / 10 / 10, 48 + n / 10 % 10, 48 + n % 10]
  {
    TwoDigits(n / 10);
  }

  lemma KnownDate()
    ensures DateText(Date(2000, 2, 29)) == [50, 48, 48, 48] + [DASH] + [48, 50] + [DASH] + [50, 57]
  {
    ThreeDigits(200);
    TwoDigits(2);
    TwoDigits(29);
  }

  lemma KnownClock()
    ensures ClockText(Clock(12, 34, 56, 789))
      == [49, 50] + [COLON] + [51, 52] + [COLON] + [53, 54] + [DOT] + [55, 56, 57]
  {
    TwoDigits(12);
    TwoDigits(34);
    TwoDigits(56);
    ThreeDigits(789);
  }

  lemma KnownTime()
    ensures DateAt(951_827_696_789) == Date(2000, 2, 29) && ClockAt(951_827_696_789) == Clock(12, 34, 56, 789)
  {
    var date, clock := Date(2000, 2, 29), Clock(12, 34, 56, 789);
    assert DayOf(date) == 11016 && WithinOf(clock) == 45_296_789;
    FieldsOfTime(date, clock);
  }

  lemma IsoOf(t: Time, date: Date, clock: Clock)
    requires date.Valid() && clock.Valid() && DateAt(t) == date && ClockAt(t) == clock
    ensures Iso(t) == DateText(date) + [LETTER_T] + ClockText(clock) + [LETTER_Z]
  {}

  /** An instant of a leap day: 2000-02-29T12:34:56.789Z. */
  lemma KnownInstant()
    ensures Iso(951_827_696_789)
      == [50, 48, 48, 48] + [DASH] + [48, 50] + [DASH] + [50, 57] + [LETTER_T]
         + ([49, 50] + [COLON] + [51, 52] + [COLON] + [53, 54] + [DOT] + [55, 56, 57]) + [LETTER_Z]
  {
    KnownTime();
    IsoOf(951_827_696_789, Date(2000, 2, 29), Clock(12, 34, 56, 789));
    KnownDate();
    KnownClock();
  }
}
