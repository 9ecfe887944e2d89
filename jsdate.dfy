/**
 * The ECMAScript time-value model (ECMA-262 section 21.4.1): a time value is
 * a whole number of milliseconds since 1970-01-01T00:00:00Z, the calendar is
 * the proleptic Gregorian one, and a time outside +-8.64e15 ms is NaN.
 * Only the UTC getters are modelled: getUTCFullYear, getUTCMonth,
 * getUTCDate and getUTCDay.
 */
module JsDate {
  import opened Wrappers
  import opened JsString

  const MsPerDay: int := 86400000
  /** The largest magnitude of a time value (section 21.4.1.1). */
  const MaxTime: int := 8640000000000000

  /** Day(t) = floor(t / msPerDay); Dafny's division is floor division for a positive divisor. */
  function Day(t: int): int {
    t / MsPerDay
  }

  /** TimeClip of a whole-millisecond value: NaN (None) outside the representable range. */
  function TimeClip(t: int): (r: Option<int>)
    ensures r.Some? <==> -MaxTime <= t <= MaxTime
    ensures r.Some? ==> r.value == t
  {
    if -MaxTime <= t <= MaxTime then Some(t) else None
  }

  predicate InLeapYear(y: int) {
    y % 4 == 0 && (y % 100 != 0 || y % 400 == 0)
  }

  function DaysInYear(y: int): (n: int)
    ensures n == 365 || n == 366
    ensures n == 366 <==> InLeapYear(y)
  {
    if InLeapYear(y) then 366 else 365
  }

  /** The day number of the first day of year y (section 21.4.1.3). */
  function DayFromYear(y: int): int {
    365 * (y - 1970) + (y - 1969) / 4 - (y - 1901) / 100 + (y - 1601) / 400
  }

  // ---- floor division by a positive constant ----

  /** A non-zero multiple of k is at least k away from 0. */
  lemma MulAwayFromZero(x: int, k: int)
    requires k > 0
    ensures x == 0 || x * k >= k || x * k <= -k
  {
    if x >= 1 {
      assert (x - 1) * k >= 0;
    } else if x <= -1 {
      assert (-x - 1) * k >= 0;
    }
  }

  /** Quotient and remainder are unique. */
  lemma DivUnique(a: int, k: int, q: int, r: int)
    requires k > 0 && a == q * k + r && 0 <= r < k
    ensures a / k == q && a % k == r
  {
    var q0 := a / k;
    var r0 := a % k;
    assert a == q0 * k + r0;
    assert (q - q0) * k == r0 - r;
    MulAwayFromZero(q - q0, k);
  }
  /** Floor division by k goes up by one exactly when a + 1 is a multiple of k. */
  lemma DivStep(a: int, k: int)
    requires k > 0
    ensures (a + 1) / k == a / k + (if (a + 1) % k == 0 then 1 else 0)
  {
    var q := a / k;
    var r := a % k;
    if r + 1 < k {
      DivUnique(a + 1, k, q, r + 1);
    } else {
      assert a + 1 == (q + 1) * k + 0;
      DivUnique(a + 1, k, q + 1, 0);
    }
  }
  lemma ShiftMod(a: int, k: int, c: int)
    requires k > 0
    ensures (a + c * k) % k == a % k
  {
    DivUnique(a + c * k, k, a / k + c, a % k);
  }
  /** One of the three leap-year corrections of DayFromYear grows by one exactly at a multiple of k. */
  lemma CorrectionStep(y: int, k: int, base: int, c: int)
    requires k > 0 && y == (base + 1) + c * k
    ensures (base + 1) / k == base / k + (if y % k == 0 then 1 else 0)
  {
    DivStep(base, k);
    ShiftMod(base + 1, k, c);
  }

  /** A multiple of 400 is a multiple of 100, and a multiple of 100 is a multiple of 4. */
  lemma LeapDivisors(y: int)
    ensures y % 400 == 0 ==> y % 100 == 0
    ensures y % 100 == 0 ==> y % 4 == 0
  {
    if y % 400 == 0 {
      DivUnique(y, 100, (y / 400) * 4, 0);
    }
    if y % 100 == 0 {
      DivUnique(y, 4, (y / 100) * 25, 0);
    }
  }

  /** Consecutive years are DaysInYear apart. */
  lemma DayFromYearStep(y: int)
    ensures DayFromYear(y + 1) == DayFromYear(y) + DaysInYear(y)
  {
    CorrectionStep(y, 4, y - 1969, 492);
    CorrectionStep(y, 100, y - 1901, 19);
    CorrectionStep(y, 400, y - 1601, 4);
    LeapDivisors(y);
    assert y + 1 - 1969 == y - 1968 && y + 1 - 1901 == y - 1900 && y + 1 - 1601 == y - 1600;
  }

  lemma {:induction false} DayFromYearMonotonic(a: int, b: int)
    requires a <= b
    ensures DayFromYear(a) + 365 * (b - a) <= DayFromYear(b)
    decreases b - a
  {
    if a < b {
      DayFromYearStep(a);
      DayFromYearMonotonic(a + 1, b);
    }
  }

  /** The year y with DayFromYear(y) <= d < DayFromYear(y + 1), searched upwards from y. */
  function YearUp(d: int, y: int): (r: int)
    requires DayFromYear(y) <= d
    ensures DayFromYear(r) <= d < DayFromYear(r + 1)
    decreases d - DayFromYear(y)
  {
    DayFromYearStep(y);
    if DayFromYear(y + 1) <= d then YearUp(d, y + 1) else y
  }

  /** The same year, searched downwards from y. */
  function YearDown(d: int, y: int): (r: int)
    requires d < DayFromYear(y)
    ensures DayFromYear(r) <= d < DayFromYear(r + 1)
    decreases DayFromYear(y) - d
  {
    DayFromYearStep(y - 1);
    if DayFromYear(y - 1) <= d then y - 1 else YearDown(d, y - 1)
  }

  /** YearFromTime, on a day number: the largest y with DayFromYear(y) <= d (section 21.4.1.3). */
  function YearFromDay(d: int): (y: int)
    ensures DayFromYear(y) <= d < DayFromYear(y + 1)
  {
    if DayFromYear(1970) <= d then YearUp(d, 1970) else YearDown(d, 1970)
  }

  /** The year whose days include d is unique. */
  lemma YearFromDayUnique(d: int, y: int)
    requires DayFromYear(y) <= d < DayFromYear(y + 1)
    ensures YearFromDay(d) == y
  {
    YearSpanUnique(d, YearFromDay(d), y);
  }

  /** At most one year's span of days contains a given day. */
  lemma YearSpanUnique(d: int, r: int, y: int)
    requires DayFromYear(r) <= d < DayFromYear(r + 1)
    requires DayFromYear(y) <= d < DayFromYear(y + 1)
    ensures r == y
  {
    if r < y {
      DayFromYearMonotonic(r + 1, y);
    } else if r > y {
      DayFromYearMonotonic(y + 1, r);
    }
  }

  /**
   * The number of days in year-with-leap-flag before month m (0 = January,
   * 12 = the end of the year); February has 28 + leap days.
   */
  function MonthStart(m: int, leap: int): (n: int)
    requires 0 <= m <= 12 && 0 <= leap <= 1
    ensures m == 0 ==> n == 0
    ensures m == 12 ==> n == 365 + leap
  {
    (if m == 0 then 0 else if m == 1 then 31 else if m == 2 then 59 else if m == 3 then 90
     else if m == 4 then 120 else if m == 5 then 151 else if m == 6 then 181 else if m == 7 then 212
     else if m == 8 then 243 else if m == 9 then 273 else if m == 10 then 304 else if m == 11 then 334
     else 365) + (if m >= 2 then leap else 0)
  }

  /** The number of days in month m (0-based) of a year with the given leap flag. */
  function DaysInMonth(m: int, leap: int): (n: int)
    requires 0 <= m < 12 && 0 <= leap <= 1
    ensures 28 <= n <= 31
    ensures n == MonthStart(m + 1, leap) - MonthStart(m, leap)
  {
    if m == 1 then 28 + leap else if m == 3 || m == 5 || m == 8 || m == 10 then 30 else 31
  }

  function LeapFlag(y: int): (f: int)
    ensures f == DaysInYear(y) - 365
  {
    if InLeapYear(y) then 1 else 0
  }

  /** MonthFromTime, on a day within a year (section 21.4.1.4). */
  function MonthFromDayWithinYear(dwy: int, leap: int): (m: int)
    requires 0 <= leap <= 1 && 0 <= dwy < 365 + leap
    ensures 0 <= m < 12
    ensures MonthStart(m, leap) <= dwy < MonthStart(m + 1, leap)
  {
    if dwy < 31 then 0
    else if dwy < 59 + leap then 1
    else if dwy < 90 + leap then 2
    else if dwy < 120 + leap then 3
    else if dwy < 151 + leap then 4
    else if dwy < 181 + leap then 5
    else if dwy < 212 + leap then 6
    else if dwy < 243 + leap then 7
    else if dwy < 273 + leap then 8
    else if dwy < 304 + leap then 9
    else if dwy < 334 + leap then 10
    else 11
  }

  /** A calendar date: month is 0-based as getUTCMonth returns it, date 1-based as getUTCDate. */
  datatype Civil = Civil(year: int, month: int, date: int)

  predicate ValidCivil(c: Civil) {
    && 0 <= c.month < 12
    && 1 <= c.date <= DaysInMonth(c.month, LeapFlag(c.year))
  }

  /** MakeDay for a valid calendar date: the day number of c. */
  function DayOfCivil(c: Civil): int
    requires ValidCivil(c)
  {
    DayFromYear(c.year) + MonthStart(c.month, LeapFlag(c.year)) + c.date - 1
  }

  /** getUTCFullYear, getUTCMonth and getUTCDate of any time in day d. */
  function CivilFromDay(d: int): (c: Civil)
    ensures ValidCivil(c)
    ensures DayOfCivil(c) == d
  {
    var y := YearFromDay(d);
    DayFromYearStep(y);
    var leap := LeapFlag(y);
    var dwy := d - DayFromYear(y);
    var m := MonthFromDayWithinYear(dwy, leap);
    Civil(y, m, dwy - MonthStart(m, leap) + 1)
  }

  /** Every valid calendar date is the date of exactly one day number, its own. */
  lemma CivilRoundTrip(c: Civil)
    requires ValidCivil(c)
    ensures CivilFromDay(DayOfCivil(c)) == c
  {
    var leap := LeapFlag(c.year);
    var start := DayFromYear(c.year);
    var dwy := MonthStart(c.month, leap) + c.date - 1;
    assert dwy < MonthStart(c.month + 1, leap) by {
      assert DaysInMonth(c.month, leap) == MonthStart(c.month + 1, leap) - MonthStart(c.month, leap);
    }
    MonthStartMonotonic(c.month + 1, 12, leap);
    DayFromYearStep(c.year);
    CivilFromDayIs(start + dwy, c.year, c.month, c.date);
  }

  /** A day inside year y and month m of it is read back as that year, month and date. */
  lemma CivilFromDayIs(d: int, y: int, m: int, date: int)
    requires DayFromYear(y) <= d < DayFromYear(y + 1) && 0 <= m < 12
    requires MonthStart(m, LeapFlag(y)) <= d - DayFromYear(y) < MonthStart(m + 1, LeapFlag(y))
    requires date == d - DayFromYear(y) - MonthStart(m, LeapFlag(y)) + 1
    ensures CivilFromDay(d) == Civil(y, m, date)
  {
    YearFromDayUnique(d, y);
    MonthUnique(d - DayFromYear(y), LeapFlag(y), m);
  }

  /** The month whose days include a day within the year is unique. */
  lemma MonthUnique(dwy: int, leap: int, m: int)
    requires 0 <= leap <= 1 && 0 <= m < 12
    requires MonthStart(m, leap) <= dwy < MonthStart(m + 1, leap)
    ensures 0 <= dwy < 365 + leap
    ensures MonthFromDayWithinYear(dwy, leap) == m
  {
    MonthStartMonotonic(0, m, leap);
    MonthStartMonotonic(m + 1, 12, leap);
    var r := MonthFromDayWithinYear(dwy, leap);
    if r < m {
      MonthStartMonotonic(r + 1, m, leap);
    } else if m < r {
      MonthStartMonotonic(m + 1, r, leap);
    }
  }

  /** Month starts strictly increase, so a day within the year lies in one month only. */
  lemma MonthStartMonotonic(a: int, b: int, leap: int)
    requires 0 <= a <= b <= 12 && 0 <= leap <= 1
    ensures MonthStart(a, leap) + 28 * (b - a) <= MonthStart(b, leap)
  {
  }

  /** Two days with the same calendar date are the same day. */
  lemma CivilFromDayInjective(d1: int, d2: int)
    requires CivilFromDay(d1) == CivilFromDay(d2)
    ensures d1 == d2
  {
  }

  /** WeekDay(t) = (Day(t) + 4) mod 7, 0 = Sunday (section 21.4.1.6); day 0 was a Thursday. */
  function WeekDay(t: int): (w: int)
    ensures 0 <= w < 7
  {
    (Day(t) + 4) % 7
  }

  /** The weekday moves on by one each day and wraps from Saturday to Sunday. */
  lemma WeekDayNextDay(t: int)
    ensures WeekDay(t + MsPerDay) == (WeekDay(t) + 1) % 7
  {
    assert Day(t + MsPerDay) == Day(t) + 1;
  }

  /** `${y}-${pad2(m + 1)}-${pad2(day)}`. */
  function DateKey(c: Civil): string
    requires ValidCivil(c)
  {
    IntToString(c.year) + "-" + PadStart2(NatToString(c.month + 1)) + "-" + PadStart2(NatToString(c.date))
  }

  /** The key of an invalid Date: String(NaN) is "NaN" and padStart leaves it as it is. */
  const NaNKey: string := "NaN-NaN-NaN"

  /** The key of a time value, or of NaN. */
  function KeyOfTime(tv: Option<int>): string {
    match tv
    case None => NaNKey
    case Some(t) => DateKey(CivilFromDay(Day(t)))
  }

  /** A number below 100 padded to two characters: two digits that read back as n. */
  lemma PadTwoDigits(n: nat)
    requires n < 100
    ensures var p := PadStart2(NatToString(n));
      |p| == 2 && IsDigit(p[0]) && IsDigit(p[1]) && (p[0] as int - 48) * 10 + (p[1] as int - 48) == n
  {
    var s := NatToString(n);
    if n < 10 {
      assert s == [DigitChar(n)];
    } else {
      assert s == NatToString(n / 10) + [DigitChar(n % 10)];
      assert NatToString(n / 10) == [DigitChar(n / 10)];
    }
  }

  /** The shape of y + "-" + mm + "-" + dd with two-character mm and dd, read from the end. */
  lemma KeyLayout(y: string, mm: string, dd: string, k: string)
    requires |mm| == 2 && |dd| == 2 && k == y + "-" + mm + "-" + dd
    ensures |k| == |y| + 6 && k[..|k| - 6] == y
    ensures k[|k| - 6] == '-' && k[|k| - 5] == mm[0] && k[|k| - 4] == mm[1]
    ensures k[|k| - 3] == '-' && k[|k| - 2] == dd[0] && k[|k| - 1] == dd[1]
  {
    assert k == y + (['-'] + mm + ['-'] + dd);
  }

  /**
   * k reads as a key: the last six characters are "-MM-DD" with the given
   * month and date, and what precedes them is y.
   */
  predicate KeyShaped(k: string, y: string, month: int, date: int) {
    && |k| >= 7 && k[..|k| - 6] == y
    && k[|k| - 6] == '-' && k[|k| - 3] == '-'
    && (k[|k| - 5] as int - 48) * 10 + (k[|k| - 4] as int - 48) == month
    && (k[|k| - 2] as int - 48) * 10 + (k[|k| - 1] as int - 48) == date
    && IsDigit(k[|k| - 1])
  }

  /** Every key reads back as its year, month number and date. */
  lemma DateKeyShape(c: Civil, k: string)
    requires ValidCivil(c) && k == DateKey(c)
    ensures KeyShaped(k, IntToString(c.year), c.month + 1, c.date)
  {
    assert c.date <= 31;
    KeyOfParts(c.year, c.month + 1, c.date);
  }

  /** The key text built from a year, a month number and a date below 100. */
  lemma KeyOfParts(year: int, month: int, date: int)
    requires 0 <= month < 100 && 0 <= date < 100
    ensures KeyShaped(IntToString(year) + "-" + PadStart2(NatToString(month)) + "-" + PadStart2(NatToString(date)),
                      IntToString(year), month, date)
  {
    var y, mm, dd := IntToString(year), PadStart2(NatToString(month)), PadStart2(NatToString(date));
    assert |mm| == 2 && (mm[0] as int - 48) * 10 + (mm[1] as int - 48) == month by {
      PadTwoDigits(month);
    }
    assert |dd| == 2 && (dd[0] as int - 48) * 10 + (dd[1] as int - 48) == date && IsDigit(dd[1]) by {
      PadTwoDigits(date);
    }
    KeyFields(y, mm, dd, y + "-" + mm + "-" + dd, month, date);
  }

  /** KeyLayout, read as numbers. */
  lemma KeyFields(y: string, mm: string, dd: string, k: string, month: int, date: int)
    requires y != [] && |mm| == 2 && |dd| == 2 && k == y + "-" + mm + "-" + dd
    requires (mm[0] as int - 48) * 10 + (mm[1] as int - 48) == month
    requires (dd[0] as int - 48) * 10 + (dd[1] as int - 48) == date && IsDigit(dd[1])
    ensures KeyShaped(k, y, month, date)
  {
    KeyLayout(y, mm, dd, k);
  }

  /** Distinct calendar dates have distinct keys. */
  lemma DateKeyInjective(c1: Civil, c2: Civil)
    requires ValidCivil(c1) && ValidCivil(c2)
    requires DateKey(c1) == DateKey(c2)
    ensures c1 == c2
  {
    var k := DateKey(c1);
    DateKeyShape(c1, k);
    DateKeyShape(c2, k);
    IntToStringInjective(c1.year, c2.year);
  }

  /** No valid date has the NaN key: a valid key ends in a digit. */
  lemma DateKeyNotNaN(c: Civil)
    requires ValidCivil(c)
    ensures DateKey(c) != NaNKey
  {
    DateKeyShape(c, DateKey(c));
  }

  // ---- the two helpers of the daily job, functions/src/index.ts ----

  /** The shift the job adds: 9 * 60 minutes minus the host's getTimezoneOffset(), in ms. */
  function ShiftAsWritten(tzOffsetMinutes: int): int {
    (9 * 60 - tzOffsetMinutes) * 60000
  }

  /** Japan Standard Time is UTC+9 all year. */
  const JstShift: int := 9 * 60 * 60000

  /** todayKeyJST as written: the UTC date of now shifted by ShiftAsWritten. */
  function TodayKeyAsWritten(now: int, tzOffsetMinutes: int): string {
    KeyOfTime(TimeClip(now + ShiftAsWritten(tzOffsetMinutes)))
  }

  /** todayWeekdayJST as written: getUTCDay of the shifted time, NaN (None) when out of range. */
  function TodayWeekdayAsWritten(now: int, tzOffsetMinutes: int): (w: Option<int>)
    ensures w.Some? ==> 0 <= w.value < 7
  {
    match TimeClip(now + ShiftAsWritten(tzOffsetMinutes))
    case None => None
    case Some(t) => Some(WeekDay(t))
  }

  /** The JST calendar date key of now: the UTC date of now + 9h, whatever the host's timezone. */
  function TodayKeyJST(now: int): string {
    KeyOfTime(TimeClip(now + JstShift))
  }

  /** The JST weekday of now, 0 = Sunday. */
  function TodayWeekdayJST(now: int): (w: Option<int>)
    ensures w.Some? ==> 0 <= w.value < 7
  {
    match TimeClip(now + JstShift)
    case None => None
    case Some(t) => Some(WeekDay(t))
  }

  /** On a host whose offset is 0 (UTC, as Cloud Functions hosts are) the code as written is JST. */
  lemma AsWrittenIsJstOnUtcHost(now: int)
    ensures TodayKeyAsWritten(now, 0) == TodayKeyJST(now)
    ensures TodayWeekdayAsWritten(now, 0) == TodayWeekdayJST(now)
  {
    assert ShiftAsWritten(0) == JstShift;
  }

  /** The key of a time value is the key of the calendar date its day has. */
  lemma KeyOfTimeIs(t: int, c: Civil)
    requires -MaxTime <= t <= MaxTime
    requires ValidCivil(c) && DayOfCivil(c) == Day(t)
    ensures KeyOfTime(TimeClip(t)) == DateKey(c)
  {
    CivilRoundTrip(c);
  }

  lemma IntToString1970()
    ensures IntToString(1970) == "1970"
  {
    assert NatToString(1970) == "1970" by {
      assert NatToString(197) == "197" by {
        assert NatToString(19) == "19";
      }
    }
  }

  lemma IntToString2024()
    ensures IntToString(2024) == "2024"
  {
    assert NatToString(2024) == "2024" by {
      assert NatToString(202) == "202" by {
        assert NatToString(20) == "20";
      }
    }
  }

  /** A number below 10 is padded with one '0'. */
  lemma PadOneDigit(n: nat)
    requires n < 10
    ensures PadStart2(NatToString(n)) == ['0', DigitChar(n)]
  {
  }

  /** The key of the epoch's first day ... */
  lemma DateKeyEpoch()
    ensures DateKey(Civil(1970, 0, 1)) == "1970-01-01"
  {
    IntToString1970();
    PadOneDigit(1);
    assert DigitChar(1) == '1';
  }

  /** ... of the day after it ... */
  lemma DateKeyEpochNext()
    ensures DateKey(Civil(1970, 0, 2)) == "1970-01-02"
  {
    IntToString1970();
    PadOneDigit(1);
    PadOneDigit(2);
    assert DigitChar(1) == '1' && DigitChar(2) == '2';
  }

  /** ... and of 12 March 2024. */
  lemma DateKeyMarch12()
    ensures DateKey(Civil(2024, 2, 12)) == "2024-03-12"
  {
    IntToString2024();
    PadOneDigit(3);
    assert DigitChar(3) == '3';
    assert NatToString(12) == "12";
  }

  /**
   * On a host running in Japan (getTimezoneOffset() = -540) the code shifts
   * by 18 hours: at 15:00 JST on 1970-01-01 (06:00 UTC, 21600000 ms) it already reports
   * the key of 1970-01-02 ...
   */
  lemma AsWrittenKeyWrongOnJstHost(now: int, tzOffsetMinutes: int)
    requires now == 21600000 && tzOffsetMinutes == -540
    ensures TodayKeyJST(now) == "1970-01-01"
    ensures TodayKeyAsWritten(now, tzOffsetMinutes) == "1970-01-02"
  {
    JstKeyAtSix(now);
    AsWrittenKeyAtSix(now, tzOffsetMinutes);
  }

  lemma JstKeyAtSix(now: int)
    requires now == 21600000
    ensures TodayKeyJST(now) == "1970-01-01"
  {
    var jst := now + JstShift;
    assert jst == 54000000;
    KeyOfTimeIs(jst, Civil(1970, 0, 1));
    DateKeyEpoch();
  }

  lemma AsWrittenKeyAtSix(now: int, tzOffsetMinutes: int)
    requires now == 21600000 && tzOffsetMinutes == -540
    ensures TodayKeyAsWritten(now, tzOffsetMinutes) == "1970-01-02"
  {
    var shifted := now + ShiftAsWritten(tzOffsetMinutes);
    assert shifted == MsPerDay;
    KeyOfTimeIs(shifted, Civil(1970, 0, 2));
    DateKeyEpochNext();
  }

  /** ... and Friday instead of Thursday. */
  lemma AsWrittenWeekdayWrongOnJstHost(now: int, tzOffsetMinutes: int)
    requires now == 21600000 && tzOffsetMinutes == -540
    ensures TodayWeekdayJST(now) == Some(4)
    ensures TodayWeekdayAsWritten(now, tzOffsetMinutes) == Some(5)
  {
    assert now + JstShift == 54000000;
    assert now + ShiftAsWritten(tzOffsetMinutes) == MsPerDay;
  }

  /** Two clock readings get the same JST key exactly when they fall on the same JST day. */
  lemma SameKeyIffSameJstDay(a: int, b: int)
    requires -MaxTime <= a + JstShift <= MaxTime && -MaxTime <= b + JstShift <= MaxTime
    ensures TodayKeyJST(a) == TodayKeyJST(b) <==> Day(a + JstShift) == Day(b + JstShift)
  {
    if TodayKeyJST(a) == TodayKeyJST(b) {
      DateKeyInjective(CivilFromDay(Day(a + JstShift)), CivilFromDay(Day(b + JstShift)));
      CivilFromDayInjective(Day(a + JstShift), Day(b + JstShift));
    }
  }

  /** A reading in range never gets the NaN key; one out of range always does. */
  lemma JstKeyNaNIffOutOfRange(now: int)
    ensures TodayKeyJST(now) == NaNKey <==> (now + JstShift < -MaxTime || MaxTime < now + JstShift)
  {
    if -MaxTime <= now + JstShift <= MaxTime {
      DateKeyNotNaN(CivilFromDay(Day(now + JstShift)));
    }
  }

  /** 2024-03-11T15:00:00Z (1710169200000 ms) is midnight of 2024-03-12 in Japan ... */
  lemma JstMidnightKey(now: int)
    requires now == 1710169200000
    ensures TodayKeyJST(now) == "2024-03-12"
  {
    var jst := now + JstShift;
    assert jst == 19794 * MsPerDay;
    KeyOfTimeIs(jst, Civil(2024, 2, 12));
    DateKeyMarch12();
  }

  /** ... which is a Tuesday. */
  lemma JstMidnightWeekday(now: int)
    requires now == 1710169200000
    ensures TodayWeekdayJST(now) == Some(2)
  {
    var jst := now + JstShift;
    assert jst == 19794 * MsPerDay;
  }
}
