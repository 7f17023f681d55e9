/** Calendar arithmetic in the proleptic Gregorian calendar, the `YYYY-MM-DD`
    strings the application stores, and the month and week cursors the store
    keeps. Months are 0-based, as JavaScript's `getMonth()` returns them. */
module Dates {
  import opened Collections
  import opened Strings

  type Month0 = m: int | 0 <= m < 12

  datatype CalendarDate = CalendarDate(year: int, month: Month0, day: int)

  predicate IsLeapYear(y: int)
  {
    y % 4 == 0 && (y % 100 != 0 || y % 400 == 0)
  }

  function MonthLength(y: int, m: Month0): (n: int)
    ensures 28 <= n <= 31
    ensures m == 1 ==> (n == 29 <==> IsLeapYear(y))
  {
    if m == 1 then (if IsLeapYear(y) then 29 else 28)
    else if m == 3 || m == 5 || m == 8 || m == 10 then 30
    else 31
  }

  predicate ValidDate(y: int, m: Month0, d: int)
  {
    1 <= d <= MonthLength(y, m)
  }

  /** Leap years among 1..y, counted relative to year 0 for y below 1. */
  function LeapsThrough(y: int): int
  {
    y / 4 - y / 100 + y / 400
  }

  function DaysBeforeYear(y: int): int
  {
    365 * (y - 1) + LeapsThrough(y - 1)
  }

  function DaysBeforeMonth(y: int, m: Month0): int
  {
    [0, 31, 59, 90, 120, 151, 181, 212, 243, 273, 304, 334][m]
    + (if m >= 2 && IsLeapYear(y) then 1 else 0)
  }

  /** Days since the day before 1 January of year 1; consecutive days get
      consecutive numbers, and `DayNumber % 7` is JavaScript's `getDay()`. */
  function DayNumber(y: int, m: Month0, d: int): int
  {
    DaysBeforeYear(y) + DaysBeforeMonth(y, m) + d
  }

  /** `new Date(y, m, d).getDay()`: 0 is Sunday. */
  function Weekday(y: int, m: Month0, d: int): (w: int)
    ensures 0 <= w < 7
  {
    DayNumber(y, m, d) % 7
  }

  lemma DivStep(y: int, k: int)
    requires k == 4 || k == 100 || k == 400
    ensures y / k - (y - 1) / k == if y % k == 0 then 1 else 0
  {
  }

  lemma MultipleMod(q: int, k: int)
    requires k == 4 || k == 100
    ensures (q * k) % k == 0
  {
  }

  lemma Mod400(y: int)
    requires y % 400 == 0
    ensures y % 100 == 0 && y % 4 == 0
  {
    var q := y / 400;
    assert y == (q * 4) * 100;
    assert y == (q * 100) * 4;
    MultipleMod(q * 4, 100);
    MultipleMod(q * 100, 4);
  }

  lemma Mod100(y: int)
    requires y % 100 == 0
    ensures y % 4 == 0
  {
    var q := y / 100;
    assert y == (q * 25) * 4;
    MultipleMod(q * 25, 4);
  }

  /** Each year adds one more leap day exactly when it is a leap year. */
  lemma LeapStep(y: int)
    ensures LeapsThrough(y) - LeapsThrough(y - 1) == if IsLeapYear(y) then 1 else 0
  {
    DivStep(y, 4);
    DivStep(y, 100);
    DivStep(y, 400);
    if y % 400 == 0 {
      Mod400(y);
    } else if y % 100 == 0 {
      Mod100(y);
    }
  }

  lemma YearStep(y: int)
    ensures DaysBeforeYear(y + 1) == DaysBeforeYear(y) + DaysBeforeMonth(y, 11) + MonthLength(y, 11)
  {
    LeapStep(y);
  }

  function NextMonth(c: MonthCursor): MonthCursor
  {
    if c.month == 11 then MonthCursor(c.year + 1, 0) else MonthCursor(c.year, c.month + 1)
  }

  function PrevMonth(c: MonthCursor): MonthCursor
  {
    if c.month == 0 then MonthCursor(c.year - 1, 11) else MonthCursor(c.year, c.month - 1)
  }

  /** JavaScript's `new Date(y, m + 1, 0)`: day 0 of the next month is the last
      day of month m, so its day of the month is the month's length. */
  lemma DayZeroOfNextMonth(y: int, m: Month0)
    ensures var n := NextMonth(MonthCursor(y, m));
      DayNumber(n.year, n.month, 0) == DayNumber(y, m, MonthLength(y, m))
  {
    if m == 11 {
      YearStep(y);
    }
  }

  /** A month's grid starts on the weekday after the previous month's last day. */
  lemma NextMonthWeekday(y: int, m: Month0)
    ensures var n := NextMonth(MonthCursor(y, m));
      Weekday(n.year, n.month, 1) == (Weekday(y, m, 1) + MonthLength(y, m)) % 7
  {
    DayZeroOfNextMonth(y, m);
    var n := NextMonth(MonthCursor(y, m));
    var first := DayNumber(y, m, 1);
    assert DayNumber(n.year, n.month, 1) == first + MonthLength(y, m);
    ModAdd(first, MonthLength(y, m));
  }

  lemma ModAdd(a: int, b: int)
    ensures (a + b) % 7 == (a % 7 + b) % 7
  {
    var q := a / 7;
    assert a == 7 * q + a % 7;
    assert a + b == 7 * q + (a % 7 + b);
  }

  /** The month the planner, the monthly schedule or `new Date()` points at. */
  datatype MonthCursor = MonthCursor(year: int, month: Month0)

  lemma MonthStepsAreInverse(c: MonthCursor)
    ensures PrevMonth(NextMonth(c)) == c
    ensures NextMonth(PrevMonth(c)) == c
  {
  }

  /** `String(year)-MM-DD` as the calendar builds it, with month + 1 and day
      padded to two digits. */
  function DateString(y: int, m: Month0, d: nat): string
  {
    IntToString(y) + "-" + Pad2(m + 1) + "-" + Pad2(d)
  }

  /** The shape `DDDD-DD-DD` of an ISO 8601 calendar date. */
  predicate IsoShaped(s: string)
  {
    |s| == 10 && AllDigits(s[..4]) && s[4] == '-' && AllDigits(s[5..7]) && s[7] == '-'
    && AllDigits(s[8..])
  }

  function YearField(s: string): nat
    requires IsoShaped(s)
  {
    DigitsValue(s[..4])
  }

  function MonthField(s: string): nat
    requires IsoShaped(s)
  {
    DigitsValue(s[5..7])
  }

  function DayField(s: string): nat
    requires IsoShaped(s)
  {
    DigitsValue(s[8..])
  }

  /** `new Date(s)` on a date-only string, read back through `getFullYear`,
      `getMonth` and `getDate`; None stands for an invalid date. */
  function ParseIsoDate(s: string): (r: Option<CalendarDate>)
    ensures r.Some? ==> IsoShaped(s) && ValidDate(r.value.year, r.value.month, r.value.day)
  {
    if IsoShaped(s) && 1 <= MonthField(s) <= 12 && ValidDate(YearField(s), MonthField(s) - 1, DayField(s))
    then Some(CalendarDate(YearField(s), MonthField(s) - 1, DayField(s)))
    else None
  }

  /** Whether a date string falls in year y and month m. */
  predicate InMonth(s: string, y: int, m: int)
  {
    match ParseIsoDate(s)
    case Some(d) => d.year == y && d.month == m
    case None => false
  }

  /** Lexicographic order on (year, month, day). */
  predicate FieldsBefore(y1: int, m1: int, d1: int, y2: int, m2: int, d2: int)
  {
    y1 < y2 || (y1 == y2 && (m1 < m2 || (m1 == m2 && d1 < d2)))
  }

  lemma IsoSplit(s: string)
    requires IsoShaped(s)
    ensures s == s[..4] + ([s[4]] + (s[5..7] + ([s[7]] + s[8..])))
  {
  }

  /** On ISO-shaped strings, JavaScript's string `<` is the order of the
      (year, month, day) fields, and string equality is equality of fields. */
  lemma IsoOrder(a: string, b: string)
    requires IsoShaped(a) && IsoShaped(b)
    ensures LexLess(a, b) <==> FieldsBefore(YearField(a), MonthField(a), DayField(a),
                                            YearField(b), MonthField(b), DayField(b))
    ensures a == b <==> (YearField(a) == YearField(b) && MonthField(a) == MonthField(b)
                         && DayField(a) == DayField(b))
  {
    IsoSplit(a);
    IsoSplit(b);
    LexDigits(a[..4], b[..4]);
    DigitsEqual(a[..4], b[..4]);
    LexDigits(a[5..7], b[5..7]);
    DigitsEqual(a[5..7], b[5..7]);
    LexDigits(a[8..], b[8..]);
    DigitsEqual(a[8..], b[8..]);
    var a4, b4 := [a[4]] + (a[5..7] + ([a[7]] + a[8..])), [b[4]] + (b[5..7] + ([b[7]] + b[8..]));
    var a5, b5 := a[5..7] + ([a[7]] + a[8..]), b[5..7] + ([b[7]] + b[8..]);
    var a7, b7 := [a[7]] + a[8..], [b[7]] + b[8..];
    LexConcat(a[..4], a4, b[..4], b4);
    LexConcat([a[4]], a5, [b[4]], b5);
    LexConcat(a[5..7], a7, b[5..7], b7);
    LexConcat([a[7]], a[8..], [b[7]], b[8..]);
    assert !LexLess([a[4]], [b[4]]) && !LexLess([a[7]], [b[7]]);
    assert a == b <==> (a[..4] == b[..4] && a[5..7] == b[5..7] && a[8..] == b[8..]) by {
      if a[..4] == b[..4] && a[5..7] == b[5..7] && a[8..] == b[8..] {
        assert a4 == b4;
      }
    }
  }

  /** A date string with a four-digit year and a day below 100 is ISO-shaped,
      and its fields are the year, the 1-based month and the day. */
  lemma DateStringFields(y: int, m: Month0, d: nat)
    requires 1000 <= y <= 9999 && 1 <= d < 100
    ensures IsoShaped(DateString(y, m, d))
    ensures YearField(DateString(y, m, d)) == y && MonthField(DateString(y, m, d)) == m + 1
    ensures DayField(DateString(y, m, d)) == d
  {
    assert Pow10(3) == 1000 && Pow10(4) == 10000;
    NatToStringLength(y, 4);
    Pad2Digits(m + 1);
    Pad2Digits(d);
    IsoFromParts(NatToString(y), Pad2(m + 1), Pad2(d));
  }

  lemma IsoFromParts(a: string, b: string, c: string)
    requires |a| == 4 && |b| == 2 && |c| == 2 && AllDigits(a) && AllDigits(b) && AllDigits(c)
    ensures var s := a + "-" + b + "-" + c;
      IsoShaped(s) && s[..4] == a && s[5..7] == b && s[8..] == c
  {
    var s := a + "-" + b + "-" + c;
    assert s[..4] == a;
    assert s[5..7] == b;
    assert s[8..] == c;
  }

  /** The strings the calendar builds for four-digit years are ISO-shaped and
      parse back to the same date. */
  lemma DateStringRoundTrip(y: int, m: Month0, d: int)
    requires 1000 <= y <= 9999 && ValidDate(y, m, d)
    ensures IsoShaped(DateString(y, m, d))
    ensures ParseIsoDate(DateString(y, m, d)) == Some(CalendarDate(y, m, d))
  {
    assert MonthLength(y, m) <= 31;
    DateStringFields(y, m, d);
  }
}
