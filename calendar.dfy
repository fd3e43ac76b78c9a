/** The proleptic Gregorian calendar as ECMAScript `Date` computes it
    (ECMA-262, section 21.4.1: DayFromYear, DaysInYear, MakeDay, WeekDay and
    the overflow of month numbers), the `yyyy-MM-dd` rendering the dashboard
    uses as its date key, and its reading back. A date is a (year, month, day)
    triple with the month numbered 1..12, as in the rendered string. */
module Calendar {
  import opened Types
  import opened Text

  datatype Date = Date(year: int, month: int, day: int)

  /** A displayed month: the calendar's `selectedMonth` cursor (its day is never used). */
  datatype MonthCursor = MonthCursor(year: int, month: int)

  predicate IsLeapYear(y: int) {
    y % 4 == 0 && (y % 100 != 0 || y % 400 == 0)
  }

  function DaysInYear(y: int): (n: int)
    ensures n == 365 || n == 366
    ensures n == 366 <==> IsLeapYear(y)
  {
    if IsLeapYear(y) then 366 else 365
  }

  function DaysInMonth(y: int, m: int): (n: int)
    requires 1 <= m <= 12
    ensures 28 <= n <= 31
    ensures m == 2 ==> (n == 29 <==> IsLeapYear(y))
  {
    if m == 2 then (if IsLeapYear(y) then 29 else 28)
    else if m == 4 || m == 6 || m == 9 || m == 11 then 30
    else 31
  }

  predicate ValidDate(d: Date) {
    1 <= d.month <= 12 && 1 <= d.day <= DaysInMonth(d.year, d.month)
  }

  predicate ValidMonth(c: MonthCursor) {
    1 <= c.month <= 12
  }

  /** Years the `yyyy` pattern renders in exactly four digits. */
  predicate InFormatRange(d: Date) {
    ValidDate(d) && 1 <= d.year <= 9999
  }

  /** Days from 1970-01-01 to January 1st of `y` (section 21.4.1.3 of ECMA-262; `/` on
      a positive divisor is the floor the standard uses). */
  function DayFromYear(y: int): int {
    365 * (y - 1970) + (y - 1969) / 4 - (y - 1901) / 100 + (y - 1601) / 400
  }

  /** Days of year `y` before the first of month `m`. */
  function DaysBeforeMonth(y: int, m: int): int
    requires 1 <= m <= 12
  {
    [0, 31, 59, 90, 120, 151, 181, 212, 243, 273, 304, 334][m - 1]
      + (if m > 2 && IsLeapYear(y) then 1 else 0)
  }

  /** MakeDay(year, month, day): the day number of a date, 0 on 1970-01-01. */
  function DayNumber(d: Date): int
    requires 1 <= d.month <= 12
  {
    DayFromYear(d.year) + DaysBeforeMonth(d.year, d.month) + d.day - 1
  }

  /** `getDay()`: 0 is Sunday; 1970-01-01 was a Thursday
      (section 21.4.1.6 of ECMA-262). */
  function WeekDay(d: Date): (w: int)
    requires 1 <= d.month <= 12
    ensures 0 <= w <= 6
  {
    (DayNumber(d) + 4) % 7
  }

  /** The numbering is anchored to real weekdays: 1970-01-01 was a Thursday
      (4) and 2023-10-01 a Sunday (0). */
  lemma WeekDayAnchors()
    ensures WeekDay(Date(1970, 1, 1)) == 4
    ensures WeekDay(Date(2023, 10, 1)) == 0
  {
  }

  /** Crossing from year y to y + 1 adds one to each floor term of
      DayFromYear exactly when y is a multiple of its divisor. */
  lemma FloorStep4(y: int)
    ensures (y - 1968) / 4 == (y - 1969) / 4 + (if y % 4 == 0 then 1 else 0)
  {
  }

  lemma FloorStep100(y: int)
    ensures (y - 1900) / 100 == (y - 1901) / 100 + (if y % 100 == 0 then 1 else 0)
  {
  }

  lemma FloorStep400(y: int)
    ensures (y - 1600) / 400 == (y - 1601) / 400 + (if y % 400 == 0 then 1 else 0)
  {
  }

  /** DayFromYear advances by DaysInYear from one year to the next. */
  lemma YearLength(y: int)
    ensures DayFromYear(y + 1) == DayFromYear(y) + DaysInYear(y)
  {
    FloorStep4(y);
    FloorStep100(y);
    FloorStep400(y);
    DivisorsNest(y);
    var leap := if IsLeapYear(y) then 1 else 0;
    assert (if y % 4 == 0 then 1 else 0) - (if y % 100 == 0 then 1 else 0)
           + (if y % 400 == 0 then 1 else 0) == leap;
  }

  /** A multiple of 400 is a multiple of 100, and one of 100 a multiple of 4. */
  lemma DivisorsNest(y: int)
    ensures y % 400 == 0 ==> y % 100 == 0
    ensures y % 100 == 0 ==> y % 4 == 0
  {
    if y % 400 == 0 {
      var k := y / 400;
      assert y == 400 * k;
      assert y / 100 == 4 * k;
    }
    if y % 100 == 0 {
      var k := y / 100;
      assert y == 100 * k;
      assert y / 4 == 25 * k;
    }
  }

  /** Each month starts where the previous one ends. */
  lemma MonthStep(y: int, m: int)
    requires 1 <= m < 12
    ensures DaysBeforeMonth(y, m + 1) == DaysBeforeMonth(y, m) + DaysInMonth(y, m)
  {
  }

  /** December ends the year. */
  lemma DecemberEnds(y: int)
    ensures DaysBeforeMonth(y, 12) + 31 == DaysInYear(y)
  {
  }

  lemma {:induction false} DayFromYearIncreasing(a: int, b: int)
    requires a < b
    ensures DayFromYear(a) + 365 <= DayFromYear(b)
    decreases b - a
  {
    YearLength(a);
    assert DayFromYear(a) + 365 <= DayFromYear(a + 1);
    if a + 1 < b {
      DayFromYearIncreasing(a + 1, b);
    }
  }

  /** A valid date's day number lies inside its own year. */
  lemma DayNumberInYear(d: Date)
    requires ValidDate(d)
    ensures DayFromYear(d.year) <= DayNumber(d) < DayFromYear(d.year + 1)
  {
    YearLength(d.year);
  }

  /** A date on or after January 1st of `y` lies in year `y` or later. */
  lemma YearAtLeast(d: Date, y: int)
    requires ValidDate(d) && DayFromYear(y) <= DayNumber(d)
    ensures y <= d.year
  {
    DayNumberInYear(d);
    if d.year + 1 < y {
      DayFromYearIncreasing(d.year + 1, y);
    }
  }

  /** Day numbers order the years: an earlier day is never in a later year. */
  lemma YearsFollowDayNumbers(a: Date, b: Date)
    requires ValidDate(a) && ValidDate(b) && DayNumber(a) <= DayNumber(b)
    ensures a.year <= b.year
  {
    DayNumberInYear(a);
    DayNumberInYear(b);
    if a.year > b.year {
      if b.year + 1 < a.year {
        DayFromYearIncreasing(b.year + 1, a.year);
      }
    }
  }

  /** The day before a valid date: what `setDate(getDate() - 1)` normalises to. */
  function PrevDay(d: Date): (r: Date)
    requires ValidDate(d)
    ensures ValidDate(r) && DayNumber(r) == DayNumber(d) - 1
  {
    if d.day > 1 then Date(d.year, d.month, d.day - 1)
    else
      assert d == Date(d.year, d.month, 1);
      if d.month > 1 then
        MonthStartStep(d.year, d.month);
        Date(d.year, d.month - 1, DaysInMonth(d.year, d.month - 1))
      else
        YearStartStep(d.year);
        Date(d.year - 1, 12, 31)
  }

  /** The last day of a month is the day before the 1st of the next. */
  lemma MonthStartStep(y: int, m: int)
    requires 1 < m <= 12
    ensures DayNumber(Date(y, m - 1, DaysInMonth(y, m - 1))) == DayNumber(Date(y, m, 1)) - 1
  {
    MonthStep(y, m - 1);
  }

  /** December 31st is the day before January 1st of the next year. */
  lemma YearStartStep(y: int)
    ensures ValidDate(Date(y - 1, 12, 31))
    ensures DayNumber(Date(y - 1, 12, 31)) == DayNumber(Date(y, 1, 1)) - 1
  {
    DecemberEnds(y - 1);
    YearLength(y - 1);
  }

  /** `subDays(date, n)`: the date whose day number is `n` less (section
      21.4.1.13 of ECMA-262: MakeDay folds an out-of-range day into the month and year). */
  function SubDays(d: Date, n: nat): (r: Date)
    requires ValidDate(d)
    ensures ValidDate(r) && DayNumber(r) == DayNumber(d) - n
    decreases n
  {
    if n == 0 then d else SubDays(PrevDay(d), n - 1)
  }

  /** The month holding a date (`startOfMonth`). */
  function MonthOf(d: Date): MonthCursor {
    MonthCursor(d.year, d.month)
  }

  /** Months counted from January of year 0. */
  function MonthIndex(c: MonthCursor): int {
    12 * c.year + c.month - 1
  }

  /** `new Date(year, month0 + delta)`: MakeDay carries floor(month / 12)
      into the year and keeps month modulo 12. */
  function ShiftMonth(c: MonthCursor, delta: int): (r: MonthCursor)
    ensures ValidMonth(r)
    ensures MonthIndex(r) == MonthIndex(c) + delta
  {
    var i := MonthIndex(c) + delta;
    MonthCursor(i / 12, i % 12 + 1)
  }

  /** `yyyy-MM-dd` (date-fns `format`): four-digit year, two-digit month and day. */
  function FormatDate(d: Date): (s: string)
    requires InFormatRange(d)
    ensures |s| == 10 && s[4] == '-' && s[7] == '-'
  {
    DigitsLength(d.year, 4);
    DigitsLength(d.month, 2);
    DigitsLength(d.day, 2);
    Digits(d.year, 4) + "-" + Digits(d.month, 2) + "-" + Digits(d.day, 2)
  }

  /** Reads a `yyyy-MM-dd` string back to a calendar date, as `new Date(s)`
      and `parseISO` do. Any other string gives None here; in the source
      `new Date` may still read it (other ISO forms such as `yyyy-MM`, or an
      engine's own formats) or give NaN, and neither is modelled. */
  function ParseDate(s: string): (r: Option<Date>)
    ensures r.Some? ==> ValidDate(r.value) && 0 <= r.value.year <= 9999
  {
    if |s| == 10 && s[4] == '-' && s[7] == '-'
       && AllDigits(s[..4]) && AllDigits(s[5..7]) && AllDigits(s[8..])
    then
      var d := Date(ParseDecimal(s[..4]), ParseDecimal(s[5..7]), ParseDecimal(s[8..]));
      ParseBound(s[..4]);
      if ValidDate(d) then Some(d) else None
    else None
  }

  lemma {:induction false} ParseBound(s: string)
    requires AllDigits(s)
    ensures ParseDecimal(s) < Pow10(|s|)
  {
    if s != [] {
      ParseBound(s[..|s| - 1]);
    }
  }

  lemma SplitFields(a: string, b: string, c: string)
    requires |a| == 4 && |b| == 2 && |c| == 2
    ensures (a + "-" + b + "-" + c)[..4] == a
    ensures (a + "-" + b + "-" + c)[5..7] == b
    ensures (a + "-" + b + "-" + c)[8..] == c
  {
  }

  /** Reading a rendered date gives the date back. */
  lemma ParseFormat(d: Date)
    requires InFormatRange(d)
    ensures ParseDate(FormatDate(d)) == Some(d)
  {
    var y, m, dd := Digits(d.year, 4), Digits(d.month, 2), Digits(d.day, 2);
    DigitsLength(d.year, 4);
    DigitsLength(d.month, 2);
    DigitsLength(d.day, 2);
    SplitFields(y, m, dd);
    DigitsRoundTrip(d.year, 4);
    DigitsRoundTrip(d.month, 2);
    DigitsRoundTrip(d.day, 2);
    var s := FormatDate(d);
    assert s == y + "-" + m + "-" + dd;
    assert Date(ParseDecimal(s[..4]), ParseDecimal(s[5..7]), ParseDecimal(s[8..])) == d;
  }

  /** Different dates render differently, so the date string is a faithful key. */
  lemma FormatInjective(a: Date, b: Date)
    requires InFormatRange(a) && InFormatRange(b) && FormatDate(a) == FormatDate(b)
    ensures a == b
  {
    ParseFormat(a);
    ParseFormat(b);
  }

  /** A string that reads as a date in the four-digit range is that date's rendering. */
  lemma FormatParse(s: string)
    requires ParseDate(s).Some? && ParseDate(s).value.year >= 1
    ensures FormatDate(ParseDate(s).value) == s
  {
    ParsedFields(s);
    var d := ParseDate(s).value;
    var y, m, dd := s[..4], s[5..7], s[8..];
    assert Digits(d.year, 4) == y by { DigitsOfValue(y); }
    assert Digits(d.month, 2) == m by { DigitsOfValue(m); }
    assert Digits(d.day, 2) == dd by { DigitsOfValue(dd); }
    assert FormatDate(d) == y + "-" + m + "-" + dd by { FormatFields(d, y, m, dd); }
    JoinFields(s);
  }

  /** A date's rendering is its three padded fields joined by dashes. */
  lemma FormatFields(d: Date, y: string, m: string, dd: string)
    requires InFormatRange(d)
    requires Digits(d.year, 4) == y && Digits(d.month, 2) == m && Digits(d.day, 2) == dd
    ensures FormatDate(d) == y + "-" + m + "-" + dd
  {
  }

  /** What a successful parse read: the dashed shape and the three fields. */
  lemma ParsedFields(s: string)
    requires ParseDate(s).Some?
    ensures |s| == 10 && s[4] == '-' && s[7] == '-'
    ensures AllDigits(s[..4]) && AllDigits(s[5..7]) && AllDigits(s[8..])
    ensures ParseDate(s).value
            == Date(ParseDecimal(s[..4]), ParseDecimal(s[5..7]), ParseDecimal(s[8..]))
  {
  }

  /** A dashed ten-character string is its fields joined by dashes. */
  lemma JoinFields(s: string)
    requires |s| == 10 && s[4] == '-' && s[7] == '-'
    ensures s == s[..4] + "-" + s[5..7] + "-" + s[8..]
  {
  }

  /** The month after December is January of the next year; otherwise the
      year stays and the month number grows by one. */
  lemma NextMonth(c: MonthCursor)
    requires ValidMonth(c)
    ensures ShiftMonth(c, 1) == if c.month == 12 then MonthCursor(c.year + 1, 1)
                                else MonthCursor(c.year, c.month + 1)
  {
  }

  /** The month before January is December of the previous year. */
  lemma PrevMonth(c: MonthCursor)
    requires ValidMonth(c)
    ensures ShiftMonth(c, -1) == if c.month == 1 then MonthCursor(c.year - 1, 12)
                                 else MonthCursor(c.year, c.month - 1)
  {
  }

  /** A valid cursor is determined by its month index, so shifts compose and undo. */
  lemma ShiftMonthCompose(c: MonthCursor, i: int, j: int)
    requires ValidMonth(c)
    ensures ShiftMonth(ShiftMonth(c, i), j) == ShiftMonth(c, i + j)
    ensures ShiftMonth(c, 0) == c
  {
  }

  /** Consecutive days of a month fall in consecutive weekday columns. */
  lemma WeekDayOfDay(y: int, m: int, d: int)
    requires 1 <= m <= 12 && 1 <= d
    ensures WeekDay(Date(y, m, d)) == (WeekDay(Date(y, m, 1)) + d - 1) % 7
  {
    var n := DayNumber(Date(y, m, 1)) + 4;
    assert DayNumber(Date(y, m, d)) + 4 == n + d - 1;
    ShiftMod7(n, d - 1);
  }

  /** Adding to a number adds to its remainder, modulo 7. */
  lemma ShiftMod7(n: int, k: int)
    ensures (n + k) % 7 == (n % 7 + k) % 7
  {
    var q := n / 7;
    assert n + k == 7 * q + (n % 7 + k);
  }

  const MsPerDay := 86400000

  /** `new Date(s).getTime()` for a `yyyy-MM-dd` string, read as midnight UTC
      (section 21.4.3.2 of ECMA-262 reads date-only forms as UTC). For any
      other string the source gives a time or NaN, which is not modelled;
      the 0 here stands for no value of the source. */
  function TimeOf(s: string): int {
    match ParseDate(s)
    case Some(d) => DayNumber(d) * MsPerDay
    case None => 0
  }

  /** Time values order parseable dates as their day numbers do. */
  lemma TimeOrder(a: string, b: string)
    requires ParseDate(a).Some? && ParseDate(b).Some?
    ensures TimeOf(a) <= TimeOf(b) <==> DayNumber(ParseDate(a).value) <= DayNumber(ParseDate(b).value)
  {
  }
}
