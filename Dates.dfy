/**
 * Calendar dates as Python's `datetime.date` sees them: the proleptic
 * Gregorian day number `toordinal()` (1 for 0001-01-01), which the date
 * comparisons and `timedelta` subtraction of the filters rest on, and the
 * monthly period label "YYYY-MM" of `to_period('M').astype(str)`.
 */
module Dates {

  datatype Date = Date(year: int, month: int, day: int)

  predicate IsLeap(y: int) {
    y % 4 == 0 && (y % 100 != 0 || y % 400 == 0)
  }

  function DaysInMonth(y: int, m: int): (n: int)
    requires 1 <= m <= 12
    ensures 28 <= n <= 31
  {
    if m == 2 then (if IsLeap(y) then 29 else 28)
    else if m == 4 || m == 6 || m == 9 || m == 11 then 30
    else 31
  }

  function YearLength(y: int): int {
    if IsLeap(y) then 366 else 365
  }

  /** A date `datetime.date` accepts: years 1 to 9999 and a day that exists in its month. */
  predicate Valid(d: Date) {
    1 <= d.year <= 9999 && 1 <= d.month <= 12 && 1 <= d.day <= DaysInMonth(d.year, d.month)
  }

  /** The dates `datetime.date` can hold. */
  type ValidDate = d: Date | Valid(d) witness Date(1, 1, 1)

  /** Days in the years before `y`. */
  function DaysBeforeYear(y: int): int
    requires y >= 1
  {
    var p := y - 1;
    p * 365 + p / 4 - p / 100 + p / 400
  }

  /** Days in the months of year `y` before month `m`, from CPython's cumulative month table. */
  function DaysBeforeMonth(y: int, m: int): (n: int)
    requires 1 <= m <= 12
  {
    var base := match m
      case 1 => 0 case 2 => 31 case 3 => 59 case 4 => 90 case 5 => 120 case 6 => 151
      case 7 => 181 case 8 => 212 case 9 => 243 case 10 => 273 case 11 => 304 case _ => 334;
    base + (if m > 2 && IsLeap(y) then 1 else 0)
  }

  /** `date.toordinal()` */
  function Ordinal(d: Date): int
    requires Valid(d)
  {
    DaysBeforeYear(d.year) + DaysBeforeMonth(d.year, d.month) + d.day
  }

  /** Calendar order: by year, then month, then day. */
  predicate Before(a: Date, b: Date) {
    a.year < b.year || (a.year == b.year && (a.month < b.month || (a.month == b.month && a.day < b.day)))
  }

  lemma NextMonth(y: int, m: int)
    requires 1 <= m < 12
    ensures DaysBeforeMonth(y, m + 1) == DaysBeforeMonth(y, m) + DaysInMonth(y, m)
  {
  }

  lemma LastMonth(y: int)
    ensures DaysBeforeMonth(y, 12) + DaysInMonth(y, 12) == YearLength(y)
  {
  }

  lemma DivStep(y: int)
    requires y >= 1
    ensures y / 4 - (y - 1) / 4 == if y % 4 == 0 then 1 else 0
    ensures y / 100 - (y - 1) / 100 == if y % 100 == 0 then 1 else 0
    ensures y / 400 - (y - 1) / 400 == if y % 400 == 0 then 1 else 0
  {
  }

  lemma CenturyLeap(y: int)
    ensures y % 100 == 0 ==> y % 4 == 0
  {
    if y % 100 == 0 {
      var q := y / 100;
      assert y == 4 * (25 * q);
    }
  }

  lemma QuadCenturyLeap(y: int)
    ensures y % 400 == 0 ==> y % 100 == 0
  {
    if y % 400 == 0 {
      var q := y / 400;
      assert y == 100 * (4 * q);
    }
  }

  /** A year contributes its own length to the days before the next one. */
  lemma NextYear(y: int)
    requires y >= 1
    ensures DaysBeforeYear(y + 1) == DaysBeforeYear(y) + YearLength(y)
  {
    DivStep(y);
    CenturyLeap(y);
    QuadCenturyLeap(y);
  }

  lemma {:induction false} MonthOrder(y: int, m1: int, m2: int)
    requires 1 <= m1 < m2 <= 12
    ensures DaysBeforeMonth(y, m1) + DaysInMonth(y, m1) <= DaysBeforeMonth(y, m2)
    decreases m2 - m1
  {
    NextMonth(y, m1);
    if m1 + 1 < m2 {
      MonthOrder(y, m1 + 1, m2);
    }
  }

  lemma {:induction false} YearOrder(a: int, b: int)
    requires 1 <= a < b
    ensures DaysBeforeYear(a) + YearLength(a) <= DaysBeforeYear(b)
    decreases b - a
  {
    NextYear(a);
    if a + 1 < b {
      YearOrder(a + 1, b);
      NextYear(a + 1);
    }
  }

  /** The day number of a date lies within its year. */
  lemma WithinYear(d: Date)
    requires Valid(d)
    ensures DaysBeforeYear(d.year) < Ordinal(d) <= DaysBeforeYear(d.year) + YearLength(d.year)
  {
    if d.month < 12 {
      MonthOrder(d.year, d.month, 12);
    }
    LastMonth(d.year);
  }

  lemma OrdinalMonotone(a: Date, b: Date)
    requires Valid(a) && Valid(b) && Before(a, b)
    ensures Ordinal(a) < Ordinal(b)
  {
    if a.year < b.year {
      WithinYear(a);
      WithinYear(b);
      YearOrder(a.year, b.year);
    } else if a.month < b.month {
      MonthOrder(a.year, a.month, b.month);
    }
  }

  /** Day numbers order dates as the calendar does, and tell different dates apart. */
  lemma OrdinalOrder(a: Date, b: Date)
    requires Valid(a) && Valid(b)
    ensures Ordinal(a) < Ordinal(b) <==> Before(a, b)
    ensures Ordinal(a) == Ordinal(b) <==> a == b
  {
    if Before(a, b) {
      OrdinalMonotone(a, b);
    } else if Before(b, a) {
      OrdinalMonotone(b, a);
    } else {
      assert a == b;
    }
  }

  /** A date is on or after January 1st of year `y` exactly when its year is at least `y`. */
  lemma OnOrAfterYearStart(d: Date, y: int)
    requires Valid(d) && 1 <= y <= 9999
    ensures Ordinal(Date(y, 1, 1)) <= Ordinal(d) <==> d.year >= y
  {
    OrdinalOrder(Date(y, 1, 1), d);
  }

  // ---------------------------------------------------------------------------
  // Monthly period labels
  // ---------------------------------------------------------------------------

  function DigitChar(n: int): (c: char)
    requires 0 <= n <= 9
    ensures '0' <= c <= '9'
  {
    ('0' as int + n) as char
  }

  function DigitValue(c: char): int {
    c as int - '0' as int
  }

  /** `n` written with exactly `w` digits, zero padded on the left. */
  function Padded(n: nat, w: nat): (s: string)
    requires n < Pow10(w)
    ensures |s| == w && forall i :: 0 <= i < w ==> '0' <= s[i] <= '9'
  {
    if w == 0 then "" else Padded(n / 10, w - 1) + [DigitChar(n % 10)]
  }

  function Pow10(w: nat): (p: nat)
    ensures p >= 1
  {
    if w == 0 then 1 else 10 * Pow10(w - 1)
  }

  /** The number a string of decimal digits spells. */
  function DecimalValue(s: string): int {
    if s == "" then 0 else 10 * DecimalValue(s[..|s| - 1]) + DigitValue(s[|s| - 1])
  }

  lemma {:induction false} DecimalPadded(n: nat, w: nat)
    requires n < Pow10(w)
    ensures DecimalValue(Padded(n, w)) == n
  {
    if w > 0 {
      DecimalPadded(n / 10, w - 1);
      var s := Padded(n, w);
      assert s[..|s| - 1] == Padded(n / 10, w - 1);
    }
  }

  /** The label of the month containing `d`, as `to_period('M').astype(str)` prints it. */
  function YearMonth(d: Date): (s: string)
    requires Valid(d)
    ensures |s| == 7 && s[4] == '-'
  {
    Padded(d.year, 4) + "-" + Padded(d.month, 2)
  }

  /** Reads a "YYYY-MM" label back as (year, month). */
  function ParseYearMonth(s: string): (ym: (int, int))
    requires |s| == 7
  {
    (DecimalValue(s[..4]), DecimalValue(s[5..]))
  }

  /** The label determines the year and month it came from. */
  lemma YearMonthRoundTrip(d: Date)
    requires Valid(d)
    ensures ParseYearMonth(YearMonth(d)) == (d.year, d.month)
  {
    var s := YearMonth(d);
    assert s[..4] == Padded(d.year, 4);
    assert s[5..] == Padded(d.month, 2);
    DecimalPadded(d.year, 4);
    DecimalPadded(d.month, 2);
  }

  /** Two dates share a label exactly when they fall in the same month of the same year. */
  lemma YearMonthSame(a: Date, b: Date)
    requires Valid(a) && Valid(b)
    ensures YearMonth(a) == YearMonth(b) <==> a.year == b.year && a.month == b.month
  {
    YearMonthRoundTrip(a);
    YearMonthRoundTrip(b);
  }
}
