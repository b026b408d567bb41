/**
 * The proleptic Gregorian calendar the views rely on (through JavaScript's Date and date-fns):
 * civil dates, month lengths, a day count with day 0 = 0001-01-01 (a Monday), the `yyyy-MM-dd`
 * rendering and its parser, and month stepping.
 */
module Calendar {
  import opened Wrappers
  import opened Text

  /** A civil date; `month` runs 1..12 (JavaScript's `getMonth()` is `month - 1`). */
  datatype Date = Date(year: int, month: int, day: int)

  predicate IsLeapYear(y: int)
  {
    y % 4 == 0 && (y % 100 != 0 || y % 400 == 0)
  }

  function DaysInMonth(y: int, m: int): (n: int)
    requires 1 <= m <= 12
    ensures 28 <= n <= 31
    ensures n == 29 <==> m == 2 && IsLeapYear(y)
  {
    if m == 2 then (if IsLeapYear(y) then 29 else 28)
    else if m == 4 || m == 6 || m == 9 || m == 11 then 30
    else 31
  }

  predicate Valid(d: Date)
  {
    1 <= d.month <= 12 && 1 <= d.day <= DaysInMonth(d.year, d.month)
  }

  /** Dates that render in four-digit years. */
  predicate Renderable(d: Date)
  {
    Valid(d) && 0 <= d.year <= 9999
  }

  /** Calendar order: year, then month, then day. */
  predicate Before(a: Date, b: Date)
  {
    a.year < b.year
    || (a.year == b.year && a.month < b.month)
    || (a.year == b.year && a.month == b.month && a.day < b.day)
  }

  predicate OnOrBefore(a: Date, b: Date)
  {
    a == b || Before(a, b)
  }

  /** Days in the years before `y`, counted from year 1. */
  function DaysBeforeYear(y: int): int
  {
    365 * (y - 1) + (y - 1) / 4 - (y - 1) / 100 + (y - 1) / 400
  }

  /** Days in the months of year `y` before month `m`. */
  function DaysBeforeMonth(y: int, m: int): (n: int)
    requires 1 <= m <= 13
    ensures 28 * (m - 1) <= n <= 31 * (m - 1)
  {
    if m == 1 then 0 else DaysBeforeMonth(y, m - 1) + DaysInMonth(y, m - 1)
  }

  /** The day count of a date: 0001-01-01 is day 0. */
  function DayNumber(d: Date): int
    requires Valid(d)
  {
    DaysBeforeYear(d.year) + DaysBeforeMonth(d.year, d.month) + d.day - 1
  }

  /** Day of the week of a day count: 0 is Monday, 6 is Sunday. */
  function Weekday(n: int): (w: int)
    ensures 0 <= w < 7
  {
    n % 7
  }

  /** Stepping back to the start of the week lands on a Monday. */
  lemma MondayOnOrBefore(n: int)
    ensures Weekday(n - Weekday(n)) == 0
  {
    DivisionUnique(n - n % 7, 7, n / 7, 0);
  }

  /** The days after a Monday run through the week in order. */
  lemma WeekdaysFollow(monday: int, i: int)
    requires Weekday(monday) == 0 && 0 <= i < 7
    ensures Weekday(monday + i) == i
  {
    var k := monday / 7;
    DivisionUnique(monday + i, 7, k, i);
  }

  /** The length of a year is the sum of its months. */
  lemma {:induction false} YearLength(y: int)
    ensures DaysBeforeMonth(y, 13) == if IsLeapYear(y) then 366 else 365
  {
    assert DaysBeforeMonth(y, 2) == 31;
    assert DaysBeforeMonth(y, 3) == 31 + DaysInMonth(y, 2);
    assert DaysBeforeMonth(y, 4) == DaysBeforeMonth(y, 3) + 31;
    assert DaysBeforeMonth(y, 5) == DaysBeforeMonth(y, 3) + 61;
    assert DaysBeforeMonth(y, 6) == DaysBeforeMonth(y, 3) + 92;
    assert DaysBeforeMonth(y, 7) == DaysBeforeMonth(y, 3) + 122;
    assert DaysBeforeMonth(y, 8) == DaysBeforeMonth(y, 3) + 153;
    assert DaysBeforeMonth(y, 9) == DaysBeforeMonth(y, 3) + 184;
    assert DaysBeforeMonth(y, 10) == DaysBeforeMonth(y, 3) + 214;
    assert DaysBeforeMonth(y, 11) == DaysBeforeMonth(y, 3) + 245;
    assert DaysBeforeMonth(y, 12) == DaysBeforeMonth(y, 3) + 275;
  }

  /** Euclidean division is determined by its quotient and remainder. */
  lemma DivisionUnique(n: int, k: int, q: int, r: int)
    requires k > 0 && n == k * q + r && 0 <= r < k
    ensures n / k == q && n % k == r
  {
    var q', r' := n / k, n % k;
    assert k * (q - q') == r' - r;
    if q > q' {
      MultipleAtLeast(k, q - q');
    } else if q < q' {
      MultipleAtLeast(k, q' - q);
    }
  }

  /** A positive multiple of a positive number is at least that number. */
  lemma {:induction false} MultipleAtLeast(k: int, d: int)
    requires k > 0 && d >= 1
    ensures k * d >= k
  {
    if d > 1 {
      MultipleAtLeast(k, d - 1);
      assert k * d == k * (d - 1) + k;
    }
  }

  /** Going from `y - 1` to `y` adds one multiple of `k` exactly when `k` divides `y`. */
  lemma MultiplesStep(y: int, k: int)
    requires k > 0
    ensures y / k - (y - 1) / k == if y % k == 0 then 1 else 0
  {
    var q, r := (y - 1) / k, (y - 1) % k;
    if r == k - 1 {
      DivisionUnique(y, k, q + 1, 0);
    } else {
      DivisionUnique(y, k, q, r + 1);
    }
  }

  /** A multiple of `a * b` is a multiple of `b`. */
  lemma MultipleOfFactor(y: int, a: int, b: int)
    requires a > 0 && b > 0 && y % (a * b) == 0
    ensures y % b == 0
  {
    var q := y / (a * b);
    assert y == (a * b) * q;
    assert y == b * (a * q);
    DivisionUnique(y, b, a * q, 0);
  }

  /** The count of leap days follows the leap-year rule, one year at a time. */
  lemma YearStep(y: int)
    ensures DaysBeforeYear(y + 1) == DaysBeforeYear(y) + DaysBeforeMonth(y, 13)
  {
    YearLength(y);
    MultiplesStep(y, 4);
    MultiplesStep(y, 100);
    MultiplesStep(y, 400);
    if y % 100 == 0 {
      MultipleOfFactor(y, 25, 4);
    }
    if y % 400 == 0 {
      MultipleOfFactor(y, 4, 100);
    }
  }

  /** Months before `m` take fewer days than months before `m + 1` by exactly month `m`'s length. */
  lemma {:induction false} MonthsIncrease(y: int, m: int, m': int)
    requires 1 <= m < m' <= 13
    ensures DaysBeforeMonth(y, m) + DaysInMonth(y, m) <= DaysBeforeMonth(y, m')
    decreases m' - m
  {
    if m + 1 < m' {
      MonthsIncrease(y, m + 1, m');
    }
  }

  /** Each year starts at least 365 days after the previous one. */
  lemma {:induction false} YearsIncrease(y: int, y': int)
    requires y < y'
    ensures DaysBeforeYear(y) + DaysBeforeMonth(y, 13) <= DaysBeforeYear(y')
    decreases y' - y
  {
    YearStep(y);
    if y + 1 < y' {
      YearsIncrease(y + 1, y');
      YearLength(y + 1);
    }
  }

  /** The day count of a valid date lies within its year. */
  lemma DayWithinYear(d: Date)
    requires Valid(d)
    ensures DaysBeforeYear(d.year) <= DayNumber(d) < DaysBeforeYear(d.year) + DaysBeforeMonth(d.year, 13)
  {
    if d.month < 12 {
      MonthsIncrease(d.year, d.month, 13);
    }
  }

  /** The day count follows calendar order, so distinct valid dates have distinct counts. */
  lemma DayNumberOrder(a: Date, b: Date)
    requires Valid(a) && Valid(b)
    ensures Before(a, b) <==> DayNumber(a) < DayNumber(b)
    ensures a == b <==> DayNumber(a) == DayNumber(b)
  {
    DayWithinYear(a);
    DayWithinYear(b);
    if a.year < b.year {
      YearsIncrease(a.year, b.year);
    } else if b.year < a.year {
      YearsIncrease(b.year, a.year);
    } else if a.month < b.month {
      MonthsIncrease(a.year, a.month, b.month);
    } else if b.month < a.month {
      MonthsIncrease(b.year, b.month, a.month);
    }
  }

  /** The date after `d`. */
  function NextDay(d: Date): (r: Date)
    requires Valid(d)
    ensures Valid(r) && Before(d, r)
  {
    if d.day < DaysInMonth(d.year, d.month) then Date(d.year, d.month, d.day + 1)
    else if d.month < 12 then Date(d.year, d.month + 1, 1)
    else Date(d.year + 1, 1, 1)
  }

  /** Consecutive dates have consecutive day counts. */
  lemma NextDayNumber(d: Date)
    requires Valid(d)
    ensures DayNumber(NextDay(d)) == DayNumber(d) + 1
  {
    if d.day == DaysInMonth(d.year, d.month) && d.month == 12 {
      YearStep(d.year);
    }
  }

  // ---- yyyy-MM-dd ----

  /** date-fns `format(d, 'yyyy-MM-dd')`. */
  function Format(d: Date): (s: string)
    requires Renderable(d)
    ensures |s| == 10 && s[4] == '-' && s[7] == '-'
  {
    Pad4(d.year) + "-" + Pad2(d.month) + "-" + Pad2(d.day)
  }

  /** `s[i..i+n]` consists of decimal digits. */
  predicate DigitsAt(s: string, i: int, n: int)
  {
    0 <= i && i + n <= |s| && forall k :: i <= k < i + n ==> IsDigit(s[k])
  }

  function TwoDigits(s: string, i: int): int
    requires DigitsAt(s, i, 2)
  {
    10 * DigitValue(s[i]) + DigitValue(s[i + 1])
  }

  /** An optional decimal fraction `[.,]` followed by digits, ending the last unit of a time. */
  predicate IsFraction(f: string)
  {
    f == [] || ((f[0] == '.' || f[0] == ',') && forall k :: 1 <= k < |f| ==> IsDigit(f[k]))
  }

  /** The hours, minutes and seconds of a time `HH[[:]mm[[:]ss]]` whose last unit may carry a
      fraction (parseISO's time pattern); None for any other text. */
  function ClockUnits(c: string): Option<(int, int, int)>
  {
    if !DigitsAt(c, 0, 2) then None
    else
      var h, r := TwoDigits(c, 0), c[2..];
      if IsFraction(r) then Some((h, 0, 0))
      else
        var r1 := if |r| > 0 && r[0] == ':' then r[1..] else r;
        if !DigitsAt(r1, 0, 2) then None
        else
          var m, r2 := TwoDigits(r1, 0), r1[2..];
          if IsFraction(r2) then Some((h, m, 0))
          else
            var r3 := if |r2| > 0 && r2[0] == ':' then r2[1..] else r2;
            if !DigitsAt(r3, 0, 2) || !IsFraction(r3[2..]) then None
            else Some((h, m, TwoDigits(r3, 0)))
  }

  /** parseISO's range check: hours up to 24, and 24 only as 24:00:00. */
  predicate ValidClock(h: int, m: int, sec: int)
  {
    if h == 24 then m == 0 && sec == 0 else h < 25 && m < 60 && sec < 60
  }

  /** Where a zone designator (`Z`, `+` or `-`) begins in a time text, or its length if none does. */
  function ZoneStart(t: string): (k: int)
    ensures 0 <= k <= |t|
    ensures forall i :: 0 <= i < k ==> t[i] != 'Z' && t[i] != '+' && t[i] != '-'
    ensures k < |t| ==> t[k] == 'Z' || t[k] == '+' || t[k] == '-'
  {
    if t == [] || t[0] == 'Z' || t[0] == '+' || t[0] == '-' then 0 else 1 + ZoneStart(t[1..])
  }

  /** parseISO's zone check: an offset `±hh[[:]mm]` is refused only for minutes above 59; `Z`, and
      any text that is not an offset, reads as UTC. */
  predicate ZoneAccepted(z: string)
  {
    if |z| == 5 && (z[0] == '+' || z[0] == '-') && DigitsAt(z, 1, 4) then TwoDigits(z, 3) <= 59
    else if |z| == 6 && (z[0] == '+' || z[0] == '-') && DigitsAt(z, 1, 2) && z[3] == ':' && DigitsAt(z, 4, 2)
    then TwoDigits(z, 4) <= 59
    else true
  }

  /** The text after `T` that parseISO accepts: no second delimiter, then a valid clock (or none)
      up to the zone, then an accepted zone (or none). */
  predicate IsIsoTime(t: string)
  {
    && 'T' !in t && ' ' !in t
    && var k := ZoneStart(t);
       var clock := ClockUnits(t[..k]);
       && (k == 0 || (clock.Some? && ValidClock(clock.value.0, clock.value.1, clock.value.2)))
       && ZoneAccepted(t[k..])
  }

  /** The date written in ten characters `yyyy-MM-dd`; None unless they are digits and dashes in
      those places naming a day the month has. */
  function DateOfText(p: string): (r: Option<Date>)
    requires |p| == 10
    ensures r.Some? ==> Renderable(r.value) && p == Format(r.value)
  {
    if !(IsDigit(p[0]) && IsDigit(p[1]) && IsDigit(p[2]) && IsDigit(p[3]) && p[4] == '-'
         && IsDigit(p[5]) && IsDigit(p[6]) && p[7] == '-' && IsDigit(p[8]) && IsDigit(p[9])) then None
    else
      var d := Date(
        1000 * DigitValue(p[0]) + 100 * DigitValue(p[1]) + 10 * DigitValue(p[2]) + DigitValue(p[3]),
        10 * DigitValue(p[5]) + DigitValue(p[6]),
        10 * DigitValue(p[8]) + DigitValue(p[9]));
      if Valid(d) then FormatOfDigits(p, d); Some(d) else None
  }

  /** The calendar date of an ISO 8601 string: `yyyy-MM-dd`, optionally followed by `T` and a time
      part that parseISO accepts. Anything else, or a day the month does not have, is an invalid date. */
  function ParseIsoDate(s: string): (r: Option<Date>)
    ensures r.Some? ==> Renderable(r.value)
    ensures r.Some? ==> |s| >= 10 && s[..10] == Format(r.value) && (|s| == 10 || (s[10] == 'T' && IsIsoTime(s[11..])))
  {
    if |s| < 10 || !(|s| == 10 || (s[10] == 'T' && IsIsoTime(s[11..]))) then None
    else DateOfText(s[..10])
  }

  /** The date read off ten characters renders as those characters. */
  lemma FormatOfDigits(s: string, d: Date)
    requires |s| >= 10 && IsDigit(s[0]) && IsDigit(s[1]) && IsDigit(s[2]) && IsDigit(s[3]) && s[4] == '-'
             && IsDigit(s[5]) && IsDigit(s[6]) && s[7] == '-' && IsDigit(s[8]) && IsDigit(s[9])
    requires d == Date(
        1000 * DigitValue(s[0]) + 100 * DigitValue(s[1]) + 10 * DigitValue(s[2]) + DigitValue(s[3]),
        10 * DigitValue(s[5]) + DigitValue(s[6]),
        10 * DigitValue(s[8]) + DigitValue(s[9]))
    requires Valid(d)
    ensures Renderable(d) && s[..10] == Format(d)
  {
    Pad4OfDigits(s[..4]);
    Pad2OfDigits(s[5..7]);
    Pad2OfDigits(s[8..10]);
    assert s[..10] == s[..4] + "-" + s[5..7] + "-" + s[8..10];
  }

  /** The zone starts at the first `Z`, `+` or `-`, and nowhere else. */
  lemma ZoneStartAt(t: string, k: int)
    requires 0 <= k <= |t|
    requires forall i :: 0 <= i < k ==> t[i] != 'Z' && t[i] != '+' && t[i] != '-'
    requires k < |t| ==> t[k] == 'Z' || t[k] == '+' || t[k] == '-'
    ensures ZoneStart(t) == k
  {
  }

  /** A rendered date followed by `T` and an accepted time parses back to the date. */
  lemma ParseTimestamp(d: Date, t: string)
    requires Renderable(d) && IsIsoTime(t)
    ensures ParseIsoDate(Format(d) + "T" + t) == Some(d)
  {
    var f, s := Format(d), Format(d) + "T" + t;
    ParseFormat(d);
    assert f[..10] == f && s[..10] == f;
    assert s[11..] == t;
  }

  /** A time part that is not a time makes the whole text an invalid date. */
  lemma MalformedTimeRejected()
    ensures ParseIsoDate("2024-06-01Tgarbage") == None
    ensures ParseIsoDate("2024-06-01T25:00") == None
  {
    var t := "2024-06-01Tgarbage"[11..];
    assert t == "garbage";
    ZoneStartAt(t, 7);
    assert t[..7] == t;
    assert ClockUnits(t) == None;
    var u := "2024-06-01T25:00"[11..];
    assert u == "25:00";
    ZoneStartAt(u, 5);
    assert u[..5] == u && u[2..] == ":00" && u[3..] == "00" && u[3..][2..] == "";
    assert ClockUnits(u) == Some((25, 0, 0));
  }

  /** Parsing a rendered date gives the date back. */
  lemma ParseFormat(d: Date)
    requires Renderable(d)
    ensures ParseIsoDate(Format(d)) == Some(d)
  {
    var s := Format(d);
    assert s[..4] == Pad4(d.year);
    assert s[5..7] == Pad2(d.month);
    assert s[8..10] == Pad2(d.day);
  }

  /** Rendering is one-to-one: distinct dates have distinct strings. */
  lemma FormatInjective(a: Date, b: Date)
    requires Renderable(a) && Renderable(b)
    ensures Format(a) == Format(b) <==> a == b
  {
    if Format(a) == Format(b) {
      ParseFormat(a);
      ParseFormat(b);
    }
  }

  // ---- months ----

  /** Months counted from January of year 0. */
  function MonthIndex(d: Date): int
  {
    12 * d.year + d.month - 1
  }

  /** date-fns `addMonths(d, n)`: `n` months on, keeping the day, clamped to the last day of the
      target month. */
  function AddMonths(d: Date, n: int): (r: Date)
    requires Valid(d)
    ensures Valid(r)
    ensures MonthIndex(r) == MonthIndex(d) + n
    ensures r.day == if d.day <= DaysInMonth(r.year, r.month) then d.day else DaysInMonth(r.year, r.month)
  {
    var target := MonthIndex(d) + n;
    var y, m := target / 12, target % 12 + 1;
    Date(y, m, if d.day <= DaysInMonth(y, m) then d.day else DaysInMonth(y, m))
  }

  /** Stepping forward and back returns to the same date unless the day was clamped. */
  lemma AddMonthsBack(d: Date, n: int)
    requires Valid(d) && d.day <= 28
    ensures AddMonths(AddMonths(d, n), -n) == d
  {
    var r := AddMonths(d, n);
    var b := AddMonths(r, -n);
    assert MonthIndex(b) == MonthIndex(d);
    assert b.year == d.year && b.month == d.month;
  }
}
