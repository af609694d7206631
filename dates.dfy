/** Gregorian day arithmetic standing in for the JavaScript `Date` values the
    calendar works with. A date is truncated to whole days (what `getDate`
    produces), so it is a year/month/day triple; `Ordinal` numbers the days
    consecutively and is what every comparison and every cell key uses. */
module Dates {

  datatype CalendarDate = CalendarDate(year: int, month: int, day: int)

  predicate IsLeapYear(y: int) {
    y % 4 == 0 && (y % 100 != 0 || y % 400 == 0)
  }

  /** Number of days of month `m` (1 = January) of year `y`. */
  function DaysInMonth(y: int, m: int): (r: int)
    requires 1 <= m <= 12
    ensures 28 <= r <= 31
    ensures r == 31 <==> m in {1, 3, 5, 7, 8, 10, 12}
    ensures m == 2 ==> (r == 29 <==> IsLeapYear(y))
    ensures m == 2 && !IsLeapYear(y) ==> r == 28
    ensures r == 30 <==> m == 4 || m == 6 || m == 9 || m == 11
  {
    if m == 2 then (if IsLeapYear(y) then 29 else 28)
    else if m == 4 || m == 6 || m == 9 || m == 11 then 30
    else 31
  }

  /** A valid day of the proleptic Gregorian calendar, from year 1 on. */
  type Date = d: CalendarDate
    | d.year >= 1 && 1 <= d.month <= 12 && 1 <= d.day <= DaysInMonth(d.year, d.month)
    witness CalendarDate(1, 1, 1)

  function DaysInYear(y: int): int {
    if IsLeapYear(y) then 366 else 365
  }

  /** Days in the years 1 .. y-1. */
  function DaysBeforeYear(y: int): int {
    if y <= 1 then 0 else DaysBeforeYear(y - 1) + DaysInYear(y - 1)
  }

  /** Days of year `y` before the first of month `m`; `m == 13` gives the whole year. */
  function DaysBeforeMonth(y: int, m: int): int
    requires 1 <= m <= 13
  {
    [0, 31, 59, 90, 120, 151, 181, 212, 243, 273, 304, 334, 365][m - 1]
      + (if m > 2 && IsLeapYear(y) then 1 else 0)
  }

  /** Day number: 0 for 0001-01-01, one more for every following day. */
  function Ordinal(d: Date): int {
    DaysBeforeYear(d.year) + DaysBeforeMonth(d.year, d.month) + d.day - 1
  }

  /** Months counted consecutively across years; equal exactly for days of one month. */
  function MonthIndex(d: Date): int {
    12 * d.year + d.month - 1
  }

  predicate SameMonth(a: Date, b: Date) {
    MonthIndex(a) == MonthIndex(b)
  }

  lemma SameMonthFields(a: Date, b: Date)
    ensures SameMonth(a, b) <==> a.year == b.year && a.month == b.month
  {
  }

  /** The Gregorian count of the days in years 1 .. y. */
  function GregorianDays(y: int): int {
    365 * y + y / 4 - y / 100 + y / 400
  }

  /** The count grows by the length of year `y`. */
  lemma GregorianStep(y: int)
    requires y >= 1
    ensures GregorianDays(y) == GregorianDays(y - 1) + DaysInYear(y)
  {
    var a, b, c := y / 4 - (y - 1) / 4, y / 100 - (y - 1) / 100, y / 400 - (y - 1) / 400;
    DivStep(y, 4);
    DivStep(y, 100);
    DivStep(y, 400);
    DivisorsOfCentury(y);
    assert GregorianDays(y) - GregorianDays(y - 1) == 365 + a - b + c;
  }

  /** `y / k` steps up from `(y - 1) / k` exactly when `k` divides `y`. */
  lemma DivStep(y: int, k: int)
    requires y >= 1 && k >= 1
    ensures y / k - (y - 1) / k == (if y % k == 0 then 1 else 0)
  {
    var q, r := (y - 1) / k, (y - 1) % k;
    assert y == q * k + r + 1;
    if r == k - 1 {
      assert y == (q + 1) * k;
      DivUnique(y, k, q + 1, 0);
    } else {
      DivUnique(y, k, q, r + 1);
    }
  }

  lemma DivUnique(y: int, k: int, q: int, r: int)
    requires k >= 1 && y == q * k + r && 0 <= r < k
    ensures y / k == q && y % k == r
  {
    var q', r' := y / k, y % k;
    assert (q - q') * k == r' - r by {
      assert q' * k + r' == q * k + r;
    }
    if q' < q {
      AtLeastOnce(q - q', k);
    } else if q' > q {
      AtLeastOnce(q' - q, k);
    }
  }

  lemma AtLeastOnce(a: int, k: int)
    requires a >= 1 && k >= 1
    ensures a * k >= k
  {
    assert a * k == (a - 1) * k + k;
  }

  lemma DivisorsOfCentury(y: int)
    ensures y % 400 == 0 ==> y % 100 == 0
    ensures y % 100 == 0 ==> y % 4 == 0
  {
  }

  /** The days before year `y` are the Gregorian count: 365 per year plus one per
      leap year, which is every fourth year except centuries not divisible by 400. */
  lemma {:induction false} DaysBeforeYearClosed(y: int)
    requires y >= 1
    ensures DaysBeforeYear(y) == GregorianDays(y - 1)
  {
    if y > 1 {
      DaysBeforeYearClosed(y - 1);
      GregorianStep(y - 1);
    }
  }

  lemma DaysBeforeNextYear(y: int)
    requires y >= 1
    ensures DaysBeforeYear(y + 1) == DaysBeforeYear(y) + DaysInYear(y)
  {
  }

  lemma DaysBeforeNextMonth(y: int, m: int)
    requires 1 <= m <= 12
    ensures DaysBeforeMonth(y, m + 1) == DaysBeforeMonth(y, m) + DaysInMonth(y, m)
  {
  }

  /** `addDate(d, 1)`: the following calendar day. */
  function NextDay(d: Date): (r: Date)
    ensures MonthIndex(r) == MonthIndex(d) || MonthIndex(r) == MonthIndex(d) + 1
    ensures MonthIndex(r) == MonthIndex(d) + 1 <==> r.day == 1
  {
    if d.day < DaysInMonth(d.year, d.month) then CalendarDate(d.year, d.month, d.day + 1)
    else if d.month < 12 then CalendarDate(d.year, d.month + 1, 1)
    else CalendarDate(d.year + 1, 1, 1)
  }

  /** The following day is numbered one higher. */
  lemma NextDayOrdinal(d: Date)
    ensures Ordinal(NextDay(d)) == Ordinal(d) + 1
  {
    if d.day < DaysInMonth(d.year, d.month) {
    } else if d.month < 12 {
      DaysBeforeNextMonth(d.year, d.month);
    } else {
      DaysBeforeNextYear(d.year);
    }
  }

  lemma {:induction false} DaysBeforeYearGrows(y1: int, y2: int)
    requires 1 <= y1 <= y2
    ensures DaysBeforeYear(y1) + 365 * (y2 - y1) <= DaysBeforeYear(y2)
  {
    if y1 < y2 {
      DaysBeforeYearGrows(y1, y2 - 1);
      DaysBeforeNextYear(y2 - 1);
    }
  }

  /** The days before month `m1` of a year are at most those before a later month `m2`. */
  lemma DaysBeforeMonthGrows(y: int, m1: int, m2: int)
    requires 1 <= m1 <= m2 <= 13
    ensures DaysBeforeMonth(y, m1) + 28 * (m2 - m1) <= DaysBeforeMonth(y, m2)
  {
  }

  /** A date lies inside its year and inside its month in the numbering. */
  lemma OrdinalBounds(d: Date)
    ensures DaysBeforeYear(d.year) <= Ordinal(d) < DaysBeforeYear(d.year + 1)
    ensures DaysBeforeMonth(d.year, d.month) <= Ordinal(d) - DaysBeforeYear(d.year)
              < DaysBeforeMonth(d.year, d.month + 1)
  {
    DaysBeforeNextYear(d.year);
    DaysBeforeNextMonth(d.year, d.month);
    DaysBeforeMonthGrows(d.year, d.month + 1, 13);
  }

  /** Distinct dates have distinct numbers, so a day number identifies its date. */
  lemma OrdinalInjective(a: Date, b: Date)
    requires Ordinal(a) == Ordinal(b)
    ensures a == b
  {
    OrdinalBounds(a);
    OrdinalBounds(b);
    if a.year < b.year {
      DaysBeforeYearGrows(a.year + 1, b.year);
    } else if b.year < a.year {
      DaysBeforeYearGrows(b.year + 1, a.year);
    }
    assert a.year == b.year;
    if a.month < b.month {
      DaysBeforeMonthGrows(a.year, a.month + 1, b.month);
    } else if b.month < a.month {
      DaysBeforeMonthGrows(a.year, b.month + 1, a.month);
    }
  }

  /** `addDate(d, n)` for a whole number of days `n`. */
  function AddDays(d: Date, n: nat): Date {
    if n == 0 then d else NextDay(AddDays(d, n - 1))
  }

  lemma {:induction false} AddDaysOrdinal(d: Date, n: nat)
    ensures Ordinal(AddDays(d, n)) == Ordinal(d) + n
  {
    if n > 0 {
      AddDaysOrdinal(d, n - 1);
      NextDayOrdinal(AddDays(d, n - 1));
    }
  }

  /** Day of the week as JavaScript's `getDay` numbers it: 0 is Sunday, 6 is Saturday
      (0001-01-01 was a Monday). */
  function Weekday(d: Date): (r: int)
    ensures 0 <= r < 7
  {
    (Ordinal(d) + 1) % 7
  }

  lemma ModAdd(a: int, n: int)
    ensures (a + n) % 7 == (a % 7 + n) % 7
  {
    var q := a / 7;
    assert a == 7 * q + a % 7;
    assert (a + n) == 7 * q + (a % 7 + n);
  }

  lemma WeekdayAddDays(d: Date, n: nat)
    ensures Weekday(AddDays(d, n)) == (Weekday(d) + n) % 7
  {
    AddDaysOrdinal(d, n);
    ModAdd(Ordinal(d) + 1, n);
  }

  /** `new Date(new Date(today).setDate(1))`: the first day of the month of `d`. */
  function FirstDayOfMonth(d: Date): (r: Date)
    ensures SameMonth(r, d) && r.day == 1
    ensures Ordinal(r) == Ordinal(d) - d.day + 1
  {
    CalendarDate(d.year, d.month, 1)
  }

  /** `getLastDateOfMonth(fullYear, month)` with the zero-based JavaScript month:
      the day before the first of the following month. */
  function LastDateOfMonth(fullYear: int, month: int): (r: Date)
    requires fullYear >= 1 && 0 <= month < 12
    ensures r.year == fullYear && r.month == month + 1
    ensures NextDay(r).day == 1 && NextDay(r).month == (month + 1) % 12 + 1
  {
    CalendarDate(fullYear, month + 1, DaysInMonth(fullYear, month + 1))
  }

  /** `getLastDateOfNextMonth(today, maxMonths)`: the last day of the month that lies
      `maxMonths - 1` months after the month of `today`, with the year carried. The
      source splits the month count with JavaScript's `%`, which truncates; the
      precondition keeps that count non-negative, where `%` of Dafny agrees and the
      source builds a valid date. */
  function LastDateOfNextMonth(today: Date, maxMonths: int): (r: Date)
    requires today.month - 1 + maxMonths - 1 >= 0
    ensures MonthIndex(r) == MonthIndex(today) + maxMonths - 1
    ensures NextDay(r).day == 1
  {
    var nextMonth := today.month - 1 + maxMonths - 1;
    var quotient := (nextMonth - nextMonth % 12) / 12;
    var mod := nextMonth % 12;
    LastDateOfMonth(today.year + quotient, mod)
  }
}
