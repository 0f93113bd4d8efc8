/** Proleptic Gregorian calendar arithmetic, as pandas applies it to its
    datetime64 columns: whole days since 1970-01-01, and instants counted in
    seconds since 1970-01-01T00:00:00 (no time zone, no leap seconds). */
module Calendar {

  const SecondsPerDay: int := 86400

  datatype Date = Date(year: int, month: int, day: int)

  predicate IsLeapYear(y: int) {
    y % 4 == 0 && (y % 100 != 0 || y % 400 == 0)
  }

  function DaysInYear(y: int): int {
    if IsLeapYear(y) then 366 else 365
  }

  function DaysInMonth(y: int, m: int): int
    requires 1 <= m <= 12
  {
    if m == 2 then (if IsLeapYear(y) then 29 else 28)
    else if m == 4 || m == 6 || m == 9 || m == 11 then 30
    else 31
  }

  predicate ValidDate(d: Date) {
    1 <= d.month <= 12 && 1 <= d.day <= DaysInMonth(d.year, d.month)
  }

  /** Days from the first day of an era to January 1st of its k-th year. */
  function DaysBeforeYearOfEra(k: int): int
    requires 0 <= k <= 400
  {
    365 * k + (k + 3) / 4 - (k + 99) / 100 + (k + 399) / 400
  }

  /** Days from January 1st of year y to the first day of month m (m == 13: the next January 1st). */
  function DaysBeforeMonth(y: int, m: int): int
    requires 1 <= m <= 13
  {
    [0, 31, 59, 90, 120, 151, 181, 212, 243, 273, 304, 334, 365][m - 1]
    + (if m > 2 && IsLeapYear(y) then 1 else 0)
  }

  /** Stepping a ceiling-style quotient: (k + c - 1) / c counts the multiples of c in [0, k). */
  lemma CeilStep(k: int, c: int)
    requires c == 4 || c == 100 || c == 400
    ensures (k + c) / c == (k + c - 1) / c + (if k % c == 0 then 1 else 0)
  {
    if c == 4 {
      CeilStep4(k);
    } else if c == 100 {
      CeilStep100(k);
    } else {
      CeilStep400(k);
    }
  }

  lemma CeilStep4(k: int)
    ensures (k + 4) / 4 == (k + 3) / 4 + (if k % 4 == 0 then 1 else 0)
  {
    var q, r := k / 4, k % 4;
    assert k == 4 * q + r && 0 <= r < 4;
    assert (k + 4) / 4 == q + 1;
    assert (k + 3) / 4 == q + (if r == 0 then 0 else 1);
  }

  lemma CeilStep100(k: int)
    ensures (k + 100) / 100 == (k + 99) / 100 + (if k % 100 == 0 then 1 else 0)
  {
    var q, r := k / 100, k % 100;
    assert k == 100 * q + r && 0 <= r < 100;
    assert (k + 100) / 100 == q + 1;
    assert (k + 99) / 100 == q + (if r == 0 then 0 else 1);
  }

  lemma CeilStep400(k: int)
    ensures (k + 400) / 400 == (k + 399) / 400 + (if k % 400 == 0 then 1 else 0)
  {
    var q, r := k / 400, k % 400;
    assert k == 400 * q + r && 0 <= r < 400;
    assert (k + 400) / 400 == q + 1;
    assert (k + 399) / 400 == q + (if r == 0 then 0 else 1);
  }

  lemma YearOfEraStep(k: int)
    requires 0 <= k < 400
    ensures DaysBeforeYearOfEra(k + 1) == DaysBeforeYearOfEra(k) + DaysInYear(k)
  {
    CeilStep(k, 4);
    CeilStep(k, 100);
    CeilStep(k, 400);
  }

  lemma {:induction false} YearOfEraMonotonic(a: int, b: int)
    requires 0 <= a <= b <= 400
    ensures DaysBeforeYearOfEra(a) + 365 * (b - a) <= DaysBeforeYearOfEra(b)
    decreases b - a
  {
    if a < b {
      YearOfEraStep(a);
      YearOfEraMonotonic(a + 1, b);
    }
  }

  lemma MonthStep(y: int, m: int)
    requires 1 <= m <= 12
    ensures DaysBeforeMonth(y, m + 1) == DaysBeforeMonth(y, m) + DaysInMonth(y, m)
  {
  }

  /** A year's leap status depends only on its position within its era. */
  lemma LeapWithinEra(era: int, k: int)
    requires 0 <= k < 400
    ensures IsLeapYear(400 * era + k) == IsLeapYear(k)
  {
    EraMod4(era, k);
    EraMod100(era, k);
    EraMod400(era, k);
  }

  lemma EraMod4(era: int, k: int)
    ensures (400 * era + k) % 4 == k % 4
  {
    assert 400 * era + k == 4 * (100 * era + k / 4) + k % 4;
  }

  lemma EraMod100(era: int, k: int)
    ensures (400 * era + k) % 100 == k % 100
  {
    assert 400 * era + k == 100 * (4 * era + k / 100) + k % 100;
  }

  lemma EraMod400(era: int, k: int)
    ensures (400 * era + k) % 400 == k % 400
  {
    assert 400 * era + k == 400 * (era + k / 400) + k % 400;
  }

  /** The year of the era that contains day doe of the era, searched from year k upwards. */
  function YearOfEra(doe: int, k: int): (y: int)
    requires 0 <= k < 400
    requires DaysBeforeYearOfEra(k) <= doe < 146097
    ensures k <= y < 400
    ensures DaysBeforeYearOfEra(y) <= doe < DaysBeforeYearOfEra(y + 1)
    decreases 400 - k
  {
    if doe < DaysBeforeYearOfEra(k + 1) then k else YearOfEra(doe, k + 1)
  }

  /** The month that contains day doy (0-based) of year y, searched from month m upwards. */
  function MonthOfYear(y: int, doy: int, m: int): (r: int)
    requires 1 <= m <= 12
    requires DaysBeforeMonth(y, m) <= doy < DaysInYear(y)
    ensures m <= r <= 12
    ensures DaysBeforeMonth(y, r) <= doy < DaysBeforeMonth(y, r + 1)
    decreases 12 - m
  {
    if doy < DaysBeforeMonth(y, m + 1) then m else MonthOfYear(y, doy, m + 1)
  }

  lemma EraSplit(era: int, k: int, c: int)
    requires c == 400 || c == 146097
    requires 0 <= k < c
    ensures (c * era + k) / c == era && (c * era + k) % c == k
  {
  }

  /** Day number (1970-01-01 is day 0) of January 1st of year y. */
  function DaysBeforeYear(y: int): int {
    // 146097 days per 400-year era; 719528 days from 0000-01-01 to 1970-01-01

    146097 * (y / 400) + DaysBeforeYearOfEra(y % 400) - 719528
  }

  /** The year that contains day n, with the 0-based position of day n within that year. */
  function YearAndDayOf(n: int): (yd: (int, int))
    ensures 0 <= yd.1 < DaysInYear(yd.0)
    ensures DaysBeforeYear(yd.0) + yd.1 == n
  {
    var z := n + 719528;
    var era := z / 146097;
    var doe := z % 146097;
    var yoe := YearOfEra(doe, 0);
    EraSplit(era, yoe, 400);
    LeapWithinEra(era, yoe);
    YearOfEraStep(yoe);
    var y := 400 * era + yoe;
    assert y / 400 == era && y % 400 == yoe;
    assert DaysBeforeYear(y) == 146097 * era + DaysBeforeYearOfEra(yoe) - 719528;
    (y, doe - DaysBeforeYearOfEra(yoe))
  }

  /** A day that lies within year y is found in year y, at its offset from January 1st. */
  lemma {:induction false} YearAndDayUnique(y: int, n: int)
    requires DaysBeforeYear(y) <= n < DaysBeforeYear(y) + DaysInYear(y)
    ensures YearAndDayOf(n) == (y, n - DaysBeforeYear(y))
  {
    var era := y / 400;
    var yoe := y % 400;
    var doe := n - DaysBeforeYear(y) + DaysBeforeYearOfEra(yoe);
    LeapWithinEra(era, yoe);
    YearOfEraStep(yoe);
    YearOfEraMonotonic(yoe + 1, 400);
    EraSplit(era, doe, 146097);
    assert n + 719528 == 146097 * era + doe;
    YearOfEraUnique(doe, 0, yoe);
    assert y == 400 * era + yoe;
  }

  /** The calendar date of day n, counted from 1970-01-01 (day 0). */
  function CivilFromDays(n: int): (d: Date)
    ensures ValidDate(d)
  {
    var (y, doy) := YearAndDayOf(n);
    var m := MonthOfYear(y, doy, 1);
    MonthStep(y, m);
    Date(y, m, doy - DaysBeforeMonth(y, m) + 1)
  }

  /** The day number (1970-01-01 is day 0) of a calendar date. */
  function DaysFromCivil(d: Date): int
    requires ValidDate(d)
  {
    DaysBeforeYear(d.year) + DaysBeforeMonth(d.year, d.month) + d.day - 1
  }

  lemma {:induction false} DaysToCivilToDays(n: int)
    ensures DaysFromCivil(CivilFromDays(n)) == n
  {
    var (y, doy) := YearAndDayOf(n);
    var m := MonthOfYear(y, doy, 1);
    assert CivilFromDays(n) == Date(y, m, doy - DaysBeforeMonth(y, m) + 1);
  }

  lemma {:induction false} YearOfEraUnique(doe: int, j: int, k: int)
    requires 0 <= j <= k < 400
    requires DaysBeforeYearOfEra(k) <= doe < DaysBeforeYearOfEra(k + 1)
    ensures YearOfEra(doe, j) == k
    decreases k - j
  {
    YearOfEraMonotonic(k + 1, 400);
    if j < k {
      YearOfEraMonotonic(j + 1, k);
      YearOfEraUnique(doe, j + 1, k);
    }
  }

  lemma {:induction false} MonthOfYearUnique(y: int, doy: int, j: int, m: int)
    requires 1 <= j <= m <= 12
    requires DaysBeforeMonth(y, m) <= doy < DaysBeforeMonth(y, m + 1)
    ensures MonthOfYear(y, doy, j) == m
    decreases m - j
  {
    if j < m {
      MonthOfYearUnique(y, doy, j + 1, m);
    }
  }

  lemma {:induction false} CivilToDaysToCivil(d: Date)
    requires ValidDate(d)
    ensures CivilFromDays(DaysFromCivil(d)) == d
  {
    var n := DaysFromCivil(d);
    var doy := DaysBeforeMonth(d.year, d.month) + d.day - 1;
    MonthStep(d.year, d.month);
    YearAndDayUnique(d.year, n);
    MonthOfYearUnique(d.year, doy, 1, d.month);
  }

  /** The calendar date of an instant. */
  function DateOf(t: int): (d: Date)
    ensures ValidDate(d)
  {
    CivilFromDays(t / SecondsPerDay)
  }

  /** The instant a date string such as "2024-01-31" converts to: midnight of that date. */
  function Midnight(d: Date): int
    requires ValidDate(d)
  {
    DaysFromCivil(d) * SecondsPerDay
  }

  /** An instant falls on date d exactly when it lies in the 24 hours that start at d's midnight. */
  lemma {:induction false} DateOfIff(t: int, d: Date)
    requires ValidDate(d)
    ensures DateOf(t) == d <==> Midnight(d) <= t < Midnight(d) + SecondsPerDay
  {
    CivilToDaysToCivil(d);
    DaysToCivilToDays(t / SecondsPerDay);
    if Midnight(d) <= t < Midnight(d) + SecondsPerDay {
      assert t / SecondsPerDay == DaysFromCivil(d);
    }
    if DateOf(t) == d {
      assert t / SecondsPerDay == DaysFromCivil(d);
    }
  }
}
