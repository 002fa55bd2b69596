/** The proleptic Gregorian calendar the ledger's month arithmetic runs on. A day is its
    ordinal, 1 for 1 January of year 1; a month is 12 * (year - 1) + (month - 1). */
module Calendar {
  import opened Common

  type Day = int
  type Time = int  // whole seconds since the start of day 0
  type Month = nat

  const SECONDS_PER_HOUR := 3600
  const SECONDS_PER_DAY := 86400

  function DayOf(t: Time): Day {
    t / SECONDS_PER_DAY
  }

  predicate IsLeap(year: int) {
    year % 4 == 0 && (year % 100 != 0 || year % 400 == 0)
  }

  function DaysInMonth(m: Month): (days: int)
    ensures 28 <= days <= 31
  {
    var month := m % 12;
    if month == 1 then (if IsLeap(m / 12 + 1) then 29 else 28)
    else if month in {3, 5, 8, 10} then 30
    else 31
  }

  /** The first day of a month: 1 for the first month, then month after month. */
  function MonthStart(m: Month): (first: Day)
    ensures first > m
  {
    if m == 0 then 1 else MonthStart(m - 1) + DaysInMonth(m - 1)
  }

  /** Two consecutive months never exceed the replay bound of 62 days. */
  lemma TwoMonthsFitReplay(m: Month, today: Day)
    requires m > 0 && today < MonthStart(m + 1)
    ensures today - MonthStart(m - 1) + 1 <= 62
  {
    assert MonthStart(m + 1) == MonthStart(m - 1) + DaysInMonth(m - 1) + DaysInMonth(m);
  }

  lemma {:induction false} MonthStartIncreases(a: Month, b: Month)
    requires a < b
    ensures MonthStart(a) < MonthStart(b)
    decreases b
  {
    if a < b - 1 {
      MonthStartIncreases(a, b - 1);
    }
  }

  function SearchMonth(d: Day, from: Month): (m: Month)
    requires MonthStart(from) <= d
    ensures from <= m && MonthStart(m) <= d < MonthStart(m + 1)
    decreases d - MonthStart(from)
  {
    if d < MonthStart(from + 1) then from else SearchMonth(d, from + 1)
  }

  /** The month a day lies in. */
  function MonthOf(d: Day): (m: Month)
    requires d >= 1
    ensures MonthStart(m) <= d < MonthStart(m + 1)
  {
    SearchMonth(d, 0)
  }

  /** A day lies in exactly one month. */
  lemma MonthOfUnique(d: Day, m: Month)
    requires d >= 1 && MonthStart(m) <= d < MonthStart(m + 1)
    ensures MonthOf(d) == m
  {
    var n := MonthOf(d);
    if m + 1 <= n {
      if m + 1 < n { MonthStartIncreases(m + 1, n); }
      assert false;
    }
    if n + 1 <= m {
      if n + 1 < m { MonthStartIncreases(n + 1, m); }
      assert false;
    }
  }

  // ---------- the calendar in closed form ----------

  /** The days before 1 January of the year y + 1, counted by years. */
  function DaysBeforeYear(y: nat): int {
    365 * y + y / 4 - y / 100 + y / 400
  }

  /** The days of a year before its month k, from 0. */
  function DaysBeforeMonth(y: nat, k: nat): int
    requires k < 12
  {
    [0, 31, 59, 90, 120, 151, 181, 212, 243, 273, 304, 334][k]
    + if k >= 2 && (y + 1) % 4 == 0 && ((y + 1) % 100 != 0 || (y + 1) % 400 == 0) then 1 else 0
  }

  lemma MonthStartNext(m: Month)
    ensures MonthStart(m + 1) == MonthStart(m) + DaysInMonth(m)
  {
  }

  lemma MonthLength(y: nat, k: nat)
    requires k < 12
    ensures DaysInMonth(12 * y + k)
         == [31, if IsLeap(y + 1) then 29 else 28, 31, 30, 31, 30, 31, 31, 30, 31, 30, 31][k]
  {
    hide IsLeap;
    assert (12 * y + k) % 12 == k && (12 * y + k) / 12 == y;
  }

  lemma {:induction false} MonthWithinYear(y: nat, k: nat)
    requires k < 12
    ensures MonthStart(12 * y + k) == MonthStart(12 * y) + DaysBeforeMonth(y, k)
  {
    hide MonthStart, DaysInMonth;
    if k > 0 {
      MonthWithinYear(y, k - 1);
      MonthStartNext(12 * y + k - 1);
      MonthLength(y, k - 1);
    }
  }

  lemma NextQuotient(y: nat, size: nat)
    requires size > 0
    ensures (y + 1) / size == y / size + if (y + 1) % size == 0 then 1 else 0
  {
    var q, r := y / size, y % size;
    assert y == q * size + r;
    if r + 1 < size {
      QuotientIs(y + 1, size, q, r + 1);
    } else {
      assert (q + 1) * size == q * size + size;
      QuotientIs(y + 1, size, q + 1, 0);
    }
  }

  lemma LeapYearsSoFar(y: nat)
    ensures DaysBeforeYear(y + 1) == DaysBeforeYear(y) + if IsLeap(y + 1) then 366 else 365
  {
    NextQuotient(y, 4);
    NextQuotient(y, 100);
    NextQuotient(y, 400);
  }

  lemma YearLength(y: nat)
    ensures MonthStart(12 * y + 12) - MonthStart(12 * y) == DaysBeforeYear(y + 1) - DaysBeforeYear(y)
  {
    hide MonthStart, DaysInMonth, DaysBeforeYear;
    MonthWithinYear(y, 11);
    MonthStartNext(12 * y + 11);
    MonthLength(y, 11);
    LeapYearsSoFar(y);
  }

  /** The ordinal of a month's first day, counted month by month, is the one of the proleptic Gregorian
      calendar. */
  lemma {:induction false} MonthsAreGregorian(y: nat, k: nat)
    requires k < 12
    ensures MonthStart(12 * y + k) == 1 + DaysBeforeYear(y) + DaysBeforeMonth(y, k)
  {
    hide DaysBeforeYear, DaysBeforeMonth;
    MonthWithinYear(y, k);
    if y == 0 {
      FirstYear();
    } else {
      MonthsAreGregorian(y - 1, 0);
      YearLength(y - 1);
      FirstMonth(y - 1);
    }
  }

  lemma FirstYear()
    ensures MonthStart(0) == 1 && DaysBeforeYear(0) == 0
  {
  }

  lemma FirstMonth(y: nat)
    ensures DaysBeforeMonth(y, 0) == 0
  {
  }
}
