/** UTC timestamps as the proleptic Gregorian calendar has them, and the floors that
    app/repos/api_key_repo.py takes of them. */
module Calendar {

  datatype Date = Date(year: int, month: int, day: int)
  datatype DateTime = DateTime(date: Date, hour: int, minute: int, second: int, micro: int)

  const MICROS_PER_MINUTE := 60_000_000

  predicate IsLeap(y: int) { y % 4 == 0 && (y % 100 != 0 || y % 400 == 0) }

  function DaysInMonth(y: int, m: int): int {
    if m == 2 then (if IsLeap(y) then 29 else 28)
    else if m == 4 || m == 6 || m == 9 || m == 11 then 30
    else 31
  }

  predicate ValidDate(d: Date) {
    1 <= d.year && 1 <= d.month <= 12 && 1 <= d.day <= DaysInMonth(d.year, d.month)
  }

  predicate Valid(t: DateTime) {
    ValidDate(t.date) && 0 <= t.hour < 24 && 0 <= t.minute < 60 && 0 <= t.second < 60 && 0 <= t.micro < 1_000_000
  }

  function DaysBeforeYear(y: int): int { (y - 1) * 365 + (y - 1) / 4 - (y - 1) / 100 + (y - 1) / 400 }

  function DaysBeforeMonth(y: int, m: int): int
    decreases m
  {
    if m <= 1 then 0 else DaysBeforeMonth(y, m - 1) + DaysInMonth(y, m - 1)
  }

  /** The day number, counting 1 January of year 1 as day 1. */
  function Ordinal(d: Date): int { DaysBeforeYear(d.year) + DaysBeforeMonth(d.year, d.month) + d.day }

  function MinuteIndex(t: DateTime): int { (Ordinal(t.date) * 24 + t.hour) * 60 + t.minute }

  /** Microseconds on the time line. */
  function Micros(t: DateTime): int { MinuteIndex(t) * MICROS_PER_MINUTE + t.second * 1_000_000 + t.micro }

  function MinuteFloor(t: DateTime): DateTime { t.(second := 0, micro := 0) }

  function MonthFloor(d: Date): Date { Date(d.year, d.month, 1) }

  // ---------------------------------------------------------------- the day number is faithful

  lemma YearLength(y: int)
    ensures DaysBeforeYear(y + 1) == DaysBeforeYear(y) + (if IsLeap(y) then 366 else 365)
  {
    Quotient(y, 4);
    Quotient(y, 100);
    Quotient(y, 400);
  }

  lemma Quotient(y: int, k: int)
    requires k > 0
    ensures y / k == (y - 1) / k + (if y % k == 0 then 1 else 0)
  {
    var q, r := (y - 1) / k, (y - 1) % k;
    assert y == q * k + (r + 1);
    if r + 1 == k {
      assert y == (q + 1) * k + 0;
      DivModUnique(y, k, q + 1, 0);
    } else {
      DivModUnique(y, k, q, r + 1);
    }
  }

  lemma DivModUnique(n: int, k: int, q: int, r: int)
    requires k > 0 && n == q * k + r && 0 <= r < k
    ensures n / k == q && n % k == r
  {
    var d := n / k - q;
    assert n == (n / k) * k + n % k;
    assert d * k == r - n % k;
    AwayFromZero(d, k);
  }

  lemma AwayFromZero(d: int, k: int)
    requires k > 0
    ensures d > 0 ==> d * k >= k
    ensures d < 0 ==> d * k <= -k
  {
  }

  lemma {:induction false} YearsApart(y: int, z: int)
    requires y < z
    ensures DaysBeforeYear(y) + 365 + (if IsLeap(y) then 1 else 0) <= DaysBeforeYear(z)
    decreases z - y
  {
    YearLength(y);
    if y + 1 == z {
    } else {
      YearsApart(y + 1, z);
    }
  }

  lemma {:induction false} MonthsApart(y: int, m: int, n: int)
    requires 1 <= m < n
    ensures DaysBeforeMonth(y, m) + DaysInMonth(y, m) <= DaysBeforeMonth(y, n)
    decreases n
  {
    if m + 1 == n {
    } else {
      MonthsApart(y, m, n - 1);
    }
  }

  lemma YearHoldsItsMonths(y: int)
    ensures DaysBeforeMonth(y, 13) == if IsLeap(y) then 366 else 365
  {
    assert DaysBeforeMonth(y, 3) == 31 + DaysInMonth(y, 2);
    assert DaysBeforeMonth(y, 5) == DaysBeforeMonth(y, 3) + 61;
    assert DaysBeforeMonth(y, 7) == DaysBeforeMonth(y, 5) + 61;
    assert DaysBeforeMonth(y, 9) == DaysBeforeMonth(y, 7) + 62;
    assert DaysBeforeMonth(y, 11) == DaysBeforeMonth(y, 9) + 61;
  }

  lemma EarlierDate(a: Date, b: Date)
    requires ValidDate(a) && ValidDate(b)
    requires a.year < b.year || (a.year == b.year && a.month < b.month)
    ensures Ordinal(a) < Ordinal(b)
  {
    if a.year < b.year {
      YearsApart(a.year, b.year);
      YearHoldsItsMonths(a.year);
      MonthsApart(a.year, a.month, 13);
      if b.month > 1 { MonthsApart(b.year, 1, b.month); }
    } else {
      MonthsApart(a.year, a.month, b.month);
    }
  }

  /** Two dates with the same day number are the same date. */
  lemma OrdinalInjective(a: Date, b: Date)
    requires ValidDate(a) && ValidDate(b) && Ordinal(a) == Ordinal(b)
    ensures a == b
  {
    if a.year < b.year || (a.year == b.year && a.month < b.month) {
      EarlierDate(a, b);
    } else if b.year < a.year || (b.year == a.year && b.month < a.month) {
      EarlierDate(b, a);
    }
  }

  /** The minute floor names the sixty-second interval of the time line the timestamp lies in. */
  lemma MinuteFloorIsInterval(a: DateTime, b: DateTime)
    requires Valid(a) && Valid(b)
    ensures MinuteIndex(a) == Micros(a) / MICROS_PER_MINUTE
    ensures MinuteFloor(a) == MinuteFloor(b) <==> MinuteIndex(a) == MinuteIndex(b)
  {
    DivModUnique(Micros(a), MICROS_PER_MINUTE, MinuteIndex(a), a.second * 1_000_000 + a.micro);
    if MinuteIndex(a) == MinuteIndex(b) {
      SplitMinutes(Ordinal(a.date), a.hour, a.minute, Ordinal(b.date), b.hour, b.minute);
      OrdinalInjective(a.date, b.date);
    }
  }

  lemma SplitMinutes(d: int, h: int, m: int, d': int, h': int, m': int)
    requires 0 <= h < 24 && 0 <= h' < 24 && 0 <= m < 60 && 0 <= m' < 60
    requires (d * 24 + h) * 60 + m == (d' * 24 + h') * 60 + m'
    ensures d == d' && h == h' && m == m'
  {
  }
}
