/** Calendar dates of the proleptic Gregorian calendar, as Python's `datetime.date`
    represents them: a year, a month 1..12 and a day within that month. */
module Calendar {

  datatype Date = Date(year: int, month: int, day: int)

  function Min(a: int, b: int): int { if a <= b then a else b }

  predicate IsLeap(y: int) {
    y % 4 == 0 && (y % 100 != 0 || y % 400 == 0)
  }

  function DaysInMonth(y: int, m: int): (n: int)
    requires 1 <= m <= 12
    ensures 28 <= n <= 31
    ensures n == 28 <==> m == 2 && !IsLeap(y)
  {
    if m == 2 then (if IsLeap(y) then 29 else 28)
    else if m == 4 || m == 6 || m == 9 || m == 11 then 30
    else 31
  }

  function DaysInYear(y: int): int {
    if IsLeap(y) then 366 else 365
  }

  /** A date the calendar has: what `datetime.date` accepts (the 1..9999 year range aside). */
  predicate IsValid(d: Date) {
    1 <= d.month <= 12 && 1 <= d.day <= DaysInMonth(d.year, d.month)
  }

  /** Days of the years before `y`, counted from 0001-01-01 (Python's `_days_before_year`);
      `/` on a positive divisor is floor division, as in Python. */
  function DaysBeforeYear(y: int): int {
    var p := y - 1;
    365 * p + p / 4 - p / 100 + p / 400
  }

  /** Days of the months before `m` in year `y`; `m == 13` gives the whole year. */
  function DaysBeforeMonth(y: int, m: int): int
    requires 1 <= m <= 13
  {
    var before :=
      if m == 1 then 0 else if m == 2 then 31 else if m == 3 then 59
      else if m == 4 then 90 else if m == 5 then 120 else if m == 6 then 151
      else if m == 7 then 181 else if m == 8 then 212 else if m == 9 then 243
      else if m == 10 then 273 else if m == 11 then 304 else if m == 12 then 334
      else 365;
    before + if m > 2 && IsLeap(y) then 1 else 0
  }

  /** Day number with 0001-01-01 as day 1 (Python's `date.toordinal`). */
  function Ordinal(d: Date): int
    requires 1 <= d.month <= 12
  {
    DaysBeforeYear(d.year) + DaysBeforeMonth(d.year, d.month) + d.day
  }

  /** Months since January of year 0: the month arithmetic of the schedule and the
      budget cycle counts in this unit. */
  function MonthIndex(d: Date): int {
    12 * d.year + d.month - 1
  }

  /** Strict date order. For dates written as zero-padded `YYYY-MM-DD` text this is the
      lexicographic order of the text, which is how the repository compares dates. */
  predicate Before(a: Date, b: Date) {
    a.year < b.year || (a.year == b.year && (a.month < b.month || (a.month == b.month && a.day < b.day)))
  }

  predicate NotAfter(a: Date, b: Date) {
    Before(a, b) || a == b
  }

  lemma {:induction false} DaysBeforeMonthStep(y: int, m: int)
    requires 1 <= m <= 12
    ensures DaysBeforeMonth(y, m + 1) == DaysBeforeMonth(y, m) + DaysInMonth(y, m)
  {
  }

  /** A year contributes exactly its own length to the running day count. */
  lemma {:induction false} DaysBeforeYearStep(y: int)
    ensures DaysBeforeYear(y + 1) == DaysBeforeYear(y) + DaysInYear(y)
  {
    var p := y - 1;
    assert DaysBeforeYear(y + 1) == 365 * y + y / 4 - y / 100 + y / 400;
    assert DaysBeforeYear(y) == 365 * p + p / 4 - p / 100 + p / 400;
    FloorStep4(p);
    FloorStep100(p);
    FloorStep400(p);
    Divisibility(y);
  }

  /** Floor division by 4, 100 and 400 steps up by one exactly at multiples. */
  lemma {:induction false} FloorStep4(p: int)
    ensures (p + 1) / 4 - p / 4 == if (p + 1) % 4 == 0 then 1 else 0
  {
  }

  lemma {:induction false} FloorStep100(p: int)
    ensures (p + 1) / 100 - p / 100 == if (p + 1) % 100 == 0 then 1 else 0
  {
  }

  lemma {:induction false} FloorStep400(p: int)
    ensures (p + 1) / 400 - p / 400 == if (p + 1) % 400 == 0 then 1 else 0
  {
  }

  lemma {:induction false} Divisibility(y: int)
    ensures y % 400 == 0 ==> y % 100 == 0
    ensures y % 100 == 0 ==> y % 4 == 0
  {
    if y % 400 == 0 {
      var k := 4 * (y / 400);
      assert y == 100 * k;
      assert y / 100 == k;
    }
    if y % 100 == 0 {
      var k := 25 * (y / 100);
      assert y == 4 * k;
      assert y / 4 == k;
    }
  }

  lemma {:induction false} DaysBeforeYearMonotone(y1: int, y2: int)
    requires y1 <= y2
    ensures DaysBeforeYear(y1) <= DaysBeforeYear(y2)
    decreases y2 - y1
  {
    if y1 < y2 {
      DaysBeforeYearStep(y1);
      DaysBeforeYearMonotone(y1 + 1, y2);
    }
  }

  /** The day after `d`. */
  function NextDay(d: Date): (r: Date)
    requires IsValid(d)
    ensures IsValid(r)
  {
    if d.day < DaysInMonth(d.year, d.month) then Date(d.year, d.month, d.day + 1)
    else if d.month < 12 then Date(d.year, d.month + 1, 1)
    else Date(d.year + 1, 1, 1)
  }

  /** The day before `d`. */
  function PrevDay(d: Date): (r: Date)
    requires IsValid(d)
    ensures IsValid(r)
  {
    if d.day > 1 then Date(d.year, d.month, d.day - 1)
    else if d.month > 1 then Date(d.year, d.month - 1, DaysInMonth(d.year, d.month - 1))
    else Date(d.year - 1, 12, 31)
  }

  /** `d + timedelta(days=n)`, for a positive or negative `n`. */
  function AddDays(d: Date, n: int): (r: Date)
    requires IsValid(d)
    ensures IsValid(r)
    decreases if n < 0 then -n else n
  {
    if n == 0 then d
    else if n > 0 then AddDays(NextDay(d), n - 1)
    else AddDays(PrevDay(d), n + 1)
  }

  /** The day after is one day number later. */
  lemma {:induction false} NextDayOrdinal(d: Date)
    requires IsValid(d)
    ensures Ordinal(NextDay(d)) == Ordinal(d) + 1
  {
    if d.day == DaysInMonth(d.year, d.month) {
      if d.month < 12 {
        DaysBeforeMonthStep(d.year, d.month);
      } else {
        DaysBeforeYearStep(d.year);
      }
    }
  }

  /** The day before is one day number earlier. */
  lemma {:induction false} PrevDayOrdinal(d: Date)
    requires IsValid(d)
    ensures Ordinal(PrevDay(d)) == Ordinal(d) - 1
  {
    if d.day == 1 {
      if d.month > 1 {
        DaysBeforeMonthStep(d.year, d.month - 1);
      } else {
        DaysBeforeYearStep(d.year - 1);
      }
    }
  }

  /** Adding `n` days moves the day number by exactly `n`, across month and year ends. */
  lemma {:induction false} AddDaysOrdinal(d: Date, n: int)
    requires IsValid(d)
    ensures Ordinal(AddDays(d, n)) == Ordinal(d) + n
    decreases if n < 0 then -n else n
  {
    if n > 0 {
      NextDayOrdinal(d);
      AddDaysOrdinal(NextDay(d), n - 1);
    } else if n < 0 {
      PrevDayOrdinal(d);
      AddDaysOrdinal(PrevDay(d), n + 1);
    }
  }

  /** A valid date lies strictly inside its year's day count. */
  lemma {:induction false} OrdinalWithinYear(d: Date)
    requires IsValid(d)
    ensures DaysBeforeYear(d.year) < Ordinal(d) <= DaysBeforeYear(d.year + 1)
  {
    DaysBeforeYearStep(d.year);
    DaysBeforeMonthStep(d.year, d.month);
  }

  /** A valid date lies strictly inside its month's day count. */
  lemma {:induction false} OrdinalWithinMonth(d: Date)
    requires IsValid(d)
    ensures DaysBeforeYear(d.year) + DaysBeforeMonth(d.year, d.month) < Ordinal(d)
    ensures Ordinal(d) <= DaysBeforeYear(d.year) + DaysBeforeMonth(d.year, d.month + 1)
  {
    DaysBeforeMonthStep(d.year, d.month);
  }

  /** Lexicographic order on valid dates is the order of their day numbers: comparing
      the ISO text agrees with comparing the calendar positions. */
  lemma {:induction false} OrderMatchesOrdinal(a: Date, b: Date)
    requires IsValid(a) && IsValid(b)
    ensures Before(a, b) <==> Ordinal(a) < Ordinal(b)
    ensures a == b <==> Ordinal(a) == Ordinal(b)
  {
    if Before(a, b) {
      BeforeHasSmallerOrdinal(a, b);
    } else if Before(b, a) {
      BeforeHasSmallerOrdinal(b, a);
    }
  }

  lemma {:induction false} BeforeHasSmallerOrdinal(a: Date, b: Date)
    requires IsValid(a) && IsValid(b) && Before(a, b)
    ensures Ordinal(a) < Ordinal(b)
  {
    if a.year < b.year {
      OrdinalWithinYear(a);
      OrdinalWithinYear(b);
      DaysBeforeYearMonotone(a.year + 1, b.year);
    } else if a.month < b.month {
      OrdinalWithinMonth(a);
      OrdinalWithinMonth(b);
      DaysBeforeMonthMonotone(a.year, a.month + 1, b.month);
    }
  }

  lemma {:induction false} DaysBeforeMonthMonotone(y: int, m1: int, m2: int)
    requires 1 <= m1 <= m2 <= 13
    ensures DaysBeforeMonth(y, m1) <= DaysBeforeMonth(y, m2)
  {
  }

  /** On valid dates, order is decided by the month index first and the day second. */
  lemma {:induction false} BeforeByMonthIndex(a: Date, b: Date)
    requires IsValid(a) && IsValid(b)
    ensures Before(a, b) <==> MonthIndex(a) < MonthIndex(b) || (MonthIndex(a) == MonthIndex(b) && a.day < b.day)
    ensures a == b <==> MonthIndex(a) == MonthIndex(b) && a.day == b.day
  {
  }

  /** The order is total on dates. */
  lemma {:induction false} OrderTotal(a: Date, b: Date)
    ensures Before(a, b) || a == b || Before(b, a)
    ensures !(Before(a, b) && NotAfter(b, a))
  {
  }
}
