/** The recurring-schedule advancer of db/repository.py (`_advance_next_date`):
    one step of a rule's schedule, on calendar dates. */
module Schedule {
  import opened Wrappers
  import opened Calendar

  /** "weekly" and its alias "week". */
  predicate IsWeekly(every: string) {
    every == "weekly" || every == "week"
  }

  /** "yearly" and its alias "year". */
  predicate IsYearly(every: string) {
    every == "yearly" || every == "year"
  }

  /** The date `interval` steps of frequency `every` after `d`. Weekly adds `7 * interval`
      days; yearly adds `interval` years; every other string, "monthly" and unknown ones
      alike, adds `interval` months. Yearly and monthly clamp the day to 28. Python's `//`
      and `%` by 12 floor, as Dafny's do for a positive divisor, so a negative month
      count borrows years correctly. */
  function AdvanceFrom(d: Date, every: string, interval: int): (r: Date)
    requires IsValid(d)
    ensures IsValid(r)
  {
    if IsWeekly(every) then
      AddDays(d, 7 * interval)
    else if IsYearly(every) then
      Date(d.year + interval, d.month, Min(d.day, 28))
    else
      var months := d.month - 1 + interval;
      Date(d.year + months / 12, months % 12 + 1, Min(d.day, 28))
  }

  /** `_advance_next_date` on its text argument: `current` is the parsed date, or `None`
      when the text is not a `YYYY-MM-DD` date, in which case `today` is the base. */
  function AdvanceNextDate(current: Option<Date>, every: string, interval: int, today: Date): (r: Date)
    requires current.Some? ==> IsValid(current.value)
    requires IsValid(today)
    ensures IsValid(r)
    ensures interval >= 1 ==> Before(current.GetOr(today), r)
    ensures current.Some? ==> r == AdvanceFrom(current.value, every, interval)
    ensures current.None? ==> r == AdvanceFrom(today, every, interval)
  {
    var base := current.GetOr(today);
    AdvanceIsLater(base, every, interval);
    AdvanceFrom(base, every, interval)
  }

  /** What one step means: weekly moves the day number by `7 * interval`; yearly moves
      the month index by `12 * interval` and monthly (any other text) by `interval`, both
      with the day clamped to 28. */
  lemma {:induction false} AdvanceFromSpec(d: Date, every: string, interval: int)
    requires IsValid(d)
    ensures var r := AdvanceFrom(d, every, interval);
            && (IsWeekly(every) ==> Ordinal(r) == Ordinal(d) + 7 * interval)
            && (IsYearly(every) ==> MonthIndex(r) == MonthIndex(d) + 12 * interval && r.day == Min(d.day, 28))
            && (!IsWeekly(every) && !IsYearly(every) ==>
                  MonthIndex(r) == MonthIndex(d) + interval && r.day == Min(d.day, 28))
  {
    if IsWeekly(every) {
      AddDaysOrdinal(d, 7 * interval);
    }
  }

  /** A month index and a day determine a valid date's year, month and day. */
  lemma {:induction false} DateFromMonthIndex(a: Date, b: Date)
    requires IsValid(a) && IsValid(b)
    requires MonthIndex(a) == MonthIndex(b) && a.day == b.day
    ensures a == b
  {
  }

  /** For a positive interval every frequency moves strictly forward: the property the
      catch-up loop relies on to terminate. */
  lemma {:induction false} AdvanceIsLater(d: Date, every: string, interval: int)
    requires IsValid(d)
    ensures interval >= 1 ==> Before(d, AdvanceFrom(d, every, interval))
    ensures interval <= -1 ==> Before(AdvanceFrom(d, every, interval), d)
  {
    var r := AdvanceFrom(d, every, interval);
    AdvanceFromSpec(d, every, interval);
    if IsWeekly(every) {
      OrderMatchesOrdinal(d, r);
      OrderMatchesOrdinal(r, d);
    } else {
      BeforeByMonthIndex(d, r);
      BeforeByMonthIndex(r, d);
    }
  }

  /** A zero interval does not move the date forward: weekly returns `d` itself and the
      others only clamp the day, which is why the catch-up loop replaces it by 1. */
  lemma {:induction false} AdvanceByZero(d: Date, every: string)
    requires IsValid(d)
    ensures IsWeekly(every) ==> AdvanceFrom(d, every, 0) == d
    ensures !IsWeekly(every) ==> AdvanceFrom(d, every, 0) == Date(d.year, d.month, Min(d.day, 28))
    ensures !Before(d, AdvanceFrom(d, every, 0))
  {
    AdvanceFromSpec(d, every, 0);
    if IsWeekly(every) {
      OrderMatchesOrdinal(d, AdvanceFrom(d, every, 0));
    }
  }

  /** Month steps compose: advancing by `i` then by `j` months lands where advancing by
      `i + j` months does (the day is clamped once and stays clamped). */
  lemma {:induction false} MonthlyComposes(d: Date, every: string, i: int, j: int)
    requires IsValid(d) && !IsWeekly(every)
    ensures AdvanceFrom(AdvanceFrom(d, every, i), every, j) == AdvanceFrom(d, every, i + j)
  {
    var a := AdvanceFrom(d, every, i);
    var b := AdvanceFrom(a, every, j);
    var c := AdvanceFrom(d, every, i + j);
    AdvanceFromSpec(d, every, i);
    AdvanceFromSpec(a, every, j);
    AdvanceFromSpec(d, every, i + j);
    DateFromMonthIndex(b, c);
  }

  /** Week steps compose. */
  lemma {:induction false} WeeklyComposes(d: Date, every: string, i: int, j: int)
    requires IsValid(d) && IsWeekly(every)
    ensures AdvanceFrom(AdvanceFrom(d, every, i), every, j) == AdvanceFrom(d, every, i + j)
  {
    var a := AdvanceFrom(d, every, i);
    var b := AdvanceFrom(a, every, j);
    var c := AdvanceFrom(d, every, i + j);
    AdvanceFromSpec(d, every, i);
    AdvanceFromSpec(a, every, j);
    AdvanceFromSpec(d, every, i + j);
    OrderMatchesOrdinal(b, c);
  }

  /** 2025-01-31 advanced by one month is 2025-02-28: the day is clamped to 28. */
  lemma {:induction false} MonthEndClampExample()
    ensures AdvanceFrom(Date(2025, 1, 31), "monthly", 1) == Date(2025, 2, 28)
  {
  }

  /** December rolls over into January of the next year, and a negative interval
      borrows a year. */
  lemma {:induction false} YearRolloverExample()
    ensures AdvanceFrom(Date(2024, 12, 15), "monthly", 1) == Date(2025, 1, 15)
    ensures AdvanceFrom(Date(2024, 1, 15), "monthly", -1) == Date(2023, 12, 15)
    ensures AdvanceFrom(Date(2024, 2, 29), "yearly", 1) == Date(2025, 2, 28)
  {
  }

  /** A week after 2024-12-28 is 2025-01-04: weekly steps cross month and year ends and
      keep the day unclamped. */
  lemma {:induction false} WeeklyExample()
    ensures AdvanceFrom(Date(2024, 12, 28), "week", 1) == Date(2025, 1, 4)
  {
    var r := AdvanceFrom(Date(2024, 12, 28), "week", 1);
    AdvanceFromSpec(Date(2024, 12, 28), "week", 1);
    assert Ordinal(r) == Ordinal(Date(2025, 1, 4)) by {
      DaysBeforeYearStep(2024);
    }
    OrderMatchesOrdinal(r, Date(2025, 1, 4));
  }
}
