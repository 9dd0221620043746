/** The budget cycle window of db/repository.py (`_get_cycle_window`): the half-open
    range of dates a budget's spending is measured over, re-anchored every month on the
    budget's reset day. */
module Cycle {
  import opened Calendar

  /** The half-open range [start, end). */
  datatype Window = Window(start: Date, end: Date)

  predicate Contains(w: Window, x: Date) {
    NotAfter(w.start, x) && Before(x, w.end)
  }

  /** The reset day as used: below 1 counts as 1 and above 28 as 28, so that every month
      has it. */
  function ClampCycleDay(cycleDay: int): (d: int)
    ensures 1 <= d <= 28
    ensures 1 <= cycleDay <= 28 ==> d == cycleDay
    ensures cycleDay < 1 ==> d == 1
    ensures cycleDay > 28 ==> d == 28
  {
    Min(if cycleDay < 1 then 1 else cycleDay, 28)
  }

  /** A window that starts on reset day `d` and lasts exactly one calendar month. */
  predicate IsCycle(w: Window, d: int) {
    IsValid(w.start) && IsValid(w.end)
    && w.start.day == d && w.end.day == d
    && MonthIndex(w.end) == MonthIndex(w.start) + 1
  }

  /** The cycle containing `ref`: it started this month on the reset day when `ref` is on
      or past that day, and last month otherwise; December and January roll the year. */
  function CycleWindow(cycleDay: int, ref: Date): (w: Window)
    requires IsValid(ref)
    ensures IsCycle(w, ClampCycleDay(cycleDay))
    ensures Contains(w, ref)
  {
    var d := ClampCycleDay(cycleDay);
    var y, m := ref.year, ref.month;
    if ref.day >= d then
      Window(Date(y, m, d), if m == 12 then Date(y + 1, 1, d) else Date(y, m + 1, d))
    else
      Window(if m == 1 then Date(y - 1, 12, d) else Date(y, m - 1, d), Date(y, m, d))
  }

  /** Two one-month cycles on the same reset day that share a date are the same cycle:
      the cycles of a budget tile the calendar. */
  lemma {:induction false} CyclesDisjoint(w1: Window, w2: Window, d: int, x: Date)
    requires 1 <= d <= 28 && IsValid(x)
    requires IsCycle(w1, d) && IsCycle(w2, d)
    requires Contains(w1, x) && Contains(w2, x)
    ensures w1 == w2
  {
    BeforeByMonthIndex(w1.start, x);
    BeforeByMonthIndex(x, w1.end);
    BeforeByMonthIndex(w2.start, x);
    BeforeByMonthIndex(x, w2.end);
    assert MonthIndex(w1.start) == MonthIndex(w2.start);
    assert w1.start == w2.start;
    assert w1.end == w2.end;
  }

  /** The window is the one and only one-month cycle on the clamped reset day that
      contains `ref`. */
  lemma {:induction false} CycleWindowUnique(cycleDay: int, ref: Date, w: Window)
    requires IsValid(ref)
    requires IsCycle(w, ClampCycleDay(cycleDay)) && Contains(w, ref)
    ensures w == CycleWindow(cycleDay, ref)
  {
    CyclesDisjoint(w, CycleWindow(cycleDay, ref), ClampCycleDay(cycleDay), ref);
  }

  /** Every date inside a window computes that same window: status does not change while
      the reference date stays inside the current cycle. */
  lemma {:induction false} CycleWindowStable(cycleDay: int, ref: Date, x: Date)
    requires IsValid(ref) && IsValid(x)
    requires Contains(CycleWindow(cycleDay, ref), x)
    ensures CycleWindow(cycleDay, x) == CycleWindow(cycleDay, ref)
  {
    CycleWindowUnique(cycleDay, x, CycleWindow(cycleDay, ref));
  }

  /** The start is the latest reset-day date not after `ref`. */
  lemma {:induction false} CycleWindowLatestStart(cycleDay: int, ref: Date, s: Date)
    requires IsValid(ref) && IsValid(s)
    requires s.day == ClampCycleDay(cycleDay) && NotAfter(s, ref)
    ensures NotAfter(s, CycleWindow(cycleDay, ref).start)
  {
    var w := CycleWindow(cycleDay, ref);
    BeforeByMonthIndex(s, ref);
    BeforeByMonthIndex(ref, w.end);
    BeforeByMonthIndex(s, w.start);
    BeforeByMonthIndex(w.start, ref);
  }

  /** The next cycle starts where this one ends. */
  lemma {:induction false} NextCycleStartsAtEnd(cycleDay: int, ref: Date)
    requires IsValid(ref)
    ensures CycleWindow(cycleDay, CycleWindow(cycleDay, ref).end).start == CycleWindow(cycleDay, ref).end
  {
  }

  /** Reset day 15 seen from 2025-03-10: the cycle began on 2025-02-15 and ends on
      2025-03-15. */
  lemma {:induction false} MidMonthExample()
    ensures CycleWindow(15, Date(2025, 3, 10)) == Window(Date(2025, 2, 15), Date(2025, 3, 15))
  {
  }

  /** Both year rollovers: a January date before the reset day starts in December of the
      previous year, and a December date on or past it ends in January of the next. */
  lemma {:induction false} RolloverExample()
    ensures CycleWindow(10, Date(2025, 1, 5)) == Window(Date(2024, 12, 10), Date(2025, 1, 10))
    ensures CycleWindow(31, Date(2024, 12, 31)) == Window(Date(2024, 12, 28), Date(2025, 1, 28))
  {
  }
}
