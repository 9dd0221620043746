# Personal finance repository: budget cycles and recurring transactions

This project models the date-cycle core of the personal finance tracker's data layer,
`db/repository.py`, in Dafny:

- the **budget cycle window** (`_get_cycle_window`): the half-open month
  `[start, end)` that a budget's spending is measured over, re-anchored each month on the
  budget's reset day;
- the **schedule advancer** (`_advance_next_date`): one step of a recurring rule, weekly,
  yearly or monthly, with the day clamped to 28 for month and year steps, and today as the
  base when the stored date does not parse;
- the **recurring materializer** (`apply_recurring_rules`): for every rule, while its next
  date is not after the cut-off date, it adds a transaction on that date and advances the
  rule. It returns the number created;
- the **budget status** (`get_budgets_with_status`, `any_budget_overspent`): for each budget
  joined to its category, it computes the spending in the current cycle, what remains, the
  percentage used and whether the budget is overspent;
- the **budget table rules** (`create_budget`, `update_budget`).

Module layout:

| file | module | contents |
|---|---|---|
| `wrappers.dfy` | `Wrappers` | `Option` |
| `calendar.dfy` | `Calendar` | proleptic Gregorian dates, `toordinal`, `timedelta(days=n)`, date order |
| `cycle.dfy` | `Cycle` | `_get_cycle_window` |
| `schedule.dfy` | `Schedule` | `_advance_next_date` |
| `records.dfy` | `Records` | the rows of `db/models.py`, id allocation |
| `recurring.dfy` | `Recurring` | what the materializer does to the rule and transaction tables, as functions |
| `budgets.dfy` | `Budgets` | spending, status rows, the join, create/update as functions on the budget table |
| `repository.dfy` | `Repository` | `class Store`: the tables as fields, and the operations as methods that update them in place, each proved equal to the functions above |

Modelling choices:

- Dates are `Date(year, month, day)` values. The repository stores them as zero-padded
  `YYYY-MM-DD` text and compares the text. For such text that comparison is the
  lexicographic order on (year, month, day), which is `Calendar.Before`.
  `Calendar.OrderMatchesOrdinal` proves it agrees with the order of Python's day numbers.
- Amounts are exact `real`s.
- A new row's id is one past the table's largest id, or 1 for an empty table. This is how
  SQLite numbers an integer primary key declared without AUTOINCREMENT.
- `date.today()` is a parameter.
- In `_advance_next_date`, text that does not parse as a date is `None`.
- Every frequency text other than "weekly"/"week" and "yearly"/"year" takes the monthly
  branch. That includes "daily" and "custom-days", which the column comment in
  `db/models.py` lists: such a rule advances by months, as the code does.

## Model

| member | source | states |
|---|---|---|
| `Calendar.OrderMatchesOrdinal` | db/repository.py:663 | On valid dates, comparing `YYYY-MM-DD` text (lexicographic order) is comparing day numbers, and equal text is the same day |
| `Calendar.AddDaysOrdinal` | db/repository.py:637 | `d + timedelta(days=n)` moves the day number by exactly `n`, for positive and negative `n`, across month and year ends |
| `Cycle.ClampCycleDay` | db/repository.py:292 | The reset day used is within 1..28: unchanged inside, 1 below, 28 above |
| `Cycle.CycleWindow` | db/repository.py:288-302 | For every valid reference date the window is one calendar month from the clamped reset day to the same day of the next month (rolling the year in December and January), and contains the reference date: start ≤ ref < end |
| `Cycle.CyclesDisjoint` | db/repository.py:295-300 | Two one-month windows on the same reset day that share a date are equal: the cycles tile the calendar |
| `Cycle.CycleWindowUnique` | db/repository.py:295-300 | The computed window is the only one-month cycle on the clamped reset day containing the reference date |
| `Cycle.CycleWindowStable` | db/repository.py:295-300 | Every date inside a window computes that same window |
| `Cycle.CycleWindowLatestStart` | db/repository.py:295-300 | The start is the latest date on the reset day that is not after the reference date |
| `Cycle.NextCycleStartsAtEnd` | db/repository.py:295-300 | The cycle seen from a window's end starts at that end |
| `Cycle.MidMonthExample` | db/repository.py:298-300 | Reset day 15 seen from 2025-03-10 gives [2025-02-15, 2025-03-15) |
| `Cycle.RolloverExample` | db/repository.py:295-300 | January before the reset day starts in December of the year before; December on or after it ends in January of the year after; day 31 clamps to 28 |
| `Schedule.AdvanceFrom` | db/repository.py:636-647 | Every branch yields a valid calendar date (the clamped day exists in every month) |
| `Schedule.AdvanceNextDate` | db/repository.py:630-649 | Advances from the parsed date, or from today when the text does not parse; for an interval ≥ 1 the result is strictly after that base |
| `Schedule.AdvanceFromSpec` | db/repository.py:636-647 | Weekly moves the day number by 7·interval; yearly moves the month index by 12·interval; any other text moves it by interval; yearly and monthly clamp the day to 28 |
| `Schedule.AdvanceIsLater` | db/repository.py:636-647 | A positive interval moves strictly forward and a negative one strictly backward, for every frequency |
| `Schedule.AdvanceByZero` | db/repository.py:636-647 | A zero interval never moves forward: weekly returns the date itself, the others only clamp the day |
| `Schedule.MonthlyComposes` | db/repository.py:641-647 | Month steps compose: i months then j months equals i + j months |
| `Schedule.WeeklyComposes` | db/repository.py:636-637 | Week steps compose |
| `Schedule.MonthEndClampExample` | db/repository.py:641-647 | 2025-01-31 plus one month is 2025-02-28 |
| `Schedule.YearRolloverExample` | db/repository.py:638-647 | December plus one month is January of the next year; January minus one month borrows a year; 2024-02-29 plus one year is 2025-02-28 |
| `Schedule.WeeklyExample` | db/repository.py:636-637 | A week after 2024-12-28 is 2025-01-04, unclamped |
| `Records.TransactionIdsBounded` | db/models.py:20-24 | No transaction id exceeds the table's largest id |
| `Records.BudgetIdsBounded` | db/models.py:39-42 | No budget id exceeds the table's largest id |
| `Records.AppendFreshTransaction` | db/repository.py:675 | Inserting a row numbered after the largest id keeps the ids distinct, and the new id becomes the largest |
| `Recurring.Step` | db/repository.py:679 | Advancing a rule with a missing, zero or positive interval makes its next date strictly later and changes nothing else |
| `Recurring.DueDates` | db/repository.py:663 | A rule has due dates exactly when its next date is not after the cut-off |
| `Recurring.DueDatesChain` | db/repository.py:661-679 | The due dates start at the next date. Each is one advance after the one before, strictly later, and none is after the cut-off |
| `Recurring.OccurrencesAt` | db/repository.py:665-675 | One transaction per due date, in order. Each copies the rule's type, amount and category, has payment method, tags and note with null read as "", has the rule's id as `recurring_id`, and has consecutive ids |
| `Recurring.CatchUpTransactions` | db/repository.py:663-679 | One rule's loop appends exactly its occurrences after the existing rows, which are untouched |
| `Recurring.CatchUpMaxId` | db/repository.py:675-676 | One rule's loop raises the largest id by the number of its occurrences |
| `Recurring.CatchUpRule` | db/repository.py:663-679 | One rule's loop changes only the rule's next date, to one step past its last due date, which is after the cut-off |
| `Recurring.CatchUpAllTransactions` | db/repository.py:661-679 | The whole run appends the occurrences of every rule, rule after rule, numbered after the largest id; existing rows are untouched |
| `Recurring.CatchUpAllCount` | db/repository.py:655-683 | The table grows by, and the largest id moves up by, the total number of due occurrences |
| `Recurring.CatchUpAllRules` | db/repository.py:661-679 | Afterwards every rule keeps its other fields and has its next date strictly after the cut-off |
| `Recurring.CaughtUpIsFixpoint` | db/repository.py:663 | When every rule's next date is already after the cut-off, nothing changes and nothing is created |
| `Recurring.CatchUpAllIdempotent` | db/repository.py:652-683 | Running the catch-up a second time with the same cut-off creates nothing and changes nothing |
| `Recurring.MonthlyCatchUpExample` | db/repository.py:652-683 | A monthly rule due on day d of January, run up to day d of April, is due in January, February, March and April (four transactions) and then waits for May |
| `Budgets.SpentAppend` | db/repository.py:378-388 | The summed spending is additive over the transaction table |
| `Budgets.SpentSign` | db/repository.py:378-388 | Only counted rows matter: with none the sum is 0 (the `coalesce`), with non-negative counted expenses it is non-negative |
| `Budgets.StatusOf` | db/repository.py:376-405 | A row carries the budget's and category's fields. Spent is the cycle's expense sum, remaining + spent = amount, and overspent ⇔ spent > amount. percent·amount = spent·100 for a non-zero amount, and percent is 0 for a zero amount |
| `Budgets.OverspentIsOverHundredPercent` | db/repository.py:390-404 | For a positive budget, overspent ⇔ percent > 100 |
| `Budgets.StatusStableInCycle` | db/repository.py:376-388 | The status is the same for every reference date inside the current cycle |
| `Budgets.OverspentExample` | db/repository.py:390-404 | Budget 500 with a 600 expense in its cycle: remaining −100, percent 120, overspent |
| `Budgets.CategoryOf` | db/repository.py:371 | The category found has the requested id; none is found exactly when no category has it |
| `Budgets.Joined` | db/repository.py:371-372 | Every joined row pairs a budget with a category whose id is the budget's category id |
| `Budgets.JoinedComplete` | db/repository.py:371-372 | Every budget whose category exists appears in the join |
| `Budgets.JoinedIndices` | db/repository.py:371-372 | The reported positions are exactly the budgets whose category exists, each once, strictly increasing |
| `Budgets.JoinedFollowsTable` | db/repository.py:371-372 | The `k`-th joined row is the budget at the `k`-th reported position with its own category: one row per such budget, in table order |
| `Budgets.JoinedOncePerBudget` | db/repository.py:371-372 | With distinct budget ids, no budget id is reported twice |
| `Budgets.AnyOverspentMeaning` | db/repository.py:411-412 | Some row is overspent ⇔ some budget with an existing category has spent more than its amount in its current cycle |
| `Budgets.AfterCreate` | db/repository.py:327-340 | Succeeds ⇔ amount > 0 and the category has no budget. On refusal the table is unchanged; on success exactly one row is appended, with the given fields and an id above every existing one |
| `Budgets.CreatePreservesWellFormed` | db/repository.py:327-340 | Creating keeps ids distinct, one budget per category and positive amounts; with a positive amount the category has a budget afterwards |
| `Budgets.CreateTwiceRefused` | db/repository.py:331-336 | A second create for the same category is refused and changes nothing |
| `Budgets.IndexOfBudget` | db/repository.py:345-347 | Finds a budget with the id, or reports that none has it |
| `Budgets.AfterUpdate` | db/repository.py:343-353 | Succeeds ⇔ the id exists; on success only that row changes, to the new category, amount and reset day under the same id; otherwise nothing changes |
| `Budgets.UpdateKeepsIds` | db/repository.py:343-353 | Updating keeps every id, so distinct ids stay distinct |
| `Budgets.UpdateBreaksOnePerCategory` | db/repository.py:349-352 | Update checks neither rule: it can move a budget onto a category that already has one, and can set amount 0 |
| `Repository.Store.ApplyRecurringRules` | db/repository.py:652-683 | The loops leave the tables exactly as `CatchUpAll` of the old tables says, return the total number due, and keep ids distinct |
| `Repository.Store.CatchUpRuleAt` | db/repository.py:663-679 | The inner loop for one rule leaves that rule and the transaction table as `CatchUp` says and returns the number appended |
| `Repository.Store.BudgetsWithStatus` | db/repository.py:366-408 | One row per joined budget, in join order, each equal to `StatusOf` |
| `Repository.Store.AnyBudgetOverspent` | db/repository.py:411-412 | True ⇔ some status row is overspent |
| `Repository.Store.CreateBudget` | db/repository.py:327-340 | The table and the result are those of `AfterCreate`, and ids stay distinct |
| `Repository.Store.UpdateBudget` | db/repository.py:343-353 | The table and the result are those of `AfterUpdate`, and ids stay distinct |
| `Repository.CatchUpAddsSpending` | db/repository.py:378-388 | After the catch-up, a budget's spending is the old spending plus that of the created occurrences |

## Left out

- The Qt interface (`gui/`) and `app.py`: presentation only.
- SQLAlchemy engine, sessions and commit: the store is in memory. The materializer commits
  once after all rules, so the model has no per-rule isolation either.
- Exception paths, which the caller swallows: the model has no exceptions.
- Floating point: amounts are exact reals, with no rounding and no `:.2f` formatting.
- `date.today()`: the date is a parameter. For `_get_cycle_window`,
  `get_budgets_with_status` and `any_budget_overspent` the caller passes the reference
  date in place of the `None` default.
- `strptime`/`strftime`: dates are values. The store holds parsed dates, so a stored
  `next_date`, transaction date or cut-off that is not `YYYY-MM-DD` text is not modelled.
  Text comparison of such strings is not date order.
- Schedule.AdvanceFrom: years are unbounded. Python's `date` raises outside years
  1..9999, and the model does not.
- Cycle.CycleWindow: years are unbounded in the same way. A reference date in December
  9999 on or after the reset day makes the source build a date in year 10000, and a
  January 0001 date before the reset day one in year 0; both raise there, while the
  model returns a window.
- Repository.Store.ApplyRecurringRules: requires every rule's interval to be missing,
  zero or positive; every rule the application creates has interval 1. For a
  negative-interval rule that is due, the source's loop walks backwards until `date`
  raises below year 1, and since the single commit after the loop never runs, no rule's
  transactions are kept. A negative-interval rule whose next date is after the cut-off
  is left untouched by the source while the other rules are processed normally; the
  model excludes that table too.
- Repository.Store.CreateBudget: when two budgets already share the category, which
  `update_budget` allows, `scalar_one_or_none` raises. The model refuses as for one
  existing budget.
- Row order of the unordered join in `get_budgets_with_status`, and of the rule query in
  `apply_recurring_rules`: taken as table order.
- `Budget.created_at`, unused by the core.
- The report helpers (`get_totals`, summaries, balance time series), category, transaction
  and rule CRUD other than the budget operations, settings, CSV/JSON import-export,
  backup/restore and `wipe_all_data`: outside the date-cycle core.
