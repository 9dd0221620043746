/** The rows of the tables the core reads and writes (db/models.py). Amounts are exact
    reals; text columns are strings; nullable columns are `Option`s; dates are parsed. */
module Records {
  import opened Wrappers
  import opened Calendar

  datatype Category = Category(id: int, name: string, kind: string)

  /** `kind` is the `type` column: "income" or "expense". `recurringId` is the rule that
      spawned the row, if any. */
  datatype Transaction = Transaction(
    id: int,
    date: Date,
    amount: real,
    kind: string,
    categoryId: Option<int>,
    paymentMethod: Option<string>,
    tags: Option<string>,
    note: Option<string>,
    recurringId: Option<int>)

  /** `cycleDay` is stored as given; only the cycle window clamps it. */
  datatype Budget = Budget(id: int, categoryId: int, amount: real, cycleDay: int)

  /** `kind` is the `transaction_type` column; `every` is the frequency text and
      `interval` the step count, which the column lets be null. */
  datatype RecurringRule = RecurringRule(
    id: int,
    kind: string,
    amount: real,
    categoryId: Option<int>,
    paymentMethod: Option<string>,
    tags: Option<string>,
    note: Option<string>,
    every: string,
    interval: Option<int>,
    nextDate: Date)

  function Max(a: int, b: int): int { if a <= b then b else a }

  /** The largest transaction id, 0 for an empty table. A new row gets the next one, as
      SQLite numbers rows of a table whose integer primary key has no AUTOINCREMENT. */
  function MaxTransactionId(txs: seq<Transaction>): (m: int)
    ensures m >= 0
  {
    if txs == [] then 0 else Max(MaxTransactionId(txs[..|txs| - 1]), txs[|txs| - 1].id)
  }

  /** The largest budget id, 0 for an empty table. */
  function MaxBudgetId(budgets: seq<Budget>): (m: int)
    ensures m >= 0
  {
    if budgets == [] then 0 else Max(MaxBudgetId(budgets[..|budgets| - 1]), budgets[|budgets| - 1].id)
  }

  /** No transaction id exceeds the maximum, so the next id is fresh. */
  lemma {:induction false} TransactionIdsBounded(txs: seq<Transaction>, k: int)
    requires 0 <= k < |txs|
    ensures txs[k].id <= MaxTransactionId(txs)
  {
    if k < |txs| - 1 {
      TransactionIdsBounded(txs[..|txs| - 1], k);
    }
  }

  /** No budget id exceeds the maximum, so the next id is fresh. */
  lemma {:induction false} BudgetIdsBounded(budgets: seq<Budget>, k: int)
    requires 0 <= k < |budgets|
    ensures budgets[k].id <= MaxBudgetId(budgets)
  {
    if k < |budgets| - 1 {
      BudgetIdsBounded(budgets[..|budgets| - 1], k);
    }
  }

  /** Appending a row numbered one past the largest id keeps the ids distinct, and that
      row's id becomes the largest. */
  lemma {:induction false} AppendFreshTransaction(txs: seq<Transaction>, t: Transaction)
    requires t.id == MaxTransactionId(txs) + 1
    ensures UniqueTransactionIds(txs) ==> UniqueTransactionIds(txs + [t])
    ensures MaxTransactionId(txs + [t]) == t.id
  {
    assert (txs + [t])[..|txs|] == txs;
    forall k | 0 <= k < |txs|
      ensures txs[k].id < t.id
    {
      TransactionIdsBounded(txs, k);
    }
  }

  predicate UniqueTransactionIds(txs: seq<Transaction>) {
    forall i, j :: 0 <= i < j < |txs| ==> txs[i].id != txs[j].id
  }

  predicate UniqueBudgetIds(budgets: seq<Budget>) {
    forall i, j :: 0 <= i < j < |budgets| ==> budgets[i].id != budgets[j].id
  }

  predicate UniqueCategoryIds(categories: seq<Category>) {
    forall i, j :: 0 <= i < j < |categories| ==> categories[i].id != categories[j].id
  }
}
