/** The budget logic of db/repository.py: what a budget has spent in its current cycle,
    the status row `get_budgets_with_status` reports for it, and the table rules of
    `create_budget` and `update_budget`, as functions of the tables. The loops that
    compute them over a store are in `Repository.Store`. */
module Budgets {
  import opened Wrappers
  import opened Calendar
  import opened Cycle
  import opened Records

  /** A transaction the spending query adds up: an expense of the budget's category dated
      inside the window. A transaction without a category never counts (SQL `NULL = x`
      is not true). */
  predicate CountsToward(t: Transaction, categoryId: int, w: Window) {
    t.kind == "expense" && t.categoryId == Some(categoryId) && Contains(w, t.date)
  }

  /** The amount the spending query sums, 0 for no matching row (`coalesce(sum, 0.0)`). */
  function Spent(txs: seq<Transaction>, categoryId: int, w: Window): real {
    if txs == [] then 0.0
    else
      var t := txs[|txs| - 1];
      Spent(txs[..|txs| - 1], categoryId, w) + (if CountsToward(t, categoryId, w) then t.amount else 0.0)
  }

  /** Spending is additive over the table: the rows are summed independently of how the
      table is split. */
  lemma {:induction false} SpentAppend(a: seq<Transaction>, b: seq<Transaction>, categoryId: int, w: Window)
    ensures Spent(a + b, categoryId, w) == Spent(a, categoryId, w) + Spent(b, categoryId, w)
  {
    if b != [] {
      var b' := b[..|b| - 1];
      assert (a + b)[..|a + b| - 1] == a + b';
      var t := b[|b| - 1];
      assert (a + b)[|a + b| - 1] == t;
      var add := if CountsToward(t, categoryId, w) then t.amount else 0.0;
      assert Spent(a + b, categoryId, w) == Spent(a + b', categoryId, w) + add;
      assert Spent(b, categoryId, w) == Spent(b', categoryId, w) + add;
      SpentAppend(a, b', categoryId, w);
    } else {
      assert a + b == a;
    }
  }

  /** Only counted rows matter: a table whose counted rows are all non-negative expenses
      has non-negative spending, and a table with no counted row has spent nothing. */
  lemma {:induction false} SpentSign(txs: seq<Transaction>, categoryId: int, w: Window)
    ensures (forall k :: 0 <= k < |txs| && CountsToward(txs[k], categoryId, w) ==> txs[k].amount >= 0.0)
            ==> Spent(txs, categoryId, w) >= 0.0
    ensures (forall k :: 0 <= k < |txs| ==> !CountsToward(txs[k], categoryId, w))
            ==> Spent(txs, categoryId, w) == 0.0
  {
    if txs != [] {
      var txs' := txs[..|txs| - 1];
      assert forall k :: 0 <= k < |txs'| ==> txs'[k] == txs[k];
      SpentSign(txs', categoryId, w);
    }
  }

  /** One row of `get_budgets_with_status`. `kind` is the category's type. */
  datatype BudgetStatus = BudgetStatus(
    id: int,
    categoryId: int,
    categoryName: string,
    kind: string,
    amount: real,
    cycleDay: int,
    spent: real,
    remaining: real,
    percent: real,
    overspent: bool)

  /** The status of budget `b`, joined to its category `c`, seen from `ref`: the spending
      of its current cycle, what is left, the share used in percent (0 for a zero
      amount), and whether it is overspent. */
  function StatusOf(b: Budget, c: Category, txs: seq<Transaction>, ref: Date): (s: BudgetStatus)
    requires IsValid(ref)
    ensures s.id == b.id && s.categoryId == b.categoryId && s.amount == b.amount && s.cycleDay == b.cycleDay
    ensures s.categoryName == c.name && s.kind == c.kind
    ensures s.spent == Spent(txs, b.categoryId, CycleWindow(b.cycleDay, ref))
    ensures s.remaining + s.spent == s.amount
    ensures s.overspent <==> s.spent > s.amount
    ensures s.amount != 0.0 ==> s.percent * s.amount == s.spent * 100.0
    ensures s.amount == 0.0 ==> s.percent == 0.0
  {
    var spent := Spent(txs, b.categoryId, CycleWindow(b.cycleDay, ref));
    var remaining := b.amount - spent;
    var percent := if b.amount != 0.0 then spent / b.amount * 100.0 else 0.0;
    BudgetStatus(b.id, b.categoryId, c.name, c.kind, b.amount, b.cycleDay, spent, remaining, percent, remaining < 0.0)
  }

  /** For a positive budget, overspent means more than 100 percent used. */
  lemma {:induction false} OverspentIsOverHundredPercent(b: Budget, c: Category, txs: seq<Transaction>, ref: Date)
    requires IsValid(ref) && b.amount > 0.0
    ensures StatusOf(b, c, txs, ref).overspent <==> StatusOf(b, c, txs, ref).percent > 100.0
  {
    var s := StatusOf(b, c, txs, ref);
    PercentOverHundred(s.percent, s.amount, s.spent);
  }

  lemma {:induction false} PercentOverHundred(percent: real, amount: real, spent: real)
    requires amount > 0.0 && percent * amount == spent * 100.0
    ensures spent > amount <==> percent > 100.0
  {
    ScaleByPositive(percent, 100.0, amount);
    ScaleByPositive(spent, amount, 100.0);
  }

  lemma {:induction false} ScaleByPositive(x: real, y: real, a: real)
    requires a > 0.0
    ensures x > y <==> x * a > y * a
    ensures x * a == a * x && y * a == a * y
  {
    if x > y {
      assert (x - y) * a > 0.0;
    } else {
      assert (y - x) * a >= 0.0;
    }
  }

  /** The status does not change while the reference date stays inside the current
      cycle: it is a function of the cycle, not of the day. */
  lemma {:induction false} StatusStableInCycle(b: Budget, c: Category, txs: seq<Transaction>, ref: Date, x: Date)
    requires IsValid(ref) && IsValid(x)
    requires Contains(CycleWindow(b.cycleDay, ref), x)
    ensures StatusOf(b, c, txs, x) == StatusOf(b, c, txs, ref)
  {
    CycleWindowStable(b.cycleDay, ref, x);
  }

  /** A budget of 500 with one 600 expense in its cycle has 100 over, at 120 percent. */
  lemma {:induction false} OverspentExample(b: Budget, c: Category, t: Transaction)
    requires b.amount == 500.0 && b.cycleDay == 1
    requires t == Transaction(1, Date(2025, 3, 10), 600.0, "expense", Some(b.categoryId), None, None, None, None)
    ensures var s := StatusOf(b, c, [t], Date(2025, 3, 20));
            s.spent == 600.0 && s.remaining == -100.0 && s.percent == 120.0 && s.overspent
  {
    assert CycleWindow(1, Date(2025, 3, 20)) == Window(Date(2025, 3, 1), Date(2025, 4, 1));
    assert [t][..0] == [];
    assert CountsToward(t, b.categoryId, Window(Date(2025, 3, 1), Date(2025, 4, 1)));
    var s := StatusOf(b, c, [t], Date(2025, 3, 20));
    assert Spent([], b.categoryId, Window(Date(2025, 3, 1), Date(2025, 4, 1))) == 0.0;
    assert Spent([t], b.categoryId, Window(Date(2025, 3, 1), Date(2025, 4, 1))) == 600.0;
    assert s.spent == 600.0;
    assert s.percent * 500.0 == 600.0 * 100.0;
  }

  /** The category with id `id`, if the table has one. */
  function CategoryOf(categories: seq<Category>, id: int): (c: Option<Category>)
    ensures c.Some? ==> c.value in categories && c.value.id == id
    ensures c.None? <==> forall k :: 0 <= k < |categories| ==> categories[k].id != id
  {
    if categories == [] then None
    else if categories[0].id == id then Some(categories[0])
    else CategoryOf(categories[1..], id)
  }

  /** The inner join of budgets with their categories, in budget order: a budget whose
      category is missing is not reported. */
  function Joined(budgets: seq<Budget>, categories: seq<Category>): (rows: seq<(Budget, Category)>)
    ensures |rows| <= |budgets|
    ensures forall k :: 0 <= k < |rows| ==>
              rows[k].0 in budgets && rows[k].1 in categories && rows[k].1.id == rows[k].0.categoryId
  {
    if budgets == [] then []
    else
      var b := budgets[|budgets| - 1];
      var rest := Joined(budgets[..|budgets| - 1], categories);
      match CategoryOf(categories, b.categoryId)
      case None => rest
      case Some(c) => rest + [(b, c)]
  }

  /** Every budget whose category exists is reported, joined to that category. */
  lemma {:induction false} JoinedComplete(budgets: seq<Budget>, categories: seq<Category>, k: int)
    requires 0 <= k < |budgets| && CategoryOf(categories, budgets[k].categoryId).Some?
    ensures (budgets[k], CategoryOf(categories, budgets[k].categoryId).value) in Joined(budgets, categories)
  {
    if k < |budgets| - 1 {
      JoinedComplete(budgets[..|budgets| - 1], categories, k);
    }
  }

  /** The positions in the budget table of the budgets the join reports: exactly those
      whose category exists, each once, in table order. */
  function JoinedIndices(budgets: seq<Budget>, categories: seq<Category>): (idx: seq<nat>)
    ensures forall k :: 0 <= k < |idx| ==> idx[k] < |budgets|
    ensures forall a, b :: 0 <= a < b < |idx| ==> idx[a] < idx[b]
    ensures forall j :: 0 <= j < |budgets| ==> (j in idx <==> CategoryOf(categories, budgets[j].categoryId).Some?)
  {
    if budgets == [] then []
    else
      var n := |budgets| - 1;
      var rest := JoinedIndices(budgets[..n], categories);
      assert forall j :: 0 <= j < n ==> budgets[..n][j] == budgets[j];
      if CategoryOf(categories, budgets[n].categoryId).Some? then rest + [n] else rest
  }

  /** The join follows the budget table: its `k`-th row is the budget at the `k`-th
      reported position, with that budget's category. */
  lemma {:induction false} JoinedFollowsTable(budgets: seq<Budget>, categories: seq<Category>)
    ensures |Joined(budgets, categories)| == |JoinedIndices(budgets, categories)|
    ensures forall k :: 0 <= k < |Joined(budgets, categories)| ==>
              Joined(budgets, categories)[k]
              == (budgets[JoinedIndices(budgets, categories)[k]],
                  CategoryOf(categories, budgets[JoinedIndices(budgets, categories)[k]].categoryId).value)
  {
    if budgets != [] {
      var n := |budgets| - 1;
      var front := budgets[..n];
      JoinedFollowsTable(front, categories);
      var rows, idx := Joined(budgets, categories), JoinedIndices(budgets, categories);
      var rows', idx' := Joined(front, categories), JoinedIndices(front, categories);
      match CategoryOf(categories, budgets[n].categoryId)
      case None =>
        assert rows == rows' && idx == idx';
        forall k | 0 <= k < |rows|
          ensures rows[k] == (budgets[idx[k]], CategoryOf(categories, budgets[idx[k]].categoryId).value)
        {
          assert front[idx'[k]] == budgets[idx'[k]];
        }
      case Some(c) =>
        assert rows == rows' + [(budgets[n], c)] && idx == idx' + [n];
        forall k | 0 <= k < |rows|
          ensures rows[k] == (budgets[idx[k]], CategoryOf(categories, budgets[idx[k]].categoryId).value)
        {
          if k < |rows'| {
            assert front[idx'[k]] == budgets[idx'[k]];
          }
        }
    }
  }

  /** With distinct budget ids the join reports each budget at most once. */
  lemma {:induction false} JoinedOncePerBudget(budgets: seq<Budget>, categories: seq<Category>)
    requires UniqueBudgetIds(budgets)
    ensures forall a, b :: 0 <= a < b < |Joined(budgets, categories)| ==>
              Joined(budgets, categories)[a].0.id != Joined(budgets, categories)[b].0.id
  {
    JoinedFollowsTable(budgets, categories);
  }

  /** `any_budget_overspent`: some reported row is overspent. */
  predicate AnyOverspent(budgets: seq<Budget>, categories: seq<Category>, txs: seq<Transaction>, ref: Date)
    requires IsValid(ref)
  {
    var rows := Joined(budgets, categories);
    exists k :: 0 <= k < |rows| && StatusOf(rows[k].0, rows[k].1, txs, ref).overspent
  }

  /** Some budget is overspent exactly when some budget whose category exists has spent
      more than its amount in its current cycle. */
  lemma {:induction false} AnyOverspentMeaning(budgets: seq<Budget>, categories: seq<Category>, txs: seq<Transaction>, ref: Date)
    requires IsValid(ref)
    ensures AnyOverspent(budgets, categories, txs, ref)
            <==> exists k :: 0 <= k < |budgets| && CategoryOf(categories, budgets[k].categoryId).Some?
                             && Spent(txs, budgets[k].categoryId, CycleWindow(budgets[k].cycleDay, ref)) > budgets[k].amount
  {
    var rows := Joined(budgets, categories);
    if AnyOverspent(budgets, categories, txs, ref) {
      var k :| 0 <= k < |rows| && StatusOf(rows[k].0, rows[k].1, txs, ref).overspent;
      var i :| 0 <= i < |budgets| && budgets[i] == rows[k].0;
      assert CategoryOf(categories, budgets[i].categoryId).Some?;
    }
    if exists k :: 0 <= k < |budgets| && CategoryOf(categories, budgets[k].categoryId).Some?
                   && Spent(txs, budgets[k].categoryId, CycleWindow(budgets[k].cycleDay, ref)) > budgets[k].amount {
      var k :| 0 <= k < |budgets| && CategoryOf(categories, budgets[k].categoryId).Some?
               && Spent(txs, budgets[k].categoryId, CycleWindow(budgets[k].cycleDay, ref)) > budgets[k].amount;
      JoinedComplete(budgets, categories, k);
      var j :| 0 <= j < |rows| && rows[j] == (budgets[k], CategoryOf(categories, budgets[k].categoryId).value);
      assert StatusOf(rows[j].0, rows[j].1, txs, ref).overspent;
    }
  }

  /** Some budget of the table is for `categoryId`. */
  predicate HasBudgetFor(budgets: seq<Budget>, categoryId: int) {
    exists k :: 0 <= k < |budgets| && budgets[k].categoryId == categoryId
  }

  /** The table rules `create_budget` keeps: distinct ids, at most one budget per
      category, positive amounts. */
  predicate WellFormedBudgets(budgets: seq<Budget>) {
    && UniqueBudgetIds(budgets)
    && (forall i, j :: 0 <= i < j < |budgets| ==> budgets[i].categoryId != budgets[j].categoryId)
    && (forall k :: 0 <= k < |budgets| ==> budgets[k].amount > 0.0)
  }

  /** `create_budget` on the table: refused (false, table unchanged) for a non-positive
      amount or a category that already has a budget; otherwise one row is appended with
      the next id. */
  function AfterCreate(budgets: seq<Budget>, categoryId: int, amount: real, cycleDay: int): (res: (bool, seq<Budget>))
    ensures res.0 <==> amount > 0.0 && !HasBudgetFor(budgets, categoryId)
    ensures !res.0 ==> res.1 == budgets
    ensures res.0 ==> |res.1| == |budgets| + 1 && res.1[..|budgets|] == budgets
    ensures res.0 ==> var b := res.1[|budgets|];
                      b.categoryId == categoryId && b.amount == amount && b.cycleDay == cycleDay
                      && forall k :: 0 <= k < |budgets| ==> budgets[k].id < b.id
  {
    if amount <= 0.0 || HasBudgetFor(budgets, categoryId) then (false, budgets)
    else
      var b := Budget(MaxBudgetId(budgets) + 1, categoryId, amount, cycleDay);
      assert forall k :: 0 <= k < |budgets| ==> budgets[k].id < b.id by {
        forall k | 0 <= k < |budgets| {
          BudgetIdsBounded(budgets, k);
        }
      }
      (true, budgets + [b])
  }

  /** Creating keeps the table well formed, and afterwards the category has a budget
      whether or not the call succeeded with a positive amount. */
  lemma {:induction false} CreatePreservesWellFormed(budgets: seq<Budget>, categoryId: int, amount: real, cycleDay: int)
    requires WellFormedBudgets(budgets)
    ensures WellFormedBudgets(AfterCreate(budgets, categoryId, amount, cycleDay).1)
    ensures amount > 0.0 ==> HasBudgetFor(AfterCreate(budgets, categoryId, amount, cycleDay).1, categoryId)
  {
    var res := AfterCreate(budgets, categoryId, amount, cycleDay);
    if res.0 {
      var n := |budgets|;
      assert forall k :: 0 <= k < n ==> res.1[k] == budgets[k];
      assert res.1[n].categoryId == categoryId;
    }
  }

  /** A second create for the same category is refused. */
  lemma {:induction false} CreateTwiceRefused(budgets: seq<Budget>, categoryId: int, amount: real, cycleDay: int, amount2: real, cycleDay2: int)
    requires AfterCreate(budgets, categoryId, amount, cycleDay).0
    ensures var after := AfterCreate(budgets, categoryId, amount, cycleDay).1;
            AfterCreate(after, categoryId, amount2, cycleDay2) == (false, after)
  {
    var after := AfterCreate(budgets, categoryId, amount, cycleDay).1;
    assert after[|budgets|].categoryId == categoryId;
  }

  /** The position of the budget with id `id`, if any (`session.get` by primary key). */
  function IndexOfBudget(budgets: seq<Budget>, id: int): (i: Option<nat>)
    ensures i.Some? ==> i.value < |budgets| && budgets[i.value].id == id
    ensures i.None? <==> forall k :: 0 <= k < |budgets| ==> budgets[k].id != id
  {
    if budgets == [] then None
    else if budgets[|budgets| - 1].id == id then Some(|budgets| - 1)
    else
      var i := IndexOfBudget(budgets[..|budgets| - 1], id);
      assert forall k :: 0 <= k < |budgets| - 1 ==> budgets[..|budgets| - 1][k] == budgets[k];
      i
  }

  /** `update_budget` on the table: false and unchanged for an unknown id; otherwise the
      budget with that id takes the new category, amount and reset day and keeps its id.
      Neither the amount nor the one-budget-per-category rule is checked again. */
  function AfterUpdate(budgets: seq<Budget>, id: int, categoryId: int, amount: real, cycleDay: int): (res: (bool, seq<Budget>))
    ensures res.0 <==> exists k :: 0 <= k < |budgets| && budgets[k].id == id
    ensures !res.0 ==> res.1 == budgets
    ensures |res.1| == |budgets|
    ensures forall k :: 0 <= k < |budgets| ==>
              res.1[k] == if res.0 && k == IndexOfBudget(budgets, id).value then Budget(id, categoryId, amount, cycleDay) else budgets[k]
  {
    match IndexOfBudget(budgets, id)
    case None => (false, budgets)
    case Some(i) => (true, budgets[i := Budget(id, categoryId, amount, cycleDay)])
  }

  /** Updating never creates or loses an id: distinct ids stay distinct. */
  lemma {:induction false} UpdateKeepsIds(budgets: seq<Budget>, id: int, categoryId: int, amount: real, cycleDay: int)
    requires UniqueBudgetIds(budgets)
    ensures var after := AfterUpdate(budgets, id, categoryId, amount, cycleDay).1;
            UniqueBudgetIds(after) && forall k :: 0 <= k < |budgets| ==> after[k].id == budgets[k].id
  {
  }

  /** Updating can break what creating guarantees: moving one of two budgets onto the
      other's category leaves a well-formed table with two budgets for one category, and
      a zero amount is accepted too. */
  lemma {:induction false} UpdateBreaksOnePerCategory()
    ensures var before := [Budget(1, 10, 100.0, 1), Budget(2, 20, 50.0, 1)];
            var after := AfterUpdate(before, 2, 10, 0.0, 1);
            WellFormedBudgets(before) && after.0 && !WellFormedBudgets(after.1)
            && after.1[0].categoryId == after.1[1].categoryId
  {
    var before := [Budget(1, 10, 100.0, 1), Budget(2, 20, 50.0, 1)];
    assert IndexOfBudget(before, 2) == Some(1);
  }
}
