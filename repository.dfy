/** The repository of db/repository.py over an in-memory store: the tables are fields the
    operations update in place, and each operation is proved to do what the functions of
    `Recurring` and `Budgets` say. */
module Repository {
  import opened Wrappers
  import opened Calendar
  import opened Schedule
  import opened Cycle
  import opened Records
  import opened Recurring
  import opened Budgets

  class Store {
    var transactions: seq<Transaction>
    var budgets: seq<Budget>
    var categories: seq<Category>
    var rules: seq<RecurringRule>

    /** Every table's primary keys are distinct. */
    ghost predicate Valid()
      reads this
    {
      UniqueTransactionIds(transactions) && UniqueBudgetIds(budgets) && UniqueCategoryIds(categories)
    }

    constructor ()
      ensures Valid()
      ensures transactions == [] && budgets == [] && categories == [] && rules == []
    {
      transactions, budgets, categories, rules := [], [], [], [];
    }

    /** `apply_recurring_rules`: `upTo` defaults to `today`. Every rule in turn is caught
        up to `upTo`; returns how many transactions were created. */
    method ApplyRecurringRules(upTo: Option<Date>, today: Date) returns (created: nat)
      requires Valid() && IsValid(today) && (upTo.Some? ==> IsValid(upTo.value))
      requires AllSchedulable(rules)
      modifies this`rules, this`transactions
      ensures Valid()
      ensures (rules, transactions) == CatchUpAll(old(rules), old(transactions), upTo.GetOr(today))
      ensures created == TotalDue(old(rules), upTo.GetOr(today))
    {
      var upToDate := upTo.GetOr(today);
      created := 0;
      ghost var rules0, txs0 := rules, transactions;
      ghost var fin := CatchUpAll(rules0, txs0, upToDate);
      CatchUpAllCount(rules0, txs0, upToDate);
      for i := 0 to |rules|
        invariant |rules| == |rules0| == |fin.0|
        invariant rules[..i] == fin.0[..i]
        invariant rules[i..] == rules0[i..]
        invariant CatchUpAll(rules0[i..], transactions, upToDate) == (fin.0[i..], fin.1)
        invariant created == |transactions| - |txs0|
        invariant UniqueTransactionIds(transactions)
      {
        ghost var txsI := transactions;
        assert rules[i] == rules0[i..][0];
        var n := CatchUpRuleAt(i, upToDate, today);
        created := created + n;
        CatchUpAllUnfold(rules0[i..], txsI, upToDate);
        ghost var rest := CatchUpAll(rules0[i + 1..], transactions, upToDate);
        assert rules0[i..][1..] == rules0[i + 1..];
        HeadAndTail(fin.0, i, rules[i], rest.0);
        assert rules[..i + 1] == rules[..i] + [rules[i]];
        assert fin.0[..i + 1] == fin.0[..i] + [fin.0[i]];
      }
      assert rules == rules[..|rules|] && fin.0 == fin.0[..|fin.0|];
      assert rules0[|rules0|..] == [];
    }

    /** The inner loop of `apply_recurring_rules` for the rule at `i`: while its next date
        is not after `upTo`, spawn a transaction on that date (numbered after the table's
        largest id) and advance the next date in place. Returns how many it spawned. */
    method CatchUpRuleAt(i: nat, upTo: Date, today: Date) returns (n: nat)
      requires i < |rules| && Schedulable(rules[i]) && IsValid(upTo) && IsValid(today)
      requires UniqueTransactionIds(transactions)
      modifies this`rules, this`transactions
      ensures rules == old(rules)[i := CatchUp(old(rules)[i], old(transactions), upTo).0]
      ensures transactions == CatchUp(old(rules)[i], old(transactions), upTo).1
      ensures n == |transactions| - |old(transactions)|
      ensures UniqueTransactionIds(transactions)
    {
      n := 0;
      var r := rules[i];
      while NotAfter(r.nextDate, upTo)
        invariant rules == old(rules)[i := r]
        invariant Schedulable(r)
        invariant CatchUp(r, transactions, upTo) == CatchUp(old(rules)[i], old(transactions), upTo)
        invariant n == |transactions| - |old(transactions)|
        invariant UniqueTransactionIds(transactions)
        decreases Ordinal(upTo) - Ordinal(r.nextDate)
      {
        DueStep(r, transactions, upTo);
        var tx := Spawn(r, r.nextDate, MaxTransactionId(transactions) + 1);
        var next := AdvanceNextDate(Some(r.nextDate), r.every, EffectiveInterval(r), today);
        assert r.(nextDate := next) == Step(r);
        transactions := transactions + [tx];
        n := n + 1;
        r := r.(nextDate := next);
        rules := rules[i := r];
      }
      CatchUpNotDue(r, transactions, upTo);
    }

    /** `get_budgets_with_status`: one status row per budget joined to its category, in
        join order, each as `StatusOf` defines it. */
    method BudgetsWithStatus(ref: Date) returns (rows: seq<BudgetStatus>)
      requires IsValid(ref)
      ensures var joined := Joined(budgets, categories);
              |rows| == |joined|
              && forall k :: 0 <= k < |rows| ==> rows[k] == StatusOf(joined[k].0, joined[k].1, transactions, ref)
    {
      var joined := Joined(budgets, categories);
      rows := [];
      for k := 0 to |joined|
        invariant |rows| == k
        invariant forall j :: 0 <= j < k ==> rows[j] == StatusOf(joined[j].0, joined[j].1, transactions, ref)
      {
        var (b, cat) := joined[k];
        var w := CycleWindow(b.cycleDay, ref);
        var spent := Spent(transactions, b.categoryId, w);
        var remaining := b.amount - spent;
        var percent := if b.amount != 0.0 then spent / b.amount * 100.0 else 0.0;
        rows := rows + [BudgetStatus(b.id, b.categoryId, cat.name, cat.kind, b.amount, b.cycleDay,
                                     spent, remaining, percent, remaining < 0.0)];
      }
    }

    /** `any_budget_overspent`: whether some status row is overspent, stopping at the
        first one. */
    method AnyBudgetOverspent(ref: Date) returns (any: bool)
      requires IsValid(ref)
      ensures any <==> AnyOverspent(budgets, categories, transactions, ref)
    {
      var rows := BudgetsWithStatus(ref);
      any := false;
      var k := 0;
      while k < |rows| && !any
        invariant 0 <= k <= |rows|
        invariant any <==> exists j :: 0 <= j < k && rows[j].overspent
      {
        any := rows[k].overspent;
        k := k + 1;
      }
    }

    /** `create_budget`: refuses a non-positive amount, then a category that already has a
        budget; otherwise appends the budget with the next id. */
    method CreateBudget(categoryId: int, amount: real, cycleDay: int) returns (ok: bool)
      requires Valid()
      modifies this`budgets
      ensures Valid()
      ensures (ok, budgets) == AfterCreate(old(budgets), categoryId, amount, cycleDay)
    {
      if amount <= 0.0 {
        return false;
      }
      if HasBudgetFor(budgets, categoryId) {
        return false;
      }
      var b := Budget(MaxBudgetId(budgets) + 1, categoryId, amount, cycleDay);
      forall k | 0 <= k < |budgets|
        ensures budgets[k].id < b.id
      {
        BudgetIdsBounded(budgets, k);
      }
      budgets := budgets + [b];
      ok := true;
    }

    /** `update_budget`: false for an unknown id; otherwise overwrites that budget's
        category, amount and reset day. */
    method UpdateBudget(id: int, categoryId: int, amount: real, cycleDay: int) returns (ok: bool)
      requires Valid()
      modifies this`budgets
      ensures Valid()
      ensures (ok, budgets) == AfterUpdate(old(budgets), id, categoryId, amount, cycleDay)
    {
      match IndexOfBudget(budgets, id)
      case None =>
        ok := false;
      case Some(i) =>
        budgets := budgets[i := Budget(id, categoryId, amount, cycleDay)];
        ok := true;
    }
  }

  lemma {:induction false} HeadAndTail<T>(s: seq<T>, i: int, x: T, t: seq<T>)
    requires 0 <= i < |s| && s[i..] == [x] + t
    ensures s[i] == x && s[i + 1..] == t
  {
    assert s[i] == s[i..][0];
    assert s[i + 1..] == s[i..][1..];
  }

  /** What the catch-up does to a budget's spending: it adds exactly the spending of the
      occurrences it created, so materializing can only make a budget's status worse when
      those are non-negative expenses. */
  lemma {:induction false} CatchUpAddsSpending(rules: seq<RecurringRule>, txs: seq<Transaction>, upTo: Date, categoryId: int, w: Window)
    requires AllSchedulable(rules) && IsValid(upTo)
    ensures Spent(CatchUpAll(rules, txs, upTo).1, categoryId, w)
            == Spent(txs, categoryId, w) + Spent(AllOccurrences(rules, upTo, MaxTransactionId(txs) + 1), categoryId, w)
  {
    CatchUpAllTransactions(rules, txs, upTo);
    SpentAppend(txs, AllOccurrences(rules, upTo, MaxTransactionId(txs) + 1), categoryId, w);
  }
}
