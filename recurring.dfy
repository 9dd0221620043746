/** What the recurring-rule catch-up of db/repository.py (`apply_recurring_rules`) does to
    the rule and transaction tables, as functions of the tables before it runs. The loop
    itself is `Repository.Store.ApplyRecurringRules`. */
module Recurring {
  import opened Wrappers
  import opened Calendar
  import opened Schedule
  import opened Records

  /** `int(r.interval or 1)`: a missing or zero interval counts as 1. */
  function EffectiveInterval(r: RecurringRule): int {
    match r.interval
    case None => 1
    case Some(i) => if i == 0 then 1 else i
  }

  /** A rule the catch-up can process: its next date is a date and its step moves forward
      (the interval is missing, zero or positive). */
  predicate Schedulable(r: RecurringRule) {
    IsValid(r.nextDate) && EffectiveInterval(r) >= 1
  }

  predicate AllSchedulable(rules: seq<RecurringRule>) {
    forall k :: 0 <= k < |rules| ==> Schedulable(rules[k])
  }

  /** The transaction one occurrence of `r` on `date` creates: the rule's type, amount and
      category, its payment method, tags and note with null read as "", and the rule's id
      as back-reference. */
  function Spawn(r: RecurringRule, date: Date, id: int): Transaction {
    Transaction(id, date, r.amount, r.kind, r.categoryId,
                Some(r.paymentMethod.GetOr("")), Some(r.tags.GetOr("")), Some(r.note.GetOr("")),
                Some(r.id))
  }

  /** The rule with its next date advanced by one step. */
  function Step(r: RecurringRule): (r': RecurringRule)
    requires Schedulable(r)
    ensures Schedulable(r') && Before(r.nextDate, r'.nextDate)
    ensures r' == r.(nextDate := r'.nextDate)
  {
    AdvanceIsLater(r.nextDate, r.every, EffectiveInterval(r));
    r.(nextDate := AdvanceFrom(r.nextDate, r.every, EffectiveInterval(r)))
  }

  /** The occurrence dates of `r` due by `upTo`: its next date, then each step after it,
      for as long as they are not after `upTo`. */
  function DueDates(r: RecurringRule, upTo: Date): (ds: seq<Date>)
    requires Schedulable(r) && IsValid(upTo)
    ensures ds != [] <==> NotAfter(r.nextDate, upTo)
    decreases Ordinal(upTo) - Ordinal(r.nextDate)
  {
    if NotAfter(r.nextDate, upTo) then
      OrderMatchesOrdinal(r.nextDate, upTo);
      OrderMatchesOrdinal(r.nextDate, Step(r).nextDate);
      [r.nextDate] + DueDates(Step(r), upTo)
    else
      []
  }

  /** The due occurrences of `r` as transactions, numbered from `firstId`. */
  function Occurrences(r: RecurringRule, upTo: Date, firstId: int): (ts: seq<Transaction>)
    requires Schedulable(r) && IsValid(upTo)
    decreases Ordinal(upTo) - Ordinal(r.nextDate)
  {
    if NotAfter(r.nextDate, upTo) then
      OrderMatchesOrdinal(r.nextDate, upTo);
      OrderMatchesOrdinal(r.nextDate, Step(r).nextDate);
      [Spawn(r, r.nextDate, firstId)] + Occurrences(Step(r), upTo, firstId + 1)
    else
      []
  }

  /** One rule's inner loop: while the next date is not after `upTo`, append its
      transaction (numbered after the table's largest id) and step the rule. */
  function CatchUp(r: RecurringRule, txs: seq<Transaction>, upTo: Date): (res: (RecurringRule, seq<Transaction>))
    requires Schedulable(r) && IsValid(upTo)
    ensures Schedulable(res.0)
    decreases Ordinal(upTo) - Ordinal(r.nextDate)
  {
    if NotAfter(r.nextDate, upTo) then
      OrderMatchesOrdinal(r.nextDate, upTo);
      OrderMatchesOrdinal(r.nextDate, Step(r).nextDate);
      CatchUp(Step(r), txs + [Spawn(r, r.nextDate, MaxTransactionId(txs) + 1)], upTo)
    else
      (r, txs)
  }

  /** The outer loop: every rule in table order, each seeing the transactions the rules
      before it appended. */
  function CatchUpAll(rules: seq<RecurringRule>, txs: seq<Transaction>, upTo: Date): (res: (seq<RecurringRule>, seq<Transaction>))
    requires AllSchedulable(rules) && IsValid(upTo)
    ensures |res.0| == |rules| && AllSchedulable(res.0)
  {
    if rules == [] then ([], txs)
    else
      var first := CatchUp(rules[0], txs, upTo);
      var rest := CatchUpAll(rules[1..], first.1, upTo);
      ([first.0] + rest.0, rest.1)
  }

  /** The number of occurrences all rules have due by `upTo`. */
  function TotalDue(rules: seq<RecurringRule>, upTo: Date): nat
    requires AllSchedulable(rules) && IsValid(upTo)
  {
    if rules == [] then 0 else |DueDates(rules[0], upTo)| + TotalDue(rules[1..], upTo)
  }

  /** The transactions all rules create, rule after rule, numbered from `firstId`. */
  function AllOccurrences(rules: seq<RecurringRule>, upTo: Date, firstId: int): (ts: seq<Transaction>)
    requires AllSchedulable(rules) && IsValid(upTo)
  {
    if rules == [] then []
    else Occurrences(rules[0], upTo, firstId)
         + AllOccurrences(rules[1..], upTo, firstId + |DueDates(rules[0], upTo)|)
  }

  predicate CaughtUp(rules: seq<RecurringRule>, upTo: Date) {
    forall k :: 0 <= k < |rules| ==> Before(upTo, rules[k].nextDate)
  }

  /** The due dates are a chain: they start at the rule's next date, each is one step
      after the one before, so each is strictly later, and none is after `upTo`; the step
      after the last one is after `upTo`. No occurrence is skipped or repeated. */
  lemma {:induction false} DueDatesChain(r: RecurringRule, upTo: Date)
    requires Schedulable(r) && IsValid(upTo)
    ensures var ds := DueDates(r, upTo);
            && (ds != [] ==> ds[0] == r.nextDate)
            && (forall k :: 0 <= k < |ds| ==> IsValid(ds[k]) && NotAfter(ds[k], upTo))
            && (forall k :: 0 <= k < |ds| - 1 ==>
                  ds[k + 1] == AdvanceFrom(ds[k], r.every, EffectiveInterval(r)) && Before(ds[k], ds[k + 1]))
    decreases Ordinal(upTo) - Ordinal(r.nextDate)
  {
    if NotAfter(r.nextDate, upTo) {
      OrderMatchesOrdinal(r.nextDate, upTo);
      OrderMatchesOrdinal(r.nextDate, Step(r).nextDate);
      DueDatesChain(Step(r), upTo);
    }
  }

  /** Where the rule's next date ends up: after `upTo`, one step past the last due date,
      and unchanged when nothing was due. */
  function ResumeDate(r: RecurringRule, upTo: Date): Date
    requires Schedulable(r) && IsValid(upTo)
  {
    var ds := DueDates(r, upTo);
    DueDatesChain(r, upTo);
    if ds == [] then r.nextDate else AdvanceFrom(ds[|ds| - 1], r.every, EffectiveInterval(r))
  }

  /** Regrouping appended rows: the solver needs this step as a separate fact. */
  lemma {:induction false} AppendAssociative<T>(a: seq<T>, b: seq<T>, c: seq<T>)
    ensures a + b + c == a + (b + c)
  {
  }

  /** The occurrences are one transaction per due date, in order, with consecutive ids. */
  lemma {:induction false} OccurrencesAt(r: RecurringRule, upTo: Date, firstId: int, k: int)
    requires Schedulable(r) && IsValid(upTo)
    ensures |Occurrences(r, upTo, firstId)| == |DueDates(r, upTo)|
    ensures 0 <= k < |DueDates(r, upTo)| ==>
              Occurrences(r, upTo, firstId)[k] == Spawn(r, DueDates(r, upTo)[k], firstId + k)
    decreases Ordinal(upTo) - Ordinal(r.nextDate)
  {
    if NotAfter(r.nextDate, upTo) {
      OrderMatchesOrdinal(r.nextDate, upTo);
      OrderMatchesOrdinal(r.nextDate, Step(r).nextDate);
      OccurrencesAt(Step(r), upTo, firstId + 1, k - 1);
    }
  }

  /** Unfolding the resume date by one due date. */
  lemma {:induction false} ResumeDateStep(r: RecurringRule, upTo: Date)
    requires Schedulable(r) && IsValid(upTo) && NotAfter(r.nextDate, upTo)
    ensures ResumeDate(r, upTo) == ResumeDate(Step(r), upTo)
  {
    var ds := DueDates(r, upTo);
    var ds' := DueDates(Step(r), upTo);
    assert ds == [r.nextDate] + ds';
    if ds' != [] {
      assert ds[|ds| - 1] == ds'[|ds'| - 1];
    }
  }

  /** One rule's catch-up appends exactly its due occurrences, numbered after the table's
      largest id, and leaves the rows already there alone. */
  lemma {:induction false} CatchUpTransactions(r: RecurringRule, txs: seq<Transaction>, upTo: Date)
    requires Schedulable(r) && IsValid(upTo)
    ensures CatchUp(r, txs, upTo).1 == txs + Occurrences(r, upTo, MaxTransactionId(txs) + 1)
    decreases Ordinal(upTo) - Ordinal(r.nextDate)
  {
    var m := MaxTransactionId(txs);
    if NotAfter(r.nextDate, upTo) {
      OrderMatchesOrdinal(r.nextDate, upTo);
      OrderMatchesOrdinal(r.nextDate, Step(r).nextDate);
      var r', t := Step(r), Spawn(r, r.nextDate, m + 1);
      var rest := Occurrences(r', upTo, m + 2);
      assert CatchUp(r, txs, upTo).1 == CatchUp(r', txs + [t], upTo).1;
      assert Occurrences(r, upTo, m + 1) == [t] + rest;
      AppendFreshTransaction(txs, t);
      CatchUpTransactions(r', txs + [t], upTo);
      AppendAssociative(txs, [t], rest);
    }
  }

  /** After one rule's catch-up the largest id has grown by the number of occurrences. */
  lemma {:induction false} CatchUpMaxId(r: RecurringRule, txs: seq<Transaction>, upTo: Date)
    requires Schedulable(r) && IsValid(upTo)
    ensures MaxTransactionId(CatchUp(r, txs, upTo).1) == MaxTransactionId(txs) + |DueDates(r, upTo)|
    decreases Ordinal(upTo) - Ordinal(r.nextDate)
  {
    var m := MaxTransactionId(txs);
    if NotAfter(r.nextDate, upTo) {
      OrderMatchesOrdinal(r.nextDate, upTo);
      OrderMatchesOrdinal(r.nextDate, Step(r).nextDate);
      var r', t := Step(r), Spawn(r, r.nextDate, m + 1);
      assert CatchUp(r, txs, upTo).1 == CatchUp(r', txs + [t], upTo).1;
      assert |DueDates(r, upTo)| == 1 + |DueDates(r', upTo)|;
      AppendFreshTransaction(txs, t);
      CatchUpMaxId(r', txs + [t], upTo);
    }
  }

  /** One rule's catch-up changes only the rule's next date, which ends one step past the
      last due date and after `upTo`. */
  lemma {:induction false} CatchUpRule(r: RecurringRule, txs: seq<Transaction>, upTo: Date)
    requires Schedulable(r) && IsValid(upTo)
    ensures CatchUp(r, txs, upTo).0 == r.(nextDate := ResumeDate(r, upTo))
    ensures Before(upTo, CatchUp(r, txs, upTo).0.nextDate)
    decreases Ordinal(upTo) - Ordinal(r.nextDate)
  {
    if NotAfter(r.nextDate, upTo) {
      OrderMatchesOrdinal(r.nextDate, upTo);
      OrderMatchesOrdinal(r.nextDate, Step(r).nextDate);
      CatchUpRule(Step(r), txs + [Spawn(r, r.nextDate, MaxTransactionId(txs) + 1)], upTo);
      ResumeDateStep(r, upTo);
    } else {
      OrderTotal(r.nextDate, upTo);
    }
  }

  lemma {:induction false} AllOccurrencesStep(rules: seq<RecurringRule>, upTo: Date, firstId: int)
    requires AllSchedulable(rules) && IsValid(upTo) && rules != []
    ensures AllOccurrences(rules, upTo, firstId)
            == Occurrences(rules[0], upTo, firstId)
               + AllOccurrences(rules[1..], upTo, firstId + |DueDates(rules[0], upTo)|)
  {
  }

  /** One iteration of the inner loop: a due rule appends its occurrence and steps. */
  lemma {:induction false} CatchUpDue(r: RecurringRule, txs: seq<Transaction>, upTo: Date)
    requires Schedulable(r) && IsValid(upTo) && NotAfter(r.nextDate, upTo)
    ensures CatchUp(r, txs, upTo) == CatchUp(Step(r), txs + [Spawn(r, r.nextDate, MaxTransactionId(txs) + 1)], upTo)
  {
  }

  /** The step of a due rule strictly lowers the inner loop's measure, which stays
      non-negative. */
  lemma {:induction false} DueStepLowersMeasure(r: RecurringRule, upTo: Date)
    requires Schedulable(r) && IsValid(upTo) && NotAfter(r.nextDate, upTo)
    ensures 0 <= Ordinal(upTo) - Ordinal(r.nextDate)
    ensures Ordinal(upTo) - Ordinal(Step(r).nextDate) < Ordinal(upTo) - Ordinal(r.nextDate)
  {
    OrderMatchesOrdinal(r.nextDate, upTo);
    OrderMatchesOrdinal(r.nextDate, Step(r).nextDate);
  }

  /** Everything one iteration of the inner loop needs about a due rule: the catch-up
      continues from the step and the appended occurrence, whose id is fresh, and the
      measure goes down. */
  lemma {:induction false} DueStep(r: RecurringRule, txs: seq<Transaction>, upTo: Date)
    requires Schedulable(r) && IsValid(upTo) && NotAfter(r.nextDate, upTo)
    requires UniqueTransactionIds(txs)
    ensures Step(r).nextDate == AdvanceFrom(r.nextDate, r.every, EffectiveInterval(r))
    ensures CatchUp(r, txs, upTo) == CatchUp(Step(r), txs + [Spawn(r, r.nextDate, MaxTransactionId(txs) + 1)], upTo)
    ensures UniqueTransactionIds(txs + [Spawn(r, r.nextDate, MaxTransactionId(txs) + 1)])
    ensures 0 <= Ordinal(upTo) - Ordinal(r.nextDate)
    ensures Ordinal(upTo) - Ordinal(Step(r).nextDate) < Ordinal(upTo) - Ordinal(r.nextDate)
  {
    CatchUpDue(r, txs, upTo);
    DueStepLowersMeasure(r, upTo);
    AppendFreshTransaction(txs, Spawn(r, r.nextDate, MaxTransactionId(txs) + 1));
  }

  /** A rule not due is where the inner loop stops. */
  lemma {:induction false} CatchUpNotDue(r: RecurringRule, txs: seq<Transaction>, upTo: Date)
    requires Schedulable(r) && IsValid(upTo) && !NotAfter(r.nextDate, upTo)
    ensures CatchUp(r, txs, upTo) == (r, txs)
  {
  }

  /** One iteration of the outer loop: the first rule is caught up, then the rest. */
  lemma {:induction false} CatchUpAllUnfold(rules: seq<RecurringRule>, txs: seq<Transaction>, upTo: Date)
    requires AllSchedulable(rules) && IsValid(upTo) && rules != []
    ensures var first := CatchUp(rules[0], txs, upTo);
            var rest := CatchUpAll(rules[1..], first.1, upTo);
            CatchUpAll(rules, txs, upTo) == ([first.0] + rest.0, rest.1)
  {
  }

  /** The whole catch-up, on the transaction table: it gains exactly the due occurrences
      of every rule, rule after rule, numbered after its largest id, and the rows already
      there are untouched. */
  lemma {:induction false} CatchUpAllTransactions(rules: seq<RecurringRule>, txs: seq<Transaction>, upTo: Date)
    requires AllSchedulable(rules) && IsValid(upTo)
    ensures CatchUpAll(rules, txs, upTo).1 == txs + AllOccurrences(rules, upTo, MaxTransactionId(txs) + 1)
  {
    if rules != [] {
      var m := MaxTransactionId(txs);
      var txs1 := CatchUp(rules[0], txs, upTo).1;
      assert CatchUpAll(rules, txs, upTo).1 == CatchUpAll(rules[1..], txs1, upTo).1;
      CatchUpTransactions(rules[0], txs, upTo);
      CatchUpMaxId(rules[0], txs, upTo);
      CatchUpAllTransactions(rules[1..], txs1, upTo);
      var n := |DueDates(rules[0], upTo)|;
      var first := Occurrences(rules[0], upTo, m + 1);
      var rest := AllOccurrences(rules[1..], upTo, m + 1 + n);
      assert MaxTransactionId(txs1) == m + n;
      AllOccurrencesStep(rules, upTo, m + 1);
      AppendAssociative(txs, first, rest);
    }
  }

  /** The count the catch-up returns: the table grows by, and its largest id moves up by,
      the number of occurrences due over all rules. */
  lemma {:induction false} CatchUpAllCount(rules: seq<RecurringRule>, txs: seq<Transaction>, upTo: Date)
    requires AllSchedulable(rules) && IsValid(upTo)
    ensures |CatchUpAll(rules, txs, upTo).1| == |txs| + TotalDue(rules, upTo)
    ensures MaxTransactionId(CatchUpAll(rules, txs, upTo).1) == MaxTransactionId(txs) + TotalDue(rules, upTo)
  {
    if rules != [] {
      var m := MaxTransactionId(txs);
      var txs1 := CatchUp(rules[0], txs, upTo).1;
      assert CatchUpAll(rules, txs, upTo).1 == CatchUpAll(rules[1..], txs1, upTo).1;
      CatchUpTransactions(rules[0], txs, upTo);
      CatchUpMaxId(rules[0], txs, upTo);
      OccurrencesAt(rules[0], upTo, m + 1, 0);
      CatchUpAllCount(rules[1..], txs1, upTo);
    }
  }

  /** The whole catch-up, on the rule table: every rule keeps its other fields, and its
      next date moves to its resume date, which is after `upTo`. */
  lemma {:induction false} CatchUpAllRules(rules: seq<RecurringRule>, txs: seq<Transaction>, upTo: Date)
    requires AllSchedulable(rules) && IsValid(upTo)
    ensures forall k :: 0 <= k < |rules| ==>
              CatchUpAll(rules, txs, upTo).0[k] == rules[k].(nextDate := ResumeDate(rules[k], upTo))
    ensures CaughtUp(CatchUpAll(rules, txs, upTo).0, upTo)
  {
    if rules != [] {
      var txs1 := CatchUp(rules[0], txs, upTo).1;
      CatchUpRule(rules[0], txs, upTo);
      CatchUpAllRules(rules[1..], txs1, upTo);
      var rules' := CatchUpAll(rules, txs, upTo).0;
      assert rules' == [CatchUp(rules[0], txs, upTo).0] + CatchUpAll(rules[1..], txs1, upTo).0;
      forall k | 0 <= k < |rules|
        ensures rules'[k] == rules[k].(nextDate := ResumeDate(rules[k], upTo))
        ensures Before(upTo, rules'[k].nextDate)
      {
        if k > 0 {
          assert rules[1..][k - 1] == rules[k];
        }
      }
    }
  }

  /** A rule whose next date is already after `upTo` is left alone and adds nothing. */
  lemma {:induction false} CaughtUpIsFixpoint(rules: seq<RecurringRule>, txs: seq<Transaction>, upTo: Date)
    requires AllSchedulable(rules) && IsValid(upTo) && CaughtUp(rules, upTo)
    ensures CatchUpAll(rules, txs, upTo) == (rules, txs)
  {
    if rules != [] {
      CaughtUpIsFixpoint(rules[1..], txs, upTo);
      assert [rules[0]] + rules[1..] == rules;
    }
  }

  /** Idempotence: running the catch-up again with the same `upTo` creates nothing and
      changes nothing. */
  lemma {:induction false} CatchUpAllIdempotent(rules: seq<RecurringRule>, txs: seq<Transaction>, upTo: Date)
    requires AllSchedulable(rules) && IsValid(upTo)
    ensures var (rules', txs') := CatchUpAll(rules, txs, upTo);
            CatchUpAll(rules', txs', upTo) == (rules', txs')
  {
    var (rules', txs') := CatchUpAll(rules, txs, upTo);
    CatchUpAllRules(rules, txs, upTo);
    CaughtUpIsFixpoint(rules', txs', upTo);
  }

  /** Unfolding the due dates by one step. */
  lemma {:induction false} DueDatesUnfold(r: RecurringRule, upTo: Date)
    requires Schedulable(r) && IsValid(upTo)
    ensures NotAfter(r.nextDate, upTo) ==> DueDates(r, upTo) == [r.nextDate] + DueDates(Step(r), upTo)
    ensures !NotAfter(r.nextDate, upTo) ==> DueDates(r, upTo) == []
  {
  }

  /** A monthly rule due on day `d` of January, caught up to the same day of April, creates
      the occurrences of January, February, March and April and then waits for May: the
      catch-up after a three-month absence. */
  lemma {:induction false} MonthlyCatchUpExample(r: RecurringRule, y: int, d: int)
    requires 1 <= d <= 28
    requires r.every == "monthly" && r.interval == Some(1) && r.nextDate == Date(y, 1, d)
    ensures DueDates(r, Date(y, 4, d)) == [Date(y, 1, d), Date(y, 2, d), Date(y, 3, d), Date(y, 4, d)]
    ensures ResumeDate(r, Date(y, 4, d)) == Date(y, 5, d)
  {
    var up := Date(y, 4, d);
    var r2 := r.(nextDate := Date(y, 2, d));
    var r3 := r.(nextDate := Date(y, 3, d));
    var r4 := r.(nextDate := Date(y, 4, d));
    var r5 := r.(nextDate := Date(y, 5, d));
    assert Step(r) == r2;
    assert Step(r2) == r3;
    assert Step(r3) == r4;
    assert Step(r4) == r5;
    DueDatesUnfold(r5, up);
    DueDatesUnfold(r4, up);
    DueDatesUnfold(r3, up);
    DueDatesUnfold(r2, up);
    DueDatesUnfold(r, up);
  }
}
