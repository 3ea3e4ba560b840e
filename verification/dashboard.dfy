/**
 * The dashboard cards: the three biggest categories, and the month's spending as a rounded,
 * capped share of the total budget with its "over budget" marker.
 */
module Dashboard {
  import Seqs
  import StableSort
  import Percent
  import Budgets
  import Views
  import opened Transactions

  /** `(a, b) => b.value - a.value`: bigger values first. */
  function ValueDesc(a: Views.Slice, b: Views.Slice): bool {
    b.value <= a.value
  }

  lemma ValueDescPreorder()
    ensures StableSort.TotalPreorder(ValueDesc)
  {
  }

  const MaxTopCategories: int := 3

  /** `getTopCategories`: a copy sorted by value, biggest first, cut to `slice(0, 3)`. */
  function TopCategories(data: seq<Views.Slice>): seq<Views.Slice> {
    Seqs.Take(StableSort.Sort(data, ValueDesc), MaxTopCategories)
  }

  /**
   * At most three categories are listed, as many as there are when fewer; they are biggest first,
   * no category left out is bigger than a listed one, and listed plus left out is all of them.
   */
  lemma TopCategoriesSpec(data: seq<Views.Slice>)
    ensures var sorted := StableSort.Sort(data, ValueDesc);
      var top := TopCategories(data);
      && |top| == (if |data| < MaxTopCategories then |data| else MaxTopCategories)
      && multiset(top) + multiset(sorted[|top|..]) == multiset(data)
      && (forall i, j :: 0 <= i < j < |top| ==> top[j].value <= top[i].value)
      && (forall i, j :: 0 <= i < |top| <= j < |sorted| ==> sorted[j].value <= top[i].value)
  {
    ValueDescPreorder();
    StableSort.SortTake(data, ValueDesc, MaxTopCategories);
  }

  /** Categories of equal value keep their chart order. */
  lemma TopCategoriesStable(data: seq<Views.Slice>, e: Views.Slice)
    ensures Seqs.Filter(StableSort.Sort(data, ValueDesc), StableSort.SameRank(ValueDesc, e))
      == Seqs.Filter(data, StableSort.SameRank(ValueDesc, e))
  {
    ValueDescPreorder();
    StableSort.SortStable(data, ValueDesc, e);
  }

  /** `getBudgetProgress`: 0 without a budget, else the rounded share of it spent, capped at 100. */
  function BudgetProgress(expenses: real, totalBudget: real): int {
    if totalBudget == 0.0 then 0 else Percent.CappedPercent(expenses, totalBudget)
  }

  /**
   * The progress is 0 when there is no budget and never above 100; it reaches 100 exactly when the
   * share spent rounds to at least 100%, and below that it is the rounded share. With a positive
   * budget and nothing negative spent it lies between 0 and 100.
   */
  lemma BudgetProgressSpec(expenses: real, totalBudget: real)
    ensures var p := BudgetProgress(expenses, totalBudget);
      && (totalBudget == 0.0 ==> p == 0)
      && p <= 100
      && (p == 100 <==> totalBudget != 0.0 && expenses / totalBudget * 100.0 >= 99.5)
      && (totalBudget != 0.0 && p < 100 ==> p == Percent.Round(expenses / totalBudget * 100.0))
      && (0.0 < totalBudget && 0.0 <= expenses ==> 0 <= p)
  {
  }

  /** The dashboard's bar: this month's spending against the sum of all limits. */
  function AppBudgetProgress(ts: seq<Transaction>, b: Budgets.BudgetMap, now: Date): int {
    BudgetProgress(Views.CurrentMonthExpenses(ts, now), Budgets.TotalBudget(b))
  }

  /**
   * With no negative amounts and no negative limits, the bar lies between 0 and 100, and it is 0
   * whenever no limit is positive.
   */
  lemma AppBudgetProgressBounds(ts: seq<Transaction>, b: Budgets.BudgetMap, now: Date)
    requires forall i :: 0 <= i < |ts| ==> ts[i].amount >= 0.0
    requires Budgets.NonNegative(b)
    ensures var p := AppBudgetProgress(ts, b, now);
      && 0 <= p <= 100
      && ((forall i :: 0 <= i < |b| ==> b[i].1 == 0.0) ==> p == 0)
  {
    var cm := Views.CurrentMonthTransactions(ts, now);
    forall i | 0 <= i < |cm|
      ensures cm[i].amount >= 0.0
    {
      Views.CurrentMonthMembers(ts, now, cm[i]);
    }
    Seqs.SumOfNonNegative(cm, Amount);
    Budgets.TotalBudgetPositive(b);
    BudgetProgressSpec(Views.CurrentMonthExpenses(ts, now), Budgets.TotalBudget(b));
  }

  /** The marker as written: `getBudgetProgress() >= 100`. */
  predicate OverBudgetMarker(expenses: real, totalBudget: real) {
    BudgetProgress(expenses, totalBudget) >= 100
  }

  /**
   * The marker appears as soon as the share spent rounds to 100%: spending 99.5 of a budget of 100
   * already shows "(Over budget!)", and so does spending exactly the budget.
   */
  lemma OverBudgetMarkerEarly()
    ensures OverBudgetMarker(99.5, 100.0) && !OverBudget(99.5, 100.0)
    ensures OverBudgetMarker(100.0, 100.0) && !OverBudget(100.0, 100.0)
  {
    BudgetProgressSpec(99.5, 100.0);
    BudgetProgressSpec(100.0, 100.0);
  }

  /** The marker as the per-category cards decide it: spending strictly above the limit. */
  predicate OverBudget(expenses: real, totalBudget: real) {
    expenses > totalBudget
  }

  /**
   * With a positive budget, being over it means a share above 100%; being over always shows the
   * written marker, while the written marker also shows for shares from 99.5% up to 100%.
   */
  lemma OverBudgetSpec(expenses: real, totalBudget: real)
    requires totalBudget > 0.0
    ensures OverBudget(expenses, totalBudget) <==> expenses / totalBudget * 100.0 > 100.0
    ensures OverBudget(expenses, totalBudget) ==> OverBudgetMarker(expenses, totalBudget)
    ensures OverBudgetMarker(expenses, totalBudget) && !OverBudget(expenses, totalBudget)
      <==> 99.5 <= expenses / totalBudget * 100.0 <= 100.0
  {
    var share := expenses / totalBudget;
    assert share * totalBudget == expenses;
    ShareAbove(expenses, totalBudget);
    BudgetProgressSpec(expenses, totalBudget);
  }

  /** With a positive whole, a part exceeds it exactly when the share is above one. */
  lemma ShareAbove(part: real, whole: real)
    requires whole > 0.0
    ensures part > whole <==> part / whole > 1.0
  {
    var share := part / whole;
    assert share * whole == part;
    if share > 1.0 {
      assert share * whole > 1.0 * whole;
    }
    if part > whole {
      assert share * whole > 1.0 * whole;
    }
  }
}
