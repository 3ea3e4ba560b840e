/** The per-category budget card: how much of its limit a category has used, and whether it is over. */
module BudgetCard {
  import Percent
  import Dashboard

  /** `percentageSpent`: the rounded share of the limit spent, capped at 100, and 0 without a positive limit. */
  function PercentageSpent(budget: real, spent: real): int {
    if budget > 0.0 then Percent.CappedPercent(spent, budget) else 0
  }

  /** `isOverBudget`. */
  predicate IsOverBudget(budget: real, spent: real) {
    spent > budget
  }

  /**
   * Without a positive limit the bar is empty; with one and nothing negative spent it lies between
   * 0 and 100, and reads 100 exactly when the share rounds to at least 100%. A card over its
   * positive limit always reads 100; a category with spending and a zero limit is over budget
   * with an empty bar.
   */
  lemma PercentageSpentSpec(budget: real, spent: real)
    ensures var p := PercentageSpent(budget, spent);
      && (budget <= 0.0 ==> p == 0)
      && p <= 100
      && (budget > 0.0 && spent >= 0.0 ==> 0 <= p)
      && (budget > 0.0 ==> (p == 100 <==> spent / budget * 100.0 >= 99.5))
      && (budget > 0.0 && p < 100 ==> p == Percent.Round(spent / budget * 100.0))
      && (budget > 0.0 && IsOverBudget(budget, spent) ==> p == 100)
      && (budget == 0.0 && spent > 0.0 ==> IsOverBudget(budget, spent) && p == 0)
  {
    if budget > 0.0 {
      Dashboard.ShareAbove(spent, budget);
    }
  }

  /** With a positive limit, the card's bar and the dashboard's bar are computed alike. */
  lemma SameAsDashboard(budget: real, spent: real)
    requires budget > 0.0
    ensures PercentageSpent(budget, spent) == Dashboard.BudgetProgress(spent, budget)
    ensures IsOverBudget(budget, spent) == Dashboard.OverBudget(spent, budget)
  {
  }
}
