/** The budget map: category key to monthly limit, absent keys meaning no budget. */
module Budgets {
  import opened Wrappers
  import opened OrderedMap
  import Constants
  import Seqs

  type BudgetMap = OMap<string, real>

  /** `budgets[key] || 0`: the limit set for `key`, and 0 when there is none. */
  function BudgetOf(b: BudgetMap, key: string): (r: real)
    ensures key !in Keys(b) ==> r == 0.0
  {
    GetSomeIff(b, key);
    Get(b, key).GetOr(0.0)
  }

  /** In a map with distinct keys, the limit of a listed key is the one stored beside it. */
  lemma BudgetOfAt(b: BudgetMap, i: int)
    requires DistinctKeys(b) && 0 <= i < |b|
    ensures BudgetOf(b, b[i].0) == b[i].1
  {
    GetAt(b, i);
  }

  /**
   * `Object.values(budgets || {}).reduce((sum, amount) => sum + (amount || 0), 0)`: the sum of
   * all limits. A falsy limit can only be 0 here, so `amount || 0` adds the limit itself.
   */
  function TotalBudget(b: BudgetMap): real {
    SumValues(b)
  }

  predicate NonNegative(b: BudgetMap) {
    forall i :: 0 <= i < |b| ==> b[i].1 >= 0.0
  }

  /** With no negative limit, the total is positive exactly when some limit is. */
  lemma {:induction false} TotalBudgetPositive(b: BudgetMap)
    requires NonNegative(b)
    ensures TotalBudget(b) >= 0.0
    ensures TotalBudget(b) > 0.0 <==> exists i :: 0 <= i < |b| && b[i].1 > 0.0
  {
    if |b| > 0 {
      var n := |b| - 1;
      TotalBudgetPositive(b[..n]);
      assert b == b[..n] + [b[n]];
      if exists i :: 0 <= i < n && b[..n][i].1 > 0.0 {
        var i :| 0 <= i < n && b[..n][i].1 > 0.0;
        assert b[i].1 > 0.0;
      }
      if exists i :: 0 <= i < |b| && b[i].1 > 0.0 {
        var i :| 0 <= i < |b| && b[i].1 > 0.0;
        if i < n {
          assert b[..n][i].1 > 0.0;
        }
      }
    }
  }

  /** The budget map at start-up: the stored one, or the defaults when nothing is stored. */
  function LoadBudgets(stored: Option<BudgetMap>): BudgetMap {
    stored.GetOr(Constants.DefaultBudgets)
  }

  /** On first run every category has a positive limit and the limits total 3650. */
  lemma FirstRunBudgets()
    ensures forall i :: 0 <= i < |Constants.Categories| ==> BudgetOf(LoadBudgets(None), Constants.Categories[i].key) > 0.0
    ensures TotalBudget(LoadBudgets(None)) == 3650.0
  {
    Constants.DefaultBudgetsCoverCategories();
    Constants.CategoriesDistinct();
    var d := Constants.DefaultBudgets;
    forall i | 0 <= i < |Constants.Categories|
      ensures BudgetOf(d, Constants.Categories[i].key) > 0.0
    {
      assert Keys(d)[i] == Constants.CategoryKeys()[i];
      BudgetOfAt(d, i);
    }
  }
}
