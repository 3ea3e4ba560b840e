/**
 * The spending insights: an overall surplus or deficit against the total budget, followed by
 * at most three per-category notes (overspending by more than 20%, underspending by more than
 * 50%), warnings first.
 */
module Insights {
  import opened Wrappers
  import opened OrderedMap
  import Seqs
  import StableSort
  import Constants
  import Budgets
  import Views
  import CategoryTotals
  import Transactions

  /** The `type` of an insight. */
  datatype Kind = Warning | Negative | Positive | Info

  /**
   * An insight. `Overall` carries the budget-minus-expense difference, `CategoryNote` the chart
   * label of its category; both carry the percentage their message shows.
   */
  datatype Insight =
    | Overall(kind: Kind, difference: real, percent: real)
    | CategoryNote(kind: Kind, name: string, percent: real)

  function Abs(x: real): (r: real)
    ensures r >= 0.0 && (r == x || r == -x)
  {
    if x < 0.0 then -x else x
  }

  /** `typeOrder`: warning 1, negative 2, positive 3, info 4. */
  function Rank(k: Kind): int {
    match k
    case Warning => 1
    case Negative => 2
    case Positive => 3
    case Info => 4
  }

  /** The comparator `typeOrder[a.type] - typeOrder[b.type]`, as "`a` may stay in front of `b`". */
  function RankLe(a: Insight, b: Insight): bool {
    Rank(a.kind) <= Rank(b.kind)
  }

  lemma RankLePreorder()
    ensures StableSort.TotalPreorder(RankLe)
  {
  }

  /** The overall insight, given the total budget and the total shown in the category data. */
  function OverallInsight(totalBudget: real, totalExpense: real): Option<Insight> {
    if totalBudget > 0.0 then
      var difference := totalBudget - totalExpense;
      var percent := Abs(difference) / totalBudget * 100.0;
      Some(Overall(if difference >= 0.0 then Positive else Negative, difference, percent))
    else None
  }

  /**
   * There is an overall insight exactly when the total budget is positive; it is a surplus
   * (`Positive`) exactly when the expenses do not exceed the budget, and its percentage is the
   * gap relative to the budget.
   */
  lemma OverallInsightSpec(totalBudget: real, totalExpense: real)
    ensures var r := OverallInsight(totalBudget, totalExpense);
      && (r.Some? <==> totalBudget > 0.0)
      && (r.Some? ==> r.value.Overall? && r.value.difference == totalBudget - totalExpense)
      && (r.Some? ==> (r.value.kind == Positive <==> totalExpense <= totalBudget))
      && (r.Some? ==> (r.value.kind == Negative <==> totalExpense > totalBudget))
      && (r.Some? ==> r.value.percent * totalBudget == 100.0 * Abs(totalBudget - totalExpense))
  {
  }

  /**
   * The note for a category with label `name`, limit `budget` and spending `actual`: a warning
   * above the limit by more than 20%, an info below it by more than 50%, and nothing otherwise or
   * when the limit is not positive.
   */
  function Classify(name: string, budget: real, actual: real): Option<Insight> {
    if budget > 0.0 then
      var difference := budget - actual;
      var percent := Abs(difference) / budget * 100.0;
      if difference < 0.0 && percent > 20.0 then Some(CategoryNote(Warning, name, percent))
      else if difference > 0.0 && percent > 50.0 then Some(CategoryNote(Info, name, percent))
      else None
    else None
  }

  /**
   * The thresholds, stated multiplicatively: a warning exactly when spending exceeds 120% of a
   * positive limit (120% itself does not warn), an info exactly when it is under 50% of it, and
   * no note from 50% to 120% inclusive.
   */
  lemma ClassifySpec(name: string, budget: real, actual: real)
    ensures var r := Classify(name, budget, actual);
      && (r.Some? ==> r.value.CategoryNote? && r.value.name == name)
      && (r.Some? && r.value.kind == Warning <==> budget > 0.0 && actual > 1.2 * budget)
      && (r.Some? && r.value.kind == Info <==> budget > 0.0 && actual < 0.5 * budget)
      && (r.Some? ==> r.value.kind == Warning || r.value.kind == Info)
      && (r.Some? ==> r.value.percent * budget == 100.0 * Abs(budget - actual))
  {
    if budget > 0.0 {
      Thresholds(budget, actual);
    }
  }

  /** The percentage tests of `Classify`, turned into comparisons of spending with fractions of the limit. */
  lemma Thresholds(budget: real, actual: real)
    requires budget > 0.0
    ensures var difference := budget - actual;
      var percent := Abs(difference) / budget * 100.0;
      && percent * budget == 100.0 * Abs(difference)
      && (difference < 0.0 && percent > 20.0 <==> actual > 1.2 * budget)
      && (difference > 0.0 && percent > 50.0 <==> actual < 0.5 * budget)
  {
    var difference := budget - actual;
    var gap := Abs(difference);
    var percent := gap / budget * 100.0;
    PercentScale(gap, budget, percent);
    PercentCompare(gap, budget, percent, 20.0);
    PercentCompare(gap, budget, percent, 50.0);
  }

  /** A share `p` of `k` in percent, scaled back by `k`, is a hundred times the amount. */
  lemma PercentScale(x: real, k: real, p: real)
    requires k > 0.0 && p == x / k * 100.0
    ensures p * k == 100.0 * x
  {
    assert x / k * k == x;
  }

  /** Comparing a percentage of `k` with `c` is comparing the amount, times a hundred, with `c` times `k`. */
  lemma PercentCompare(x: real, k: real, p: real, c: real)
    requires k > 0.0 && p * k == 100.0 * x
    ensures p > c <==> 100.0 * x > c * k
  {
    ScaleCompare(p, c, k);
  }

  lemma ScaleCompare(x: real, c: real, k: real)
    requires k > 0.0
    ensures x > c <==> x * k > c * k
  {
    if x > c {
      assert (x - c) * k > 0.0;
    } else {
      assert (c - x) * k >= 0.0;
    }
  }

  /** `Object.keys(budgets).find(key => CATEGORIES.find(c => c.value === key)?.label === name)`. */
  function BudgetKeyFor(b: Budgets.BudgetMap, name: string): Option<string> {
    Seqs.Find(Keys(b), Constants.HasLabel(name))
  }

  /** One iteration of the category `forEach`. */
  function CategoryInsight(b: Budgets.BudgetMap, s: Views.Slice): Option<Insight> {
    match BudgetKeyFor(b, s.name)
    case None => None
    case Some(key) => if key == "" then None else Classify(s.name, Budgets.BudgetOf(b, key), s.value)
  }

  /**
   * For the slice of a catalogue category, the note compares its spending with that category's own
   * limit (0 when it has none), because the label leads back to that key alone.
   */
  lemma KnownSliceInsight(b: Budgets.BudgetMap, key: string, value: real, color: string)
    requires Constants.IsKnown(key)
    ensures CategoryInsight(b, Views.Slice(Constants.LabelOf(key), value, color))
      == Classify(Constants.LabelOf(key), Budgets.BudgetOf(b, key), value)
  {
    var name := Constants.LabelOf(key);
    BudgetKeyForKnown(b, key);
    if key in Keys(b) {
      Constants.CategoriesNonEmpty();
      assert key != "";
    } else {
      assert Budgets.BudgetOf(b, key) == 0.0;
    }
  }

  /** A catalogue category's label finds that category's budget key, if it has one, and no other. */
  lemma BudgetKeyForKnown(b: Budgets.BudgetMap, key: string)
    requires Constants.IsKnown(key)
    ensures BudgetKeyFor(b, Constants.LabelOf(key)) == if key in Keys(b) then Some(key) else None
  {
    var name := Constants.LabelOf(key);
    forall i | 0 <= i < |Keys(b)| && Constants.HasLabel(name)(Keys(b)[i])
      ensures Keys(b)[i] == key
    {
      Constants.LabelIdentifiesKey(key, Keys(b)[i]);
    }
    Constants.LabelIdentifiesKey(key, key);
    Seqs.FindOnly(Keys(b), Constants.HasLabel(name), key);
  }

  /** A slice whose label belongs to no category with a budget key gets no note. */
  lemma UnbudgetedSliceSilent(b: Budgets.BudgetMap, s: Views.Slice)
    requires forall i :: 0 <= i < |Keys(b)| ==> !Constants.HasLabel(s.name)(Keys(b)[i])
    ensures CategoryInsight(b, s).None?
  {
  }

  function NoteFor(b: Budgets.BudgetMap): Views.Slice -> Option<Insight> {
    s => CategoryInsight(b, s)
  }

  /** The notes of the `forEach`, in category-data order. */
  function CategoryInsights(b: Budgets.BudgetMap, data: seq<Views.Slice>): seq<Insight> {
    Seqs.Collect(data, NoteFor(b))
  }

  /** Each note comes from one slice of the data, and each slice that warrants a note contributes it. */
  lemma CategoryInsightsFrom(b: Budgets.BudgetMap, data: seq<Views.Slice>, x: Insight)
    ensures x in CategoryInsights(b, data) <==> exists i :: 0 <= i < |data| && CategoryInsight(b, data[i]) == Some(x)
  {
    Seqs.CollectMember(data, NoteFor(b), x);
  }

  /** The category notes are warnings and infos only. */
  lemma {:induction false} CategoryInsightsKinds(b: Budgets.BudgetMap, data: seq<Views.Slice>)
    ensures forall x :: x in CategoryInsights(b, data) ==> x.CategoryNote? && (x.kind == Warning || x.kind == Info)
  {
    forall x | x in CategoryInsights(b, data)
      ensures x.CategoryNote? && (x.kind == Warning || x.kind == Info)
    {
      CategoryInsightsFrom(b, data, x);
      var i :| 0 <= i < |data| && CategoryInsight(b, data[i]) == Some(x);
      var k := BudgetKeyFor(b, data[i].name).value;
      ClassifySpec(data[i].name, Budgets.BudgetOf(b, k), data[i].value);
    }
  }

  /** The most category notes the result keeps. */
  const MaxCategoryNotes: int := 3

  /** `totalExpense`: the sum of the slice values. */
  function TotalShown(data: seq<Views.Slice>): real {
    Seqs.SumOf(data, (s: Views.Slice) => s.value)
  }

  /** The category notes that are kept: sorted warnings first, then cut to `slice(0, 3)`. */
  function TopNotes(b: Budgets.BudgetMap, data: seq<Views.Slice>): seq<Insight> {
    Seqs.Take(StableSort.Sort(CategoryInsights(b, data), RankLe), MaxCategoryNotes)
  }

  /** `generateInsights`: `[...insights, ...categoryInsights.slice(0, 3)]`. */
  function GenerateInsights(b: Budgets.BudgetMap, data: seq<Views.Slice>): seq<Insight> {
    var overall := OverallInsight(Budgets.TotalBudget(b), TotalShown(data));
    (if overall.Some? then [overall.value] else []) + TopNotes(b, data)
  }

  /**
   * The overall insight comes first, and is present exactly when the total budget is positive;
   * every later insight is a category note. There are at most three notes, so at most four
   * insights, and at most three when there is no positive total budget.
   */
  lemma GenerateInsightsShape(b: Budgets.BudgetMap, data: seq<Views.Slice>)
    ensures var r := GenerateInsights(b, data);
      var offset := if Budgets.TotalBudget(b) > 0.0 then 1 else 0;
      && |r| <= 4
      && (Budgets.TotalBudget(b) <= 0.0 ==> |r| <= 3)
      && (Budgets.TotalBudget(b) > 0.0 <==> |r| > 0 && r[0].Overall?)
      && (Budgets.TotalBudget(b) > 0.0 ==> Some(r[0]) == OverallInsight(Budgets.TotalBudget(b), TotalShown(data)))
      && r[offset..] == TopNotes(b, data)
      && (forall i :: offset <= i < |r| ==> r[i].CategoryNote? && (r[i].kind == Warning || r[i].kind == Info))
  {
    var notes := CategoryInsights(b, data);
    var top := TopNotes(b, data);
    CategoryInsightsKinds(b, data);
    var sorted := StableSort.Sort(notes, RankLe);
    forall i | 0 <= i < |top|
      ensures top[i].CategoryNote? && (top[i].kind == Warning || top[i].kind == Info)
    {
      assert top[i] == sorted[i];
      assert top[i] in multiset(sorted);
    }
  }

  /**
   * The kept notes are a prefix of the notes sorted warnings first: no info precedes a warning,
   * a note is left out only if every kept note ranks no lower, and all notes are accounted for.
   */
  lemma TopNotesOrder(b: Budgets.BudgetMap, data: seq<Views.Slice>)
    ensures var sorted := StableSort.Sort(CategoryInsights(b, data), RankLe);
      var top := TopNotes(b, data);
      && |top| == (if |sorted| < MaxCategoryNotes then |sorted| else MaxCategoryNotes)
      && multiset(top) + multiset(sorted[|top|..]) == multiset(CategoryInsights(b, data))
      && (forall i, j :: 0 <= i < j < |top| ==> RankLe(top[i], top[j]))
      && (forall i, j :: 0 <= i < |top| <= j < |sorted| ==> RankLe(top[i], sorted[j]))
  {
    RankLePreorder();
    StableSort.SortTake(CategoryInsights(b, data), RankLe, MaxCategoryNotes);
  }

  /** Notes of the same kind keep their category-data order through the sort. */
  lemma TopNotesStable(b: Budgets.BudgetMap, data: seq<Views.Slice>, e: Insight)
    ensures Seqs.Filter(StableSort.Sort(CategoryInsights(b, data), RankLe), StableSort.SameRank(RankLe, e))
      == Seqs.Filter(CategoryInsights(b, data), StableSort.SameRank(RankLe, e))
  {
    RankLePreorder();
    StableSort.SortStable(CategoryInsights(b, data), RankLe, e);
  }

  /** The insights as the application shows them: over the all-time category data. */
  function AppInsights(ts: seq<Transactions.Transaction>, b: Budgets.BudgetMap): seq<Insight> {
    GenerateInsights(b, Views.CategoryData(ts))
  }

  /**
   * Every category note the application shows is about a chart slice, that is, a category with
   * positive all-time spending, and is that slice's classification against the limit its label
   * leads to; a budgeted category with nothing spent is never mentioned.
   */
  lemma AppInsightsFromSpending(ts: seq<Transactions.Transaction>, b: Budgets.BudgetMap, x: Insight)
    requires x in CategoryInsights(b, Views.CategoryData(ts))
    ensures var p := Views.PositiveEntries(CategoryTotals.Totals(ts));
      exists j :: 0 <= j < |p| && p[j].1 > 0.0 && p[j].1 == CategoryTotals.CategorySpend(ts, p[j].0)
        && CategoryInsight(b, Views.Slice(Constants.LabelOf(p[j].0), p[j].1, Constants.ColorOf(p[j].0))) == Some(x)
  {
    var data := Views.CategoryData(ts);
    var p := Views.PositiveEntries(CategoryTotals.Totals(ts));
    Views.CategoryDataSpec(ts);
    CategoryInsightsFrom(b, data, x);
    var j :| 0 <= j < |data| && CategoryInsight(b, data[j]) == Some(x);
    assert data[j] == Views.Slice(Constants.LabelOf(p[j].0), p[j].1, Constants.ColorOf(p[j].0));
  }
}
