/**
 * The views `App` derives from the transaction list and the budget map for the dashboard:
 * the category pie chart, the recent transactions, the current month's spending and the
 * budget-versus-actual rows.
 */
module Views {
  import opened Wrappers
  import opened OrderedMap
  import Seqs
  import StableSort
  import Constants
  import Budgets
  import Monthly
  import opened Transactions
  import opened CategoryTotals

  /** A pie-chart slice `{ name, value, color }`. */
  datatype Slice = Slice(name: string, value: real, color: string)

  /** A row of the budget comparison chart `{ category, actual, budget, difference }`. */
  datatype Comparison = Comparison(category: string, actual: real, budget: real, difference: real)

  function IsPositive(): ((string, real)) -> bool {
    (e: (string, real)) => e.1 > 0.0
  }

  /** `.filter(category => categoryData[category] > 0)`: the entries with something spent. */
  function PositiveEntries(m: Tally): Tally {
    Seqs.Filter(m, IsPositive())
  }

  /** `.map(category => ({ name: label, value: categoryData[category], color }))`. */
  function ToSlices(m: Tally): (r: seq<Slice>)
    ensures |r| == |m|
    ensures forall i :: 0 <= i < |m| ==> r[i].value == m[i].1
    ensures forall i, j :: 0 <= i < |m| && 0 <= j < |Constants.Categories| && Constants.Categories[j].key == m[i].0 ==>
      r[i].name == Constants.Categories[j].caption && r[i].color == Constants.CategoryColors[j].1
    ensures forall i :: 0 <= i < |m| && !Constants.IsKnown(m[i].0) ==>
      r[i].name == m[i].0 && r[i].color == Constants.FallbackColor
  {
    seq(|m|, i requires 0 <= i < |m| => Slice(Constants.LabelOf(m[i].0), m[i].1, Constants.ColorOf(m[i].0)))
  }

  /** `getCategoryData`: one slice per category with a positive total, in key order. */
  function CategoryData(ts: seq<Transaction>): seq<Slice> {
    ToSlices(PositiveEntries(Totals(ts)))
  }

  /** Each entry of the tally holds the spending of its own key. */
  lemma TotalsEntry(ts: seq<Transaction>, e: (string, real))
    requires e in Totals(ts)
    ensures e.0 != "" && (Constants.IsKnown(e.0) || Mentions(ts, e.0))
    ensures e.1 == CategorySpend(ts, e.0)
  {
    TotalsKeys(ts);
    EntryIffGet(Totals(ts), e.0, e.1);
    TotalsGet(ts, e.0);
  }

  /** Each slice shows its category's label, colour and positive total spending. */
  lemma CategoryDataAt(ts: seq<Transaction>, j: int)
    requires 0 <= j < |PositiveEntries(Totals(ts))|
    ensures var p := PositiveEntries(Totals(ts));
      && |CategoryData(ts)| == |p|
      && p[j].1 > 0.0
      && p[j].1 == CategorySpend(ts, p[j].0)
      && CategoryData(ts)[j] == Slice(Constants.LabelOf(p[j].0), p[j].1, Constants.ColorOf(p[j].0))
  {
    var m := Totals(ts);
    var p := PositiveEntries(m);
    Seqs.FilterMember(m, IsPositive(), p[j]);
    TotalsEntry(ts, p[j]);
  }

  /**
   * A category has a slice exactly when it is a catalogue key or one some transaction carries,
   * and something positive was spent in it.
   */
  lemma CategoryDataKeys(ts: seq<Transaction>, key: string)
    ensures key in Keys(PositiveEntries(Totals(ts)))
      <==> key != "" && (Constants.IsKnown(key) || Mentions(ts, key)) && CategorySpend(ts, key) > 0.0
  {
    var m := Totals(ts);
    var p := PositiveEntries(m);
    TotalsKeys(ts);
    TotalsGet(ts, key);
    if key in Keys(p) {
      var i :| 0 <= i < |Keys(p)| && Keys(p)[i] == key;
      Seqs.FilterMember(m, IsPositive(), p[i]);
      TotalsEntry(ts, p[i]);
    }
    if key != "" && (Constants.IsKnown(key) || Mentions(ts, key)) && CategorySpend(ts, key) > 0.0 {
      var e := (key, CategorySpend(ts, key));
      EntryIffGet(m, key, e.1);
      Seqs.FilterMember(m, IsPositive(), e);
      var i :| 0 <= i < |p| && p[i] == e;
      assert Keys(p)[i] == key;
    }
  }

  /** The test "something positive was spent in this category". */
  function SpentIn(ts: seq<Transaction>): string -> bool {
    key => CategorySpend(ts, key) > 0.0
  }

  /**
   * The slices come in tally order: the catalogue categories with positive spending in catalogue
   * order, then the other categories with positive spending in order of first appearance.
   */
  lemma CategoryDataOrder(ts: seq<Transaction>)
    ensures Keys(PositiveEntries(Totals(ts)))
      == Seqs.Filter(Constants.CategoryKeys() + Seqs.Filter(Seqs.Dedupe(CategoriesOf(ts)), Seqs.NotIn(Constants.CategoryKeys())), SpentIn(ts))
  {
    var m := Totals(ts);
    TotalsKeys(ts);
    TotalsLayout(ts);
    KeysFilter(m, IsPositive(), SpentIn(ts));
  }

  /**
   * The pie chart has a slice for a category exactly when the category is a catalogue key or
   * one some transaction carries, and something positive was spent in it; each slice shows the
   * category's label, colour and total, no category gets two slices, and the slices come in
   * catalogue order first and then in order of first appearance.
   */
  lemma CategoryDataSpec(ts: seq<Transaction>)
    ensures var p := PositiveEntries(Totals(ts));
      && |CategoryData(ts)| == |p|
      && DistinctKeys(p)
      && (forall i :: 0 <= i < |p| ==>
            && p[i].1 > 0.0
            && p[i].1 == CategorySpend(ts, p[i].0)
            && CategoryData(ts)[i] == Slice(Constants.LabelOf(p[i].0), p[i].1, Constants.ColorOf(p[i].0)))
      && (forall key :: key in Keys(p) <==>
            key != "" && (Constants.IsKnown(key) || Mentions(ts, key)) && CategorySpend(ts, key) > 0.0)
      && Keys(p) == Seqs.Filter(Constants.CategoryKeys() + Seqs.Filter(Seqs.Dedupe(CategoriesOf(ts)), Seqs.NotIn(Constants.CategoryKeys())), SpentIn(ts))
  {
    CategoryDataOrder(ts);
    TotalsKeys(ts);
    FilterKeepsKeysDistinct(Totals(ts), IsPositive());
    forall i | 0 <= i < |PositiveEntries(Totals(ts))|
      ensures var p := PositiveEntries(Totals(ts));
        p[i].1 > 0.0 && p[i].1 == CategorySpend(ts, p[i].0)
        && CategoryData(ts)[i] == Slice(Constants.LabelOf(p[i].0), p[i].1, Constants.ColorOf(p[i].0))
    {
      CategoryDataAt(ts, i);
    }
    forall key
      ensures key in Keys(PositiveEntries(Totals(ts)))
        <==> key != "" && (Constants.IsKnown(key) || Mentions(ts, key)) && CategorySpend(ts, key) > 0.0
    {
      CategoryDataKeys(ts, key);
    }
  }

  /** The comparator `(a, b) => new Date(b.date) - new Date(a.date)`: `a` may stay in front of `b` when it is no older. */
  function NewerFirst(a: Transaction, b: Transaction): bool {
    DateLe(b.date, a.date)
  }

  lemma NewerFirstPreorder()
    ensures StableSort.TotalPreorder(NewerFirst)
  {
  }

  /** The default `count` of `getRecentTransactions`. */
  const DefaultRecentCount: int := 5

  /** `getRecentTransactions(count)`: a copy sorted newest first, cut to `slice(0, count)`. */
  function RecentTransactions(ts: seq<Transaction>, count: int): seq<Transaction> {
    Seqs.Take(StableSort.Sort(ts, NewerFirst), count)
  }

  /**
   * The recent list has `count` records (or all of them, if fewer), and together with the records
   * it leaves out it is exactly the collection.
   */
  lemma RecentTransactionsCount(ts: seq<Transaction>, count: int)
    ensures var sorted := StableSort.Sort(ts, NewerFirst);
      var r := RecentTransactions(ts, count);
      && (0 <= count ==> |r| == if count < |ts| then count else |ts|)
      && multiset(r) + multiset(sorted[|r|..]) == multiset(ts)
  {
    NewerFirstPreorder();
    StableSort.SortTake(ts, NewerFirst, count);
  }

  /**
   * The dashboard's list, called with the default count: the five newest records, or all of them
   * when there are fewer, newest first, with no record left out newer than one shown.
   */
  lemma DashboardRecent(ts: seq<Transaction>)
    ensures var sorted := StableSort.Sort(ts, NewerFirst);
      var r := RecentTransactions(ts, DefaultRecentCount);
      && |r| == (if |ts| < 5 then |ts| else 5)
      && multiset(r) <= multiset(ts)
      && (forall i, j :: 0 <= i < j < |r| ==> DateLe(r[j].date, r[i].date))
      && (forall i, j :: 0 <= i < |r| <= j < |sorted| ==> DateLe(sorted[j].date, r[i].date))
  {
    RecentTransactionsCount(ts, DefaultRecentCount);
    RecentTransactionsNewestFirst(ts, DefaultRecentCount);
  }

  /** The recent list is newest first, and no record it leaves out is newer than one it shows. */
  lemma RecentTransactionsNewestFirst(ts: seq<Transaction>, count: int)
    ensures var sorted := StableSort.Sort(ts, NewerFirst);
      var r := RecentTransactions(ts, count);
      && (forall i, j :: 0 <= i < j < |r| ==> DateLe(r[j].date, r[i].date))
      && (forall i, j :: 0 <= i < |r| <= j < |sorted| ==> DateLe(sorted[j].date, r[i].date))
  {
    NewerFirstPreorder();
    StableSort.SortTake(ts, NewerFirst, count);
  }

  /** Records of the same day keep, among themselves, the order in which they were added. */
  lemma RecentTransactionsStable(ts: seq<Transaction>, e: Transaction)
    ensures Seqs.Filter(StableSort.Sort(ts, NewerFirst), StableSort.SameRank(NewerFirst, e))
      == Seqs.Filter(ts, StableSort.SameRank(NewerFirst, e))
  {
    NewerFirstPreorder();
    StableSort.SortStable(ts, NewerFirst, e);
  }

  /** `getCurrentMonthTransactions`: the records dated in the month and year of `now`. */
  function CurrentMonthTransactions(ts: seq<Transaction>, now: Date): seq<Transaction> {
    Seqs.Filter(ts, InPeriod(PeriodOf(now)))
  }

  /** `getCurrentMonthExpenses`. */
  function CurrentMonthExpenses(ts: seq<Transaction>, now: Date): real {
    TotalExpenses(CurrentMonthTransactions(ts, now))
  }

  /** A record is in the current month's list exactly when it is in the collection and dated in the month of `now`. */
  lemma CurrentMonthMembers(ts: seq<Transaction>, now: Date, t: Transaction)
    ensures t in CurrentMonthTransactions(ts, now) <==> t in ts && PeriodOf(t.date) == PeriodOf(now)
  {
    Seqs.FilterMember(ts, InPeriod(PeriodOf(now)), t);
  }

  /** The current month's expenses are the bar of the monthly chart for that month, or 0 when it has none. */
  lemma CurrentMonthMatchesSeries(ts: seq<Transaction>, now: Date)
    ensures CurrentMonthExpenses(ts, now) == Get(Monthly.GroupByPeriod(ts), PeriodOf(now)).GetOr(0.0)
  {
    var p := PeriodOf(now);
    Monthly.GroupByPeriodContents(ts, p);
    if !Monthly.HasPeriod(ts, p) {
      Monthly.NoPeriodNoTotal(ts, p);
    }
  }

  /** `getBudgetVsActualData`: a row per key of the current month's tally. */
  function BudgetVsActual(ts: seq<Transaction>, budgets: Budgets.BudgetMap, now: Date): seq<Comparison> {
    var m := Totals(CurrentMonthTransactions(ts, now));
    seq(|m|, i requires 0 <= i < |m| =>
      var b := Budgets.BudgetOf(budgets, m[i].0);
      Comparison(Constants.LabelOf(m[i].0), m[i].1, b, b - m[i].1))
  }

  /**
   * Position by position, the tally has the catalogue keys first and then only categories outside
   * the catalogue that some record carries; every entry holds what was spent in its key.
   */
  lemma TotalsLayout(ts: seq<Transaction>)
    ensures var m := Totals(ts);
      && |m| >= |Constants.Categories|
      && (forall i :: 0 <= i < |Constants.Categories| ==> m[i].0 == Constants.Categories[i].key)
      && (forall i :: |Constants.Categories| <= i < |m| ==> !Constants.IsKnown(m[i].0) && Mentions(ts, m[i].0))
      && (forall i :: 0 <= i < |m| ==> m[i].1 == CategorySpend(ts, m[i].0))
  {
    var m := Totals(ts);
    var ks := Constants.CategoryKeys();
    var extra := Seqs.Filter(Seqs.Dedupe(CategoriesOf(ts)), Seqs.NotIn(ks));
    TotalsKeys(ts);
    assert |Keys(m)| == |m|;
    forall i | 0 <= i < |m|
      ensures i < |ks| ==> m[i].0 == ks[i]
      ensures |ks| <= i ==> !Constants.IsKnown(m[i].0) && Mentions(ts, m[i].0)
      ensures m[i].1 == CategorySpend(ts, m[i].0)
    {
      assert Keys(m)[i] == m[i].0;
      assert m[i] in m;
      TotalsEntry(ts, m[i]);
      if |ks| <= i {
        assert m[i].0 == extra[i - |ks|];
        assert Seqs.NotIn(ks)(m[i].0);
      }
    }
  }

  /**
   * The comparison has the 14 catalogue categories first, in catalogue order, each with its
   * label, the month's spending and its budget (0 when none is set); after them come the other
   * categories spent on this month, each under its raw key. The difference is always budget minus
   * actual.
   */
  lemma BudgetVsActualSpec(ts: seq<Transaction>, budgets: Budgets.BudgetMap, now: Date)
    ensures var rows := BudgetVsActual(ts, budgets, now);
      var cm := CurrentMonthTransactions(ts, now);
      && |rows| >= |Constants.Categories|
      && (forall i :: 0 <= i < |Constants.Categories| ==>
            var key := Constants.Categories[i].key;
            && rows[i].category == Constants.Categories[i].caption
            && rows[i].actual == CategorySpend(cm, key)
            && rows[i].budget == Budgets.BudgetOf(budgets, key))
      && (forall i :: |Constants.Categories| <= i < |rows| ==>
            && !Constants.IsKnown(rows[i].category)
            && Mentions(cm, rows[i].category)
            && rows[i].actual == CategorySpend(cm, rows[i].category)
            && rows[i].budget == Budgets.BudgetOf(budgets, rows[i].category))
      && (forall i :: 0 <= i < |rows| ==> rows[i].difference == rows[i].budget - rows[i].actual)
      && (forall key :: key != "" && !Constants.IsKnown(key) && Mentions(cm, key) ==>
            exists i :: |Constants.Categories| <= i < |rows| && rows[i].category == key)
      && (forall i, j :: |Constants.Categories| <= i < j < |rows| ==> rows[i].category != rows[j].category)
  {
    TotalsLayout(CurrentMonthTransactions(ts, now));
    BudgetVsActualExtraRows(ts, budgets, now);
  }

  /** Every category outside the catalogue spent on this month has exactly one row after the catalogue's. */
  lemma BudgetVsActualExtraRows(ts: seq<Transaction>, budgets: Budgets.BudgetMap, now: Date)
    ensures var rows := BudgetVsActual(ts, budgets, now);
      var cm := CurrentMonthTransactions(ts, now);
      && (forall key :: key != "" && !Constants.IsKnown(key) && Mentions(cm, key) ==>
            exists i :: |Constants.Categories| <= i < |rows| && rows[i].category == key)
      && (forall i, j :: |Constants.Categories| <= i < j < |rows| ==> rows[i].category != rows[j].category)
  {
    var cm := CurrentMonthTransactions(ts, now);
    var rows := BudgetVsActual(ts, budgets, now);
    TotalsLayout(cm);
    TotalsKeys(cm);
    forall key | key != "" && !Constants.IsKnown(key) && Mentions(cm, key)
      ensures exists i :: |Constants.Categories| <= i < |rows| && rows[i].category == key
    {
      var i := ExtraKeyPresent(cm, key);
      assert rows[i].category == key;
    }
  }

  /** A category outside the catalogue that some record carries has an entry after the catalogue keys. */
  lemma ExtraKeyPresent(ts: seq<Transaction>, key: string) returns (i: int)
    requires key != "" && !Constants.IsKnown(key) && Mentions(ts, key)
    ensures |Constants.Categories| <= i < |Totals(ts)| && Totals(ts)[i].0 == key
  {
    var m := Totals(ts);
    TotalsGet(ts, key);
    GetSomeIff(m, key);
    i :| 0 <= i < |m| && Keys(m)[i] == key;
    TotalsLayout(ts);
    Constants.CatalogueKeysKnown();
  }
}
