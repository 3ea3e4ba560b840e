/**
 * The category report: the monthly series of all spending or of one category, this month's
 * spending per category, the budget cards shown under "all", and the report's label and colour.
 */
module CategoryReport {
  import opened Wrappers
  import opened OrderedMap
  import Seqs
  import Constants
  import Budgets
  import Monthly
  import Views
  import opened Transactions
  import opened CategoryTotals

  /** The selector value that stands for every category. */
  const All: string := "all"

  const AllLabel: string := "All Categories"
  const AllColor: string := "#4F46E5"

  /** The transactions `getMonthlyDataForCategory` groups: all of them, or those of one category. */
  function Selected(ts: seq<Transaction>, selected: string): seq<Transaction> {
    if selected == All then ts else Seqs.Filter(ts, InCategory(selected))
  }

  /** `getMonthlyDataForCategory`. */
  function MonthlyForCategory(ts: seq<Transaction>, selected: string): Monthly.Series {
    Monthly.MonthlySeries(Selected(ts, selected))
  }

  /**
   * With "all" the report's series is the dashboard's; with a category it sums to that category's
   * all-time spending. Either way its periods are unique and strictly ascending.
   */
  lemma MonthlyForCategorySpec(ts: seq<Transaction>, selected: string)
    ensures var r := MonthlyForCategory(ts, selected);
      && (selected == All ==> r == Monthly.MonthlySeries(ts))
      && (selected != All ==> SumValues(r) == CategorySpend(ts, selected))
      && (forall i, j :: 0 <= i < j < |r| ==> Monthly.PeriodBefore(r[i].0, r[j].0))
  {
    Monthly.MonthlySeriesSum(Selected(ts, selected));
    Monthly.MonthlySeriesAscending(Selected(ts, selected));
  }

  /** With a category selected, every bar is a month in which that category had spending, carrying that month's spending in it. */
  lemma {:induction false} MonthlyForCategoryEntries(ts: seq<Transaction>, selected: string)
    requires selected != All
    ensures var r := MonthlyForCategory(ts, selected);
      forall i :: 0 <= i < |r| ==>
        && (exists k :: 0 <= k < |ts| && ts[k].category == selected && PeriodOf(ts[k].date) == r[i].0)
        && r[i].1 == TotalExpenses(Seqs.Filter(Seqs.Filter(ts, InCategory(selected)), InPeriod(r[i].0)))
  {
    var f := Seqs.Filter(ts, InCategory(selected));
    var r := MonthlyForCategory(ts, selected);
    assert r == Monthly.MonthlySeries(f);
    Monthly.MonthlySeriesEntries(f);
    forall i | 0 <= i < |r|
      ensures && (exists k :: 0 <= k < |ts| && ts[k].category == selected && PeriodOf(ts[k].date) == r[i].0)
              && r[i].1 == TotalExpenses(Seqs.Filter(f, InPeriod(r[i].0)))
    {
      assert r[i].1 == Monthly.PeriodTotal(f, r[i].0);
      var k := CategoryPeriodRecord(ts, selected, r[i].0);
    }
    // The two halves of the postcondition, stated apart so that each is matched on its own.
    assert forall i :: 0 <= i < |r| ==> r[i].1 == TotalExpenses(Seqs.Filter(Seqs.Filter(ts, InCategory(selected)), InPeriod(r[i].0)));
    assert forall i :: 0 <= i < |r| ==> exists k :: 0 <= k < |ts| && ts[k].category == selected && PeriodOf(ts[k].date) == r[i].0;
  }

  /** A month in which the category's records fall holds a record of that category in the whole list; `k` is its index. */
  lemma {:induction false} CategoryPeriodRecord(ts: seq<Transaction>, selected: string, p: Period) returns (k: nat)
    requires Monthly.HasPeriod(Seqs.Filter(ts, InCategory(selected)), p)
    ensures k < |ts| && ts[k].category == selected && PeriodOf(ts[k].date) == p
  {
    var f := Seqs.Filter(ts, InCategory(selected));
    var m :| 0 <= m < |f| && PeriodOf(f[m].date) == p;
    var t := f[m];
    assert t in f;
    Seqs.FilterMember(ts, InCategory(selected), t);
    k :| 0 <= k < |ts| && ts[k] == t;
  }

  /** One iteration of `getCategorySpending`'s `forEach`: only a record of period `p` is added. */
  function AddIfInPeriod(m: Tally, t: Transaction, p: Period): Tally {
    if PeriodOf(t.date) == p then AddToCategory(m, t) else m
  }

  /** The `forEach` over every transaction, starting from `m`. */
  function SpendingFold(m: Tally, ts: seq<Transaction>, p: Period): Tally {
    if |ts| == 0 then m else AddIfInPeriod(SpendingFold(m, ts[..|ts| - 1], p), ts[|ts| - 1], p)
  }

  /** `getCategorySpending`, with the clock reading passed in as `now`. */
  function CategorySpending(ts: seq<Transaction>, now: Date): Tally {
    SpendingFold(ZeroTotals(), ts, PeriodOf(now))
  }

  /** Skipping other months inside the loop is the same as summing the current month's records. */
  lemma {:induction false} SpendingFoldFilters(m: Tally, ts: seq<Transaction>, p: Period)
    ensures SpendingFold(m, ts, p) == Accumulate(m, Seqs.Filter(ts, InPeriod(p)))
  {
    if |ts| > 0 {
      var n := |ts| - 1;
      var f := Seqs.Filter(ts[..n], InPeriod(p));
      SpendingFoldFilters(m, ts[..n], p);
      assert ts == ts[..n] + [ts[n]];
      Seqs.FilterSnoc(ts[..n], ts[n], InPeriod(p));
      if PeriodOf(ts[n].date) == p {
        assert (f + [ts[n]])[..|f|] == f;
        AccumulateUnfold(m, f + [ts[n]]);
      } else {
        assert f + [] == f;
      }
    }
  }

  /**
   * `getCategorySpending` is the tally of this month's records: every catalogue category, and any
   * other category spent on this month, holds its spending this month; nothing else has an entry.
   */
  lemma CategorySpendingGet(ts: seq<Transaction>, now: Date, key: string)
    ensures var cm := Views.CurrentMonthTransactions(ts, now);
      Get(CategorySpending(ts, now), key)
        == if key != "" && (Constants.IsKnown(key) || Mentions(cm, key)) then Some(CategorySpend(cm, key)) else None
  {
    SpendingFoldFilters(ZeroTotals(), ts, PeriodOf(now));
    TotalsGet(Views.CurrentMonthTransactions(ts, now), key);
  }

  /** With no negative amounts, every catalogue category has an entry of at least 0. */
  lemma CategorySpendingNonNegative(ts: seq<Transaction>, now: Date, key: string)
    requires forall i :: 0 <= i < |ts| ==> ts[i].amount >= 0.0
    requires Constants.IsKnown(key)
    ensures Get(CategorySpending(ts, now), key).Some?
    ensures Get(CategorySpending(ts, now), key).value >= 0.0
  {
    var cm := Views.CurrentMonthTransactions(ts, now);
    var f := Seqs.Filter(cm, InCategory(key));
    Constants.CategoriesNonEmpty();
    CategorySpendingGet(ts, now, key);
    forall i | 0 <= i < |f|
      ensures f[i].amount >= 0.0
    {
      Seqs.FilterMember(cm, InCategory(key), f[i]);
      Seqs.FilterMember(ts, InPeriod(PeriodOf(now)), f[i]);
    }
    Seqs.SumOfNonNegative(f, Amount);
  }

  /** A budget card `{ category, budget, spent }`. */
  datatype Card = Card(caption: string, budget: real, spent: real)

  /** `budgets[c.value] > 0 || categorySpending[c.value] > 0`. */
  function Visible(b: Budgets.BudgetMap, spending: Tally): Constants.Category -> bool {
    (c: Constants.Category) => Budgets.BudgetOf(b, c.key) > 0.0 || Get(spending, c.key).GetOr(0.0) > 0.0
  }

  function CardOf(b: Budgets.BudgetMap, spending: Tally, c: Constants.Category): Card {
    Card(c.caption, Budgets.BudgetOf(b, c.key), Get(spending, c.key).GetOr(0.0))
  }

  /** The cards shown under "all": the visible categories, in catalogue order. */
  function Cards(b: Budgets.BudgetMap, spending: Tally): seq<Card> {
    var shown := Seqs.Filter(Constants.Categories, Visible(b, spending));
    seq(|shown|, i requires 0 <= i < |shown| => CardOf(b, spending, shown[i]))
  }

  /**
   * A catalogue category gets a card exactly when it has a positive limit or positive spending
   * this month, and the card shows its label, its limit (0 when none) and that spending.
   */
  lemma CardsSpec(ts: seq<Transaction>, b: Budgets.BudgetMap, now: Date, i: int)
    requires 0 <= i < |Constants.Categories|
    ensures var c := Constants.Categories[i];
      var spent := CategorySpend(Views.CurrentMonthTransactions(ts, now), c.key);
      var cards := Cards(b, CategorySpending(ts, now));
      && (Card(c.caption, Budgets.BudgetOf(b, c.key), spent) in cards <==> Budgets.BudgetOf(b, c.key) > 0.0 || spent > 0.0)
      && |cards| <= |Constants.Categories|
      && CardsFromVisible(cards, b, Views.CurrentMonthTransactions(ts, now))
  {
    CardsFromCatalogue(ts, b, now);
    var c := Constants.Categories[i];
    Constants.CategoriesNonEmpty();
    assert Constants.CategoryKeys()[i] == c.key;
    CategorySpendingGet(ts, now, c.key);
    CardsMember(b, CategorySpending(ts, now), c);
  }

  /**
   * Every card is the card of some catalogue category with a positive limit or positive spending
   * in `cm`, showing its label, its limit and that spending.
   */
  predicate CardsFromVisible(cards: seq<Card>, b: Budgets.BudgetMap, cm: seq<Transaction>) {
    forall k :: 0 <= k < |cards| ==>
      exists j :: 0 <= j < |Constants.Categories| && CardFor(cards[k], b, cm, Constants.Categories[j])
  }

  /** `card` is the card of `c`, and `c` has a positive limit or positive spending in `cm`. */
  predicate CardFor(card: Card, b: Budgets.BudgetMap, cm: seq<Transaction>, c: Constants.Category) {
    var limit, spent := Budgets.BudgetOf(b, c.key), CategorySpend(cm, c.key);
    card == Card(c.caption, limit, spent) && (limit > 0.0 || spent > 0.0)
  }

  /** No card comes from anywhere but a visible catalogue category, whatever the month's records. */
  lemma CardsFromCatalogue(ts: seq<Transaction>, b: Budgets.BudgetMap, now: Date)
    ensures CardsFromVisible(Cards(b, CategorySpending(ts, now)), b, Views.CurrentMonthTransactions(ts, now))
  {
    var spending := CategorySpending(ts, now);
    var cards := Cards(b, spending);
    CardsOrigin(b, spending);
    forall k | 0 <= k < |cards|
      ensures exists j :: (0 <= j < |Constants.Categories|
        && CardFor(cards[k], b, Views.CurrentMonthTransactions(ts, now), Constants.Categories[j]))
    {
      var j :| 0 <= j < |Constants.Categories| && cards[k] == CardOf(b, spending, Constants.Categories[j])
        && Visible(b, spending)(Constants.Categories[j]);
      VisibleCard(ts, b, now, j);
    }
  }

  /** A visible catalogue category's card shows its limit and its spending this month. */
  lemma VisibleCard(ts: seq<Transaction>, b: Budgets.BudgetMap, now: Date, j: int)
    requires 0 <= j < |Constants.Categories|
    requires Visible(b, CategorySpending(ts, now))(Constants.Categories[j])
    ensures CardFor(CardOf(b, CategorySpending(ts, now), Constants.Categories[j]), b,
      Views.CurrentMonthTransactions(ts, now), Constants.Categories[j])
  {
    var key := Constants.Categories[j].key;
    Constants.CategoriesNonEmpty();
    assert Constants.CategoryKeys()[j] == key;
    CategorySpendingGet(ts, now, key);
  }

  /** Every card is the card of a visible catalogue category. */
  lemma CardsOrigin(b: Budgets.BudgetMap, spending: Tally)
    ensures var cards := Cards(b, spending);
      forall k :: 0 <= k < |cards| ==>
        exists j :: 0 <= j < |Constants.Categories|
          && cards[k] == CardOf(b, spending, Constants.Categories[j])
          && Visible(b, spending)(Constants.Categories[j])
  {
    var shown := Seqs.Filter(Constants.Categories, Visible(b, spending));
    var cards := Cards(b, spending);
    forall k | 0 <= k < |cards|
      ensures exists j :: (0 <= j < |Constants.Categories|
        && cards[k] == CardOf(b, spending, Constants.Categories[j])
        && Visible(b, spending)(Constants.Categories[j]))
    {
      assert shown[k] in shown;
      Seqs.FilterMember(Constants.Categories, Visible(b, spending), shown[k]);
      var j :| 0 <= j < |Constants.Categories| && Constants.Categories[j] == shown[k];
    }
  }

  /** A catalogue category's card is among the cards exactly when the category is visible. */
  lemma CardsMember(b: Budgets.BudgetMap, spending: Tally, c: Constants.Category)
    requires c in Constants.Categories
    ensures CardOf(b, spending, c) in Cards(b, spending) <==> Visible(b, spending)(c)
  {
    var shown := Seqs.Filter(Constants.Categories, Visible(b, spending));
    var cards := Cards(b, spending);
    Seqs.FilterMember(Constants.Categories, Visible(b, spending), c);
    if Visible(b, spending)(c) {
      var j :| 0 <= j < |shown| && shown[j] == c;
      assert cards[j] == CardOf(b, spending, c);
    }
    if CardOf(b, spending, c) in cards {
      var j :| 0 <= j < |cards| && cards[j] == CardOf(b, spending, c);
      Seqs.FilterMember(Constants.Categories, Visible(b, spending), shown[j]);
      Constants.CaptionDetermines(shown[j], c);
    }
  }

  /** The cards follow the catalogue: a card's category comes before the categories of the cards after it. */
  lemma CardsOrder(b: Budgets.BudgetMap, spending: Tally)
    ensures var cards := Cards(b, spending);
      forall i, j, a, c ::
        && 0 <= i < j < |cards|
        && 0 <= a < |Constants.Categories| && 0 <= c < |Constants.Categories|
        && Constants.Categories[a].caption == cards[i].caption
        && Constants.Categories[c].caption == cards[j].caption
        ==> a < c
  {
    var shown := Seqs.Filter(Constants.Categories, Visible(b, spending));
    var cards := Cards(b, spending);
    Constants.CaptionsDistinct();
    forall i, j, a, c |
        && 0 <= i < j < |cards|
        && 0 <= a < |Constants.Categories| && 0 <= c < |Constants.Categories|
        && Constants.Categories[a].caption == cards[i].caption
        && Constants.Categories[c].caption == cards[j].caption
      ensures a < c
    {
      var a', c' := Seqs.FilterOrder(Constants.Categories, Visible(b, spending), i, j);
      assert Constants.Categories[a'].caption == cards[i].caption;
      assert Constants.Categories[c'].caption == cards[j].caption;
    }
  }

  /** `selectedCategoryLabel`. */
  function ReportLabel(selected: string): (r: string)
    ensures selected == All ==> r == AllLabel
    ensures selected != All && !Constants.IsKnown(selected) ==> r == selected
    ensures forall i :: 0 <= i < |Constants.Categories| && Constants.Categories[i].key == selected ==> r == Constants.Categories[i].caption
  {
    if selected == All then AllLabel else Constants.LabelOf(selected)
  }

  /** `chartColor`. */
  function ReportColor(selected: string): (r: string)
    ensures selected == All ==> r == AllColor
    ensures selected != All && !Constants.IsKnown(selected) ==> r == Constants.FallbackColor
    ensures forall i :: 0 <= i < |Constants.Categories| && Constants.Categories[i].key == selected ==> r == Constants.CategoryColors[i].1
  {
    if selected == All then AllColor else Constants.ColorOf(selected)
  }
}
