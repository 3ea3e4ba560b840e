/**
 * The budget comparison chart: one row per category that has a budget key or a chart slice,
 * each with its limit, its spending looked up by label, and an over/under status; rows with
 * neither a limit nor spending are dropped.
 */
module BudgetComparison {
  import opened Wrappers
  import opened OrderedMap
  import Seqs
  import Constants
  import Budgets
  import Views
  import CategoryTotals
  import Transactions

  datatype Status = OverBudget | UnderBudget

  /** A chart row `{ name, budget, actual, status, categoryKey }`. */
  datatype Row = Row(name: string, budget: real, actual: real, status: Status, key: string)

  /** `CATEGORIES.find(c => c.label === item.name)?.value`, with `filter(Boolean)` dropping misses. */
  function SliceKey(): Views.Slice -> Option<string> {
    (s: Views.Slice) =>
      match Constants.FindByLabel(s.name)
      case None => None
      case Some(c) => if c.key == "" then None else Some(c.key)
  }

  /** The keys of the categories the slices show, in slice order. */
  function SpendKeys(data: seq<Views.Slice>): seq<string> {
    Seqs.Collect(data, SliceKey())
  }

  /** `[...new Set([...Object.keys(budgets), ...spendKeys])]`. */
  function AllKeys(b: Budgets.BudgetMap, data: seq<Views.Slice>): seq<string> {
    Seqs.Dedupe(Keys(b) + SpendKeys(data))
  }

  function NameIs(name: string): Views.Slice -> bool {
    (s: Views.Slice) => s.name == name
  }

  /** `categoryData.find(item => item.name === label)?.value || 0`. */
  function ExpenseFor(data: seq<Views.Slice>, name: string): real {
    match Seqs.Find(data, NameIs(name))
    case None => 0.0
    case Some(s) => s.value
  }

  /** The row built for one key. */
  function RowFor(b: Budgets.BudgetMap, data: seq<Views.Slice>, key: string): Row {
    var name := Constants.LabelOf(key);
    var actual := ExpenseFor(data, name);
    var budget := Budgets.BudgetOf(b, key);
    Row(name, budget, actual, if actual > budget then OverBudget else UnderBudget, key)
  }

  function KeyOf(r: Row): string {
    r.key
  }

  function Shown(): Row -> bool {
    (r: Row) => r.budget > 0.0 || r.actual > 0.0
  }

  /** `allCategories.map(...)`: a row for every key, before the filter. */
  function Candidates(b: Budgets.BudgetMap, data: seq<Views.Slice>): (rows: seq<Row>)
    ensures |rows| == |AllKeys(b, data)|
    ensures forall i :: 0 <= i < |rows| ==> rows[i].key == AllKeys(b, data)[i]
    ensures forall i :: 0 <= i < |rows| ==>
      && rows[i].name == Constants.LabelOf(rows[i].key)
      && rows[i].budget == Budgets.BudgetOf(b, rows[i].key)
      && rows[i].actual == ExpenseFor(data, rows[i].name)
      && (rows[i].status == OverBudget <==> rows[i].actual > rows[i].budget)
  {
    var keys := AllKeys(b, data);
    seq(|keys|, i requires 0 <= i < |keys| => RowFor(b, data, keys[i]))
  }

  /** `prepareComparisonData`. */
  function ComparisonRows(b: Budgets.BudgetMap, data: seq<Views.Slice>): seq<Row> {
    Seqs.Filter(Candidates(b, data), Shown())
  }

  /** Only slices whose label is a category label contribute a key, and the key is that category's. */
  lemma SpendKeysKnown(data: seq<Views.Slice>, key: string)
    ensures key in SpendKeys(data) <==> exists i :: 0 <= i < |data| && SliceKey()(data[i]) == Some(key)
    ensures key in SpendKeys(data) ==> Constants.IsKnown(key)
  {
    Seqs.CollectMember(data, SliceKey(), key);
    if key in SpendKeys(data) {
      var i :| 0 <= i < |data| && SliceKey()(data[i]) == Some(key);
      var c := Constants.FindByLabel(data[i].name).value;
      var j :| 0 <= j < |Constants.Categories| && Constants.Categories[j] == c;
      assert Constants.CategoryKeys()[j] == key;
    }
  }

  /**
   * The keys come in `Set` insertion order: the budget keys first, then the categories of the
   * slices that have no budget key, each once.
   */
  lemma AllKeysOrder(b: Budgets.BudgetMap, data: seq<Views.Slice>)
    requires DistinctKeys(b)
    ensures AllKeys(b, data) == Keys(b) + Seqs.Filter(Seqs.Dedupe(SpendKeys(data)), Seqs.NotIn(Keys(b)))
    ensures Seqs.NoDuplicates(AllKeys(b, data))
  {
    Seqs.DedupeConcat(Keys(b), SpendKeys(data));
    DistinctKeysIff(b);
    Seqs.DedupeDistinct(Keys(b));
  }

  /**
   * Every row belongs to a budget key or a slice's category, shows the category's label, its
   * limit (0 when none) and the value of the first slice with that label (0 when none), is
   * over budget exactly when spending exceeds the limit, and has a positive limit or spending.
   * No key has two rows.
   */
  lemma ComparisonRowsSpec(b: Budgets.BudgetMap, data: seq<Views.Slice>)
    ensures var rows := ComparisonRows(b, data);
      && (forall i, j :: 0 <= i < j < |rows| ==> rows[i].key != rows[j].key)
      && (forall i :: 0 <= i < |rows| ==>
            && (rows[i].key in Keys(b) || rows[i].key in SpendKeys(data))
            && rows[i].name == Constants.LabelOf(rows[i].key)
            && rows[i].budget == Budgets.BudgetOf(b, rows[i].key)
            && rows[i].actual == ExpenseFor(data, rows[i].name)
            && (rows[i].status == OverBudget <==> rows[i].actual > rows[i].budget)
            && (rows[i].budget > 0.0 || rows[i].actual > 0.0))
      && Seqs.Map(rows, KeyOf) == Seqs.Filter(AllKeys(b, data), HasShownRow(b, data))
  {
    RowsOrder(b, data);
    RowsDistinct(b, data);
    forall i | 0 <= i < |ComparisonRows(b, data)|
      ensures var r := ComparisonRows(b, data)[i];
        (r.key in Keys(b) || r.key in SpendKeys(data)) && r == RowFor(b, data, r.key) && Shown()(r)
    {
      RowOrigin(b, data, ComparisonRows(b, data)[i]);
    }
  }

  /** Whether the row built for a key passes the non-zero filter. */
  function HasShownRow(b: Budgets.BudgetMap, data: seq<Views.Slice>): string -> bool {
    key => Shown()(RowFor(b, data, key))
  }

  /**
   * The rows' keys are the keys in order, keeping those whose row shows a positive limit or
   * spending: the budget keys first, then the categories spent on without a budget key (see
   * `AllKeysOrder`).
   */
  lemma RowsOrder(b: Budgets.BudgetMap, data: seq<Views.Slice>)
    ensures Seqs.Map(ComparisonRows(b, data), KeyOf) == Seqs.Filter(AllKeys(b, data), HasShownRow(b, data))
  {
    var candidates := Candidates(b, data);
    assert Seqs.Map(candidates, KeyOf) == AllKeys(b, data);
    Seqs.MapFilter(candidates, Shown(), KeyOf, HasShownRow(b, data));
  }

  /** No key has two rows, since the keys were deduplicated. */
  lemma RowsDistinct(b: Budgets.BudgetMap, data: seq<Views.Slice>)
    ensures var rows := ComparisonRows(b, data);
      forall i, j :: 0 <= i < j < |rows| ==> rows[i].key != rows[j].key
  {
    var f: Row -> string := KeyOf;
    CandidatesDistinct(b, data);
    Seqs.FilterKeepsDistinctBy(Candidates(b, data), Shown(), f);
    var rows := Seqs.Filter(Candidates(b, data), Shown());
    assert ComparisonRows(b, data) == rows;
    forall i, j | 0 <= i < j < |rows|
      ensures rows[i].key != rows[j].key
    {
      assert f(rows[i]) != f(rows[j]);
    }
  }

  lemma CandidatesDistinct(b: Budgets.BudgetMap, data: seq<Views.Slice>)
    ensures var c := Candidates(b, data);
      forall i, j :: 0 <= i < j < |c| ==> KeyOf(c[i]) != KeyOf(c[j])
  {
    var keys := AllKeys(b, data);
    var c := Candidates(b, data);
    forall i, j | 0 <= i < j < |c|
      ensures KeyOf(c[i]) != KeyOf(c[j])
    {
      assert c[i].key == keys[i] && c[j].key == keys[j];
    }
  }

  /** A row that survives the filter is the row of one of the keys, and is shown. */
  lemma RowOrigin(b: Budgets.BudgetMap, data: seq<Views.Slice>, r: Row)
    requires r in ComparisonRows(b, data)
    ensures r.key in Keys(b) || r.key in SpendKeys(data)
    ensures r == RowFor(b, data, r.key)
    ensures Shown()(r)
  {
    var keys := AllKeys(b, data);
    var mapped := Candidates(b, data);
    Seqs.FilterMember(mapped, Shown(), r);
    var j :| 0 <= j < |mapped| && mapped[j] == r;
    assert keys[j] in Keys(b) + SpendKeys(data);
  }

  /** A budget key or slice category gets a row exactly when its limit or its spending is positive. */
  lemma ComparisonRowsComplete(b: Budgets.BudgetMap, data: seq<Views.Slice>, key: string)
    ensures (exists i :: 0 <= i < |ComparisonRows(b, data)| && ComparisonRows(b, data)[i].key == key)
      <==> (key in Keys(b) || key in SpendKeys(data)) && Shown()(RowFor(b, data, key))
  {
    var keys := AllKeys(b, data);
    var mapped := Candidates(b, data);
    var rows := ComparisonRows(b, data);
    var r := RowFor(b, data, key);
    Seqs.FilterMember(mapped, Shown(), r);
    if (key in Keys(b) || key in SpendKeys(data)) && Shown()(r) {
      assert key in Keys(b) + SpendKeys(data);
      var j :| 0 <= j < |keys| && keys[j] == key;
      assert mapped[j] == r;
      var i :| 0 <= i < |rows| && rows[i] == r;
    }
    if i :| 0 <= i < |rows| && rows[i].key == key {
      RowOrigin(b, data, rows[i]);
    }
  }

  /** Every transaction is uncategorized or in a catalogue category, as the form's category list ensures. */
  predicate CatalogueOnly(ts: seq<Transactions.Transaction>) {
    forall i :: 0 <= i < |ts| ==> ts[i].category == "" || Constants.IsKnown(ts[i].category)
  }

  /** With catalogue categories only, every slice is a catalogue category's. */
  lemma CatalogueSlices(ts: seq<Transactions.Transaction>)
    requires CatalogueOnly(ts)
    ensures var p := Views.PositiveEntries(CategoryTotals.Totals(ts));
      forall j :: 0 <= j < |p| ==> Constants.IsKnown(p[j].0)
  {
    var p := Views.PositiveEntries(CategoryTotals.Totals(ts));
    Views.CategoryDataSpec(ts);
    forall j | 0 <= j < |p|
      ensures Constants.IsKnown(p[j].0)
    {
      assert Keys(p)[j] == p[j].0;
    }
  }

  /** With catalogue categories only, the slice labelled like a catalogue category is that category's own. */
  lemma SliceNamedAfter(ts: seq<Transactions.Transaction>, key: string)
    requires CatalogueOnly(ts)
    requires Constants.IsKnown(key)
    ensures var data := Views.CategoryData(ts);
      var x := Views.Slice(Constants.LabelOf(key), CategoryTotals.CategorySpend(ts, key), Constants.ColorOf(key));
      forall j :: 0 <= j < |data| && NameIs(Constants.LabelOf(key))(data[j]) ==> data[j] == x
  {
    var data := Views.CategoryData(ts);
    var p := Views.PositiveEntries(CategoryTotals.Totals(ts));
    Views.CategoryDataSpec(ts);
    CatalogueSlices(ts);
    forall j | 0 <= j < |data| && NameIs(Constants.LabelOf(key))(data[j])
      ensures p[j].0 == key
    {
      Constants.LabelIdentifiesKey(key, p[j].0);
      Constants.LabelIdentifiesKey(p[j].0, p[j].0);
    }
  }

  /** A catalogue category has its own slice exactly when something positive was spent in it. */
  lemma OwnSlice(ts: seq<Transactions.Transaction>, key: string)
    requires Constants.IsKnown(key)
    ensures var spend := CategoryTotals.CategorySpend(ts, key);
      Views.Slice(Constants.LabelOf(key), spend, Constants.ColorOf(key)) in Views.CategoryData(ts) <==> spend > 0.0
  {
    var data := Views.CategoryData(ts);
    var p := Views.PositiveEntries(CategoryTotals.Totals(ts));
    var spend := CategoryTotals.CategorySpend(ts, key);
    var x := Views.Slice(Constants.LabelOf(key), spend, Constants.ColorOf(key));
    Views.CategoryDataKeys(ts, key);
    if spend > 0.0 {
      Constants.CategoriesNonEmpty();
      var j :| 0 <= j < |Keys(p)| && Keys(p)[j] == key;
      Views.CategoryDataAt(ts, j);
    }
    forall j | 0 <= j < |data|
      ensures data[j].value > 0.0
    {
      Views.CategoryDataAt(ts, j);
    }
  }

  /**
   * Over the application's chart data, when every category is a catalogue one, a catalogue
   * category's spending in the comparison is its all-time spending if positive, and 0 otherwise.
   */
  lemma ExpenseForCatalogue(ts: seq<Transactions.Transaction>, key: string)
    requires CatalogueOnly(ts)
    requires Constants.IsKnown(key)
    ensures var spend := CategoryTotals.CategorySpend(ts, key);
      ExpenseFor(Views.CategoryData(ts), Constants.LabelOf(key)) == if spend > 0.0 then spend else 0.0
  {
    var name := Constants.LabelOf(key);
    var x := Views.Slice(name, CategoryTotals.CategorySpend(ts, key), Constants.ColorOf(key));
    SliceNamedAfter(ts, key);
    Seqs.FindOnly(Views.CategoryData(ts), NameIs(name), x);
    OwnSlice(ts, key);
  }
}
