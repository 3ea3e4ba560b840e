/**
 * The per-category totals behind the pie chart, the budget-versus-actual rows and the category
 * report. Every category of the catalogue starts at 0, in catalogue order; then each
 * transaction that has a category adds its amount to that category's entry, creating the entry
 * (at the end) when the category is not in the catalogue.
 */
module CategoryTotals {
  import opened Wrappers
  import opened OrderedMap
  import Seqs
  import Constants
  import opened Transactions

  type Tally = OMap<string, real>

  /** `CATEGORIES.forEach(c => { categoryData[c.value] = 0 })`. */
  function ZeroTotals(): (z: Tally)
    ensures Keys(z) == Constants.CategoryKeys()
    ensures forall i :: 0 <= i < |z| ==> z[i].1 == 0.0
  {
    seq(|Constants.Categories|, i requires 0 <= i < |Constants.Categories| => (Constants.Categories[i].key, 0.0))
  }

  /** One iteration of the summing `forEach`: `if (t.category) categoryData[c] = (categoryData[c] || 0) + amount`. */
  function AddToCategory(m: Tally, t: Transaction): Tally {
    if t.category == "" then m else Put(m, t.category, Get(m, t.category).GetOr(0.0) + t.amount)
  }

  /** The summing `forEach` over `ts`, starting from `m`. */
  function Accumulate(m: Tally, ts: seq<Transaction>): Tally {
    if |ts| == 0 then m else AddToCategory(Accumulate(m, ts[..|ts| - 1]), ts[|ts| - 1])
  }

  /** The `categoryData` object built from `ts`. */
  function Totals(ts: seq<Transaction>): Tally {
    Accumulate(ZeroTotals(), ts)
  }

  function InCategory(key: string): Transaction -> bool {
    (t: Transaction) => t.category == key
  }

  function Categorized(): Transaction -> bool {
    (t: Transaction) => t.category != ""
  }

  /** Everything spent in category `key`. */
  function CategorySpend(ts: seq<Transaction>, key: string): real {
    TotalExpenses(Seqs.Filter(ts, InCategory(key)))
  }

  predicate Mentions(ts: seq<Transaction>, key: string) {
    exists i :: 0 <= i < |ts| && ts[i].category == key
  }

  /** The categories of the categorized transactions, in transaction order, repetitions included. */
  function CategoriesOf(ts: seq<Transaction>): (cs: seq<string>)
    ensures forall i :: 0 <= i < |cs| ==> cs[i] != ""
  {
    if |ts| == 0 then []
    else CategoriesOf(ts[..|ts| - 1]) + if ts[|ts| - 1].category == "" then [] else [ts[|ts| - 1].category]
  }

  /** Only the transaction's own category changes, by its amount (from 0 when new); an uncategorized one changes nothing. */
  lemma AddToCategoryGet(m: Tally, t: Transaction, key: string)
    ensures Get(AddToCategory(m, t), key)
      == if t.category != "" && t.category == key then Some(Get(m, key).GetOr(0.0) + t.amount) else Get(m, key)
  {
  }

  lemma {:induction false} AccumulateUnfold(m: Tally, ts: seq<Transaction>)
    requires |ts| > 0
    ensures Accumulate(m, ts) == AddToCategory(Accumulate(m, ts[..|ts| - 1]), ts[|ts| - 1])
  {
  }

  lemma {:induction false} AccumulateStepGet(m: Tally, ts: seq<Transaction>, key: string)
    requires |ts| > 0
    ensures var before := Get(Accumulate(m, ts[..|ts| - 1]), key);
      var t := ts[|ts| - 1];
      Get(Accumulate(m, ts), key)
      == if t.category != "" && t.category == key then Some(before.GetOr(0.0) + t.amount) else before
  {
    AccumulateUnfold(m, ts);
    AddToCategoryGet(Accumulate(m, ts[..|ts| - 1]), ts[|ts| - 1], key);
  }

  lemma MentionsSnoc(ts: seq<Transaction>, key: string)
    requires |ts| > 0
    ensures Mentions(ts, key) <==> Mentions(ts[..|ts| - 1], key) || ts[|ts| - 1].category == key
  {
    var n := |ts| - 1;
    if Mentions(ts, key) && ts[n].category != key {
      var i :| 0 <= i < |ts| && ts[i].category == key;
      assert i < n && ts[..n][i] == ts[i];
    }
    if Mentions(ts[..n], key) {
      var i :| 0 <= i < n && ts[..n][i].category == key;
      assert ts[i] == ts[..n][i];
    }
  }

  lemma NoMentionNoSpend(ts: seq<Transaction>, key: string)
    requires !Mentions(ts, key)
    ensures CategorySpend(ts, key) == 0.0
  {
    Seqs.FilterNone(ts, InCategory(key));
  }

  /** The inductive step of `AccumulateGet`, stated over the values involved. */
  lemma TallyInduction(now: Option<real>, before: Option<real>, start: Option<real>, presentBefore: bool,
                       same: bool, x: real, spend: real, spendBefore: real)
    requires before == if presentBefore then Some(start.GetOr(0.0) + spendBefore) else start
    requires now == if same then Some(before.GetOr(0.0) + x) else before
    requires !presentBefore ==> start.None? && spendBefore == 0.0
    requires spend == spendBefore + if same then x else 0.0
    ensures now == if presentBefore || same then Some(start.GetOr(0.0) + spend) else start
  {
  }

  /**
   * After the `forEach`, a non-empty key holds what it started with plus everything spent in it,
   * and has an entry exactly when it started with one or some transaction names it; the
   * empty key is never touched.
   */
  lemma {:induction false} AccumulateGet(m: Tally, ts: seq<Transaction>, key: string)
    ensures Get(Accumulate(m, ts), key)
      == if key != "" && (Get(m, key).Some? || Mentions(ts, key))
         then Some(Get(m, key).GetOr(0.0) + CategorySpend(ts, key))
         else Get(m, key)
  {
    if |ts| == 0 {
      assert Seqs.Filter(ts, InCategory(key)) == [];
    } else {
      var n := |ts| - 1;
      AccumulateGet(m, ts[..n], key);
      AccumulateStepGet(m, ts, key);
      MentionsSnoc(ts, key);
      FilteredTotalSnoc(ts, InCategory(key));
      if !Mentions(ts[..n], key) {
        NoMentionNoSpend(ts[..n], key);
      }
      if key != "" {
        TallyInduction(Get(Accumulate(m, ts), key), Get(Accumulate(m, ts[..n]), key), Get(m, key),
          Get(m, key).Some? || Mentions(ts[..n], key), ts[n].category == key, ts[n].amount,
          CategorySpend(ts, key), CategorySpend(ts[..n], key));
      }
    }
  }

  /** The empty string is not a category key, so uncategorized records never reach the tally. */
  lemma EmptyKeyUnknown()
    ensures !Constants.IsKnown("")
  {
    Constants.CategoriesNonEmpty();
  }

  /** The starting tally has an entry of 0 for each catalogue key and no other entry. */
  lemma ZeroTotalsGet(key: string)
    ensures Get(ZeroTotals(), key) == if Constants.IsKnown(key) then Some(0.0) else None
  {
    var z := ZeroTotals();
    GetSomeIff(z, key);
    if Get(z, key).Some? {
      GetFound(z, key);
    }
  }

  /**
   * `categoryData[key]` after the summing: a catalogue key, or any other non-empty category some
   * transaction carries, holds exactly what was spent in it; nothing else has an entry.
   */
  lemma TotalsGet(ts: seq<Transaction>, key: string)
    ensures Get(Totals(ts), key)
      == if key != "" && (Constants.IsKnown(key) || Mentions(ts, key)) then Some(CategorySpend(ts, key)) else None
  {
    var z := ZeroTotals();
    ZeroTotalsGet(key);
    EmptyKeyUnknown();
    AccumulateGet(z, ts, key);
  }

  /** `Object.keys` after one iteration: a new category is appended, anything else leaves the keys alone. */
  lemma AddToCategoryKeys(m: Tally, t: Transaction)
    ensures Keys(AddToCategory(m, t))
      == if t.category == "" || t.category in Keys(m) then Keys(m) else Keys(m) + [t.category]
  {
    if t.category != "" {
      PutKeys(m, t.category, Get(m, t.category).GetOr(0.0) + t.amount);
    }
  }

  /** The keys after the `forEach` are the starting keys followed by each new category once, in order of first appearance. */
  lemma {:induction false} AccumulateKeys(m: Tally, ts: seq<Transaction>)
    requires Seqs.NoDuplicates(Keys(m))
    ensures Keys(Accumulate(m, ts)) == Seqs.Dedupe(Keys(m) + CategoriesOf(ts))
  {
    if |ts| == 0 {
      assert Keys(m) + CategoriesOf(ts) == Keys(m);
      Seqs.DedupeDistinct(Keys(m));
    } else {
      var n := |ts| - 1;
      var t := ts[n];
      AccumulateKeys(m, ts[..n]);
      AccumulateUnfold(m, ts);
      AddToCategoryKeys(Accumulate(m, ts[..n]), t);
      var s := Keys(m) + CategoriesOf(ts[..n]);
      if t.category == "" {
        assert CategoriesOf(ts) == CategoriesOf(ts[..n]) + [];
        assert Keys(m) + CategoriesOf(ts) == s;
      } else {
        assert CategoriesOf(ts) == CategoriesOf(ts[..n]) + [t.category];
        Seqs.ConcatAssoc(Keys(m), CategoriesOf(ts[..n]), [t.category]);
        Seqs.DedupeSnoc(s, t.category);
      }
    }
  }

  /**
   * `Object.keys(categoryData)`: the 14 catalogue keys in catalogue order, then every other
   * category the transactions carry, once each, in order of first appearance.
   */
  lemma TotalsKeys(ts: seq<Transaction>)
    ensures Keys(Totals(ts))
      == Constants.CategoryKeys() + Seqs.Filter(Seqs.Dedupe(CategoriesOf(ts)), Seqs.NotIn(Constants.CategoryKeys()))
    ensures DistinctKeys(Totals(ts))
  {
    var ks := Constants.CategoryKeys();
    Constants.CategoriesDistinct();
    assert Seqs.NoDuplicates(ks);
    AccumulateKeys(ZeroTotals(), ts);
    Seqs.DedupeConcat(ks, CategoriesOf(ts));
    Seqs.DedupeDistinct(ks);
    DistinctKeysIff(Totals(ts));
  }

  /** One iteration raises the sum of the tally by the amount of a categorized record. */
  lemma AddToCategorySum(m: Tally, t: Transaction)
    ensures SumValues(AddToCategory(m, t)) == SumValues(m) + if t.category != "" then t.amount else 0.0
  {
    if t.category != "" {
      PutSum(m, t.category, Get(m, t.category).GetOr(0.0) + t.amount);
    }
  }

  lemma {:induction false} AccumulateSum(m: Tally, ts: seq<Transaction>)
    ensures SumValues(Accumulate(m, ts)) == SumValues(m) + TotalExpenses(Seqs.Filter(ts, Categorized()))
  {
    if |ts| > 0 {
      var n := |ts| - 1;
      AccumulateSum(m, ts[..n]);
      AccumulateUnfold(m, ts);
      AddToCategorySum(Accumulate(m, ts[..n]), ts[n]);
      FilteredTotalSnoc(ts, Categorized());
    }
  }

  /** The tally splits the categorized spending among its entries without loss: uncategorized records are the only ones left out. */
  lemma TotalsSum(ts: seq<Transaction>)
    ensures SumValues(Totals(ts)) == TotalExpenses(Seqs.Filter(ts, Categorized()))
  {
    Seqs.SumOfZero(ZeroTotals(), (e: (string, real)) => e.1);
    AccumulateSum(ZeroTotals(), ts);
  }
}
