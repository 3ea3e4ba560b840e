/**
 * The monthly expense series: amounts summed per (month, year) and sorted chronologically. The
 * dashboard computes it over every transaction; the category report over one category's.
 */
module Monthly {
  import opened Wrappers
  import opened OrderedMap
  import Seqs
  import StableSort
  import opened Transactions

  type Series = OMap<Period, real>

  /** The comparator on the `"month/year"` keys: year first, then month. `PeriodLe(a, b)` is `compare(a, b) <= 0`. */
  function PeriodLe(a: (Period, real), b: (Period, real)): bool {
    a.0.year < b.0.year || (a.0.year == b.0.year && a.0.month <= b.0.month)
  }

  predicate PeriodBefore(p: Period, q: Period) {
    p.year < q.year || (p.year == q.year && p.month < q.month)
  }

  predicate HasPeriod(ts: seq<Transaction>, p: Period) {
    exists i :: 0 <= i < |ts| && PeriodOf(ts[i].date) == p
  }

  /** Everything spent in period `p`. */
  function PeriodTotal(ts: seq<Transaction>, p: Period): real {
    TotalExpenses(Seqs.Filter(ts, InPeriod(p)))
  }

  /** One iteration of the `forEach`: `monthlyData[key] = (monthlyData[key] || 0) + amount`. */
  function AddToBucket(m: Series, t: Transaction): Series {
    var p := PeriodOf(t.date);
    Put(m, p, Get(m, p).GetOr(0.0) + t.amount)
  }

  /** Only the transaction's own bucket changes, by its amount (starting from 0 when new). */
  lemma AddToBucketGet(m: Series, t: Transaction, p: Period)
    ensures Get(AddToBucket(m, t), p)
      == if PeriodOf(t.date) == p then Some(Get(m, p).GetOr(0.0) + t.amount) else Get(m, p)
  {
  }

  /** The `forEach` that fills `monthlyData`: one bucket per period, in first-seen order. */
  function GroupByPeriod(ts: seq<Transaction>): Series {
    if |ts| == 0 then [] else AddToBucket(GroupByPeriod(ts[..|ts| - 1]), ts[|ts| - 1])
  }

  /** Each period has one bucket: the grouping never repeats a key. */
  lemma {:induction false} GroupByPeriodDistinct(ts: seq<Transaction>)
    ensures DistinctKeys(GroupByPeriod(ts))
  {
    if |ts| > 0 {
      var n := |ts| - 1;
      GroupByPeriodDistinct(ts[..n]);
      GroupUnfold(ts);
      AddToBucketDistinct(GroupByPeriod(ts[..n]), ts[n]);
    }
  }

  lemma AddToBucketDistinct(m: Series, t: Transaction)
    requires DistinctKeys(m)
    ensures DistinctKeys(AddToBucket(m, t))
  {
    var p := PeriodOf(t.date);
    PutKeepsKeysDistinct(m, p, Get(m, p).GetOr(0.0) + t.amount);
  }

  /** Each bucket holds exactly the total of its period, and only periods that occur have one. */
  lemma {:induction false} GroupByPeriodContents(ts: seq<Transaction>, p: Period)
    ensures Get(GroupByPeriod(ts), p) == if HasPeriod(ts, p) then Some(PeriodTotal(ts, p)) else None
  {
    if |ts| > 0 {
      var n := |ts| - 1;
      GroupByPeriodContents(ts[..n], p);
      GroupStepGet(ts, p);
      HasPeriodSnoc(ts, p);
      PeriodTotalSnoc(ts, p);
      if !HasPeriod(ts[..n], p) {
        NoPeriodNoTotal(ts[..n], p);
      }
      BucketInduction(Get(GroupByPeriod(ts), p), Get(GroupByPeriod(ts[..n]), p),
        HasPeriod(ts, p), HasPeriod(ts[..n], p), PeriodOf(ts[n].date) == p,
        ts[n].amount, PeriodTotal(ts, p), PeriodTotal(ts[..n], p));
    }
  }

  /** The inductive step of `GroupByPeriodContents`, stated over the values involved. */
  lemma BucketInduction(now: Option<real>, before: Option<real>, hasNow: bool, hasBefore: bool,
                        same: bool, x: real, totalNow: real, totalBefore: real)
    requires now == if same then Some(before.GetOr(0.0) + x) else before
    requires before == if hasBefore then Some(totalBefore) else None
    requires hasNow <==> hasBefore || same
    requires totalNow == totalBefore + if same then x else 0.0
    requires !hasBefore ==> totalBefore == 0.0
    ensures now == if hasNow then Some(totalNow) else None
  {
  }

  lemma {:induction false} GroupStepGet(ts: seq<Transaction>, p: Period)
    requires |ts| > 0
    ensures var before := Get(GroupByPeriod(ts[..|ts| - 1]), p);
      Get(GroupByPeriod(ts), p)
      == if PeriodOf(ts[|ts| - 1].date) == p then Some(before.GetOr(0.0) + ts[|ts| - 1].amount) else before
  {
    GroupUnfold(ts);
    AddToBucketGet(GroupByPeriod(ts[..|ts| - 1]), ts[|ts| - 1], p);
  }

  lemma {:induction false} GroupUnfold(ts: seq<Transaction>)
    requires |ts| > 0
    ensures GroupByPeriod(ts) == AddToBucket(GroupByPeriod(ts[..|ts| - 1]), ts[|ts| - 1])
  {
  }

  lemma HasPeriodSnoc(ts: seq<Transaction>, p: Period)
    requires |ts| > 0
    ensures HasPeriod(ts, p) <==> HasPeriod(ts[..|ts| - 1], p) || PeriodOf(ts[|ts| - 1].date) == p
  {
    var n := |ts| - 1;
    if HasPeriod(ts, p) && PeriodOf(ts[n].date) != p {
      var i :| 0 <= i < |ts| && PeriodOf(ts[i].date) == p;
      assert i < n && ts[..n][i] == ts[i];
    }
    if HasPeriod(ts[..n], p) {
      var i :| 0 <= i < n && PeriodOf(ts[..n][i].date) == p;
      assert ts[i] == ts[..n][i];
    }
  }

  lemma PeriodTotalSnoc(ts: seq<Transaction>, p: Period)
    requires |ts| > 0
    ensures PeriodTotal(ts, p)
      == PeriodTotal(ts[..|ts| - 1], p) + if PeriodOf(ts[|ts| - 1].date) == p then ts[|ts| - 1].amount else 0.0
  {
    FilteredTotalSnoc(ts, InPeriod(p));
  }

  lemma NoPeriodNoTotal(ts: seq<Transaction>, p: Period)
    requires !HasPeriod(ts, p)
    ensures PeriodTotal(ts, p) == 0.0
  {
    Seqs.FilterNone(ts, InPeriod(p));
  }

  /** The buckets partition the transactions: together they hold the total of all expenses. */
  lemma {:induction false} GroupByPeriodSum(ts: seq<Transaction>)
    ensures SumValues(GroupByPeriod(ts)) == TotalExpenses(ts)
  {
    if |ts| > 0 {
      var n := |ts| - 1;
      GroupByPeriodSum(ts[..n]);
      GroupStepSum(ts);
      LastAmount(ts);
    }
  }

  lemma {:induction false} GroupStepSum(ts: seq<Transaction>)
    requires |ts| > 0
    ensures SumValues(GroupByPeriod(ts)) == SumValues(GroupByPeriod(ts[..|ts| - 1])) + ts[|ts| - 1].amount
  {
    AddToBucketSum(GroupByPeriod(ts[..|ts| - 1]), ts[|ts| - 1]);
  }

  /** Adding a transaction to its bucket raises the sum of all buckets by its amount. */
  lemma AddToBucketSum(m: Series, t: Transaction)
    ensures SumValues(AddToBucket(m, t)) == SumValues(m) + t.amount
  {
    var p := PeriodOf(t.date);
    PutSum(m, p, Get(m, p).GetOr(0.0) + t.amount);
  }

  lemma {:induction false} LastAmount(ts: seq<Transaction>)
    requires |ts| > 0
    ensures TotalExpenses(ts) == TotalExpenses(ts[..|ts| - 1]) + ts[|ts| - 1].amount
  {
  }

  /** `getMonthlyData` (and the grouping and sort of `getMonthlyDataForCategory`). */
  function MonthlySeries(ts: seq<Transaction>): Series {
    StableSort.Sort(GroupByPeriod(ts), PeriodLe)
  }

  lemma PeriodLePreorder()
    ensures StableSort.TotalPreorder(PeriodLe)
  {
  }

  /** The series is sorted strictly ascending by year, then month: no period appears twice. */
  lemma MonthlySeriesAscending(ts: seq<Transaction>)
    ensures var r := MonthlySeries(ts);
      forall i, j :: 0 <= i < j < |r| ==> PeriodBefore(r[i].0, r[j].0)
  {
    var g := GroupByPeriod(ts);
    var r := MonthlySeries(ts);
    PeriodLePreorder();
    GroupByPeriodDistinct(ts);
    StableSort.SortSorted(g, PeriodLe);
    PermutationKeepsKeysDistinct(g, r);
    forall i, j | 0 <= i < j < |r|
      ensures PeriodBefore(r[i].0, r[j].0)
    {
      assert PeriodLe(r[i], r[j]);
    }
  }

  /** Every entry is a period that occurs, carrying that period's total. */
  lemma MonthlySeriesEntries(ts: seq<Transaction>)
    ensures var r := MonthlySeries(ts);
      forall i :: 0 <= i < |r| ==> HasPeriod(ts, r[i].0) && r[i].1 == PeriodTotal(ts, r[i].0)
  {
    var g := GroupByPeriod(ts);
    var r := MonthlySeries(ts);
    forall i | 0 <= i < |r|
      ensures HasPeriod(ts, r[i].0) && r[i].1 == PeriodTotal(ts, r[i].0)
    {
      assert r[i] in multiset(g);
      var k :| 0 <= k < |g| && g[k] == r[i];
      GroupByPeriodDistinct(ts);
      GetAt(g, k);
      GroupByPeriodContents(ts, r[i].0);
    }
  }

  /** Every period in which something was spent has an entry. */
  lemma MonthlySeriesCovers(ts: seq<Transaction>)
    ensures var r := MonthlySeries(ts);
      forall k :: 0 <= k < |ts| ==> PeriodOf(ts[k].date) in Keys(r)
  {
    var g := GroupByPeriod(ts);
    var r := MonthlySeries(ts);
    forall k | 0 <= k < |ts|
      ensures PeriodOf(ts[k].date) in Keys(r)
    {
      var p := PeriodOf(ts[k].date);
      GroupByPeriodContents(ts, p);
      GetFound(g, p);
      var j :| 0 <= j < |g| && g[j] == (p, Get(g, p).value);
      assert g[j] in multiset(r);
      var i :| 0 <= i < |r| && r[i] == g[j];
      assert Keys(r)[i] == p;
    }
  }

  /** The monthly totals add up to the total expenses. */
  lemma MonthlySeriesSum(ts: seq<Transaction>)
    ensures SumValues(MonthlySeries(ts)) == TotalExpenses(ts)
  {
    var g := GroupByPeriod(ts);
    Seqs.SumOfPermutation(MonthlySeries(ts), g, (e: (Period, real)) => e.1);
    GroupByPeriodSum(ts);
  }
}
