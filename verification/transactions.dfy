/** Transaction records and the collection operations of the application state. */
module Transactions {
  import opened Wrappers
  import Seqs

  /** A calendar date; `month` runs from 1 to 12 (the source's `getMonth() + 1`). */
  datatype Date = Date(year: int, month: int, day: int)

  /** The month-and-year bucket of a date. */
  datatype Period = Period(year: int, month: int)

  function PeriodOf(d: Date): Period {
    Period(d.year, d.month)
  }

  /** `a` is no later than `b`, at day precision. */
  predicate DateLe(a: Date, b: Date) {
    || a.year < b.year
    || (a.year == b.year && a.month < b.month)
    || (a.year == b.year && a.month == b.month && a.day <= b.day)
  }

  /** A stored expense. `category` is "" when the record has none (any falsy value in the source). */
  datatype Transaction = Transaction(id: int, amount: real, date: Date, description: string, category: string)

  /** What the transaction form submits: `id` is absent when adding and the edited record's id when editing. */
  datatype Draft = Draft(id: Option<int>, amount: real, date: Date, description: string, category: string)

  function Amount(t: Transaction): real {
    t.amount
  }

  function InPeriod(p: Period): Transaction -> bool {
    (t: Transaction) => PeriodOf(t.date) == p
  }

  function HasId(id: int): Transaction -> bool {
    (t: Transaction) => t.id == id
  }

  function LacksId(id: int): Transaction -> bool {
    (t: Transaction) => t.id != id
  }

  predicate IdAbsent(ts: seq<Transaction>, id: int) {
    forall i :: 0 <= i < |ts| ==> ts[i].id != id
  }

  /** `[...transactions, { ...transaction, id: Date.now() }]`, with the clock reading passed in as `freshId`. */
  function AddTransaction(ts: seq<Transaction>, d: Draft, freshId: int): (r: seq<Transaction>)
    ensures |r| == |ts| + 1
    ensures r[..|ts|] == ts
    ensures r[|ts|].id == freshId
    ensures r[|ts|].amount == d.amount && r[|ts|].date == d.date
    ensures r[|ts|].description == d.description && r[|ts|].category == d.category
  {
    ts + [Transaction(freshId, d.amount, d.date, d.description, d.category)]
  }

  /** `transactions.map(t => t.id === updated.id ? updated : t)`. */
  function UpdateTransaction(ts: seq<Transaction>, u: Transaction): (r: seq<Transaction>)
    ensures |r| == |ts|
    ensures forall i :: 0 <= i < |ts| && ts[i].id == u.id ==> r[i] == u
    ensures forall i :: 0 <= i < |ts| && ts[i].id != u.id ==> r[i] == ts[i]
    ensures IdAbsent(ts, u.id) ==> r == ts
  {
    if |ts| == 0 then []
    else
      var t := ts[|ts| - 1];
      UpdateTransaction(ts[..|ts| - 1], u) + [if t.id == u.id then u else t]
  }

  /** `transactions.filter(t => t.id !== id)`. */
  function DeleteTransaction(ts: seq<Transaction>, id: int): (r: seq<Transaction>)
    ensures IdAbsent(r, id)
    ensures forall t: Transaction :: t.id != id ==> multiset(r)[t] == multiset(ts)[t]
    ensures IdAbsent(ts, id) ==> r == ts
    ensures |r| + |Seqs.Filter(ts, HasId(id))| == |ts|
  {
    DeleteFacts(ts, id);
    Seqs.Filter(ts, LacksId(id))
  }

  lemma DeleteFacts(ts: seq<Transaction>, id: int)
    ensures forall t: Transaction :: t.id != id ==> multiset(Seqs.Filter(ts, LacksId(id)))[t] == multiset(ts)[t]
    ensures IdAbsent(ts, id) ==> Seqs.Filter(ts, LacksId(id)) == ts
    ensures |Seqs.Filter(ts, LacksId(id))| + |Seqs.Filter(ts, HasId(id))| == |ts|
  {
    if IdAbsent(ts, id) {
      Seqs.FilterAll(ts, LacksId(id));
    }
    DeleteKeepsOthers(ts, id);
    DeleteCount(ts, id);
  }

  lemma {:induction false} DeleteKeepsOthers(ts: seq<Transaction>, id: int)
    ensures forall t: Transaction :: t.id != id ==> multiset(Seqs.Filter(ts, LacksId(id)))[t] == multiset(ts)[t]
  {
    if |ts| > 0 {
      var n := |ts| - 1;
      DeleteKeepsOthers(ts[..n], id);
      assert ts == ts[..n] + [ts[n]];
      Seqs.FilterSnoc(ts[..n], ts[n], LacksId(id));
      assert multiset(ts) == multiset(ts[..n]) + multiset{ts[n]};
    }
  }

  lemma {:induction false} DeleteCount(ts: seq<Transaction>, id: int)
    ensures |Seqs.Filter(ts, LacksId(id))| + |Seqs.Filter(ts, HasId(id))| == |ts|
  {
    if |ts| > 0 {
      var n := |ts| - 1;
      DeleteCount(ts[..n], id);
      assert ts == ts[..n] + [ts[n]];
      Seqs.FilterSnoc(ts[..n], ts[n], LacksId(id));
      Seqs.FilterSnoc(ts[..n], ts[n], HasId(id));
    }
  }

  /** Deleting keeps the survivors in order: it distributes over concatenation. */
  lemma DeleteConcat(a: seq<Transaction>, b: seq<Transaction>, id: int)
    ensures DeleteTransaction(a + b, id) == DeleteTransaction(a, id) + DeleteTransaction(b, id)
  {
    Seqs.FilterConcat(a, b, LacksId(id));
  }

  /** Adding a record under an id nobody has and deleting that id gives the original collection back. */
  lemma AddThenDeleteRestores(ts: seq<Transaction>, d: Draft, freshId: int)
    requires IdAbsent(ts, freshId)
    ensures DeleteTransaction(AddTransaction(ts, d, freshId), freshId) == ts
  {
    var t := Transaction(freshId, d.amount, d.date, d.description, d.category);
    DeleteConcat(ts, [t], freshId);
    Seqs.FilterNone([t], LacksId(freshId));
  }

  /** Deleting twice is deleting once. */
  lemma DeleteIdempotent(ts: seq<Transaction>, id: int)
    ensures DeleteTransaction(DeleteTransaction(ts, id), id) == DeleteTransaction(ts, id)
  {
  }

  /** Replaying an update changes nothing more. */
  lemma UpdateIdempotent(ts: seq<Transaction>, u: Transaction)
    ensures UpdateTransaction(UpdateTransaction(ts, u), u) == UpdateTransaction(ts, u)
  {
  }

  /** With unique ids, updating a record with itself changes nothing. */
  lemma UpdateUnchanged(ts: seq<Transaction>, i: int)
    requires 0 <= i < |ts|
    requires forall a, b :: 0 <= a < b < |ts| ==> ts[a].id != ts[b].id
    ensures UpdateTransaction(ts, ts[i]) == ts
  {
    var u := UpdateTransaction(ts, ts[i]);
    forall j | 0 <= j < |ts|
      ensures u[j] == ts[j]
    {
    }
  }

  /** `getTotalExpenses`: the sum of every amount. */
  function TotalExpenses(ts: seq<Transaction>): real {
    Seqs.SumOf(ts, Amount)
  }

  /** Adding a record raises the total by its amount; deleting an id lowers it by the amounts carrying that id. */
  lemma TotalAfterChanges(ts: seq<Transaction>, d: Draft, freshId: int, id: int)
    ensures TotalExpenses(AddTransaction(ts, d, freshId)) == TotalExpenses(ts) + d.amount
    ensures TotalExpenses(DeleteTransaction(ts, id)) == TotalExpenses(ts) - TotalExpenses(Seqs.Filter(ts, HasId(id)))
  {
    Seqs.SumOfSnoc(ts, Transaction(freshId, d.amount, d.date, d.description, d.category), Amount);
    SplitById(ts, id);
  }

  lemma {:induction false} SplitById(ts: seq<Transaction>, id: int)
    ensures TotalExpenses(ts) == TotalExpenses(Seqs.Filter(ts, LacksId(id))) + TotalExpenses(Seqs.Filter(ts, HasId(id)))
  {
    if |ts| > 0 {
      var n := |ts| - 1;
      SplitById(ts[..n], id);
      assert ts == ts[..n] + [ts[n]];
      Seqs.FilterSnoc(ts[..n], ts[n], LacksId(id));
      Seqs.FilterSnoc(ts[..n], ts[n], HasId(id));
      Seqs.SumOfSnoc(ts[..n], ts[n], Amount);
      var keep, drop := Seqs.Filter(ts[..n], LacksId(id)), Seqs.Filter(ts[..n], HasId(id));
      if ts[n].id == id {
        assert Seqs.Filter(ts, LacksId(id)) == keep + [];
        assert keep + [] == keep;
        Seqs.SumOfSnoc(drop, ts[n], Amount);
      } else {
        assert Seqs.Filter(ts, HasId(id)) == drop + [];
        assert drop + [] == drop;
        Seqs.SumOfSnoc(keep, ts[n], Amount);
      }
    }
  }

  /** The total of the records that satisfy `p`, taken one record at a time. */
  lemma FilteredTotalSnoc(ts: seq<Transaction>, p: Transaction -> bool)
    requires |ts| > 0
    ensures TotalExpenses(Seqs.Filter(ts, p))
      == TotalExpenses(Seqs.Filter(ts[..|ts| - 1], p)) + if p(ts[|ts| - 1]) then ts[|ts| - 1].amount else 0.0
  {
    var n := |ts| - 1;
    var f := Seqs.Filter(ts[..n], p);
    assert Seqs.Filter(ts, p) == f + (if p(ts[n]) then [ts[n]] else []);
    if p(ts[n]) {
      Seqs.SumOfSnoc(f, ts[n], Amount);
    } else {
      assert f + [] == f;
    }
  }

  /** The collection at start-up: the stored one, or empty when nothing is stored. */
  function LoadTransactions(stored: Option<seq<Transaction>>): seq<Transaction> {
    stored.GetOr([])
  }
}
