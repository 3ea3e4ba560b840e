/**
 * `Array.prototype.sort` with a comparator. The sort is stable (required since ES2019), and for a
 * comparator that is a total preorder every stable sort produces the same sequence, so a
 * functional insertion sort is an exact model of its result. `le(a, b)` stands for
 * `compare(a, b) <= 0`, i.e. "a may stay in front of b".
 */
module StableSort {
  import Seqs

  ghost predicate TotalPreorder<T(!new)>(le: (T, T) -> bool) {
    && (forall a, b :: le(a, b) || le(b, a))
    && (forall a, b, c :: le(a, b) && le(b, c) ==> le(a, c))
  }

  predicate Sorted<T>(s: seq<T>, le: (T, T) -> bool) {
    forall i, j :: 0 <= i < j < |s| ==> le(s[i], s[j])
  }

  /** Where insertion sort puts `x` into `s`: just after the last element that may stay in front of it. */
  function InsertionPoint<T>(x: T, s: seq<T>, le: (T, T) -> bool): (k: nat)
    ensures k <= |s|
    ensures 0 < k ==> le(s[k - 1], x)
    ensures forall i :: k <= i < |s| ==> !le(s[i], x)
  {
    if |s| == 0 then 0
    else if le(s[|s| - 1], x) then |s|
    else InsertionPoint(x, s[..|s| - 1], le)
  }

  function Insert<T>(x: T, s: seq<T>, le: (T, T) -> bool): (r: seq<T>)
    ensures |r| == |s| + 1
    ensures multiset(r) == multiset(s) + multiset{x}
  {
    var k := InsertionPoint(x, s, le);
    assert s == s[..k] + s[k..];
    s[..k] + [x] + s[k..]
  }

  /** The result of sorting `s` with a stable sort. */
  function Sort<T>(s: seq<T>, le: (T, T) -> bool): (r: seq<T>)
    ensures |r| == |s|
    ensures multiset(r) == multiset(s)
  {
    if |s| == 0 then []
    else
      assert s == s[..|s| - 1] + [s[|s| - 1]];
      Insert(s[|s| - 1], Sort(s[..|s| - 1], le), le)
  }

  lemma InsertSorted<T(!new)>(x: T, s: seq<T>, le: (T, T) -> bool)
    requires TotalPreorder(le)
    requires Sorted(s, le)
    ensures Sorted(Insert(x, s, le), le)
  {
    var k := InsertionPoint(x, s, le);
    var r := Insert(x, s, le);
    assert r == s[..k] + [x] + s[k..];
    forall i | 0 <= i < k
      ensures le(s[i], x)
    {
      if i < k - 1 {
        assert le(s[i], s[k - 1]);
      }
    }
    forall i | k <= i < |s|
      ensures le(x, s[i])
    {
      assert !le(s[i], x);
    }
    SortedAround(x, s, k, le);
  }

  /** A sorted sequence with `x` put where everything before may precede it and it may precede everything after stays sorted. */
  lemma SortedAround<T>(x: T, s: seq<T>, k: nat, le: (T, T) -> bool)
    requires k <= |s|
    requires Sorted(s, le)
    requires forall i :: 0 <= i < k ==> le(s[i], x)
    requires forall i :: k <= i < |s| ==> le(x, s[i])
    ensures Sorted(s[..k] + [x] + s[k..], le)
  {
    var r := s[..k] + [x] + s[k..];
    forall i, j | 0 <= i < j < |r|
      ensures le(r[i], r[j])
    {
      if j < k {
        assert r[i] == s[i] && r[j] == s[j];
      } else if j == k {
        assert r[i] == s[i] && r[j] == x;
      } else if i == k {
        assert r[i] == x && r[j] == s[j - 1];
      } else if i < k {
        assert r[i] == s[i] && r[j] == s[j - 1];
      } else {
        assert r[i] == s[i - 1] && r[j] == s[j - 1];
      }
    }
  }

  /** A stable sort with a total-preorder comparator returns its input in order. */
  lemma {:induction false} SortSorted<T(!new)>(s: seq<T>, le: (T, T) -> bool)
    requires TotalPreorder(le)
    ensures Sorted(Sort(s, le), le)
  {
    if |s| > 0 {
      SortSorted(s[..|s| - 1], le);
      InsertSorted(s[|s| - 1], Sort(s[..|s| - 1], le), le);
    }
  }

  /** The elements that compare equal to `e`. */
  function SameRank<T>(le: (T, T) -> bool, e: T): T -> bool {
    y => le(y, e) && le(e, y)
  }

  lemma InsertStable<T(!new)>(x: T, s: seq<T>, le: (T, T) -> bool, e: T)
    requires TotalPreorder(le)
    ensures Seqs.Filter(Insert(x, s, le), SameRank(le, e))
         == Seqs.Filter(s, SameRank(le, e)) + if SameRank(le, e)(x) then [x] else []
  {
    var p := SameRank(le, e);
    var k := InsertionPoint(x, s, le);
    if p(x) {
      // Nothing equivalent to x lies behind it: such an element would precede x.
      forall i | k <= i < |s|
        ensures !p(s[i])
      {
        if p(s[i]) {
          Transitive(le, s[i], e, x);
        }
      }
      NoneKept(s[k..], p);
    }
    InsertFiltered(x, s, le, p);
  }

  /** Filtering an insertion, given that when `x` is kept nothing kept lies behind it. */
  lemma InsertFiltered<T>(x: T, s: seq<T>, le: (T, T) -> bool, p: T -> bool)
    requires p(x) ==> Seqs.Filter(s[InsertionPoint(x, s, le)..], p) == []
    ensures Seqs.Filter(Insert(x, s, le), p) == Seqs.Filter(s, p) + if p(x) then [x] else []
  {
    FilterSplice(s, InsertionPoint(x, s, le), x, p);
  }

  /** Splicing `x` in at `k` adds it to the end of what is kept, provided nothing kept lies behind it. */
  lemma FilterSplice<T>(s: seq<T>, k: nat, x: T, p: T -> bool)
    requires k <= |s|
    requires p(x) ==> Seqs.Filter(s[k..], p) == []
    ensures Seqs.Filter(s[..k] + [x] + s[k..], p) == Seqs.Filter(s, p) + if p(x) then [x] else []
  {
    var front, back := s[..k], s[k..];
    assert s == front + back;
    Seqs.FilterConcat(front, back, p);
    Seqs.FilterConcat(front + [x], back, p);
    Seqs.FilterSnoc(front, x, p);
    Seqs.SwapEmpty(Seqs.Filter(front, p), if p(x) then [x] else [], Seqs.Filter(back, p));
  }

  lemma Transitive<T(!new)>(le: (T, T) -> bool, a: T, b: T, c: T)
    requires TotalPreorder(le)
    requires le(a, b) && le(b, c)
    ensures le(a, c)
  {
  }

  lemma {:induction false} NoneKept<T>(s: seq<T>, p: T -> bool)
    requires forall i :: 0 <= i < |s| ==> !p(s[i])
    ensures Seqs.Filter(s, p) == []
  {
    if |s| > 0 {
      NoneKept(s[..|s| - 1], p);
    }
  }

  /** Stability: among elements that compare equal, the sort keeps their original relative order. */
  lemma {:induction false} SortStable<T(!new)>(s: seq<T>, le: (T, T) -> bool, e: T)
    requires TotalPreorder(le)
    ensures Seqs.Filter(Sort(s, le), SameRank(le, e)) == Seqs.Filter(s, SameRank(le, e))
  {
    if |s| > 0 {
      var n := |s| - 1;
      SortStable(s[..n], le, e);
      InsertStable(s[n], Sort(s[..n], le), le, e);
    }
  }

  /**
   * Sorting and keeping the first `n` (`slice(0, n)`): what is kept is sorted, no element left
   * out comes strictly before a kept one, and kept plus left out is the whole input.
   */
  lemma SortTake<T(!new)>(s: seq<T>, le: (T, T) -> bool, n: int)
    requires TotalPreorder(le)
    ensures var sorted := Sort(s, le);
      var top := Seqs.Take(sorted, n);
      && multiset(top) + multiset(sorted[|top|..]) == multiset(s)
      && (forall i, j :: 0 <= i < j < |top| ==> le(top[i], top[j]))
      && (forall i, j :: 0 <= i < |top| <= j < |sorted| ==> le(top[i], sorted[j]))
  {
    SortSorted(s, le);
    SortedPrefix(Sort(s, le), le, n);
  }

  /** Cutting a sorted sequence: the kept prefix is sorted and precedes the rest, and the two make up the whole. */
  lemma SortedPrefix<T>(sorted: seq<T>, le: (T, T) -> bool, n: int)
    requires Sorted(sorted, le)
    ensures var top := Seqs.Take(sorted, n);
      && multiset(top) + multiset(sorted[|top|..]) == multiset(sorted)
      && (forall i, j :: 0 <= i < j < |top| ==> le(top[i], top[j]))
      && (forall i, j :: 0 <= i < |top| <= j < |sorted| ==> le(top[i], sorted[j]))
  {
    var top := Seqs.Take(sorted, n);
    assert sorted == top + sorted[|top|..];
  }
}
