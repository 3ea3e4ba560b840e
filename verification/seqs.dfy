/** Array helpers the components use: filter, reduce-to-a-sum, slice and Set-based de-duplication. */
module Seqs {
  import opened Wrappers

  /** `s.filter(p)`: the elements that satisfy `p`, in their original order. */
  function Filter<T>(s: seq<T>, p: T -> bool): (r: seq<T>)
    ensures |r| <= |s|
    ensures forall i :: 0 <= i < |r| ==> p(r[i])
  {
    if |s| == 0 then []
    else Filter(s[..|s| - 1], p) + (if p(s[|s| - 1]) then [s[|s| - 1]] else [])
  }

  /** Filtering keeps exactly the elements that satisfy the predicate. */
  lemma {:induction false} FilterMember<T>(s: seq<T>, p: T -> bool, x: T)
    ensures x in Filter(s, p) <==> x in s && p(x)
  {
    if |s| > 0 {
      var n := |s| - 1;
      FilterMember(s[..n], p, x);
      assert s == s[..n] + [s[n]];
    }
  }

  /** Filtering distributes over concatenation, so it never reorders what it keeps. */
  lemma {:induction false} FilterConcat<T>(a: seq<T>, b: seq<T>, p: T -> bool)
    ensures Filter(a + b, p) == Filter(a, p) + Filter(b, p)
  {
    if |b| == 0 {
      assert a + b == a;
    } else {
      var b' := b[..|b| - 1];
      assert (a + b)[..|a + b| - 1] == a + b';
      FilterConcat(a, b', p);
    }
  }

  /** Filtering one more element at the end. */
  lemma FilterSnoc<T>(s: seq<T>, x: T, p: T -> bool)
    ensures Filter(s + [x], p) == Filter(s, p) + (if p(x) then [x] else [])
  {
    assert (s + [x])[..|s|] == s;
  }

  /** When one of two pieces is empty their order does not matter; kept as a lemma so the proofs that need it do not search for it. */
  lemma SwapEmpty<T>(a: seq<T>, b: seq<T>, c: seq<T>)
    requires b == [] || c == []
    ensures (a + b) + c == (a + c) + b
  {
  }

  /** Filtering keeps relative order: two kept elements come from positions in the same order. */
  lemma {:induction false} FilterOrder<T>(s: seq<T>, p: T -> bool, i: int, j: int) returns (a: int, c: int)
    requires 0 <= i < j < |Filter(s, p)|
    ensures 0 <= a < c < |s| && s[a] == Filter(s, p)[i] && s[c] == Filter(s, p)[j]
  {
    var n := |s| - 1;
    var f := Filter(s[..n], p);
    if j < |f| {
      a, c := FilterOrder(s[..n], p, i, j);
    } else {
      FilterMember(s[..n], p, f[i]);
      a :| 0 <= a < n && s[..n][a] == f[i];
      c := n;
    }
  }

  /** `s.map(f)`. */
  function Map<T, U>(s: seq<T>, f: T -> U): (r: seq<U>)
    ensures |r| == |s|
  {
    seq(|s|, i requires 0 <= i < |s| => f(s[i]))
  }

  /** Mapping what a filter keeps is filtering the mapped sequence, when the filter only looks at the image. */
  lemma {:induction false} MapFilter<T, U>(s: seq<T>, p: T -> bool, f: T -> U, q: U -> bool)
    requires forall i :: 0 <= i < |s| ==> p(s[i]) == q(f(s[i]))
    ensures Map(Filter(s, p), f) == Filter(Map(s, f), q)
  {
    if |s| > 0 {
      var n := |s| - 1;
      var kept := Filter(s[..n], p);
      MapFilter(s[..n], p, f, q);
      assert Map(s, f)[..n] == Map(s[..n], f);
      assert Map(s, f) == Map(s[..n], f) + [f(s[n])];
      FilterSnoc(Map(s[..n], f), f(s[n]), q);
      var tail := if p(s[n]) then [s[n]] else [];
      assert Map(kept + tail, f) == Map(kept, f) + Map(tail, f);
    }
  }

  /** Filtering with a predicate no element satisfies keeps nothing. */
  lemma {:induction false} FilterNone<T>(s: seq<T>, p: T -> bool)
    requires forall i :: 0 <= i < |s| ==> !p(s[i])
    ensures Filter(s, p) == []
  {
    if |s| > 0 {
      FilterNone(s[..|s| - 1], p);
    }
  }

  /** Filtering with a predicate every element satisfies changes nothing. */
  lemma {:induction false} FilterAll<T>(s: seq<T>, p: T -> bool)
    requires forall i :: 0 <= i < |s| ==> p(s[i])
    ensures Filter(s, p) == s
  {
    if |s| > 0 {
      FilterAll(s[..|s| - 1], p);
    }
  }

  /** `s.reduce((acc, x) => acc + f(x), 0)`. */
  function SumOf<T>(s: seq<T>, f: T -> real): real {
    if |s| == 0 then 0.0 else SumOf(s[..|s| - 1], f) + f(s[|s| - 1])
  }

  lemma {:induction false} SumOfConcat<T>(a: seq<T>, b: seq<T>, f: T -> real)
    ensures SumOf(a + b, f) == SumOf(a, f) + SumOf(b, f)
  {
    if |b| == 0 {
      assert a + b == a;
    } else {
      var b' := b[..|b| - 1];
      assert (a + b)[..|a + b| - 1] == a + b';
      SumOfConcat(a, b', f);
    }
  }

  lemma SumOfSnoc<T>(s: seq<T>, x: T, f: T -> real)
    ensures SumOf(s + [x], f) == SumOf(s, f) + f(x)
  {
    assert (s + [x])[..|s|] == s;
  }

  /** A sum of zero terms is zero. */
  lemma {:induction false} SumOfZero<T>(s: seq<T>, f: T -> real)
    requires forall i :: 0 <= i < |s| ==> f(s[i]) == 0.0
    ensures SumOf(s, f) == 0.0
  {
    if |s| > 0 {
      SumOfZero(s[..|s| - 1], f);
    }
  }

  /** Reordering does not change a sum. */
  lemma {:induction false} SumOfPermutation<T>(a: seq<T>, b: seq<T>, f: T -> real)
    requires multiset(a) == multiset(b)
    ensures SumOf(a, f) == SumOf(b, f)
  {
    if |a| > 0 {
      var n := |a| - 1;
      var x := a[n];
      assert a == a[..n] + [x];
      assert x in multiset(b);
      var j :| 0 <= j < |b| && b[j] == x;
      var b' := b[..j] + b[j + 1..];
      assert b == b[..j] + [x] + b[j + 1..];
      assert multiset(b) == multiset(b[..j]) + multiset{x} + multiset(b[j + 1..]);
      assert multiset(b') == multiset(b[..j]) + multiset(b[j + 1..]);
      assert multiset(a) == multiset(a[..n]) + multiset{x};
      assert multiset(a[..n]) == multiset(a) - multiset{x};
      assert multiset(b') == multiset(b) - multiset{x};
      SumOfPermutation(a[..n], b', f);
      SumOfConcat(b[..j] + [x], b[j + 1..], f);
      SumOfConcat(b[..j], [x], f);
      SumOfConcat(b[..j], b[j + 1..], f);
      assert [x][..0] == [];
      assert SumOf([x], f) == f(x);
    }
  }

  /** A sum of non-negative terms is non-negative. */
  lemma {:induction false} SumOfNonNegative<T>(s: seq<T>, f: T -> real)
    requires forall i :: 0 <= i < |s| ==> f(s[i]) >= 0.0
    ensures SumOf(s, f) >= 0.0
  {
    if |s| > 0 {
      SumOfNonNegative(s[..|s| - 1], f);
    }
  }

  /** Replacing one element changes the sum by exactly the difference of the two terms. */
  lemma {:induction false} SumOfUpdate<T>(s: seq<T>, i: nat, x: T, f: T -> real)
    requires i < |s|
    ensures SumOf(s[i := x], f) == SumOf(s, f) - f(s[i]) + f(x)
  {
    var n := |s| - 1;
    if i == n {
      assert s[i := x][..n] == s[..n];
    } else {
      assert s[i := x][..n] == s[..n][i := x];
      SumOfUpdate(s[..n], i, x, f);
    }
  }

  /** The end index `s.slice(0, n)` stops at: negative `n` counts from the end, and the result is clamped to the length. */
  function SliceEnd(len: nat, n: int): (e: nat)
    ensures e <= len
    ensures 0 <= n ==> e == if n < len then n else len
    ensures n < 0 ==> e == if len + n < 0 then 0 else len + n
  {
    if n < 0 then (if len + n < 0 then 0 else len + n)
    else if n < len then n else len
  }

  /** `s.slice(0, n)`. */
  function Take<T>(s: seq<T>, n: int): (r: seq<T>)
    ensures |r| <= |s|
    ensures r == s[..|r|]
    ensures 0 <= n ==> |r| == if n < |s| then n else |s|
  {
    s[..SliceEnd(|s|, n)]
  }

  predicate NoDuplicates<T(==)>(s: seq<T>) {
    forall i, j :: 0 <= i < j < |s| ==> s[i] != s[j]
  }

  /** `[...new Set(s)]`: each value once, at the position of its first occurrence. */
  function Dedupe<T(==)>(s: seq<T>): (r: seq<T>)
    ensures NoDuplicates(r)
    ensures forall i :: 0 <= i < |r| ==> r[i] in s
    ensures forall i :: 0 <= i < |s| ==> s[i] in r
    ensures |r| <= |s|
  {
    if |s| == 0 then []
    else
      var d := Dedupe(s[..|s| - 1]);
      if s[|s| - 1] in d then d else d + [s[|s| - 1]]
  }

  /** The predicate "not among the values of `a`". */
  function NotIn<T(==)>(a: seq<T>): T -> bool {
    x => x !in a
  }

  /** Concatenation is associative; kept as a lemma so the proofs that need it do not search for it. */
  lemma ConcatAssoc<T>(a: seq<T>, b: seq<T>, c: seq<T>)
    ensures (a + b) + c == a + (b + c)
  {
  }

  /** De-duplicating one more value at the end: it is kept only if it is new. */
  lemma DedupeSnoc<T>(s: seq<T>, x: T)
    ensures Dedupe(s + [x]) == if x in Dedupe(s) then Dedupe(s) else Dedupe(s) + [x]
  {
    assert (s + [x])[..|s|] == s;
  }

  /** A value survives de-duplication exactly when it occurs. */
  lemma DedupeMember<T>(s: seq<T>, x: T)
    ensures x in Dedupe(s) <==> x in s
  {
    var d := Dedupe(s);
    if x in d { var i :| 0 <= i < |d| && d[i] == x; }
    if x in s { var i :| 0 <= i < |s| && s[i] == x; }
  }

  /** De-duplicating a concatenation keeps the de-duplicated front and then only the new values of the back, in their first-occurrence order. */
  lemma {:induction false} DedupeConcat<T>(a: seq<T>, b: seq<T>)
    ensures Dedupe(a + b) == Dedupe(a) + Filter(Dedupe(b), NotIn(a))
  {
    if |b| == 0 {
      assert a + b == a;
      assert Filter(Dedupe(b), NotIn(a)) == [];
    } else {
      var b' := b[..|b| - 1];
      var x := b[|b| - 1];
      assert (a + b)[..|a + b| - 1] == a + b';
      assert Dedupe(a + b) == var d := Dedupe(a + b'); if x in d then d else d + [x];
      DedupeConcat(a, b');
      var db := Dedupe(b');
      var d := Dedupe(a + b');
      var p := NotIn(a);
      assert d == Dedupe(a) + Filter(db, p);
      DedupeMember(a + b', x);
      DedupeMember(b', x);
      if x in db {
        assert x in a + b';
        assert Dedupe(b) == db;
        assert Dedupe(a + b) == d;
      } else {
        assert Dedupe(b) == db + [x];
        FilterSnoc(db, x, p);
        if x in a {
          assert x in a + b';
          assert Dedupe(a + b) == d;
          assert Filter(Dedupe(b), p) == Filter(db, p);
        } else {
          assert x !in a + b';
          assert Dedupe(a + b) == d + [x];
          assert Filter(Dedupe(b), p) == Filter(db, p) + [x];
          ConcatAssoc(Dedupe(a), Filter(db, p), [x]);
        }
      }
    }
  }

  /** A sequence without repetitions is its own de-duplication. */
  lemma {:induction false} DedupeDistinct<T>(s: seq<T>)
    requires NoDuplicates(s)
    ensures Dedupe(s) == s
  {
    if |s| > 0 {
      DedupeDistinct(s[..|s| - 1]);
      assert s[|s| - 1] !in s[..|s| - 1];
    }
  }

  /** `s.find(p)`: the first element that satisfies `p`, if any. */
  function Find<T>(s: seq<T>, p: T -> bool): (r: Option<T>)
    ensures r.Some? ==> r.value in s && p(r.value)
    ensures r.None? ==> forall i :: 0 <= i < |s| ==> !p(s[i])
  {
    if |s| == 0 then None
    else if p(s[0]) then Some(s[0])
    else Find(s[1..], p)
  }

  /** When `x` is the only element that can satisfy `p`, `find` returns it exactly when it occurs. */
  lemma FindOnly<T>(s: seq<T>, p: T -> bool, x: T)
    requires forall i :: 0 <= i < |s| && p(s[i]) ==> s[i] == x
    requires p(x)
    ensures Find(s, p) == if x in s then Some(x) else None
  {
    if x in s {
      var i :| 0 <= i < |s| && s[i] == x;
    }
  }

  /** Filtering keeps elements apart under `f` if they were apart before. */
  lemma {:induction false} FilterKeepsDistinctBy<T, K>(s: seq<T>, p: T -> bool, f: T -> K)
    requires forall i, j :: 0 <= i < j < |s| ==> f(s[i]) != f(s[j])
    ensures forall i, j :: 0 <= i < j < |Filter(s, p)| ==> f(Filter(s, p)[i]) != f(Filter(s, p)[j])
  {
    if |s| > 0 {
      var n := |s| - 1;
      var r := Filter(s[..n], p);
      FilterKeepsDistinctBy(s[..n], p, f);
      if p(s[n]) {
        forall i | 0 <= i < |r|
          ensures f(r[i]) != f(s[n])
        {
          FilterMember(s[..n], p, r[i]);
          var j :| 0 <= j < n && s[..n][j] == r[i];
        }
      }
    }
  }

  /** The values `f` yields, in order, skipping the elements it yields nothing for (a `forEach` that pushes conditionally). */
  function Collect<T, U>(s: seq<T>, f: T -> Option<U>): (r: seq<U>)
    ensures |r| <= |s|
  {
    if |s| == 0 then []
    else
      var y := f(s[|s| - 1]);
      Collect(s[..|s| - 1], f) + if y.Some? then [y.value] else []
  }

  /** A value is collected exactly when some element yields it. */
  lemma {:induction false} CollectMember<T, U>(s: seq<T>, f: T -> Option<U>, x: U)
    ensures x in Collect(s, f) <==> exists i :: 0 <= i < |s| && f(s[i]) == Some(x)
  {
    if |s| > 0 {
      var n := |s| - 1;
      CollectMember(s[..n], f, x);
      if exists i :: 0 <= i < n && f(s[..n][i]) == Some(x) {
        var i :| 0 <= i < n && f(s[..n][i]) == Some(x);
        assert s[i] == s[..n][i];
      }
      if exists i :: 0 <= i < |s| && f(s[i]) == Some(x) {
        var i :| 0 <= i < |s| && f(s[i]) == Some(x);
        if i < n {
          assert s[..n][i] == s[i];
        }
      }
    }
  }
}
