/**
 * A JavaScript plain object used as a dictionary: its keys keep their insertion order
 * (`Object.keys`), assigning an existing key updates it in place, and assigning a new key
 * appends it. Modelled as an association list whose keys are kept distinct.
 */
module OrderedMap {
  import opened Wrappers
  import Seqs

  type OMap<K, V> = seq<(K, V)>

  /** `Object.keys(m)`. */
  function Keys<K, V>(m: OMap<K, V>): seq<K> {
    seq(|m|, i requires 0 <= i < |m| => m[i].0)
  }

  predicate DistinctKeys<K(==), V>(m: OMap<K, V>) {
    forall i, j :: 0 <= i < j < |m| ==> m[i].0 != m[j].0
  }

  /** The keys of a non-empty map are its first key followed by the keys of the rest. */
  lemma KeysUncons<K, V>(m: OMap<K, V>)
    requires |m| > 0
    ensures Keys(m) == [m[0].0] + Keys(m[1..])
  {
    var ks := [m[0].0] + Keys(m[1..]);
    assert forall i :: 0 <= i < |m| ==> Keys(m)[i] == ks[i];
  }

  /** `m[k]`, with `None` for `undefined`: the value beside the first occurrence of `k`. */
  function Get<K(==), V>(m: OMap<K, V>, k: K): Option<V> {
    if |m| == 0 then None
    else if m[0].0 == k then Some(m[0].1)
    else Get(m[1..], k)
  }

  /** A key is found exactly when it is one of `Object.keys(m)`. */
  lemma {:induction false} GetSomeIff<K, V>(m: OMap<K, V>, k: K)
    ensures Get(m, k).Some? <==> k in Keys(m)
  {
    if |m| > 0 {
      KeysUncons(m);
      GetSomeIff(m[1..], k);
    }
  }

  /** In a map with distinct keys, the lookup of a key yields the value stored beside it. */
  lemma {:induction false} GetAt<K, V>(m: OMap<K, V>, i: int)
    requires DistinctKeys(m) && 0 <= i < |m|
    ensures Get(m, m[i].0) == Some(m[i].1)
  {
    if i > 0 {
      assert m[0].0 != m[i].0;
      assert m[1..][i - 1] == m[i];
      GetAt(m[1..], i - 1);
    }
  }

  /** Looking up a key in a map with one more entry in front. */
  lemma GetCons<K, V>(x: (K, V), m: OMap<K, V>, k: K)
    ensures Get([x] + m, k) == if x.0 == k then Some(x.1) else Get(m, k)
  {
    assert ([x] + m)[1..] == m;
  }

  /**
   * `m[k] = v`: the entry of an existing key is overwritten where it stands, and a new key is
   * appended, so `Object.keys` gains `k` at the end.
   */
  function Put<K(==, !new), V>(m: OMap<K, V>, k: K, v: V): (r: OMap<K, V>)
    ensures Get(r, k) == Some(v)
    ensures forall k' :: k' != k ==> Get(r, k') == Get(m, k')
  {
    if |m| == 0 then
      GetCons((k, v), [], k);
      assert [(k, v)] + [] == [(k, v)];
      [(k, v)]
    else
      assert m == [m[0]] + m[1..];
      var r := if m[0].0 == k then [(k, v)] + m[1..] else [m[0]] + Put(m[1..], k, v);
      assert r[1..] == if m[0].0 == k then m[1..] else Put(m[1..], k, v);
      PutConsLookups(m[0], m[1..], r[0], r[1..], k, v);
      r
  }

  /** `Object.keys` after an assignment: unchanged for an existing key, one more at the end for a new one. */
  lemma {:induction false} PutKeys<K(!new), V>(m: OMap<K, V>, k: K, v: V)
    ensures k in Keys(m) ==> Keys(Put(m, k, v)) == Keys(m)
    ensures k !in Keys(m) ==> Keys(Put(m, k, v)) == Keys(m) + [k]
  {
    if |m| == 0 {
      assert Keys(Put(m, k, v)) == [k];
    } else {
      var r := Put(m, k, v);
      KeysUncons(m);
      KeysUncons(r);
      if m[0].0 != k {
        PutKeys(m[1..], k, v);
      }
    }
  }

  /** How the lookups of `Put` follow, one entry at a time, from those of the rest of the map. */
  lemma PutConsLookups<K(!new), V>(x: (K, V), m: OMap<K, V>, y: (K, V), rest: OMap<K, V>, k: K, v: V)
    requires x.0 == k ==> y == (k, v) && rest == m
    requires x.0 != k ==> y == x && Get(rest, k) == Some(v)
    requires x.0 != k ==> forall k' :: k' != k ==> Get(rest, k') == Get(m, k')
    ensures Get([y] + rest, k) == Some(v)
    ensures forall k' :: k' != k ==> Get([y] + rest, k') == Get([x] + m, k')
  {
    GetCons(y, rest, k);
    forall k' | k' != k
      ensures Get([y] + rest, k') == Get([x] + m, k')
    {
      GetCons(y, rest, k');
      GetCons(x, m, k');
    }
  }

  /** A looked-up value is stored beside its key. */
  lemma {:induction false} GetFound<K, V>(m: OMap<K, V>, k: K)
    requires Get(m, k).Some?
    ensures exists i :: 0 <= i < |m| && m[i] == (k, Get(m, k).value)
  {
    if m[0].0 != k {
      GetFound(m[1..], k);
      var i :| 0 <= i < |m[1..]| && m[1..][i] == (k, Get(m, k).value);
      assert m[i + 1] == m[1..][i];
    }
  }

  /** With distinct keys, an entry is in the map exactly when looking its key up yields its value. */
  lemma EntryIffGet<K, V>(m: OMap<K, V>, k: K, v: V)
    requires DistinctKeys(m)
    ensures (k, v) in m <==> Get(m, k) == Some(v)
  {
    if (k, v) in m {
      var i :| 0 <= i < |m| && m[i] == (k, v);
      GetAt(m, i);
    }
    if Get(m, k) == Some(v) {
      GetFound(m, k);
    }
  }

  /** Dropping entries never introduces a duplicate key. */
  lemma {:induction false} FilterKeepsKeysDistinct<K, V>(m: OMap<K, V>, p: ((K, V)) -> bool)
    requires DistinctKeys(m)
    ensures DistinctKeys(Seqs.Filter(m, p))
  {
    if |m| > 0 {
      var n := |m| - 1;
      var f := Seqs.Filter(m[..n], p);
      assert DistinctKeys(m[..n]);
      FilterKeepsKeysDistinct(m[..n], p);
      if p(m[n]) {
        forall i | 0 <= i < |f|
          ensures f[i].0 != m[n].0
        {
          Seqs.FilterMember(m[..n], p, f[i]);
          var j :| 0 <= j < n && m[..n][j] == f[i];
        }
      }
    }
  }

  /**
   * Filtering the entries by a test that depends on the key alone keeps the keys in the same
   * order as filtering `Object.keys` by that test.
   */
  lemma {:induction false} KeysFilter<K, V>(m: OMap<K, V>, p: ((K, V)) -> bool, q: K -> bool)
    requires forall i :: 0 <= i < |m| ==> p(m[i]) == q(m[i].0)
    ensures Keys(Seqs.Filter(m, p)) == Seqs.Filter(Keys(m), q)
  {
    if |m| > 0 {
      var n := |m| - 1;
      var f := Seqs.Filter(m[..n], p);
      KeysFilter(m[..n], p, q);
      assert Keys(m)[..n] == Keys(m[..n]);
      assert Keys(m) == Keys(m[..n]) + [m[n].0];
      Seqs.FilterSnoc(Keys(m[..n]), m[n].0, q);
      var tail := if p(m[n]) then [m[n]] else [];
      assert Keys(f + tail) == Keys(f) + Keys(tail);
    }
  }

  /** Distinct keys, stated on the entries, is distinctness of `Object.keys`. */
  lemma DistinctKeysIff<K, V>(m: OMap<K, V>)
    ensures DistinctKeys(m) <==> Seqs.NoDuplicates(Keys(m))
  {
    assert forall i :: 0 <= i < |m| ==> Keys(m)[i] == m[i].0;
  }

  /** Assignment never introduces a duplicate key. */
  lemma PutKeepsKeysDistinct<K(!new), V>(m: OMap<K, V>, k: K, v: V)
    requires DistinctKeys(m)
    ensures DistinctKeys(Put(m, k, v))
  {
    var r := Put(m, k, v);
    PutKeys(m, k, v);
    assert |Keys(r)| == |r|;
    forall i, j | 0 <= i < j < |r|
      ensures r[i].0 != r[j].0
    {
      assert Keys(r)[i] == r[i].0 && Keys(r)[j] == r[j].0;
      if j < |m| {
        assert Keys(m)[i] == m[i].0 && Keys(m)[j] == m[j].0;
      } else {
        assert Keys(m)[i] == m[i].0;
      }
    }
  }

  /** The values of a map of amounts, summed in key order. */
  function SumValues<K>(m: OMap<K, real>): real {
    Seqs.SumOf(m, (e: (K, real)) => e.1)
  }

  /** Summing a map with one more entry in front. */
  lemma SumValuesCons<K>(x: (K, real), m: OMap<K, real>)
    ensures SumValues([x] + m) == x.1 + SumValues(m)
  {
    var f := (e: (K, real)) => e.1;
    Seqs.SumOfConcat([x], m, f);
    assert [x][..0] == [];
  }

  /** Assigning `v` to key `k` changes the sum of the values by `v` minus what `k` held before (0 when absent). */
  lemma {:induction false} PutSum<K(!new)>(m: OMap<K, real>, k: K, v: real)
    ensures SumValues(Put(m, k, v)) == SumValues(m) - Get(m, k).GetOr(0.0) + v
  {
    if |m| == 0 {
      SumValuesCons((k, v), []);
      assert [(k, v)] + [] == [(k, v)];
    } else {
      assert m == [m[0]] + m[1..];
      SumValuesCons(m[0], m[1..]);
      if m[0].0 == k {
        SumValuesCons((k, v), m[1..]);
      } else {
        PutSum(m[1..], k, v);
        SumValuesCons(m[0], Put(m[1..], k, v));
      }
    }
  }

  /** Reordering a map with distinct keys keeps its keys distinct. */
  lemma PermutationKeepsKeysDistinct<K, V>(a: OMap<K, V>, b: OMap<K, V>)
    requires multiset(a) == multiset(b)
    requires DistinctKeys(a)
    ensures DistinctKeys(b)
  {
    forall i, j | 0 <= i < j < |b|
      ensures b[i].0 != b[j].0
    {
      assert b[i] in multiset(a) && b[j] in multiset(a);
      var p :| 0 <= p < |a| && a[p] == b[i];
      var q :| 0 <= q < |a| && a[q] == b[j];
      if b[i].0 == b[j].0 {
        assert p == q;
        assert b[i] == b[j];
        CountTwice(b, i, j);
        CountOnce(a, p);
      }
    }
  }

  /** A value standing at two positions occurs at least twice. */
  lemma CountTwice<T>(s: seq<T>, i: nat, j: nat)
    requires i < j < |s| && s[i] == s[j]
    ensures multiset(s)[s[i]] >= 2
  {
    assert s == s[..j] + s[j..];
    assert s[i] in s[..j];
    assert s[j] in s[j..];
    assert multiset(s) == multiset(s[..j]) + multiset(s[j..]);
  }

  /** In a map with distinct keys an entry occurs once. */
  lemma CountOnce<K, V>(m: OMap<K, V>, p: nat)
    requires p < |m| && DistinctKeys(m)
    ensures multiset(m)[m[p]] == 1
  {
    assert m == m[..p] + [m[p]] + m[p + 1..];
    assert m[p] !in m[..p];
    assert m[p] !in m[p + 1..];
    assert multiset(m) == multiset(m[..p]) + multiset{m[p]} + multiset(m[p + 1..]);
  }
}
