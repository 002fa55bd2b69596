/** Small shared vocabulary. */
module Common {

  datatype Option<+T> = None | Some(value: T)

  /** The values of a finite map, added up. */
  ghost function SumValues<K>(m: map<K, int>): int
  {
    if m.Keys == {} then 0
    else var k :| k in m.Keys; m[k] + SumValues(m - {k})
  }

  /** The sum does not depend on which key is taken out first. */
  lemma {:induction false} SumValuesWithout<K>(m: map<K, int>, k: K)
    requires k in m
    ensures SumValues(m) == m[k] + SumValues(m - {k})
    decreases |m|
  {
    var first :| first in m.Keys && SumValues(m) == m[first] + SumValues(m - {first});
    if first != k {
      SumValuesWithout(m - {first}, k);
      assert (m - {first}) - {k} == (m - {k}) - {first};
      SumValuesWithout(m - {k}, first);
    }
  }

  /** Adding an amount under a key, new or old, adds it to the sum. */
  lemma SumValuesAdd<K>(m: map<K, int>, k: K, amount: int)
    ensures SumValues(m[k := (if k in m then m[k] else 0) + amount]) == SumValues(m) + amount
  {
    var n := m[k := (if k in m then m[k] else 0) + amount];
    SumValuesWithout(n, k);
    assert n - {k} == m - {k};
    if k in m {
      SumValuesWithout(m, k);
    } else {
      assert m - {k} == m;
    }
  }

  /** The first n chunks, joined. */
  function Flatten<T>(chunks: seq<seq<T>>, n: nat): seq<T>
    requires n <= |chunks|
  {
    if n == 0 then [] else Flatten(chunks, n - 1) + chunks[n - 1]
  }

  /** Joining more chunks only adds at the end. */
  lemma {:induction false} FlattenGrows<T>(chunks: seq<seq<T>>, n: nat, m: nat)
    requires n <= m <= |chunks|
    ensures Flatten(chunks, n) <= Flatten(chunks, m)
  {
    if n < m {
      FlattenGrows(chunks, n, m - 1);
    }
  }

  lemma {:induction false} FlattenPrefix<T>(chunks: seq<seq<T>>, more: seq<seq<T>>, n: nat)
    requires n <= |chunks| <= |more| && chunks <= more
    ensures Flatten(more, n) == Flatten(chunks, n)
  {
    if n > 0 {
      FlattenPrefix(chunks, more, n - 1);
    }
  }

  predicate NoRepeats<T(==)>(xs: seq<T>) {
    forall i, j :: 0 <= i < j < |xs| ==> xs[i] != xs[j]
  }

  lemma RepeatedCounts<T>(xs: seq<T>, i: nat, j: nat)
    requires i < j < |xs| && xs[i] == xs[j]
    ensures multiset(xs)[xs[i]] >= 2
  {
    assert xs == xs[..j] + [xs[j]] + xs[j + 1..];
    assert xs[i] == xs[..j][i] && xs[..j][i] in multiset(xs[..j]);
    assert multiset(xs) == multiset(xs[..j]) + multiset{xs[j]} + multiset(xs[j + 1..]);
  }

  lemma OnceCountsOne<T>(xs: seq<T>, x: T)
    requires x in xs && forall i, j :: 0 <= i < j < |xs| ==> xs[i] != x || xs[j] != x
    ensures multiset(xs)[x] == 1
  {
    var i :| 0 <= i < |xs| && xs[i] == x;
    assert xs == xs[..i] + [x] + xs[i + 1..];
    assert x !in xs[..i] && x !in xs[i + 1..];
    assert multiset(xs) == multiset(xs[..i]) + multiset{x} + multiset(xs[i + 1..]);
  }

  lemma ProductGrows(p: int, size: nat)
    ensures p >= 1 ==> p * size >= size
    ensures p <= -1 ==> p * size <= -(size as int)
  {
    if p >= 1 {
      assert (p - 1) * size >= 0;
    } else if p <= -1 {
      assert (-p - 1) * size >= 0;
    }
  }

  /** The quotient and the rest are what they multiply and add up to. */
  lemma QuotientIs(x: int, size: nat, q: int, r: nat)
    requires r < size && x == q * size + r
    ensures x / size == q && x % size == r
  {
    var p := x / size - q;
    assert p * size == x / size * size - q * size == r - x % size;
    ProductGrows(p, size);
  }

  /** Position of an element among the first n that satisfies a condition. */
  function Find<T>(xs: seq<T>, wanted: T -> bool, n: nat): (found: Option<nat>)
    requires n <= |xs|
    ensures found.Some? ==> found.value < n && wanted(xs[found.value])
    ensures found.None? ==> forall i :: 0 <= i < n ==> !wanted(xs[i])
  {
    if n == 0 then None else if wanted(xs[n - 1]) then Some(n - 1) else Find(xs, wanted, n - 1)
  }
}
