/** Strings in code-point order, and sorting them. */
module Strings {
  import opened Common

  /** a comes before b or is b, from position i on. */
  predicate AtMostFrom(a: string, b: string, i: nat)
    requires i <= |a| && i <= |b|
    decreases |a| - i
  {
    i == |a| || (i < |b| && (a[i] < b[i] || (a[i] == b[i] && AtMostFrom(a, b, i + 1))))
  }

  predicate AtMost(a: string, b: string) {
    AtMostFrom(a, b, 0)
  }

  lemma {:induction false} AtMostTotal(a: string, b: string, i: nat)
    requires i <= |a| && i <= |b|
    ensures AtMostFrom(a, b, i) || AtMostFrom(b, a, i)
    decreases |a| - i
  {
    if i < |a| && i < |b| && a[i] == b[i] {
      AtMostTotal(a, b, i + 1);
    }
  }

  lemma {:induction false} AtMostTransitive(a: string, b: string, c: string, i: nat)
    requires i <= |a| && i <= |b| && i <= |c| && AtMostFrom(a, b, i) && AtMostFrom(b, c, i)
    ensures AtMostFrom(a, c, i)
    decreases |a| - i
  {
    if i < |a| && i < |b| && i < |c| && a[i] == b[i] && b[i] == c[i] {
      AtMostTransitive(a, b, c, i + 1);
    }
  }

  lemma {:induction false} AtMostAntisymmetric(a: string, b: string, i: nat)
    requires i <= |a| && i <= |b| && a[..i] == b[..i] && AtMostFrom(a, b, i) && AtMostFrom(b, a, i)
    ensures a == b
    decreases |a| - i
  {
    if i < |a| {
      assert a[..i + 1] == a[..i] + [a[i]] && b[..i + 1] == b[..i] + [b[i]];
      AtMostAntisymmetric(a, b, i + 1);
    } else {
      assert a == a[..i] && b == b[..i];
    }
  }

  predicate InOrder(xs: seq<string>) {
    forall i, j :: 0 <= i < j < |xs| ==> AtMost(xs[i], xs[j])
  }

  function Inserted(x: string, xs: seq<string>): seq<string> {
    if xs == [] || AtMost(x, xs[0]) then [x] + xs else [xs[0]] + Inserted(x, xs[1..])
  }

  function Sorted(xs: seq<string>): seq<string> {
    if xs == [] then [] else Inserted(xs[0], Sorted(xs[1..]))
  }

  lemma {:induction false} InsertedKeeps(x: string, xs: seq<string>)
    requires InOrder(xs)
    ensures InOrder(Inserted(x, xs)) && multiset(Inserted(x, xs)) == multiset(xs) + multiset{x}
  {
    hide AtMost;
    if xs == [] {
    } else if AtMost(x, xs[0]) {
      forall j | 0 <= j < |xs| ensures AtMost(x, xs[j]) {
        if j > 0 {
          BetweenIsAtMost(x, xs[0], xs[j]);
        }
      }
    } else {
      var rest := xs[1..];
      assert xs == [xs[0]] + rest;
      InsertedKeeps(x, rest);
      var more := Inserted(x, rest);
      forall j | 0 <= j < |more| ensures AtMost(xs[0], more[j]) {
        assert more[j] in multiset(more);
        if more[j] == x {
          OneIsAtMost(x, xs[0]);
        } else {
          assert more[j] in multiset(rest);
        }
      }
    }
  }

  lemma BetweenIsAtMost(a: string, b: string, c: string)
    requires AtMost(a, b) && AtMost(b, c)
    ensures AtMost(a, c)
  {
    AtMostTransitive(a, b, c, 0);
  }

  lemma OneIsAtMost(a: string, b: string)
    ensures AtMost(a, b) || AtMost(b, a)
  {
    AtMostTotal(a, b, 0);
  }

  /** Sorting puts the same strings in order. */
  lemma {:induction false} SortedIs(xs: seq<string>)
    ensures InOrder(Sorted(xs)) && multiset(Sorted(xs)) == multiset(xs)
    ensures |Sorted(xs)| == |xs| && forall x :: x in Sorted(xs) <==> x in xs
  {
    hide AtMost, Inserted, InOrder;
    if xs == [] {
      NoneInOrder();
    } else {
      assert xs == [xs[0]] + xs[1..];
      SortedIs(xs[1..]);
      InsertedKeeps(xs[0], Sorted(xs[1..]));
    }
    assert |multiset(Sorted(xs))| == |Sorted(xs)| && |multiset(xs)| == |xs|;
    forall x ensures x in Sorted(xs) <==> x in xs {
      assert x in Sorted(xs) <==> x in multiset(Sorted(xs));
      assert x in xs <==> x in multiset(xs);
    }
  }

  lemma NoneInOrder()
    ensures InOrder([])
  {
  }

  lemma SortedKeepsDistinct(xs: seq<string>)
    requires NoRepeats(xs)
    ensures NoRepeats(Sorted(xs))
  {
    SortedIs(xs);
    var sorted := Sorted(xs);
    forall i, j | 0 <= i < j < |sorted| ensures sorted[i] != sorted[j] {
      if sorted[i] == sorted[j] {
        RepeatedCounts(sorted, i, j);
        OnceCountsOne(xs, sorted[i]);
        assert false;
      }
    }
  }

  /** There is one way to put strings in order. */
  lemma {:induction false} OrderIsUnique(a: seq<string>, b: seq<string>)
    requires InOrder(a) && InOrder(b) && multiset(a) == multiset(b)
    ensures a == b
  {
    hide AtMost, InOrder;
    assert |multiset(a)| == |a| && |multiset(b)| == |b|;
    if a != [] {
      FirstIsFirst(a, b);
      FirstIsFirst(b, a);
      SameIfBothAtMost(a[0], b[0]);
      RestOf(a);
      RestOf(b);
      OrderIsUnique(a[1..], b[1..]);
    }
  }

  lemma RestOf(a: seq<string>)
    requires InOrder(a) && a != []
    ensures InOrder(a[1..]) && a == [a[0]] + a[1..] && multiset(a[1..]) == multiset(a) - multiset{a[0]}
  {
    hide AtMost;
    assert a == [a[0]] + a[1..];
  }

  lemma FirstIsFirst(a: seq<string>, b: seq<string>)
    requires InOrder(a) && multiset(a) == multiset(b) && a != [] && b != []
    ensures AtMost(a[0], b[0])
  {
    hide AtMost;
    assert b[0] in multiset(b);
    assert b[0] in multiset(a);
    var i :| 0 <= i < |a| && a[i] == b[0];
    OneIsAtMost(a[0], a[0]);
  }

  lemma SameIfBothAtMost(a: string, b: string)
    requires AtMost(a, b) && AtMost(b, a)
    ensures a == b
  {
    AtMostAntisymmetric(a, b, 0);
  }

  /** Sorting forgets the order in which strings were listed. */
  lemma SortedForgetsOrder(a: seq<string>, b: seq<string>)
    requires multiset(a) == multiset(b)
    ensures Sorted(a) == Sorted(b)
  {
    SortedIs(a);
    SortedIs(b);
    OrderIsUnique(Sorted(a), Sorted(b));
  }
}
