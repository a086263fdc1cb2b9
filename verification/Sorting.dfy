// The stable sort that the program's `sorted` calls stand for.
module Sorting {

  // Puts x behind every element that it does not come before.
  function InsertBy<T>(before: (T, T) -> bool, sorted: seq<T>, x: T): (r: seq<T>)
    ensures multiset(r) == multiset(sorted) + multiset{x}
  {
    if sorted == [] || !before(x, sorted[|sorted| - 1]) then sorted + [x]
    else
      assert sorted == sorted[..|sorted| - 1] + [sorted[|sorted| - 1]];
      InsertBy(before, sorted[..|sorted| - 1], x) + [sorted[|sorted| - 1]]
  }

  function SortBy<T>(before: (T, T) -> bool, xs: seq<T>): (r: seq<T>)
    ensures multiset(r) == multiset(xs)
  {
    if xs == [] then []
    else
      assert xs == xs[..|xs| - 1] + [xs[|xs| - 1]];
      InsertBy(before, SortBy(before, xs[..|xs| - 1]), xs[|xs| - 1])
  }

  ghost predicate InOrder<T(!new)>(before: (T, T) -> bool, xs: seq<T>) {
    forall i, j :: 0 <= i < j < |xs| ==> !before(xs[j], xs[i])
  }

  // Elements that neither comes before the other rank the same.
  ghost predicate WeakOrder<T(!new)>(before: (T, T) -> bool) {
    && (forall a, b :: before(a, b) ==> !before(b, a))
    && (forall a, b, c :: !before(a, b) && !before(b, c) ==> !before(a, c))
  }

  lemma SameElements<T>(xs: seq<T>, ys: seq<T>)
    requires multiset(xs) == multiset(ys)
    ensures |xs| == |ys|
    ensures forall x :: x in xs <==> x in ys
  {
    assert |multiset(xs)| == |xs| && |multiset(ys)| == |ys|;
    forall x
      ensures x in xs <==> x in ys
    {
      assert x in xs <==> x in multiset(xs);
      assert x in ys <==> x in multiset(ys);
    }
  }

  lemma {:induction false} InsertKeepsOrder<T(!new)>(before: (T, T) -> bool, sorted: seq<T>, x: T)
    requires WeakOrder(before) && InOrder(before, sorted)
    ensures InOrder(before, InsertBy(before, sorted, x))
  {
    if sorted != [] {
      var init, last := sorted[..|sorted| - 1], sorted[|sorted| - 1];
      if before(x, last) {
        InsertKeepsOrder(before, init, x);
        var inserted := InsertBy(before, init, x);
        SameElements(inserted, init + [x]);
        forall i | 0 <= i < |inserted|
          ensures !before(last, inserted[i])
        {
          assert inserted[i] in inserted;
        }
      } else {
        forall i | 0 <= i < |sorted|
          ensures !before(x, sorted[i])
        {
          assert i < |sorted| - 1 ==> !before(last, sorted[i]);
        }
      }
    }
  }

  lemma {:induction false} SortOrders<T(!new)>(before: (T, T) -> bool, xs: seq<T>)
    requires WeakOrder(before)
    ensures InOrder(before, SortBy(before, xs))
  {
    if xs != [] {
      SortOrders(before, xs[..|xs| - 1]);
      InsertKeepsOrder(before, SortBy(before, xs[..|xs| - 1]), xs[|xs| - 1]);
    }
  }

  // What is in order stays as it is, equal ranks included.
  lemma {:induction false} SortKeepsOrdered<T(!new)>(before: (T, T) -> bool, xs: seq<T>)
    requires InOrder(before, xs)
    ensures SortBy(before, xs) == xs
  {
    if xs != [] {
      SortKeepsOrdered(before, xs[..|xs| - 1]);
      assert xs == xs[..|xs| - 1] + [xs[|xs| - 1]];
      if |xs| >= 2 {
        assert !before(xs[|xs| - 1], xs[|xs| - 2]);
      }
    }
  }

  // No two elements share a key.
  ghost predicate Apart<T(!new), K(!new)>(key: T -> K, xs: seq<T>) {
    forall i, j :: 0 <= i < j < |xs| ==> key(xs[i]) != key(xs[j])
  }

  lemma SnocKeepsApart<T(!new), K(!new)>(key: T -> K, xs: seq<T>, x: T)
    requires Apart(key, xs) && forall y :: y in xs ==> key(y) != key(x)
    ensures Apart(key, xs + [x])
  {
    forall i, j | 0 <= i < j < |xs + [x]|
      ensures key((xs + [x])[i]) != key((xs + [x])[j])
    {
      assert xs[i] in xs;
    }
  }

  lemma {:induction false} InsertKeepsApart<T(!new), K(!new)>(before: (T, T) -> bool, key: T -> K, sorted: seq<T>, x: T)
    requires Apart(key, sorted) && forall y :: y in sorted ==> key(y) != key(x)
    ensures Apart(key, InsertBy(before, sorted, x))
  {
    if sorted == [] || !before(x, sorted[|sorted| - 1]) {
      SnocKeepsApart(key, sorted, x);
    } else {
      var init, last := sorted[..|sorted| - 1], sorted[|sorted| - 1];
      InsertKeepsApart(before, key, init, x);
      SameElements(InsertBy(before, init, x), init + [x]);
      assert forall y :: y in init + [x] ==> y in init || y == x;
      SnocKeepsApart(key, InsertBy(before, init, x), last);
    }
  }

  lemma {:induction false} SortKeepsApart<T(!new), K(!new)>(before: (T, T) -> bool, key: T -> K, xs: seq<T>)
    requires Apart(key, xs)
    ensures Apart(key, SortBy(before, xs))
  {
    if xs != [] {
      var init, last := xs[..|xs| - 1], xs[|xs| - 1];
      SortKeepsApart(before, key, init);
      SameElements(SortBy(before, init), init);
      forall y | y in init
        ensures key(y) != key(last)
      {
        var i :| 0 <= i < |init| && init[i] == y;
        assert xs[i] == y;
      }
      InsertKeepsApart(before, key, SortBy(before, init), last);
    }
  }
}
