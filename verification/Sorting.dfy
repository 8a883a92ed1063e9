/** The stable sort behind every `sort` call of the program, and the one fact
    that makes its results independent of input order: two sorted arrangements
    of the same elements are equal when the comparison never ties. */
module Sorting {
  /** `less` behaves like the sign of a consistent comparator. */
  ghost predicate Ordering<T(!new)>(less: (T, T) -> bool) {
    && (forall a, b :: less(a, b) ==> !less(b, a))
    && (forall a, b, c :: less(a, c) ==> less(a, b) || less(b, c))
  }

  ghost predicate Sorted<T>(xs: seq<T>, less: (T, T) -> bool) {
    forall i, j :: 0 <= i < j < |xs| ==> !less(xs[j], xs[i])
  }

  function Insert<T>(xs: seq<T>, x: T, less: (T, T) -> bool): seq<T> {
    if xs == [] then [x]
    else if less(x, xs[|xs| - 1]) then Insert(xs[..|xs| - 1], x, less) + [xs[|xs| - 1]]
    else xs + [x]
  }

  function Sort<T>(xs: seq<T>, less: (T, T) -> bool): seq<T> {
    if xs == [] then [] else Insert(Sort(xs[..|xs| - 1], less), xs[|xs| - 1], less)
  }

  lemma {:induction false} InsertLaw<T(!new)>(xs: seq<T>, x: T, less: (T, T) -> bool)
    requires Ordering(less) && Sorted(xs, less)
    ensures Sorted(Insert(xs, x, less), less)
    ensures multiset(Insert(xs, x, less)) == multiset(xs) + multiset{x}
  {
    if xs != [] {
      var n := |xs| - 1;
      assert xs == xs[..n] + [xs[n]];
      if less(x, xs[n]) {
        InsertLaw(xs[..n], x, less);
        var front := Insert(xs[..n], x, less);
        forall y | y in front
          ensures !less(xs[n], y)
        {
          assert y in multiset(front);
          assert y == x || y in xs[..n];
        }
      } else {
        forall i | 0 <= i < |xs|
          ensures !less(x, xs[i])
        {
          assert i < n ==> !less(xs[n], xs[i]);
        }
      }
    }
  }

  lemma {:induction false} SortLaw<T(!new)>(xs: seq<T>, less: (T, T) -> bool)
    requires Ordering(less)
    ensures Sorted(Sort(xs, less), less)
    ensures multiset(Sort(xs, less)) == multiset(xs)
  {
    if xs != [] {
      var n := |xs| - 1;
      assert xs == xs[..n] + [xs[n]];
      SortLaw(xs[..n], less);
      InsertLaw(Sort(xs[..n], less), xs[n], less);
    }
  }

  /** No two different elements of `s` tie. */
  ghost predicate Decisive<T(!new)>(s: multiset<T>, less: (T, T) -> bool) {
    forall a, b :: a in s && b in s && a != b ==> less(a, b) || less(b, a)
  }

  /** What is left of a sorted list without its head. */
  lemma TailOf<T(!new)>(xs: seq<T>, less: (T, T) -> bool)
    requires xs != [] && Sorted(xs, less)
    ensures xs == [xs[0]] + xs[1..]
    ensures Sorted(xs[1..], less)
    ensures multiset(xs[1..]) == multiset(xs) - multiset{xs[0]}
  {
    assert xs == [xs[0]] + xs[1..];
  }

  lemma {:induction false} SortedIsUnique<T(!new)>(xs: seq<T>, ys: seq<T>, less: (T, T) -> bool)
    requires Ordering(less) && Sorted(xs, less) && Sorted(ys, less)
    requires multiset(xs) == multiset(ys) && Decisive(multiset(xs), less)
    ensures xs == ys
  {
    hide Sorted, Ordering;
    if xs == [] || ys == [] {
      assert |multiset(xs)| == |xs| && |multiset(ys)| == |ys|;
    } else {
      assert xs[0] in multiset(xs) && ys[0] in multiset(ys);
      HeadIsLeast(xs, less, ys[0]);
      HeadIsLeast(ys, less, xs[0]);
      TailOf(xs, less);
      TailOf(ys, less);
      SortedIsUnique(xs[1..], ys[1..], less);
    }
  }

  lemma HeadIsLeast<T(!new)>(xs: seq<T>, less: (T, T) -> bool, y: T)
    requires Ordering(less) && Sorted(xs, less) && y in multiset(xs)
    ensures xs != [] && !less(y, xs[0])
  {
    var i :| 0 <= i < |xs| && xs[i] == y;
  }

  ghost predicate Distinct<T>(xs: seq<T>) {
    forall i, j :: 0 <= i < j < |xs| ==> xs[i] != xs[j]
  }

  /** Distinct is a property of the multiset: no element occurs twice. */
  lemma {:induction false} DistinctCounts<T>(xs: seq<T>)
    ensures Distinct(xs) <==> forall x :: x in multiset(xs) ==> multiset(xs)[x] == 1
  {
    if xs != [] {
      var n := |xs| - 1;
      assert xs == xs[..n] + [xs[n]];
      DistinctCounts(xs[..n]);
      if Distinct(xs) {
        assert xs[n] !in xs[..n];
      } else if Distinct(xs[..n]) {
        var i :| 0 <= i < n && xs[i] == xs[n];
        assert xs[..n][i] == xs[n];
        assert multiset(xs)[xs[n]] >= 2;
      } else {
        var x :| x in multiset(xs[..n]) && multiset(xs[..n])[x] != 1;
        assert multiset(xs)[x] >= 2;
      }
    }
  }

  /** Two sequences without repeats and with the same members hold the same multiset. */
  lemma SameMembers<T>(xs: seq<T>, ys: seq<T>)
    requires Distinct(xs) && Distinct(ys)
    requires forall x :: x in xs <==> x in ys
    ensures multiset(xs) == multiset(ys)
  {
    DistinctCounts(xs);
    DistinctCounts(ys);
    forall x
      ensures multiset(xs)[x] == multiset(ys)[x]
    {
      assert x in xs <==> x in multiset(xs);
      assert x in ys <==> x in multiset(ys);
    }
  }

  /** Sorting different elements that never tie puts them in strict order. */
  lemma SortOfDistinct<T(!new)>(xs: seq<T>, less: (T, T) -> bool)
    requires Ordering(less) && Distinct(xs) && Decisive(multiset(xs), less)
    ensures var ys := Sort(xs, less);
      && |ys| == |xs|
      && (forall x :: x in ys <==> x in xs)
      && (forall i, j :: 0 <= i < j < |ys| ==> less(ys[i], ys[j]))
  {
    var ys := Sort(xs, less);
    SortLaw(xs, less);
    DistinctCounts(xs);
    DistinctCounts(ys);
    assert |multiset(ys)| == |multiset(xs)|;
    assert forall x :: x in ys <==> x in multiset(ys);
    assert forall x :: x in xs <==> x in multiset(xs);
  }
}
