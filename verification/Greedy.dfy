/** Taking elements from a list in order, each unless it clashes with one already
    taken. */
module Greedy {
  function Take<T>(xs: seq<T>, clash: (T, T) -> bool): seq<T> {
    if xs == [] then []
    else
      var taken := Take(xs[..|xs| - 1], clash);
      var x := xs[|xs| - 1];
      if Clashes(taken, x, clash) then taken else taken + [x]
  }

  predicate Clashes<T>(taken: seq<T>, x: T, clash: (T, T) -> bool) {
    exists i :: 0 <= i < |taken| && clash(taken[i], x)
  }

  /** What is taken comes from the list, in its order, and nothing taken clashes. */
  lemma {:induction false} TakeLaw<T>(xs: seq<T>, clash: (T, T) -> bool)
    ensures forall i :: 0 <= i < |Take(xs, clash)| ==> Take(xs, clash)[i] in xs
    ensures forall i, j :: 0 <= i < j < |Take(xs, clash)| ==> !clash(Take(xs, clash)[i], Take(xs, clash)[j])
  {
    if xs != [] {
      TakeLaw(xs[..|xs| - 1], clash);
      assert xs == xs[..|xs| - 1] + [xs[|xs| - 1]];
    }
  }

  /** What is left out clashes with something taken that came before it. */
  lemma {:induction false} LeftOutFor<T>(xs: seq<T>, clash: (T, T) -> bool, k: nat) returns (m: nat)
    requires k < |xs| && xs[k] !in Take(xs, clash)
    ensures m < k && xs[m] in Take(xs, clash) && clash(xs[m], xs[k])
  {
    var n := |xs| - 1;
    var taken := Take(xs[..n], clash);
    if k < n {
      assert xs[k] !in taken;
      m := LeftOutFor(xs[..n], clash, k);
    } else {
      assert Take(xs, clash) == taken;
      var i :| 0 <= i < |taken| && clash(taken[i], xs[n]);
      TakeLaw(xs[..n], clash);
      m :| 0 <= m < n && xs[m] == taken[i];
    }
  }

  function Map<T, U>(xs: seq<T>, f: T -> U): seq<U> {
    seq(|xs|, i requires 0 <= i < |xs| => f(xs[i]))
  }

  /** Renaming the elements renames the choice, if clashes are renamed faithfully. */
  lemma {:induction false} TakeCommutesWithMap<T, U>(
      xs: seq<T>, f: T -> U, clash: (T, T) -> bool, renamed: (U, U) -> bool)
    requires forall x, y :: x in xs && y in xs ==> (clash(x, y) <==> renamed(f(x), f(y)))
    ensures Map(Take(xs, clash), f) == Take(Map(xs, f), renamed)
  {
    if xs != [] {
      var n := |xs| - 1;
      assert xs == xs[..n] + [xs[n]];
      TakeCommutesWithMap(xs[..n], f, clash, renamed);
      assert Map(xs, f)[..n] == Map(xs[..n], f);
      TakeLaw(xs[..n], clash);
      var taken := Take(xs[..n], clash);
      var image := Map(taken, f);
      assert Clashes(taken, xs[n], clash) <==> Clashes(image, f(xs[n]), renamed) by {
        assert forall i :: 0 <= i < |taken| ==> taken[i] in xs && image[i] == f(taken[i]);
        if Clashes(image, f(xs[n]), renamed) {
          var i :| 0 <= i < |image| && renamed(image[i], f(xs[n]));
          assert clash(taken[i], xs[n]);
        }
        if Clashes(taken, xs[n], clash) {
          var i :| 0 <= i < |taken| && clash(taken[i], xs[n]);
          assert renamed(image[i], f(xs[n]));
        }
      }
    }
  }
}
