/** Splitting a pot pro rata with floor division: how much is handed out, and in
    what order. */
module Apportion {
  function Sum(xs: seq<nat>): nat {
    if xs == [] then 0 else Sum(xs[..|xs| - 1]) + xs[|xs| - 1]
  }

  /** `pot * weight / total`, rounded down; nothing when there is no weight at all. */
  function Share(pot: nat, weight: nat, total: nat): nat {
    if total == 0 then 0 else pot * weight / total
  }

  function Shares(pot: nat, weights: seq<nat>, total: nat): seq<nat> {
    seq(|weights|, i requires 0 <= i < |weights| => Share(pot, weights[i], total))
  }

  lemma SumNone(xs: seq<nat>)
    ensures Sum(xs[..0]) == 0
  {
  }

  lemma SumOneMore(xs: seq<nat>, i: nat)
    requires i < |xs|
    ensures Sum(xs[..i + 1]) == Sum(xs[..i]) + xs[i]
  {
    assert xs[..i + 1][..i] == xs[..i];
  }

  lemma {:induction false} SumBounds(xs: seq<nat>, i: nat)
    requires i < |xs|
    ensures xs[i] <= Sum(xs)
  {
    if i < |xs| - 1 { SumBounds(xs[..|xs| - 1], i); }
  }

  lemma DivideDown(a: nat, total: nat)
    requires total > 0
    ensures total * (a / total) <= a < total * (a / total) + total
  {
  }

  /** A heavier weight never gets a smaller share. */
  lemma ShareIsMonotone(pot: nat, v: nat, w: nat, total: nat)
    requires v <= w
    ensures Share(pot, v, total) <= Share(pot, w, total)
  {
    if total > 0 {
      assert pot * v <= pot * w;
      QuotientIsMonotone(pot * v, pot * w, total);
    }
  }

  lemma MoreMultiples(t: nat, p: nat, q: nat)
    ensures p > q ==> t * p >= t * q + t
  {
    if p > q {
      Distribute(t, q + 1, p - q - 1);
      Distribute(t, q, 1);
    }
  }

  lemma FewerMultiples(t: nat, p: nat, q: nat)
    requires t * p < t * q + t
    ensures p <= q
  {
    MoreMultiples(t, p, q);
  }

  lemma QuotientIsMonotone(a: nat, b: nat, total: nat)
    requires a <= b && total > 0
    ensures a / total <= b / total
  {
    DivideDown(a, total);
    DivideDown(b, total);
    FewerMultiples(total, a / total, b / total);
  }

  /** Scaled by the total weight, the shares fall short of the pot by a remainder
      smaller than one total per recipient. */
  lemma {:induction false} ScaledShares(pot: nat, weights: seq<nat>, total: nat)
    requires total > 0
    ensures total * Sum(Shares(pot, weights, total)) <= pot * Sum(weights)
    ensures pot * Sum(weights) <= total * Sum(Shares(pot, weights, total)) + |weights| * (total - 1)
  {
    hide Share;
    if weights != [] {
      var n := |weights| - 1;
      var front, last := weights[..n], weights[n];
      ScaledShares(pot, front, total);
      assert Shares(pot, weights, total)[..n] == Shares(pot, front, total);
      ShareBounds(pot, last, total);
      Distribute(pot, Sum(front), last);
      AddShare(total, Sum(Shares(pot, front, total)), Share(pot, last, total), pot * Sum(front), pot * last, n);
    }
  }

  lemma ShareBounds(pot: nat, weight: nat, total: nat)
    requires total > 0
    ensures total * Share(pot, weight, total) <= pot * weight < total * Share(pot, weight, total) + total
  {
    DivideDown(pot * weight, total);
  }

  lemma Distribute(a: nat, b: nat, c: nat)
    ensures a * (b + c) == a * b + a * c
  {
  }

  lemma AddShare(t: nat, s: nat, q: nat, p: nat, a: nat, n: nat)
    requires t > 0 && t * s <= p <= t * s + n * (t - 1) && t * q <= a < t * q + t
    ensures t * (s + q) <= p + a <= t * (s + q) + (n + 1) * (t - 1)
  {
    Distribute(t, s, q);
    Distribute(t - 1, n, 1);
  }

  /** The shares never exceed the pot, and fall short of it by fewer units than
      there are recipients. */
  lemma SharesNearlyExhaustThePot(pot: nat, weights: seq<nat>)
    requires Sum(weights) > 0
    ensures var handedOut := Sum(Shares(pot, weights, Sum(weights)));
      handedOut <= pot < handedOut + |weights|
  {
    var total := Sum(weights);
    var out := Sum(Shares(pot, weights, total));
    ScaledShares(pot, weights, total);
    Cancel(total, out, pot);
    CancelStrict(total, out, pot, |weights|);
  }

  lemma Cancel(t: nat, a: nat, b: nat)
    requires t > 0 && t * a <= b * t
    ensures a <= b
  {
  }

  lemma CancelStrict(t: nat, a: nat, b: nat, n: nat)
    requires t > 0 && n > 0 && b * t <= t * a + n * (t - 1)
    ensures b < a + n
  {
    Distribute(t, a, n);
    Distribute(n, t - 1, 1);
  }
}
