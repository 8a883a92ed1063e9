/** Dividing a season's yield across the standings of the no-loss league. */
module SeasonPrizes {
  import opened Text
  import opened Apportion
  import opened OrderedMap
  import opened PrizeTree
  import Sorting

  datatype Standing = Standing(account: Address, wins: nat, principal: nat)

  /** The amounts so far, keyed by lower-case account. */
  type Ledger = Dict<nat>

  function WinsOf(standings: seq<Standing>): seq<nat> {
    seq(|standings|, i requires 0 <= i < |standings| => standings[i].wins)
  }

  function PrincipalsOf(standings: seq<Standing>): seq<nat> {
    seq(|standings|, i requires 0 <= i < |standings| => standings[i].principal)
  }

  /** Wins, or the deposits when nobody has won. */
  function Weights(standings: seq<Standing>): (ws: seq<nat>)
    ensures |ws| == |standings|
  {
    if Sum(WinsOf(standings)) > 0 then WinsOf(standings) else PrincipalsOf(standings)
  }

  function SharesOf(standings: seq<Standing>, pot: nat): (shares: seq<nat>)
    ensures |shares| == |standings|
  {
    Shares(pot, Weights(standings), Sum(Weights(standings)))
  }

  predicate RanksAbove(a: Standing, b: Standing) {
    a.wins > b.wins || (a.wins == b.wins && a.principal > b.principal)
  }

  /** Nobody ranks above the standing at `t`. */
  predicate IsTop(standings: seq<Standing>, t: nat) {
    t < |standings| && forall i :: 0 <= i < |standings| ==> !RanksAbove(standings[i], standings[t])
  }

  function KeyOf(standings: seq<Standing>, i: nat): Address
    requires i < |standings|
  {
    Lower(standings[i].account)
  }

  /** The ledger after the first `n` standings have been given their shares. */
  function Credited(standings: seq<Standing>, pot: nat, n: nat): Ledger
    requires n <= |standings|
  {
    if n == 0 then EMPTY_TABLE
    else Credited(standings, pot, n - 1).Set(KeyOf(standings, n - 1), SharesOf(standings, pot)[n - 1])
  }

  /** The rounding remainder goes on top of what the top player has. */
  function Awarded(standings: seq<Standing>, pot: nat, top: nat): Ledger
    requires top < |standings|
  {
    var all := Credited(standings, pot, |standings|);
    var distributed := Sum(SharesOf(standings, pot));
    var key := KeyOf(standings, top);
    if pot > distributed then all.Set(key, all.GetOr(key, 0) + (pot - distributed)) else all
  }

  function ClaimsOf(l: Ledger): seq<Claim> {
    seq(|l.keys|, i requires 0 <= i < |l.keys| => Claim(l.keys[i], l.GetOr(l.keys[i], 0)))
  }

  function Paid(claims: seq<Claim>): int {
    if claims == [] then 0 else Paid(claims[..|claims| - 1]) + claims[|claims| - 1].amount
  }

  // ----- what is handed out -----

  /** The sum of a ledger's amounts over the first `n` keys. */
  function Held(l: Ledger, n: nat): nat
    requires n <= |l.keys|
  {
    if n == 0 then 0 else Held(l, n - 1) + l.GetOr(l.keys[n - 1], 0)
  }

  function Total(l: Ledger): nat {
    Held(l, |l.keys|)
  }

  lemma {:induction false} HeldAfterSet(l: Ledger, key: Address, amount: nat, n: nat)
    requires l.Valid() && n <= |l.keys|
    ensures Held(l.Set(key, amount), n)
      == Held(l, n) + (if key in l.keys[..n] then amount - l.GetOr(key, 0) else 0)
  {
    hide Dict.Valid;
    if n > 0 {
      KeysDoNotRepeat(l, n);
      HeldAfterSet(l, key, amount, n - 1);
      assert l.keys[..n] == l.keys[..n - 1] + [l.keys[n - 1]];
    }
  }

  /** Setting a key replaces what it held. */
  lemma TotalAfterSet(l: Ledger, key: Address, amount: nat)
    requires l.Valid()
    ensures l.Set(key, amount).Valid()
    ensures Total(l.Set(key, amount)) == Total(l) - l.GetOr(key, 0) + amount
  {
    SetStaysValid(l, key, amount);
    ValidKeys(l, key);
    hide Dict.Valid;
    HeldAfterSet(l, key, amount, |l.keys|);
    assert l.keys[..|l.keys|] == l.keys;
  }

  lemma {:induction false} PaidIsHeld(l: Ledger, n: nat)
    requires n <= |l.keys|
    ensures Paid(ClaimsOf(l)[..n]) == Held(l, n)
  {
    if n > 0 {
      PaidIsHeld(l, n - 1);
      assert ClaimsOf(l)[..n][..n - 1] == ClaimsOf(l)[..n - 1];
    }
  }

  /** What later entries of the same account replaced among the first `n`. */
  function Overwritten(standings: seq<Standing>, pot: nat, n: nat): nat
    requires n <= |standings|
  {
    if n == 0 then 0
    else Overwritten(standings, pot, n - 1) + Credited(standings, pot, n - 1).GetOr(KeyOf(standings, n - 1), 0)
  }

  lemma {:induction false} CreditedTotal(standings: seq<Standing>, pot: nat, n: nat)
    requires n <= |standings|
    ensures Credited(standings, pot, n).Valid()
    ensures Total(Credited(standings, pot, n)) + Overwritten(standings, pot, n) == Sum(SharesOf(standings, pot)[..n])
  {
    hide Total, SharesOf, KeyOf, Dict.Valid, Dict.Set, Dict.GetOr;
    if n > 0 {
      CreditedTotal(standings, pot, n - 1);
      assert SharesOf(standings, pot)[..n][..n - 1] == SharesOf(standings, pot)[..n - 1];
      TotalAfterSet(Credited(standings, pot, n - 1), KeyOf(standings, n - 1), SharesOf(standings, pot)[n - 1]);
    } else {
      EmptyLedger();
    }
  }

  lemma EmptyLedger()
    ensures EMPTY_TABLE.Valid() && Total(EMPTY_TABLE) == 0
  {
  }

  /** The ledger holds, for each account met, the share of its latest entry. */
  lemma {:induction false} LatestEntry(standings: seq<Standing>, pot: nat, n: nat, key: Address) returns (l: nat)
    requires n <= |standings|
    ensures l < n ==>
      && KeyOf(standings, l) == key
      && Credited(standings, pot, n).GetOr(key, 0) == SharesOf(standings, pot)[l]
    ensures l >= n ==> Credited(standings, pot, n).GetOr(key, 0) == 0
    ensures forall i :: 0 <= i < n && KeyOf(standings, i) == key ==> i <= l < n
  {
    hide SharesOf, KeyOf;
    if n == 0 {
      l := 0;
    } else if KeyOf(standings, n - 1) == key {
      l := n - 1;
    } else {
      l := LatestEntry(standings, pot, n - 1, key);
      if l == n - 1 { l := n; }
    }
  }

  /** Every entry whose account comes again later has a share of nothing. */
  ghost predicate RepeatsAreEmpty(standings: seq<Standing>, pot: nat, n: nat)
    requires n <= |standings|
  {
    forall i, j :: 0 <= i < j < n && KeyOf(standings, i) == KeyOf(standings, j) ==>
      pot * Weights(standings)[i] < Sum(Weights(standings))
  }

  lemma EmptyShare(standings: seq<Standing>, pot: nat, i: nat)
    requires i < |standings| && Sum(Weights(standings)) > 0
    ensures SharesOf(standings, pot)[i] == 0 <==> pot * Weights(standings)[i] < Sum(Weights(standings))
  {
    hide Weights;
    ShareBounds(pot, Weights(standings)[i], Sum(Weights(standings)));
    QuotientIsZero(pot * Weights(standings)[i], Sum(Weights(standings)));
  }

  lemma QuotientIsZero(a: nat, t: nat)
    requires t > 0
    ensures a / t == 0 <==> a < t
  {
  }

  lemma {:induction false} NothingLostIff(standings: seq<Standing>, pot: nat, n: nat)
    requires n <= |standings| && Sum(Weights(standings)) > 0
    ensures Overwritten(standings, pot, n) == 0 <==> RepeatsAreEmpty(standings, pot, n)
  {
    hide SharesOf, KeyOf, Weights, Credited;
    if n > 0 {
      NothingLostIff(standings, pot, n - 1);
      var key := KeyOf(standings, n - 1);
      var l := LatestEntry(standings, pot, n - 1, key);
      if l < n - 1 { EmptyShare(standings, pot, l); }
      if Overwritten(standings, pot, n) == 0 {
        forall i, j | 0 <= i < j < n && KeyOf(standings, i) == KeyOf(standings, j)
          ensures pot * Weights(standings)[i] < Sum(Weights(standings))
        {
          if j == n - 1 && i < l {
            assert KeyOf(standings, i) == KeyOf(standings, l);
          }
        }
      }
    }
  }

  /** The claims add up to the pot exactly when no account with a share is listed
      again later, and never exceed it; distinct accounts always get all of it. */
  lemma SplitIsExactIff(standings: seq<Standing>, pot: nat, top: nat)
    requires top < |standings| && Sum(Weights(standings)) > 0
    ensures Awarded(standings, pot, top).Valid()
    ensures Paid(ClaimsOf(Awarded(standings, pot, top))) <= pot
    ensures Paid(ClaimsOf(Awarded(standings, pot, top))) == pot <==>
      RepeatsAreEmpty(standings, pot, |standings|)
  {
    hide Weights, KeyOf, Credited, Overwritten, RepeatsAreEmpty, Total, Dict.Valid, ClaimsOf, Paid;
    var n := |standings|;
    var all, out := Credited(standings, pot, n), Awarded(standings, pot, top);
    CreditedTotal(standings, pot, n);
    assert SharesOf(standings, pot)[..n] == SharesOf(standings, pot);
    SharesNearlyExhaustThePot(pot, Weights(standings));
    var distributed := Sum(SharesOf(standings, pot));
    TotalAfterSet(all, KeyOf(standings, top), all.GetOr(KeyOf(standings, top), 0) + (pot - distributed));
    NothingLostIff(standings, pot, n);
    PaidIsTotal(out);
  }

  lemma PaidIsTotal(l: Ledger)
    ensures Paid(ClaimsOf(l)) == Total(l)
  {
    PaidIsHeld(l, |l.keys|);
    assert ClaimsOf(l)[..|l.keys|] == ClaimsOf(l);
  }

  /** The rounding remainder is smaller than the number of standings. */
  lemma RemainderIsSmall(standings: seq<Standing>, pot: nat)
    requires Sum(Weights(standings)) > 0
    ensures Sum(SharesOf(standings, pot)) <= pot < Sum(SharesOf(standings, pot)) + |standings|
  {
    hide Weights;
    SharesNearlyExhaustThePot(pot, Weights(standings));
  }

  predicate DistinctAccounts(standings: seq<Standing>) {
    forall i, j :: 0 <= i < j < |standings| ==> KeyOf(standings, i) != KeyOf(standings, j)
  }

  lemma {:induction false} DistinctCredits(standings: seq<Standing>, pot: nat, n: nat)
    requires n <= |standings| && DistinctAccounts(standings)
    ensures var l := Credited(standings, pot, n); var shares := SharesOf(standings, pot);
      && |l.keys| == n
      && (forall i :: 0 <= i < n ==>
           l.keys[i] == KeyOf(standings, i) && l.keys[i] in l.at && l.GetOr(l.keys[i], 0) == shares[i])
      && (forall k :: k in l.at ==> exists i :: 0 <= i < n && KeyOf(standings, i) == k)
  {
    hide SharesOf, KeyOf, Dict.Valid;
    if n > 0 { DistinctCredits(standings, pot, n - 1); }
  }

  /** With distinct accounts, each gets its share in the order given, and the top
      player the remainder besides. */
  lemma DistinctAwards(standings: seq<Standing>, pot: nat, top: nat)
    requires DistinctAccounts(standings) && top < |standings|
    ensures var claims := ClaimsOf(Awarded(standings, pot, top)); var shares := SharesOf(standings, pot);
      && |claims| == |standings|
      && forall i :: 0 <= i < |claims| ==>
           claims[i] == Claim(KeyOf(standings, i), shares[i] +
             (if i == top && pot > Sum(shares) then pot - Sum(shares) else 0))
  {
    hide SharesOf, KeyOf, Credited;
    DistinctCredits(standings, pot, |standings|);
  }

  lemma TopWeighsMost(standings: seq<Standing>, top: nat, i: nat)
    requires IsTop(standings, top) && i < |standings|
    ensures Weights(standings)[i] <= Weights(standings)[top]
  {
    if Sum(WinsOf(standings)) == 0 {
      SumBounds(WinsOf(standings), i);
      SumBounds(WinsOf(standings), top);
    }
  }

  /** A player with more weight never receives less. */
  lemma MoreWeightNeverPaysLess(standings: seq<Standing>, pot: nat, top: nat, i: nat, j: nat)
    requires DistinctAccounts(standings) && IsTop(standings, top)
    requires i < |standings| && j < |standings|
    requires Weights(standings)[i] < Weights(standings)[j]
    ensures var claims := ClaimsOf(Awarded(standings, pot, top));
      |claims| == |standings| && claims[i].amount <= claims[j].amount
  {
    hide Weights, KeyOf, Awarded;
    DistinctAwards(standings, pot, top);
    TopWeighsMost(standings, top, j);
    ShareIsMonotone(pot, Weights(standings)[i], Weights(standings)[j], Sum(Weights(standings)));
  }

  /** Dropping the empty claims, as the prize tree does, changes no total. */
  lemma {:induction false} PositiveKeepsTheTotal(claims: seq<Claim>)
    requires forall i :: 0 <= i < |claims| ==> claims[i].amount >= 0
    ensures Paid(Positive(claims)) == Paid(claims)
  {
    hide Paid;
    if claims != [] {
      var n := |claims| - 1;
      assert claims == claims[..n] + [claims[n]];
      PositiveKeepsTheTotal(claims[..n]);
      PaidOneMore(claims[..n], claims[n]);
      PaidOneMore(Positive(claims[..n]), claims[n]);
      assert Positive(claims[..n]) + [] == Positive(claims[..n]);
    }
  }

  lemma PaidOneMore(claims: seq<Claim>, c: Claim)
    ensures Paid(claims + [c]) == Paid(claims) + c.amount
  {
    assert (claims + [c])[..|claims|] == claims;
  }

  /** An account listed twice, in either letter case, keeps its last share only. */
  lemma RepeatedAccountLosesMoney()
    ensures var standings := [Standing("0xA", 1, 0), Standing("0xa", 1, 0)];
      IsTop(standings, 0) && Paid(ClaimsOf(Awarded(standings, 10, 0))) < 10
  {
    var standings := [Standing("0xA", 1, 0), Standing("0xa", 1, 0)];
    assert WinsOf(standings) == [1, 1];
    assert [1, 1][..1] == [1] && [1][..0] == [];
    assert Sum([1, 1]) == 2;
    assert KeyOf(standings, 0) == KeyOf(standings, 1);
    assert !RepeatsAreEmpty(standings, 10, 2) by { assert 10 * Weights(standings)[0] >= Sum(Weights(standings)); }
    hide Awarded, RepeatsAreEmpty, Weights;
    SplitIsExactIff(standings, 10, 0);
  }

  // ----- the awards in numbers -----

  lemma {:induction false} SumIsZeroIff(xs: seq<nat>)
    ensures Sum(xs) == 0 <==> forall i :: 0 <= i < |xs| ==> xs[i] == 0
  {
    if xs != [] {
      var n := |xs| - 1;
      SumIsZeroIff(xs[..n]);
      assert xs == xs[..n] + [xs[n]];
    }
  }

  /** Wins decide as soon as anyone has one; deposits decide when nobody has. */
  lemma WinsElseDeposits(standings: seq<Standing>, i: nat)
    requires i < |standings|
    ensures Weights(standings)[i] ==
      if exists k :: 0 <= k < |standings| && standings[k].wins > 0 then standings[i].wins else standings[i].principal
  {
    SumIsZeroIff(WinsOf(standings));
    assert forall k :: 0 <= k < |standings| ==> WinsOf(standings)[k] == standings[k].wins;
  }

  /** With distinct accounts, everyone but the top player gets the pot times their
      weight by the total, rounded down, and the top player gets what is left. */
  lemma AwardsInNumbers(standings: seq<Standing>, pot: nat, top: nat, i: nat)
    requires DistinctAccounts(standings) && top < |standings| && i < |standings| && Sum(Weights(standings)) > 0
    ensures var claims := ClaimsOf(Awarded(standings, pot, top));
      && |claims| == |standings|
      && claims[i].account == Lower(standings[i].account)
      && (i != top ==> claims[i].amount == pot * Weights(standings)[i] / Sum(Weights(standings)))
      && Paid(claims) == pot
  {
    hide Weights, Awarded, ClaimsOf, Paid, Credited;
    DistinctAwards(standings, pot, top);
    SplitIsExactIff(standings, pot, top);
    assert RepeatsAreEmpty(standings, pot, |standings|);
  }

  // ----- the ranking -----

  /** The comparison the players are sorted by: more wins first, then the larger
      deposit; of two equal players it puts each before the other. */
  function Compare(a: Standing, b: Standing): int {
    if b.wins != a.wins then b.wins - a.wins else if b.principal > a.principal then 1 else -1
  }

  /** One of the two answers of the comparison lets `x` come right before `y`. */
  predicate Allows(x: Standing, y: Standing) {
    Compare(x, y) <= 0 || Compare(y, x) >= 0
  }

  /** A result the sort may leave: the same standings, each neighbour allowed. */
  ghost predicate Arranged(standings: seq<Standing>, ranked: seq<Standing>) {
    && multiset(ranked) == multiset(standings)
    && forall i :: 0 <= i < |ranked| - 1 ==> Allows(ranked[i], ranked[i + 1])
  }

  lemma AllowedUnlessOutranked(x: Standing, y: Standing)
    ensures Allows(x, y) <==> !RanksAbove(y, x)
  {
  }

  lemma {:induction false} HeadOutranks(ranked: seq<Standing>, j: nat)
    requires j < |ranked| && forall i :: 0 <= i < |ranked| - 1 ==> Allows(ranked[i], ranked[i + 1])
    ensures !RanksAbove(ranked[j], ranked[0])
  {
    if j > 0 {
      HeadOutranks(ranked, j - 1);
      assert Allows(ranked[j - 1], ranked[j - 1 + 1]);
    }
  }

  /** However the sort settles its ties, it puts a top player first. */
  lemma HeadIsTop(standings: seq<Standing>, ranked: seq<Standing>) returns (t: nat)
    requires standings != [] && Arranged(standings, ranked)
    ensures IsTop(standings, t) && ranked != [] && ranked[0] == standings[t]
  {
    hide RanksAbove, Allows;
    assert |multiset(ranked)| == |ranked| && |multiset(standings)| == |standings|;
    assert ranked[0] in multiset(standings);
    t :| t < |standings| && standings[t] == ranked[0];
    forall i | 0 <= i < |standings|
      ensures !RanksAbove(standings[i], standings[t])
    {
      assert standings[i] in multiset(ranked);
      var j :| 0 <= j < |ranked| && ranked[j] == standings[i];
      HeadOutranks(ranked, j);
    }
  }

  lemma RankingIsAnOrdering()
    ensures Sorting.Ordering(RanksAbove)
  {
  }

  lemma LeaderFirst(head: Standing, rest: seq<Standing>)
    requires Sorting.Sorted(rest, RanksAbove) && forall i :: 0 <= i < |rest| ==> !RanksAbove(rest[i], head)
    ensures var ranked := [head] + rest; forall i :: 0 <= i < |ranked| - 1 ==> Allows(ranked[i], ranked[i + 1])
  {
    hide RanksAbove, Allows;
    var ranked := [head] + rest;
    forall i | 0 <= i < |ranked| - 1
      ensures Allows(ranked[i], ranked[i + 1])
    {
      AllowedUnlessOutranked(ranked[i], ranked[i + 1]);
      if i > 0 { assert !RanksAbove(rest[i], rest[i - 1]); }
    }
  }

  lemma TopOverOthers(standings: seq<Standing>, t: nat, rest: seq<Standing>)
    requires IsTop(standings, t) && multiset(rest) == multiset(standings[..t] + standings[t + 1..])
    ensures forall i :: 0 <= i < |rest| ==> !RanksAbove(rest[i], standings[t])
  {
    hide RanksAbove;
    forall i | 0 <= i < |rest|
      ensures !RanksAbove(rest[i], standings[t])
    {
      assert rest[i] in multiset(rest);
      assert rest[i] in standings[..t] + standings[t + 1..];
      assert rest[i] in standings;
    }
  }

  lemma HeadRejoins(standings: seq<Standing>, t: nat, rest: seq<Standing>)
    requires t < |standings| && multiset(rest) == multiset(standings[..t] + standings[t + 1..])
    ensures multiset([standings[t]] + rest) == multiset(standings)
  {
    assert standings == standings[..t] + [standings[t]] + standings[t + 1..];
  }

  /** Conversely, the sort may put any top player first. */
  lemma AnyTopCanLead(standings: seq<Standing>, t: nat) returns (ranked: seq<Standing>)
    requires IsTop(standings, t)
    ensures Arranged(standings, ranked) && ranked != [] && ranked[0] == standings[t]
  {
    hide RanksAbove, Allows;
    assert t < |standings|;
    hide IsTop;
    var others := standings[..t] + standings[t + 1..];
    var rest := Sorting.Sort(others, RanksAbove);
    RankingIsAnOrdering();
    Sorting.SortLaw(others, RanksAbove);
    hide Sorting.Sorted, Sorting.Ordering, Sorting.Sort;
    TopOverOthers(standings, t, rest);
    LeaderFirst(standings[t], rest);
    HeadRejoins(standings, t, rest);
    ranked := [standings[t]] + rest;
  }

  // ----- the program -----

  method SumWeights(ws: seq<nat>) returns (total: nat)
    ensures total == Sum(ws)
  {
    total := 0;
    for i := 0 to |ws|
      invariant total == Sum(ws[..i])
    {
      assert ws[..i + 1][..i] == ws[..i];
      total := total + ws[i];
    }
    assert ws[..|ws|] == ws;
  }

  /** `ranked` is what sorting the standings gave, in any order the comparison allows. */
  method SplitPrizes(standings: seq<Standing>, yieldPot: int, ranked: seq<Standing>) returns (claims: seq<Claim>)
    requires Arranged(standings, ranked)
    ensures yieldPot <= 0 || standings == [] || Sum(Weights(standings)) == 0 ==> claims == []
    ensures yieldPot > 0 && standings != [] && Sum(Weights(standings)) > 0 ==>
      exists top: nat :: IsTop(standings, top) && ranked != [] && ranked[0] == standings[top]
                    && claims == ClaimsOf(Awarded(standings, yieldPot, top))
  {
    hide Awarded, Lower, ClaimsOf, Arranged, RanksAbove;
    if yieldPot <= 0 || |standings| == 0 { return []; }

    var totalWins := SumWeights(WinsOf(standings));
    var weights := if totalWins > 0 then WinsOf(standings) else PrincipalsOf(standings);
    var totalW := SumWeights(weights);
    if totalW == 0 { return []; }

    var ledger, distributed := CreditAll(standings, yieldPot, weights, totalW);
    ghost var t := HeadIsTop(standings, ranked);
    var remainder := yieldPot - distributed;
    if remainder > 0 {
      var top := Lower(ranked[0].account);
      ledger := ledger.Set(top, ledger.GetOr(top, 0) + remainder);
    }
    AwardedIs(standings, yieldPot, t, ledger);
    return ClaimsOf(ledger);
  }

  lemma AwardedIs(standings: seq<Standing>, pot: nat, top: nat, ledger: Ledger)
    requires top < |standings|
    requires var all := Credited(standings, pot, |standings|); var key := Lower(standings[top].account);
      var remainder := pot - Sum(SharesOf(standings, pot));
      ledger == if remainder > 0 then all.Set(key, all.GetOr(key, 0) + remainder) else all
    ensures ledger == Awarded(standings, pot, top)
  {
  }

  method CreditAll(standings: seq<Standing>, yieldPot: nat, weights: seq<nat>, totalW: nat)
    returns (ledger: Ledger, distributed: nat)
    requires weights == Weights(standings) && totalW == Sum(weights) && totalW > 0
    ensures ledger == Credited(standings, yieldPot, |standings|)
    ensures distributed == Sum(SharesOf(standings, yieldPot))
  {
    hide Sum, Weights;
    ledger, distributed := EMPTY_TABLE, 0;
    SumNone(SharesOf(standings, yieldPot));
    for i := 0 to |standings|
      invariant ledger == Credited(standings, yieldPot, i)
      invariant distributed == Sum(SharesOf(standings, yieldPot)[..i])
    {
      var amt := yieldPot * weights[i] / totalW;
      SumOneMore(SharesOf(standings, yieldPot), i);
      ledger := ledger.Set(Lower(standings[i].account), amt);
      distributed := distributed + amt;
    }
    assert SharesOf(standings, yieldPot)[..|standings|] == SharesOf(standings, yieldPot);
  }
}
