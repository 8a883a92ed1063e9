/** How a week's pool is split: a dividend pro rata to points for everyone
    ranked, and a small bonus for the podium. */
module WeeklyPrizes {
  import opened Text
  import opened Apportion

  datatype LeagueStanding = LeagueStanding(address: Address, points: nat, games: nat, wins: nat)

  datatype Winner = Winner(address: Address, amountWei: nat)

  const DIVIDEND_BPS: nat := 9500

  function PodiumBps(rank: nat): nat {
    match rank
    case 0 => 250
    case 1 => 150
    case 2 => 100
    case _ => 0
  }

  function Podium(pool: nat, rank: nat): nat {
    pool * PodiumBps(rank) / 10_000
  }

  function Dividend(pool: nat): nat {
    pool * DIVIDEND_BPS / 10_000
  }

  function PointsOf(ranked: seq<LeagueStanding>): seq<nat> {
    seq(|ranked|, i requires 0 <= i < |ranked| => ranked[i].points)
  }

  /** What rank `i` (from 0) is due. */
  function Prize(ranked: seq<LeagueStanding>, pool: nat, i: nat): nat
    requires i < |ranked|
  {
    Podium(pool, i) + Share(Dividend(pool), ranked[i].points, Sum(PointsOf(ranked)))
  }

  /** The prizes of the first `n` ranks, empty ones left out. */
  function WinnersUpTo(ranked: seq<LeagueStanding>, pool: nat, n: nat): seq<Winner>
    requires n <= |ranked|
  {
    if n == 0 then []
    else
      WinnersUpTo(ranked, pool, n - 1)
      + (if Prize(ranked, pool, n - 1) > 0 then [Winner(ranked[n - 1].address, Prize(ranked, pool, n - 1))] else [])
  }

  function Winners(ranked: seq<LeagueStanding>, pool: nat): seq<Winner> {
    WinnersUpTo(ranked, pool, |ranked|)
  }

  function AmountTotal(ws: seq<Winner>): nat {
    if ws == [] then 0 else AmountTotal(ws[..|ws| - 1]) + ws[|ws| - 1].amountWei
  }

  method ComputePrizes(ranked: seq<LeagueStanding>, pool: nat) returns (out: seq<Winner>)
    ensures out == Winners(ranked, pool)
  {
    hide Share, Podium, Sum;
    out := [];
    var totalPts := 0;
    SumNone(PointsOf(ranked));
    for i := 0 to |ranked|
      invariant totalPts == Sum(PointsOf(ranked)[..i])
    {
      SumOneMore(PointsOf(ranked), i);
      totalPts := totalPts + ranked[i].points;
    }
    assert PointsOf(ranked)[..|ranked|] == PointsOf(ranked);
    var dividend := Dividend(pool);
    for i := 0 to |ranked|
      invariant out == WinnersUpTo(ranked, pool, i)
    {
      var amt := Podium(pool, i);
      if totalPts > 0 { amt := amt + Share(dividend, ranked[i].points, totalPts); }
      NoPointsNoShare(dividend, ranked[i].points, totalPts);
      if amt > 0 { out := out + [Winner(ranked[i].address, amt)]; }
    }
  }

  lemma NoPointsNoShare(pot: nat, weight: nat, total: nat)
    ensures total == 0 ==> Share(pot, weight, total) == 0
  {
  }

  /** 95 percent of the pool go by points, rounded down, and the first three get 2.5,
      1.5 and 1 percent of it besides. */
  lemma PrizeInNumbers(ranked: seq<LeagueStanding>, pool: nat, i: nat)
    requires i < |ranked|
    ensures var points := Sum(PointsOf(ranked));
      Prize(ranked, pool, i)
      == (if i == 0 then pool * 250 / 10_000
          else if i == 1 then pool * 150 / 10_000
          else if i == 2 then pool * 100 / 10_000
          else 0)
         + (if points == 0 then 0 else pool * 9_500 / 10_000 * ranked[i].points / points)
  {
  }

  // ----- what the split adds up to -----

  /** The podium bonuses of the first `n` ranks. */
  function PodiumTotal(pool: nat, n: nat): nat {
    if n == 0 then 0 else PodiumTotal(pool, n - 1) + Podium(pool, n - 1)
  }

  lemma {:induction false} AddWinner(ws: seq<Winner>, w: Winner)
    ensures AmountTotal(ws + [w]) == AmountTotal(ws) + w.amountWei
  {
    assert (ws + [w])[..|ws|] == ws;
  }

  lemma {:induction false} WinnersAddUp(ranked: seq<LeagueStanding>, pool: nat, n: nat)
    requires n <= |ranked|
    ensures AmountTotal(WinnersUpTo(ranked, pool, n))
      == PodiumTotal(pool, n) + Sum(Shares(Dividend(pool), PointsOf(ranked), Sum(PointsOf(ranked)))[..n])
  {
    hide Share, Podium, Dividend;
    var shares := Shares(Dividend(pool), PointsOf(ranked), Sum(PointsOf(ranked)));
    if n == 0 {
      SumNone(shares);
    } else {
      WinnersAddUp(ranked, pool, n - 1);
      SumOneMore(shares, n - 1);
      hide Sum, AmountTotal;
      var front := WinnersUpTo(ranked, pool, n - 1);
      if Prize(ranked, pool, n - 1) > 0 {
        AddWinner(front, Winner(ranked[n - 1].address, Prize(ranked, pool, n - 1)));
      } else {
        assert front + [] == front;
      }
    }
  }

  lemma {:induction false} PodiumPastThird(pool: nat, n: nat)
    requires n >= 3
    ensures PodiumTotal(pool, n) == Podium(pool, 0) + Podium(pool, 1) + Podium(pool, 2)
  {
    if n > 3 {
      PodiumPastThird(pool, n - 1);
      assert Podium(pool, n - 1) == 0;
    } else {
      assert PodiumTotal(pool, 1) == Podium(pool, 0);
      assert PodiumTotal(pool, 2) == PodiumTotal(pool, 1) + Podium(pool, 1);
    }
  }

  /** The three bonuses and the dividend together lose less than four units to rounding. */
  lemma FixedPartsFit(pool: nat)
    ensures var parts := Podium(pool, 0) + Podium(pool, 1) + Podium(pool, 2) + Dividend(pool);
      parts <= pool < parts + 4
  {
  }

  lemma {:induction false} PodiumGrows(pool: nat, n: nat, m: nat)
    requires n <= m
    ensures PodiumTotal(pool, n) <= PodiumTotal(pool, m)
  {
    if n < m { PodiumGrows(pool, n, m - 1); }
  }

  /** The prizes never exceed the pool; with a podium of three and a point
      scored, no more than one unit per player and three more go unassigned. */
  lemma PrizesFitThePool(ranked: seq<LeagueStanding>, pool: nat)
    ensures AmountTotal(Winners(ranked, pool)) <= pool
    ensures |ranked| >= 3 && Sum(PointsOf(ranked)) > 0 ==>
      pool - AmountTotal(Winners(ranked, pool)) <= |ranked| + 3
  {
    hide Share, Podium, Dividend, Sum, Shares, AmountTotal;
    var n, points := |ranked|, PointsOf(ranked);
    var total := Sum(points);
    var shares := Shares(Dividend(pool), points, total);
    WinnersAddUp(ranked, pool, n);
    SharesFit(Dividend(pool), points);
    assert shares[..n] == shares by { SharesLength(Dividend(pool), points, total); }
    FixedPartsFit(pool);
    PodiumPastThird(pool, if n < 3 then 3 else n);
    PodiumGrows(pool, n, if n < 3 then 3 else n);
  }

  lemma SharesLength(pot: nat, weights: seq<nat>, total: nat)
    ensures |Shares(pot, weights, total)| == |weights|
  {
  }

  lemma {:induction false} NoWeightNoShares(pot: nat, weights: seq<nat>)
    ensures Sum(Shares(pot, weights, 0)) == 0
  {
    if weights != [] {
      var n := |weights| - 1;
      NoWeightNoShares(pot, weights[..n]);
      assert Shares(pot, weights, 0)[..n] == Shares(pot, weights[..n], 0);
    }
  }

  lemma SharesFit(pot: nat, weights: seq<nat>)
    ensures var out := Sum(Shares(pot, weights, Sum(weights)));
      out <= pot && (Sum(weights) > 0 ==> pot < out + |weights|)
  {
    if Sum(weights) > 0 {
      SharesNearlyExhaustThePot(pot, weights);
    } else {
      NoWeightNoShares(pot, weights);
    }
  }

  // ----- rank order and payout order agree -----

  ghost predicate ByPoints(ranked: seq<LeagueStanding>) {
    forall i, j :: 0 <= i < j < |ranked| ==> ranked[i].points >= ranked[j].points
  }

  /** A better rank is never due less. */
  lemma PrizesFollowRank(ranked: seq<LeagueStanding>, pool: nat, i: nat, j: nat)
    requires ByPoints(ranked) && i < j < |ranked|
    ensures Prize(ranked, pool, i) >= Prize(ranked, pool, j)
  {
    ShareIsMonotone(Dividend(pool), ranked[j].points, ranked[i].points, Sum(PointsOf(ranked)));
    PodiumFallsWithRank(pool, i, j);
  }

  lemma PodiumFallsWithRank(pool: nat, i: nat, j: nat)
    requires i < j
    ensures Podium(pool, i) >= Podium(pool, j)
  {
    QuotientIsMonotone(pool * PodiumBps(j), pool * PodiumBps(i), 10_000);
  }

  /** The winners are the first so many of the standings, so a winner's place in
      the list is the rank: no one with a prize stands below one without. */
  lemma {:induction false} WinnersAreAPrefix(ranked: seq<LeagueStanding>, pool: nat, n: nat)
    requires ByPoints(ranked) && n <= |ranked|
    ensures var out := WinnersUpTo(ranked, pool, n);
      && |out| <= n
      && (forall i :: 0 <= i < |out| ==>
           out[i] == Winner(ranked[i].address, Prize(ranked, pool, i)) && Prize(ranked, pool, i) > 0)
      && (forall i :: |out| <= i < n ==> Prize(ranked, pool, i) == 0)
  {
    hide Prize;
    if n > 0 {
      WinnersAreAPrefix(ranked, pool, n - 1);
      var m := |WinnersUpTo(ranked, pool, n - 1)|;
      if m < n - 1 { PrizesFollowRank(ranked, pool, m, n - 1); }
    }
  }
}
