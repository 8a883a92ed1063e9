/** Who may be paired with whom, and which of the possible pairs are made:
    closest ratings first, with ties broken by a key that does not depend on the
    order of the queue. */
module Pairing {
  import opened Wrappers
  import opened Text
  import opened Greedy
  import Sorting

  datatype Waiter = Waiter(id: string, address: Address, elo: int, enqueuedAt: nat)

  datatype Pair = Pair(a: Waiter, b: Waiter)

  /** `maxGap` is None where the program has no ceiling; `strict` asks both
      windows to cover the gap instead of either. */
  datatype Options = Options(
    baseWindow: real, growth: real, pairAnyoneAfterSec: real, strict: bool, maxGap: Option<real>)

  function MaxReal(a: real, b: real): real {
    if a > b then a else b
  }

  function MinReal(a: real, b: real): real {
    if a < b then a else b
  }

  function WaitedSec(w: Waiter, now: int): real {
    MaxReal(0.0, (now - w.enqueuedAt) as real / 1000.0)
  }

  function WindowOf(w: Waiter, o: Options, now: int): real {
    o.baseWindow + o.growth * WaitedSec(w, now)
  }

  function Gap(a: Waiter, b: Waiter): nat {
    if a.elo < b.elo then b.elo - a.elo else a.elo - b.elo
  }

  function Wallet(w: Waiter): Address {
    Lower(w.address)
  }

  predicate Accepts(a: Waiter, b: Waiter, o: Options, now: int) {
    var gap := Gap(a, b) as real;
    && Wallet(a) != Wallet(b)
    && (o.maxGap.Some? ==> gap <= o.maxGap.value)
    && ((o.pairAnyoneAfterSec > 0.0 && MaxReal(WaitedSec(a, now), WaitedSec(b, now)) >= o.pairAnyoneAfterSec)
        || (if o.strict then gap <= MinReal(WindowOf(a, o, now), WindowOf(b, o, now))
            else gap <= MaxReal(WindowOf(a, o, now), WindowOf(b, o, now))))
  }

  lemma AcceptanceIsMutual(a: Waiter, b: Waiter, o: Options, now: int)
    ensures Accepts(a, b, o, now) == Accepts(b, a, o, now)
  {
  }

  /** Waiting longer never makes a pair unacceptable. */
  lemma WaitingOnlyHelps(a: Waiter, b: Waiter, o: Options, now: int, later: int)
    requires o.growth >= 0.0 && now <= later && Accepts(a, b, o, now)
    ensures Accepts(a, b, o, later)
  {
    WindowsWiden(a, o, now, later);
    WindowsWiden(b, o, now, later);
  }

  lemma WindowsWiden(w: Waiter, o: Options, now: int, later: int)
    requires o.growth >= 0.0 && now <= later
    ensures WaitedSec(w, now) <= WaitedSec(w, later)
    ensures WindowOf(w, o, now) <= WindowOf(w, o, later)
  {
    assert o.growth * (WaitedSec(w, later) - WaitedSec(w, now)) >= 0.0;
  }

  /** Whoever the strict rule would pair, the lenient rule pairs too. */
  lemma StrictIsStricter(a: Waiter, b: Waiter, o: Options, now: int)
    ensures Accepts(a, b, o.(strict := true), now) ==> Accepts(a, b, o.(strict := false), now)
  {
  }

  // ----- acceptance in numbers -----

  /** Rating points between the two. */
  function RatingGap(a: Waiter, b: Waiter): real {
    (if a.elo <= b.elo then b.elo - a.elo else a.elo - b.elo) as real
  }

  /** The rating gap the window of `w` covers at `now`: it grows by the second. */
  function Reach(w: Waiter, o: Options, now: int): real {
    if now <= w.enqueuedAt then o.baseWindow else o.baseWindow + o.growth * ((now - w.enqueuedAt) as real / 1000.0)
  }

  predicate WaitedFor(w: Waiter, seconds: real, now: int) {
    now > w.enqueuedAt && (now - w.enqueuedAt) as real >= seconds * 1000.0
  }

  /** Two may be paired exactly if their wallets differ, the ceiling allows their
      gap, and either one of them has waited past the backstop, or the gap is within
      reach: of both under the strict rule, of one of them under the lenient. */
  predicate MayPair(a: Waiter, b: Waiter, o: Options, now: int) {
    && Lower(a.address) != Lower(b.address)
    && (o.maxGap.Some? ==> RatingGap(a, b) <= o.maxGap.value)
    && ((o.pairAnyoneAfterSec > 0.0
         && (WaitedFor(a, o.pairAnyoneAfterSec, now) || WaitedFor(b, o.pairAnyoneAfterSec, now)))
        || (o.strict && RatingGap(a, b) <= Reach(a, o, now) && RatingGap(a, b) <= Reach(b, o, now))
        || (!o.strict && (RatingGap(a, b) <= Reach(a, o, now) || RatingGap(a, b) <= Reach(b, o, now))))
  }

  lemma AcceptsIff(a: Waiter, b: Waiter, o: Options, now: int)
    ensures Accepts(a, b, o, now) <==> MayPair(a, b, o, now)
  {
    WindowIsReach(a, o, now);
    WindowIsReach(b, o, now);
  }

  lemma WindowIsReach(w: Waiter, o: Options, now: int)
    ensures WindowOf(w, o, now) == Reach(w, o, now)
    ensures o.pairAnyoneAfterSec > 0.0 ==>
      (WaitedSec(w, now) >= o.pairAnyoneAfterSec <==> WaitedFor(w, o.pairAnyoneAfterSec, now))
  {
    var ms := (now - w.enqueuedAt) as real;
    if now <= w.enqueuedAt {
      assert ms / 1000.0 <= 0.0 && WaitedSec(w, now) == 0.0;
      assert o.growth * 0.0 == 0.0;
    } else {
      assert WaitedSec(w, now) == ms / 1000.0;
    }
  }

  lemma EarlierReachesFarther(a: Waiter, b: Waiter, o: Options, now: int)
    requires o.growth >= 0.0 && b.enqueuedAt <= a.enqueuedAt <= now
    ensures Reach(a, o, now) == o.baseWindow + o.growth * ((now - a.enqueuedAt) as real / 1000.0)
    ensures Reach(b, o, now) == o.baseWindow + o.growth * ((now - b.enqueuedAt) as real / 1000.0)
    ensures Reach(a, o, now) <= Reach(b, o, now)
    ensures WaitedFor(a, o.pairAnyoneAfterSec, now) ==> WaitedFor(b, o.pairAnyoneAfterSec, now)
  {
    FromTheStart(a, o, now);
    FromTheStart(b, o, now);
    hide Reach;
    Longer(o.growth, (now - a.enqueuedAt) as real / 1000.0, (now - b.enqueuedAt) as real / 1000.0);
  }

  lemma FromTheStart(w: Waiter, o: Options, now: int)
    requires w.enqueuedAt <= now
    ensures Reach(w, o, now) == o.baseWindow + o.growth * ((now - w.enqueuedAt) as real / 1000.0)
  {
    if now == w.enqueuedAt { assert (now - w.enqueuedAt) as real / 1000.0 == 0.0; }
  }

  /** Short of the backstop, the one who arrived later decides under the strict
      rule, and the one who arrived earlier under the lenient. */
  lemma WhoDecides(a: Waiter, b: Waiter, o: Options, now: int)
    requires o.growth >= 0.0 && b.enqueuedAt <= a.enqueuedAt <= now
    requires o.pairAnyoneAfterSec <= 0.0 || !WaitedFor(b, o.pairAnyoneAfterSec, now)
    requires Lower(a.address) != Lower(b.address) && (o.maxGap.Some? ==> RatingGap(a, b) <= o.maxGap.value)
    ensures o.strict ==>
      (Accepts(a, b, o, now) <==> RatingGap(a, b) <= o.baseWindow + o.growth * ((now - a.enqueuedAt) as real / 1000.0))
    ensures !o.strict ==>
      (Accepts(a, b, o, now) <==> RatingGap(a, b) <= o.baseWindow + o.growth * ((now - b.enqueuedAt) as real / 1000.0))
  {
    hide Accepts, RatingGap, Lower, Reach, WaitedFor;
    AcceptsIff(a, b, o, now);
    EarlierReachesFarther(a, b, o, now);
  }

  lemma Longer(g: real, x: real, y: real)
    requires g >= 0.0 && x <= y
    ensures g * x <= g * y
  {
    assert g * (y - x) >= 0.0;
  }

  /** Once one of them has waited past the backstop, only wallets and ceiling count. */
  lemma PastTheBackstop(a: Waiter, b: Waiter, o: Options, now: int)
    requires o.pairAnyoneAfterSec > 0.0 && WaitedFor(a, o.pairAnyoneAfterSec, now)
    ensures Accepts(a, b, o, now) <==>
      Lower(a.address) != Lower(b.address) && (o.maxGap.Some? ==> RatingGap(a, b) <= o.maxGap.value)
  {
    hide Accepts;
    AcceptsIff(a, b, o, now);
  }

  const STRICT_RULE: Options := Options(100.0, 10.0, 0.0, true, Some(400.0))

  /** Under a strict rule, someone who waited a minute for a gap of 300 is not paired
      with a newcomer, whose window is still 100, but is with one who waited as well. */
  lemma FreshPlayerIsSpared()
    ensures !Accepts(Waiter("s1", "0xa", 1200, 60_000), Waiter("s2", "0xb", 1500, 0), STRICT_RULE, 60_000)
    ensures Accepts(Waiter("s1", "0xa", 1200, 40_000), Waiter("s2", "0xb", 1500, 0), STRICT_RULE, 60_000)
  {
    assert Lower("0xa")[2] != Lower("0xb")[2];
  }

  // ----- the best match for a newcomer -----

  /** The earliest of the closest acceptable waiters among the first `n`. */
  function BestIndex(p: Waiter, ws: seq<Waiter>, o: Options, now: int, n: nat): Option<nat>
    requires n <= |ws|
    ensures BestIndex(p, ws, o, now, n).Some? ==> BestIndex(p, ws, o, now, n).value < n
  {
    if n == 0 then None
    else
      var best := BestIndex(p, ws, o, now, n - 1);
      if Accepts(p, ws[n - 1], o, now) && (best.None? || Gap(ws[n - 1], p) < Gap(ws[best.value], p))
      then Some(n - 1) else best
  }

  lemma {:induction false} BestIndexIsBest(p: Waiter, ws: seq<Waiter>, o: Options, now: int, n: nat)
    requires n <= |ws|
    ensures var best := BestIndex(p, ws, o, now, n);
      match best
      case None => forall j :: 0 <= j < n ==> !Accepts(p, ws[j], o, now)
      case Some(k) =>
        && Accepts(p, ws[k], o, now)
        && (forall j :: 0 <= j < n && Accepts(p, ws[j], o, now) ==> Gap(ws[k], p) <= Gap(ws[j], p))
        && (forall j :: 0 <= j < k && Accepts(p, ws[j], o, now) ==> Gap(ws[k], p) < Gap(ws[j], p))
  {
    hide Accepts, Gap;
    if n > 0 { BestIndexIsBest(p, ws, o, now, n - 1); }
  }

  method BestMatchFor(p: Waiter, ws: seq<Waiter>, o: Options, now: int) returns (best: Option<Waiter>)
    ensures var k := BestIndex(p, ws, o, now, |ws|);
      best == if k.Some? then Some(ws[k.value]) else None
  {
    hide Accepts, Gap;
    best := None;
    var bestGap := 0;
    for i := 0 to |ws|
      invariant var k := BestIndex(p, ws, o, now, i);
        best == (if k.Some? then Some(ws[k.value]) else None)
      invariant best.Some? ==> bestGap == Gap(best.value, p)
    {
      if !Accepts(p, ws[i], o, now) { continue; }
      var gap := Gap(ws[i], p);
      if best.None? || gap < bestGap {
        bestGap := gap;
        best := Some(ws[i]);
      }
    }
  }

  // ----- candidate pairs and their order -----

  /** Earliest arrival, then the two wallets in order. */
  function PairKey(a: Waiter, b: Waiter): string {
    var earliest := if a.enqueuedAt < b.enqueuedAt then a.enqueuedAt else b.enqueuedAt;
    var (x, y) := if Before(Wallet(b), Wallet(a)) then (Wallet(b), Wallet(a)) else (Wallet(a), Wallet(b));
    Decimal(earliest) + ['|'] + (x + ['|'] + y)
  }

  /** The earlier arrival comes first; ties go to the lower wallet. */
  function OrderPair(x: Waiter, y: Waiter): Pair {
    if x.enqueuedAt < y.enqueuedAt || (x.enqueuedAt == y.enqueuedAt && Before(Wallet(x), Wallet(y)))
    then Pair(x, y) else Pair(y, x)
  }

  lemma PairingIsSymmetric(a: Waiter, b: Waiter)
    requires Wallet(a) != Wallet(b)
    ensures Gap(a, b) == Gap(b, a)
    ensures PairKey(a, b) == PairKey(b, a)
    ensures OrderPair(a, b) == OrderPair(b, a)
  {
    hide Wallet, Before;
    BeforeIsStrict(Wallet(a), Wallet(b));
  }

  /** The first of an ordered pair is the one who arrived earlier, or on a tie
      the one with the lower wallet. */
  lemma EarlierComesFirst(x: Waiter, y: Waiter)
    ensures var p := OrderPair(x, y);
      && multiset{p.a, p.b} == multiset{x, y}
      && p.a.enqueuedAt <= p.b.enqueuedAt
      && (p.a.enqueuedAt == p.b.enqueuedAt ==> !Before(Wallet(p.b), Wallet(p.a)))
  {
    hide Wallet, Before;
    BeforeIsStrict(Wallet(x), Wallet(y));
  }

  datatype Candidate = Candidate(i: nat, j: nat, gap: nat, key: string)

  predicate Closer(c: Candidate, d: Candidate) {
    c.gap < d.gap || (c.gap == d.gap && Before(c.key, d.key))
  }

  predicate SharesWaiter(c: Candidate, d: Candidate) {
    c.i == d.i || c.i == d.j || c.j == d.i || c.j == d.j
  }

  function CandidateOf(ws: seq<Waiter>, i: nat, j: nat): Candidate
    requires i < |ws| && j < |ws|
  {
    Candidate(i, j, Gap(ws[i], ws[j]), PairKey(ws[i], ws[j]))
  }

  /** The acceptable partners of waiter `i` from `i + 1` up to but not including `j`. */
  function Partners(ws: seq<Waiter>, o: Options, now: int, i: nat, j: nat): seq<Candidate>
    requires i < j <= |ws|
  {
    if j == i + 1 then []
    else
      Partners(ws, o, now, i, j - 1)
      + (if Accepts(ws[i], ws[j - 1], o, now) then [CandidateOf(ws, i, j - 1)] else [])
  }

  function CandidatesBelow(ws: seq<Waiter>, o: Options, now: int, n: nat): seq<Candidate>
    requires n <= |ws|
  {
    if n == 0 then [] else CandidatesBelow(ws, o, now, n - 1) + Partners(ws, o, now, n - 1, |ws|)
  }

  function SortedCandidates(ws: seq<Waiter>, o: Options, now: int): seq<Candidate> {
    Sorting.Sort(CandidatesBelow(ws, o, now, |ws|), Closer)
  }

  /** The candidates that are made into pairs. */
  function Chosen(ws: seq<Waiter>, o: Options, now: int): seq<Candidate> {
    Take(SortedCandidates(ws, o, now), SharesWaiter)
  }

  ghost predicate IsCandidate(ws: seq<Waiter>, o: Options, now: int, c: Candidate) {
    c.i < c.j < |ws| && Accepts(ws[c.i], ws[c.j], o, now) && c == CandidateOf(ws, c.i, c.j)
  }

  lemma {:induction false} PartnersLaw(ws: seq<Waiter>, o: Options, now: int, i: nat, j: nat)
    requires i < j <= |ws|
    ensures forall c :: c in Partners(ws, o, now, i, j) <==> IsCandidate(ws, o, now, c) && c.i == i && c.j < j
    ensures Sorting.Distinct(Partners(ws, o, now, i, j))
  {
    hide Accepts, Gap, PairKey;
    if j > i + 1 {
      PartnersLaw(ws, o, now, i, j - 1);
      var front := Partners(ws, o, now, i, j - 1);
      assert forall k :: 0 <= k < |front| ==> front[k] in front;
    }
  }

  lemma CandidateInRange(ws: seq<Waiter>, o: Options, now: int, c: Candidate)
    ensures IsCandidate(ws, o, now, c) ==> c.i < c.j < |ws|
  {
  }

  lemma {:induction false} CandidatesLaw(ws: seq<Waiter>, o: Options, now: int, n: nat)
    requires n <= |ws|
    ensures forall c :: c in CandidatesBelow(ws, o, now, n) <==> IsCandidate(ws, o, now, c) && c.i < n
  {
    hide Accepts, Gap, PairKey, IsCandidate, Partners;
    if n > 0 {
      CandidatesLaw(ws, o, now, n - 1);
      PartnersLaw(ws, o, now, n - 1, |ws|);
      forall c
        ensures c in CandidatesBelow(ws, o, now, n) <==> IsCandidate(ws, o, now, c) && c.i < n
      {
        CandidateInRange(ws, o, now, c);
      }
    }
  }

  lemma {:induction false} CandidatesAreDistinct(ws: seq<Waiter>, o: Options, now: int, n: nat)
    requires n <= |ws|
    ensures Sorting.Distinct(CandidatesBelow(ws, o, now, n))
  {
    hide Accepts, Gap, PairKey, IsCandidate, Partners;
    if n > 0 {
      CandidatesAreDistinct(ws, o, now, n - 1);
      CandidatesLaw(ws, o, now, n - 1);
      PartnersLaw(ws, o, now, n - 1, |ws|);
      hide CandidatesBelow;
      ApartStaysDistinct(CandidatesBelow(ws, o, now, n - 1), Partners(ws, o, now, n - 1, |ws|), n - 1);
    }
  }

  lemma ApartStaysDistinct(front: seq<Candidate>, row: seq<Candidate>, n: nat)
    requires Sorting.Distinct(front) && Sorting.Distinct(row)
    requires (forall c :: c in front ==> c.i < n) && (forall c :: c in row ==> c.i == n)
    ensures Sorting.Distinct(front + row)
  {
    assert forall k :: 0 <= k < |front| ==> front[k] in front;
    assert forall k :: 0 <= k < |row| ==> row[k] in row;
  }

  lemma CloserIsAnOrdering()
    ensures Sorting.Ordering(Closer)
  {
    hide Before;
    forall c: Candidate, d: Candidate | Closer(c, d)
      ensures !Closer(d, c)
    {
      BeforeIsStrict(c.key, d.key);
    }
    forall c: Candidate, d: Candidate, e: Candidate | Closer(c, e)
      ensures Closer(c, d) || Closer(d, e)
    {
      if Before(c.key, e.key) { BeforeSplits(c.key, d.key, e.key); }
    }
  }

  lemma SortedCandidatesLaw(ws: seq<Waiter>, o: Options, now: int)
    ensures var cs := SortedCandidates(ws, o, now);
      && Sorting.Sorted(cs, Closer)
      && Sorting.Distinct(cs)
      && (forall c :: c in cs <==> IsCandidate(ws, o, now, c))
  {
    hide IsCandidate, Closer;
    var found := CandidatesBelow(ws, o, now, |ws|);
    var cs := SortedCandidates(ws, o, now);
    CloserIsAnOrdering();
    CandidatesLaw(ws, o, now, |ws|);
    CandidatesAreDistinct(ws, o, now, |ws|);
    Sorting.SortLaw(found, Closer);
    Sorting.DistinctCounts(found);
    Sorting.DistinctCounts(cs);
    forall c
      ensures c in cs <==> IsCandidate(ws, o, now, c)
    {
      assert c in cs <==> c in multiset(cs);
      assert c in found <==> c in multiset(found);
      CandidateInRange(ws, o, now, c);
    }
  }

  /** The chosen pairs are acceptable and disjoint; and any acceptable pair that
      is not chosen shares a waiter with a chosen one that is at least as close. */
  lemma ChosenIsAStableMatching(ws: seq<Waiter>, o: Options, now: int)
    ensures var chosen := Chosen(ws, o, now);
      && (forall k :: 0 <= k < |chosen| ==> IsCandidate(ws, o, now, chosen[k]))
      && (forall k, l :: 0 <= k < l < |chosen| ==> !SharesWaiter(chosen[k], chosen[l]))
      && (forall c :: IsCandidate(ws, o, now, c) && c !in chosen ==>
           exists d :: d in chosen && SharesWaiter(d, c) && !Closer(c, d))
  {
    hide IsCandidate, SharesWaiter, Closer;
    var cs := SortedCandidates(ws, o, now);
    var chosen := Chosen(ws, o, now);
    SortedCandidatesLaw(ws, o, now);
    TakeLaw(cs, SharesWaiter);
    forall c | IsCandidate(ws, o, now, c) && c !in chosen
      ensures exists d :: d in chosen && SharesWaiter(d, c) && !Closer(c, d)
    {
      assert c in cs;
      var k: nat :| k < |cs| && cs[k] == c;
      var m := LeftOutFor(cs, SharesWaiter, k);
      assert cs[m] in chosen && SharesWaiter(cs[m], c) && !Closer(c, cs[m]);
    }
  }

  /** An acceptable pair is left out only for one that shares a waiter with it and
      is no wider apart; if just as wide, for one with no later arrival in it, as
      long as the earliest arrivals are numerals of one length, which times are. */
  lemma LeftOutForCloser(ws: seq<Waiter>, o: Options, now: int, i: nat, j: nat)
    requires i < j < |ws| && MayPair(ws[i], ws[j], o, now)
    ensures exists d :: (
      && d in Chosen(ws, o, now) && d.i < d.j < |ws|
      && (d.i == i || d.i == j || d.j == i || d.j == j)
      && NoWorse(ws[d.i], ws[d.j], ws[i], ws[j]))
  {
    hide Accepts, MayPair, Chosen, Before, PairKey, Gap;
    AcceptsIff(ws[i], ws[j], o, now);
    ChosenIsAStableMatching(ws, o, now);
    var c := CandidateOf(ws, i, j);
    assert IsCandidate(ws, o, now, c);
    if c in Chosen(ws, o, now) {
      NoWorseThanItself(ws[i], ws[j]);
    } else {
      var d :| d in Chosen(ws, o, now) && SharesWaiter(d, c) && !Closer(c, d);
      var k :| 0 <= k < |Chosen(ws, o, now)| && Chosen(ws, o, now)[k] == d;
      assert IsCandidate(ws, o, now, d);
      NotCloserIsNoWorse(ws[d.i], ws[d.j], ws[i], ws[j]);
    }
  }

  /** Every pair a sweep makes may be made. */
  lemma SweptPairsMayPair(ws: seq<Waiter>, o: Options, now: int, k: nat)
    requires k < |Pairings(ws, o, now)|
    ensures MayPair(Pairings(ws, o, now)[k].a, Pairings(ws, o, now)[k].b, o, now)
  {
    hide Accepts, MayPair, Chosen;
    ChosenIsAStableMatching(ws, o, now);
    var c := Chosen(ws, o, now)[k];
    assert IsCandidate(ws, o, now, c);
    AcceptanceIsMutual(ws[c.i], ws[c.j], o, now);
    AcceptsIff(ws[c.i], ws[c.j], o, now);
    AcceptsIff(ws[c.j], ws[c.i], o, now);
  }

  /** When the first of two waiters arrived. */
  function Earliest(a: Waiter, b: Waiter): nat {
    if a.enqueuedAt <= b.enqueuedAt then a.enqueuedAt else b.enqueuedAt
  }

  /** Pair `a`, `b` is no wider than `c`, `d`, and if as wide, waits no shorter. */
  predicate NoWorse(a: Waiter, b: Waiter, c: Waiter, d: Waiter) {
    && RatingGap(a, b) <= RatingGap(c, d)
    && (RatingGap(a, b) == RatingGap(c, d) && |Decimal(Earliest(a, b))| == |Decimal(Earliest(c, d))| ==>
         Earliest(a, b) <= Earliest(c, d))
  }

  lemma NoWorseThanItself(a: Waiter, b: Waiter)
    ensures NoWorse(a, b, a, b)
  {
  }

  lemma NotCloserIsNoWorse(a: Waiter, b: Waiter, c: Waiter, d: Waiter)
    requires !(Gap(c, d) < Gap(a, b) || (Gap(c, d) == Gap(a, b) && Before(PairKey(c, d), PairKey(a, b))))
    ensures NoWorse(a, b, c, d)
  {
    hide Before, Wallet, Decimal;
    var m, n := Earliest(c, d), Earliest(a, b);
    if |Decimal(m)| == |Decimal(n)| && m < n {
      var x := PairKey(c, d)[|Decimal(m)|..];
      var y := PairKey(a, b)[|Decimal(n)|..];
      assert PairKey(c, d) == Decimal(m) + x && PairKey(a, b) == Decimal(n) + y;
      DecimalsInOrder(m, n, x, y);
    }
  }

  // ----- the sweep -----

  const NOBODY: Waiter := Waiter("", "", 0, 0)

  function PairOf(ws: seq<Waiter>, c: Candidate): Pair {
    if c.i < |ws| && c.j < |ws| then OrderPair(ws[c.i], ws[c.j]) else Pair(NOBODY, NOBODY)
  }

  function Pairings(ws: seq<Waiter>, o: Options, now: int): seq<Pair> {
    Map(Chosen(ws, o, now), c => PairOf(ws, c))
  }

  method SelectPairings(ws: seq<Waiter>, o: Options, now: int) returns (pairs: seq<Pair>)
    ensures pairs == Pairings(ws, o, now)
  {
    hide Partners;
    var candidates := [];
    for i := 0 to |ws|
      invariant candidates == CandidatesBelow(ws, o, now, i)
    {
      var row := PartnersOf(ws, o, now, i);
      candidates := candidates + row;
    }
    candidates := Sorting.Sort(candidates, Closer);
    pairs := PairOff(ws, candidates);
  }

  /** The inner loop: the later waiters that waiter `i` may be paired with. */
  method PartnersOf(ws: seq<Waiter>, o: Options, now: int, i: nat) returns (row: seq<Candidate>)
    requires i < |ws|
    ensures row == Partners(ws, o, now, i, |ws|)
  {
    hide Accepts, PairKey, Gap;
    row := [];
    for j := i + 1 to |ws|
      invariant row == Partners(ws, o, now, i, j)
    {
      if !Accepts(ws[i], ws[j], o, now) { continue; }
      row := row + [Candidate(i, j, Gap(ws[i], ws[j]), PairKey(ws[i], ws[j]))];
    }
  }

  /** Walk the sorted candidates, skipping those with a waiter already used. */
  method PairOff(ws: seq<Waiter>, candidates: seq<Candidate>) returns (pairs: seq<Pair>)
    ensures pairs == Map(Take(candidates, SharesWaiter), c => PairOf(ws, c))
  {
    hide OrderPair;
    var used: set<nat> := {};
    pairs := [];
    for k := 0 to |candidates|
      invariant pairs == Map(Take(candidates[..k], SharesWaiter), c => PairOf(ws, c))
      invariant forall w :: w in used <==> UsedBy(Take(candidates[..k], SharesWaiter), w)
    {
      var c := candidates[k];
      TakeNext(candidates, k);
      if c.i in used || c.j in used { continue; }
      used := used + {c.i, c.j};
      pairs := pairs + [PairOf(ws, c)];
    }
    assert candidates[..|candidates|] == candidates;
  }

  ghost predicate UsedBy(taken: seq<Candidate>, w: nat) {
    exists k :: 0 <= k < |taken| && (taken[k].i == w || taken[k].j == w)
  }

  lemma TakeNext(candidates: seq<Candidate>, k: nat)
    requires k < |candidates|
    ensures var taken := Take(candidates[..k], SharesWaiter); var c := candidates[k];
      && Take(candidates[..k + 1], SharesWaiter)
         == (if UsedBy(taken, c.i) || UsedBy(taken, c.j) then taken else taken + [c])
      && (forall w :: UsedBy(taken + [c], w) <==> UsedBy(taken, w) || w == c.i || w == c.j)
  {
    hide Take;
    var taken := Take(candidates[..k], SharesWaiter);
    TakeUnfolds(candidates, k);
    var c := candidates[k];
    assert Clashes(taken, c, SharesWaiter) <==> UsedBy(taken, c.i) || UsedBy(taken, c.j);
    forall w
      ensures UsedBy(taken + [c], w) <==> UsedBy(taken, w) || w == c.i || w == c.j
    {
      var more := taken + [c];
      assert more[|taken|] == c;
      if UsedBy(taken, w) {
        var m :| 0 <= m < |taken| && (taken[m].i == w || taken[m].j == w);
        assert more[m] == taken[m];
      }
    }
  }

  lemma TakeUnfolds(candidates: seq<Candidate>, k: nat)
    requires k < |candidates|
    ensures var taken := Take(candidates[..k], SharesWaiter);
      Take(candidates[..k + 1], SharesWaiter)
      == (if Clashes(taken, candidates[k], SharesWaiter) then taken else taken + [candidates[k]])
  {
    assert candidates[..k + 1][..k] == candidates[..k];
  }

  // ----- the sweep does not depend on the order of the queue -----

  ghost predicate DistinctWallets(ws: seq<Waiter>) {
    forall i, j :: 0 <= i < j < |ws| ==> Wallet(ws[i]) != Wallet(ws[j])
  }

  /** Addresses are plain text without the separator the keys use. */
  ghost predicate PlainWallets(ws: seq<Waiter>) {
    forall w :: w in ws ==> '|' !in Wallet(w)
  }

  /** A pair as the sweep ranks it, without positions in the queue. */
  datatype Rated = Rated(pair: Pair, gap: nat, key: string)

  function RateOf(a: Waiter, b: Waiter): Rated {
    Rated(OrderPair(a, b), Gap(a, b), PairKey(a, b))
  }

  function Rate(ws: seq<Waiter>, c: Candidate): Rated {
    Rated(PairOf(ws, c), c.gap, c.key)
  }

  predicate RatedCloser(r: Rated, s: Rated) {
    r.gap < s.gap || (r.gap == s.gap && Before(r.key, s.key))
  }

  predicate SharesWallet(r: Rated, s: Rated) {
    || Wallet(r.pair.a) == Wallet(s.pair.a) || Wallet(r.pair.a) == Wallet(s.pair.b)
    || Wallet(r.pair.b) == Wallet(s.pair.a) || Wallet(r.pair.b) == Wallet(s.pair.b)
  }

  ghost predicate IsRated(ws: seq<Waiter>, o: Options, now: int, r: Rated) {
    exists a, b :: a in ws && b in ws && Accepts(a, b, o, now) && r == RateOf(a, b)
  }

  /** The key names the two wallets. */
  lemma KeyNamesTheWallets(a: Waiter, b: Waiter, c: Waiter, d: Waiter)
    requires '|' !in Wallet(a) && '|' !in Wallet(b) && '|' !in Wallet(c) && '|' !in Wallet(d)
    requires PairKey(a, b) == PairKey(c, d)
    ensures (Wallet(a) == Wallet(c) && Wallet(b) == Wallet(d)) || (Wallet(a) == Wallet(d) && Wallet(b) == Wallet(c))
  {
    hide Wallet, Before;
    var m := if a.enqueuedAt < b.enqueuedAt then a.enqueuedAt else b.enqueuedAt;
    var n := if c.enqueuedAt < d.enqueuedAt then c.enqueuedAt else d.enqueuedAt;
    var (x, y) := if Before(Wallet(b), Wallet(a)) then (Wallet(b), Wallet(a)) else (Wallet(a), Wallet(b));
    var (u, v) := if Before(Wallet(d), Wallet(c)) then (Wallet(d), Wallet(c)) else (Wallet(c), Wallet(d));
    DecimalIsDigits(m);
    DecimalIsDigits(n);
    FirstField(Decimal(m), Decimal(n), '|', x + ['|'] + y, u + ['|'] + v);
    FirstField(x, u, '|', y, v);
  }

  lemma AcceptedDiffer(a: Waiter, b: Waiter, o: Options, now: int)
    requires Accepts(a, b, o, now)
    ensures Wallet(a) != Wallet(b)
  {
  }

  lemma SameWalletSameWaiter(ws: seq<Waiter>, a: Waiter, b: Waiter)
    requires DistinctWallets(ws) && a in ws && b in ws
    ensures Wallet(a) == Wallet(b) ==> a == b
  {
    hide Wallet;
    var i :| 0 <= i < |ws| && ws[i] == a;
    var j :| 0 <= j < |ws| && ws[j] == b;
  }

  /** Different rated pairs never tie. */
  lemma RatedNeverTie(ws: seq<Waiter>, o: Options, now: int, r: Rated, s: Rated)
    requires DistinctWallets(ws) && PlainWallets(ws)
    requires IsRated(ws, o, now, r) && IsRated(ws, o, now, s) && r != s
    ensures RatedCloser(r, s) || RatedCloser(s, r)
  {
    hide Accepts, Wallet, Before, PairKey, OrderPair, Gap;
    var a, b :| a in ws && b in ws && Accepts(a, b, o, now) && r == RateOf(a, b);
    var c, d :| c in ws && d in ws && Accepts(c, d, o, now) && s == RateOf(c, d);
    BeforeIsStrict(r.key, s.key);
    if r.key == s.key {
      KeyNamesTheWallets(a, b, c, d);
      AcceptedDiffer(a, b, o, now);
      PairingIsSymmetric(a, b);
      if Wallet(a) == Wallet(c) {
        SameWalletSameWaiter(ws, a, c);
        SameWalletSameWaiter(ws, b, d);
      } else {
        SameWalletSameWaiter(ws, a, d);
        SameWalletSameWaiter(ws, b, c);
      }
    }
  }

  lemma RatedCloserIsAnOrdering()
    ensures Sorting.Ordering(RatedCloser)
  {
    hide Before;
    forall c: Rated, d: Rated | RatedCloser(c, d)
      ensures !RatedCloser(d, c)
    {
      BeforeIsStrict(c.key, d.key);
    }
    forall c: Rated, d: Rated, e: Rated | RatedCloser(c, e)
      ensures RatedCloser(c, d) || RatedCloser(d, e)
    {
      if Before(c.key, e.key) { BeforeSplits(c.key, d.key, e.key); }
    }
  }

  /** The ranked pairs of a queue, positions forgotten. */
  function Ranked(ws: seq<Waiter>, o: Options, now: int): seq<Rated> {
    Map(SortedCandidates(ws, o, now), c => Rate(ws, c))
  }

  lemma CandidateIsRated(ws: seq<Waiter>, o: Options, now: int, c: Candidate)
    requires IsCandidate(ws, o, now, c)
    ensures c.i < c.j < |ws| && Rate(ws, c) == RateOf(ws[c.i], ws[c.j])
    ensures IsRated(ws, o, now, Rate(ws, c))
    ensures Wallet(ws[c.i]) != Wallet(ws[c.j])
  {
    hide OrderPair, PairKey, Gap;
    assert ws[c.i] in ws && ws[c.j] in ws;
  }

  lemma RatedIsCandidate(ws: seq<Waiter>, o: Options, now: int, r: Rated) returns (c: Candidate)
    requires IsRated(ws, o, now, r)
    ensures IsCandidate(ws, o, now, c) && Rate(ws, c) == r
  {
    hide Accepts, Wallet, PairKey, OrderPair, Gap;
    var a, b :| a in ws && b in ws && Accepts(a, b, o, now) && r == RateOf(a, b);
    var i: nat :| i < |ws| && ws[i] == a;
    var j: nat :| j < |ws| && ws[j] == b;
    AcceptedDiffer(a, b, o, now);
    PairingIsSymmetric(a, b);
    AcceptanceIsMutual(a, b, o, now);
    c := if i < j then CandidateOf(ws, i, j) else CandidateOf(ws, j, i);
  }

  /** Positions clash exactly when wallets do. */
  lemma ClashesAgree(ws: seq<Waiter>, o: Options, now: int, c: Candidate, d: Candidate)
    requires DistinctWallets(ws) && IsCandidate(ws, o, now, c) && IsCandidate(ws, o, now, d)
    ensures SharesWaiter(c, d) <==> SharesWallet(Rate(ws, c), Rate(ws, d))
    ensures Rate(ws, c) == Rate(ws, d) ==> c == d
  {
    hide Accepts, Wallet, PairKey, Gap, Before;
    var i, j, k, l := ws[c.i], ws[c.j], ws[d.i], ws[d.j];
    assert forall m, n :: 0 <= m < |ws| && 0 <= n < |ws| && Wallet(ws[m]) == Wallet(ws[n]) ==> m == n;
  }

  lemma RankedLaw(ws: seq<Waiter>, o: Options, now: int)
    requires DistinctWallets(ws)
    ensures var rs := Ranked(ws, o, now);
      && Sorting.Sorted(rs, RatedCloser)
      && Sorting.Distinct(rs)
      && (forall r :: r in rs <==> IsRated(ws, o, now, r))
  {
    hide IsCandidate, IsRated, DistinctWallets, PairOf, Before, SortedCandidates, SharesWallet;
    var cs, rs := SortedCandidates(ws, o, now), Ranked(ws, o, now);
    SortedCandidatesLaw(ws, o, now);
    forall m, n | 0 <= m < n < |rs|
      ensures rs[m] != rs[n] && !RatedCloser(rs[n], rs[m])
    {
      assert cs[m] in cs && cs[n] in cs;
      ClashesAgree(ws, o, now, cs[m], cs[n]);
    }
    forall r
      ensures r in rs <==> IsRated(ws, o, now, r)
    {
      if r in rs {
        var m :| 0 <= m < |rs| && rs[m] == r;
        assert cs[m] in cs;
        CandidateIsRated(ws, o, now, cs[m]);
      }
      if IsRated(ws, o, now, r) {
        var c := RatedIsCandidate(ws, o, now, r);
        var m :| 0 <= m < |cs| && cs[m] == c;
        assert rs[m] == r;
      }
    }
  }

  lemma PairingsFromRanked(ws: seq<Waiter>, o: Options, now: int)
    requires DistinctWallets(ws)
    ensures Pairings(ws, o, now) == Map(Take(Ranked(ws, o, now), SharesWallet), (r: Rated) => r.pair)
  {
    hide IsCandidate, DistinctWallets, PairOf, SortedCandidates, SharesWallet, SharesWaiter;
    var cs := SortedCandidates(ws, o, now);
    var f := (c: Candidate) => Rate(ws, c);
    SortedCandidatesLaw(ws, o, now);
    forall c, d | c in cs && d in cs
      ensures SharesWaiter(c, d) <==> SharesWallet(f(c), f(d))
    {
      ClashesAgree(ws, o, now, c, d);
    }
    TakeCommutesWithMap(cs, f, SharesWaiter, SharesWallet);
    assert Ranked(ws, o, now) == Map(cs, f);
    var taken := Take(cs, SharesWaiter);
    assert Map(Map(taken, f), (r: Rated) => r.pair) == Pairings(ws, o, now);
  }

  lemma PermutationKeepsWalletsDistinct(ws: seq<Waiter>, vs: seq<Waiter>)
    requires DistinctWallets(ws) && multiset(ws) == multiset(vs)
    ensures DistinctWallets(vs)
  {
    hide Wallet;
    Sorting.DistinctCounts(ws);
    Sorting.DistinctCounts(vs);
    forall i, j | 0 <= i < j < |vs|
      ensures Wallet(vs[i]) != Wallet(vs[j])
    {
      assert vs[i] in multiset(vs) && vs[j] in multiset(vs);
      SameWalletSameWaiter(ws, vs[i], vs[j]);
    }
  }

  /** Every permutation of the queue is paired off in the same way. */
  lemma OrderOfTheQueueDoesNotMatter(ws: seq<Waiter>, vs: seq<Waiter>, o: Options, now: int)
    requires DistinctWallets(ws) && PlainWallets(ws) && multiset(ws) == multiset(vs)
    ensures Pairings(ws, o, now) == Pairings(vs, o, now)
  {
    hide Accepts, DistinctWallets, PlainWallets, Take, Pairings, Ranked, RatedCloser, SharesWallet;
    PermutationKeepsWalletsDistinct(ws, vs);
    assert forall w :: w in ws <==> w in multiset(ws);
    assert forall w :: w in vs <==> w in multiset(vs);
    var rs, qs := Ranked(ws, o, now), Ranked(vs, o, now);
    RankedLaw(ws, o, now);
    RankedLaw(vs, o, now);
    forall r
      ensures r in rs <==> r in qs
    {
      assert IsRated(ws, o, now, r) <==> IsRated(vs, o, now, r);
    }
    Sorting.SameMembers(rs, qs);
    forall r, s | r in multiset(rs) && s in multiset(rs) && r != s
      ensures RatedCloser(r, s) || RatedCloser(s, r)
    {
      RatedNeverTie(ws, o, now, r, s);
    }
    RatedCloserIsAnOrdering();
    Sorting.SortedIsUnique(rs, qs, RatedCloser);
    PairingsFromRanked(ws, o, now);
    PairingsFromRanked(vs, o, now);
  }
}
