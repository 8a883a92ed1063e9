/** The game search: plain negamax as the meaning, fail-soft alpha-beta as the
    program, and what the values it returns say about forced wins. */
module Search {
  import opened Wrappers
  import opened Rules
  import opened Laws
  import opened Symmetry
  import Engine
  import Sorting

  const WIN := 1_000_000

  // ----- evaluation -----

  /** Houses among the first `n` of `player` that hold one or two seeds. */
  function Targets(b: Board, player: Player, n: nat): nat
    requires n <= HOUSES_PER_SIDE
  {
    if n == 0 then 0
    else
      var v := b[PitOf(player, n - 1)];
      Targets(b, player, n - 1) + (if v == 1 || v == 2 then 1 else 0)
  }

  function Store(s: State, player: Player): nat {
    if player == 0 then s.store0 else s.store1
  }

  /** Heuristic value of a running position for `player`. */
  function Heuristic(s: State, player: Player): int {
    (Store(s, player) - Store(s, 1 - player)) * 18
    + (Row(s.pits, player) - Row(s.pits, 1 - player))
    + 2 * Targets(s.pits, 1 - player, HOUSES_PER_SIDE)
  }

  function Eval(s: State, player: Player): int {
    if !s.over then Heuristic(s, player)
    else if s.winner == DRAW then 0
    else if s.winner == player then WIN else -WIN
  }

  method Evaluate(s: State, player: Player) returns (score: int)
    ensures score == Eval(s, player)
  {
    if s.over {
      if s.winner == DRAW { return 0; }
      return if s.winner == player then WIN else -WIN;
    }
    var myStore := if player == 0 then s.store0 else s.store1;
    var oppStore := if player == 0 then s.store1 else s.store0;
    score := (myStore - oppStore) * 18;
    var mine := Engine.RowSum(s.pits, player);
    var theirs := Engine.RowSum(s.pits, 1 - player);
    score := score + mine - theirs;
    var oppBase := if player == 0 then HOUSES_PER_SIDE else 0;
    ghost var material := score;
    for h := 0 to HOUSES_PER_SIDE
      invariant score == material + 2 * Targets(s.pits, 1 - player, h)
    {
      var v := s.pits[oppBase + h];
      if v == 1 || v == 2 { score := score + 2; }
    }
  }

  // ----- the evaluation in numbers -----

  /** Of two running positions with the same board, a seed more in the store counts
      18 for its owner and against the other. */
  lemma StoresCount18(s: State, t: State)
    requires !s.over && !t.over && s.pits == t.pits
    ensures Eval(t, 0) - Eval(s, 0) == 18 * ((t.store0 - t.store1) - (s.store0 - s.store1))
    ensures Eval(t, 1) - Eval(s, 1) == 18 * ((t.store1 - t.store0) - (s.store1 - s.store0))
  {
    hide Row, Targets;
  }

  /** A house of one or two seeds can be captured from next. */
  function Hit(v: nat): int {
    if v == 1 || v == 2 then 1 else 0
  }

  ghost predicate DifferAt(b: Board, c: Board, i: nat) {
    i < 12 && forall k: nat :: k < 12 && k != i ==> c[k] == b[k]
  }

  lemma RowDiffersAt(b: Board, c: Board, i: nat, player: Player)
    requires DifferAt(b, c, i)
    ensures Row(c, player) - Row(b, player) == if InRow(player, i) then c[i] as int - b[i] else 0
  {
    hide Row;
    RowSpelledOut(b, player);
    RowSpelledOut(c, player);
  }

  lemma {:induction false} TargetsDifferAt(b: Board, c: Board, i: nat, player: Player, n: nat)
    requires DifferAt(b, c, i) && n <= 6
    ensures Targets(c, player, n) - Targets(b, player, n)
      == if 6 * player <= i < 6 * player + n then Hit(c[i]) - Hit(b[i]) else 0
  {
    if n > 0 { TargetsDifferAt(b, c, i, player, n - 1); }
  }

  /** Of two running positions that differ in one pit, a seed more there counts one
      for its side and one against the other, and two more for the other if the
      pit then holds one or two. */
  lemma PitsCount(s: State, t: State, i: nat)
    requires !s.over && !t.over && s.store0 == t.store0 && s.store1 == t.store1 && DifferAt(s.pits, t.pits, i)
    ensures var more, hits := t.pits[i] as int - s.pits[i], Hit(t.pits[i]) - Hit(s.pits[i]);
      && Eval(t, 0) - Eval(s, 0) == (if i < 6 then more else 2 * hits - more)
      && Eval(t, 1) - Eval(s, 1) == (if i < 6 then 2 * hits - more else more)
  {
    hide Row, Targets;
    RowDiffersAt(s.pits, t.pits, i, 0);
    RowDiffersAt(s.pits, t.pits, i, 1);
    TargetsDifferAt(s.pits, t.pits, i, 0, 6);
    TargetsDifferAt(s.pits, t.pits, i, 1, 6);
  }

  lemma {:induction false} NoTargets(b: Board, player: Player, n: nat)
    requires n <= 6 && forall k: nat :: k < 12 ==> b[k] == 0
    ensures Targets(b, player, n) == 0
  {
    if n > 0 { NoTargets(b, player, n - 1); }
  }

  /** With an empty board and even stores nobody is ahead, so the two laws above
      leave no other evaluation of a running position. */
  lemma EvenIsZero(s: State, player: Player)
    requires !s.over && s.store0 == s.store1 && forall k: nat :: k < 12 ==> s.pits[k] == 0
    ensures Eval(s, player) == 0
  {
    hide Row, Targets;
    RowSpelledOut(s.pits, 0);
    RowSpelledOut(s.pits, 1);
    NoTargets(s.pits, 0, 6);
    NoTargets(s.pits, 1, 6);
  }

  /** A finished game is worth a million to its winner, and a draw nothing. */
  lemma FinishedCounts(s: State, player: Player)
    requires s.over
    ensures Eval(s, player) == if s.winner == 2 then 0 else if s.winner == player then 1_000_000 else -1_000_000
  {
  }

  /** On 48 seeds a lead of three in the stores outweighs the whole board. */
  lemma LeadOfThreeIsAhead(s: State, player: Player)
    requires !s.over && Total(s) == 48
    ensures player == 0 && s.store0 >= s.store1 + 3 ==> Eval(s, player) > 0
    ensures player == 1 && s.store1 >= s.store0 + 3 ==> Eval(s, player) > 0
  {
    hide Row, Targets;
  }

  // ----- legal houses -----

  function LegalBelow(s: State, n: nat): (hs: seq<nat>)
    requires n <= HOUSES_PER_SIDE
    ensures forall h: nat :: h in hs <==> h < n && Legal(s, h)
    ensures forall i, j :: 0 <= i < j < |hs| ==> hs[i] < hs[j]
    ensures |hs| <= n
  {
    if n == 0 then []
    else
      var lower := LegalBelow(s, n - 1);
      assert forall i :: 0 <= i < |lower| ==> lower[i] in lower;
      if Legal(s, n - 1) then lower + [n - 1] else lower
  }

  /** The legal houses in increasing order. */
  function LegalHouses(s: State): (hs: seq<nat>)
    ensures forall h: nat :: h in hs <==> Legal(s, h)
    ensures forall i, j :: 0 <= i < j < |hs| ==> hs[i] < hs[j]
    ensures |hs| <= HOUSES_PER_SIDE
  {
    LegalBelow(s, HOUSES_PER_SIDE)
  }

  method ListLegalHouses(s: State) returns (hs: seq<nat>)
    ensures hs == LegalHouses(s)
  {
    hide Legal;
    var mask := Engine.LegalMovesMask(s);
    hs := [];
    for h := 0 to HOUSES_PER_SIDE
      invariant hs == LegalBelow(s, h)
    {
      if mask & Engine.HouseBit(h) != 0 { hs := hs + [h]; }
    }
  }

  // ----- plain negamax -----

  function After(s: State, house: nat): (r: State)
    requires Legal(s, house)
    ensures Measure(r) < Measure(s)
  {
    MeasureDecreases(s, house);
    Apply(s, house).value
  }

  /** The value for the side to move, searching `depth` plies with no pruning.
      A negative depth is never used up, so the search runs to the end of the game. */
  function Value(s: State, depth: int): int
    decreases Measure(s), 7
  {
    if s.over || depth == 0 || LegalHouses(s) == [] then Eval(s, s.turn)
    else BestReply(s, depth, LegalHouses(s))
  }

  /** What playing `house` is worth to the side to move. */
  function Reply(s: State, depth: int, house: nat): int
    requires Legal(s, house)
    decreases Measure(s), 0
  {
    -Value(After(s, house), depth - 1)
  }

  function BestReply(s: State, depth: int, houses: seq<nat>): int
    requires houses != [] && forall h :: h in houses ==> Legal(s, h)
    decreases Measure(s), |houses|
  {
    var last := Reply(s, depth, houses[|houses| - 1]);
    if |houses| == 1 then last
    else
      var others := BestReply(s, depth, houses[..|houses| - 1]);
      if last > others then last else others
  }

  lemma {:induction false} BestReplyIsGreatest(s: State, depth: int, houses: seq<nat>)
    requires houses != [] && forall h :: h in houses ==> Legal(s, h)
    ensures forall h :: h in houses ==> Reply(s, depth, h) <= BestReply(s, depth, houses)
    ensures exists h :: h in houses && Reply(s, depth, h) == BestReply(s, depth, houses)
  {
    hide Legal, Reply;
    var n := |houses| - 1;
    assert houses == houses[..n] + [houses[n]];
    assert houses[n] in houses;
    if n > 0 {
      BestReplyIsGreatest(s, depth, houses[..n]);
    }
  }

  // ----- alpha-beta -----

  /** A window bound, infinite or not. */
  datatype Bound = NegInf | Fin(v: int) | PosInf {
    function Neg(): Bound {
      match this
      case NegInf => PosInf
      case Fin(v) => Fin(-v)
      case PosInf => NegInf
    }

    predicate Below(other: Bound) {
      match (this, other)
      case (Fin(a), Fin(b)) => a < b
      case (NegInf, _) => other != NegInf
      case (_, PosInf) => this != PosInf
      case _ => false
    }
  }

  /** What a pruned search promises: exact inside the window, an upper bound at or
      below alpha, a lower bound at or above beta. */
  predicate Agrees(v: int, exact: int, alpha: Bound, beta: Bound) {
    if !alpha.Below(Fin(v)) then exact <= v
    else if !Fin(v).Below(beta) then exact >= v
    else v == exact
  }

  /** The state of the loop: the window has closed exactly as far as the best
      reply found, which is exact unless it is still at or below alpha. */
  ghost predicate Narrowed(best: Bound, low: Bound, exact: int, alpha: Bound, beta: Bound) {
    && best.Fin?
    && low.Below(beta)
    && (if alpha.Below(best) then best == Fin(exact) && low == best
        else exact <= best.v && low == alpha)
  }

  function Larger(b: Bound, v: int): Bound {
    if b.Below(Fin(v)) then Fin(v) else b
  }

  /** One more reply: the loop goes on with a narrower window, or has found a
      reply that the opponent would not allow. */
  lemma NarrowStep(best: Bound, low: Bound, exact: int, reply: int, u: int, alpha: Bound, beta: Bound)
    requires alpha.Below(beta) && Agrees(u, reply, low, beta)
    requires (best == NegInf && low == alpha) || Narrowed(best, low, exact, alpha, beta)
    ensures var greatest := if best == NegInf || reply > exact then reply else exact;
      if Larger(low, u).Below(beta) then
        Larger(best, u).Fin? && Narrowed(Larger(best, u), Larger(low, u), greatest, alpha, beta)
      else Larger(best, u) == Fin(u) && u <= reply && !Fin(u).Below(beta) && alpha.Below(Fin(u))
  {
  }

  method Negamax(s: State, depth: int, alpha: Bound, beta: Bound) returns (v: int)
    requires alpha.Below(beta)
    ensures Agrees(v, Value(s, depth), alpha, beta)
    ensures alpha == NegInf && beta == PosInf ==> v == Value(s, depth)
    decreases Measure(s)
  {
    hide Legal, Apply, Measure, Eval, Agrees, Narrowed, Larger, Value, Reply, BestReply, After, LegalHouses;
    ValueUnfolds(s, depth);
    if s.over || depth == 0 {
      v := Evaluate(s, s.turn);
      ExactAgrees(v, alpha, beta);
      return;
    }
    var best, low := NegInf, alpha;
    var houses := ListLegalHouses(s);
    for i := 0 to |houses|
      invariant i == 0 ==> best == NegInf && low == alpha
      invariant i > 0 ==> best.Fin? && Narrowed(best, low, BestReply(s, depth, houses[..i]), alpha, beta)
    {
      var h := houses[i];
      ghost var reply := Reply(s, depth, h);
      ghost var soFar := if i == 0 then 0 else BestReply(s, depth, houses[..i]);
      var child := Engine.ApplyMove(s, h);
      AfterIsApply(s, h);
      ReplyUnfolds(s, depth, h);
      BestReplyOneMore(s, depth, houses, i);
      WindowIsOpen(best, low, soFar, alpha, beta);
      var w := Negamax(child.value, depth - 1, beta.Neg(), low.Neg());
      var u := -w;
      AgreesNegated(w, -reply, low, beta);
      NarrowStep(best, low, soFar, reply, u, alpha, beta);
      best := Larger(best, u);
      low := Larger(low, u);
      if !low.Below(beta) {
        BestReplyIsGreatest(s, depth, houses);
        CutoffAgrees(u, Value(s, depth), alpha, beta);
        return best.v;
      }
    }
    assert houses[..|houses|] == houses;
    if best == NegInf {
      v := Evaluate(s, s.turn);
      ExactAgrees(v, alpha, beta);
    } else {
      v := best.v;
      NarrowedAgrees(best, low, Value(s, depth), alpha, beta);
    }
  }

  lemma ValueUnfolds(s: State, depth: int)
    ensures Value(s, depth) ==
      if s.over || depth == 0 || LegalHouses(s) == [] then Eval(s, s.turn) else BestReply(s, depth, LegalHouses(s))
  {
  }

  lemma ReplyUnfolds(s: State, depth: int, house: nat)
    requires Legal(s, house)
    ensures Reply(s, depth, house) == -Value(After(s, house), depth - 1)
  {
  }

  lemma BestReplyOneMore(s: State, depth: int, houses: seq<nat>, i: nat)
    requires i < |houses| && forall h :: h in houses ==> Legal(s, h)
    ensures BestReply(s, depth, houses[..i + 1])
      == var reply := Reply(s, depth, houses[i]);
         if i == 0 || reply > BestReply(s, depth, houses[..i]) then reply else BestReply(s, depth, houses[..i])
  {
    hide Legal, Reply;
    assert houses[..i + 1][..i] == houses[..i];
  }

  lemma AfterIsApply(s: State, house: nat)
    requires Legal(s, house)
    ensures Apply(s, house) == Ok(After(s, house)) && Measure(After(s, house)) < Measure(s)
  {
  }

  lemma ExactAgrees(v: int, alpha: Bound, beta: Bound)
    ensures Agrees(v, v, alpha, beta)
  {
  }

  /** The child is searched in the negated window, and its answer is negated back. */
  lemma AgreesNegated(w: int, exact: int, low: Bound, beta: Bound)
    requires Agrees(w, exact, beta.Neg(), low.Neg()) && low.Below(beta)
    ensures Agrees(-w, -exact, low, beta)
  {
  }

  lemma WindowIsOpen(best: Bound, low: Bound, exact: int, alpha: Bound, beta: Bound)
    requires alpha.Below(beta)
    requires (best == NegInf && low == alpha) || Narrowed(best, low, exact, alpha, beta)
    ensures low.Below(beta) && beta.Neg().Below(low.Neg())
  {
  }

  lemma CutoffAgrees(v: int, exact: int, alpha: Bound, beta: Bound)
    requires v <= exact && !Fin(v).Below(beta) && alpha.Below(Fin(v))
    ensures Agrees(v, exact, alpha, beta) && beta != PosInf
  {
  }

  lemma NarrowedAgrees(best: Bound, low: Bound, exact: int, alpha: Bound, beta: Bound)
    requires Narrowed(best, low, exact, alpha, beta)
    ensures best.Fin? && Agrees(best.v, exact, alpha, beta)
    ensures alpha == NegInf ==> best.v == exact
  {
  }

  // ----- what the value means -----

  /** The two equations that determine the value of every position at every depth: a
      leaf is worth its evaluation to the side to move; any other position is worth as
      much as the best legal move, which leaves the opponent the least. */
  lemma ValueIsMinimax(s: State, depth: int)
    ensures s.over || depth == 0 || (forall h: nat :: !Legal(s, h)) ==> Value(s, depth) == Eval(s, s.turn)
    ensures !s.over && depth != 0 ==>
      forall h: nat :: Legal(s, h) ==> Value(s, depth) >= -Value(Apply(s, h).value, depth - 1)
    ensures !s.over && depth != 0 && (exists h: nat :: Legal(s, h)) ==>
      exists h: nat :: Legal(s, h) && Value(s, depth) == -Value(Apply(s, h).value, depth - 1)
  {
    hide Legal, Apply, Eval, Value, Reply, BestReply, After;
    ValueUnfolds(s, depth);
    var houses := LegalHouses(s);
    if houses == [] {
      forall h: nat
        ensures !Legal(s, h)
      {
        assert h !in houses;
      }
    } else {
      assert houses[0] in houses;
      BestReplyIsGreatest(s, depth, houses);
      forall h: nat | Legal(s, h)
        ensures h in houses && Apply(s, h).Ok? && Reply(s, depth, h) == -Value(Apply(s, h).value, depth - 1)
      {
        ReplyUnfolds(s, depth, h);
        AfterIsApply(s, h);
      }
    }
  }

  /** `player` can bring about a finished game it has won within `depth` plies,
      whatever the opponent plays.  A negative depth sets no limit. */
  ghost predicate CanForce(s: State, depth: int, player: Player)
    decreases Measure(s)
  {
    if s.over then s.winner == player
    else if depth == 0 then false
    else if s.turn == player then
      exists h: nat | Legal(s, h) :: CanForce(After(s, h), depth - 1, player)
    else
      forall h: nat | Legal(s, h) :: CanForce(After(s, h), depth - 1, player)
  }

  lemma {:induction false} TargetsAtMost(b: Board, player: Player, n: nat)
    requires n <= HOUSES_PER_SIDE
    ensures Targets(b, player, n) <= n
  {
    if n > 0 { TargetsAtMost(b, player, n - 1); }
  }

  /** No running position is worth as much as a won game. */
  lemma HeuristicIsSmall(s: State, player: Player)
    requires Total(s) == SEEDS
    ensures -1000 < Heuristic(s, player) < 1000
  {
    hide Row;
    TargetsAtMost(s.pits, 1 - player, HOUSES_PER_SIDE);
  }

  /** On every sound position, the search returns WIN exactly when the side to
      move can force a won end within the depth, and -WIN exactly when the
      opponent can. */
  lemma {:induction false} ValueIsForcing(s: State, depth: int)
    requires Sound(s)
    ensures -WIN <= Value(s, depth) <= WIN
    ensures Value(s, depth) == WIN <==> CanForce(s, depth, s.turn)
    ensures Value(s, depth) == -WIN <==> CanForce(s, depth, 1 - s.turn)
    decreases Measure(s)
  {
    hide Legal, Sound, After, Heuristic;
    SoundFacts(s);
    HeuristicIsSmall(s, s.turn);
    if !s.over && depth != 0 {
      var houses := LegalHouses(s);
      forall h: nat | Legal(s, h)
        ensures -WIN <= Reply(s, depth, h) <= WIN
        ensures Reply(s, depth, h) == WIN <==> CanForce(After(s, h), depth - 1, s.turn)
        ensures Reply(s, depth, h) == -WIN <==> CanForce(After(s, h), depth - 1, 1 - s.turn)
      {
        SoundAfter(s, h);
        ValueIsForcing(After(s, h), depth - 1);
      }
      BestReplyIsGreatest(s, depth, houses);
      var best: nat :| best in houses && Reply(s, depth, best) == BestReply(s, depth, houses);
    }
  }

  lemma SoundFacts(s: State)
    requires Sound(s)
    ensures Total(s) == SEEDS && (!s.over ==> LegalHouses(s) != [])
  {
    hide Legal;
    if !s.over {
      var h: nat :| h < HOUSES_PER_SIDE && Legal(s, h);
      assert h in LegalHouses(s);
    }
  }

  lemma SoundAfter(s: State, house: nat)
    requires Sound(s) && Legal(s, house)
    ensures Sound(After(s, house)) && After(s, house).turn == 1 - s.turn
  {
    hide Sound, Apply;
    SoundFacts(s);
    AfterIsApply(s, house);
    ApplyLaw(s, house);
  }

  // ----- ranking and choosing -----

  /** Every legal house once, best value first, and the lower house first on ties. */
  ghost predicate IsRanking(s: State, depth: int, houses: seq<nat>) {
    && (forall h: nat :: h in houses <==> Legal(s, h))
    && forall i, j :: 0 <= i < j < |houses| ==>
         var a, b := Reply(s, depth, houses[i]), Reply(s, depth, houses[j]);
         a > b || (a == b && houses[i] < houses[j])
  }

  datatype Scored = Scored(h: nat, score: int)

  predicate Outranks(a: Scored, b: Scored) {
    a.score > b.score || (a.score == b.score && a.h < b.h)
  }

  method RankMoves(s: State, depth: int) returns (houses: seq<nat>)
    ensures IsRanking(s, depth, houses)
  {
    hide Legal, Apply, Reply;
    houses := ListLegalHouses(s);
    if |houses| <= 1 { return; }
    var scored: seq<Scored> := [];
    for i := 0 to |houses|
      invariant |scored| == i
      invariant forall k :: 0 <= k < i ==>
        scored[k].h == houses[k] && scored[k].score == Reply(s, depth, houses[k])
    {
      var child := Engine.ApplyMove(s, houses[i]);
      AfterIsApply(s, houses[i]);
      var v := Negamax(child.value, depth - 1, NegInf, PosInf);
      ReplyIs(s, depth, houses[i]);
      scored := scored + [Scored(houses[i], -v)];
    }
    var sorted := Sorting.Sort(scored, Outranks);
    SortedScores(s, depth, houses, scored, sorted);
    houses := seq(|sorted|, i requires 0 <= i < |sorted| => sorted[i].h);
  }

  lemma ReplyIs(s: State, depth: int, house: nat)
    requires Legal(s, house)
    ensures Reply(s, depth, house) == -Value(After(s, house), depth - 1)
  {
  }

  /** Different houses never tie, so sorting puts them in strict order. */
  lemma SortedScored(houses: seq<nat>, scored: seq<Scored>)
    requires |scored| == |houses| && Sorting.Distinct(houses)
    requires forall k :: 0 <= k < |scored| ==> scored[k].h == houses[k]
    ensures var sorted := Sorting.Sort(scored, Outranks);
      && |sorted| == |scored|
      && (forall x :: x in sorted <==> x in scored)
      && (forall i, j :: 0 <= i < j < |sorted| ==> Outranks(sorted[i], sorted[j]))
  {
    Sorting.SortOfDistinct(scored, Outranks);
  }

  lemma SortedScores(s: State, depth: int, houses: seq<nat>, scored: seq<Scored>, sorted: seq<Scored>)
    requires houses == LegalHouses(s) && |scored| == |houses|
    requires forall k :: 0 <= k < |scored| ==>
      scored[k].h == houses[k] && scored[k].score == Reply(s, depth, houses[k])
    requires sorted == Sorting.Sort(scored, Outranks)
    ensures IsRanking(s, depth, seq(|sorted|, i requires 0 <= i < |sorted| => sorted[i].h))
  {
    hide Legal, Reply;
    SortedScored(houses, scored);
    hide Sorting.Sort;
    var r := seq(|sorted|, i requires 0 <= i < |sorted| => sorted[i].h);
    forall i | 0 <= i < |sorted|
      ensures Legal(s, r[i]) && sorted[i].score == Reply(s, depth, r[i])
    {
      assert sorted[i] in sorted && sorted[i] in scored;
      var k :| 0 <= k < |scored| && scored[k] == sorted[i];
      assert houses[k] in houses;
    }
    forall h: nat | Legal(s, h)
      ensures h in r
    {
      var k :| 0 <= k < |houses| && houses[k] == h;
      assert scored[k] in sorted;
      var i :| 0 <= i < |sorted| && sorted[i] == scored[k];
      assert r[i] == h;
    }
  }

  /** There is only one ranking, so it cannot depend on how it was computed. */
  lemma RankingIsUnique(s: State, depth: int, a: seq<nat>, b: seq<nat>)
    requires IsRanking(s, depth, a) && IsRanking(s, depth, b)
    ensures a == b
  {
    hide Legal, Reply;
    var less := (h: nat, k: nat) =>
      var x, y := Worth(s, depth, h), Worth(s, depth, k);
      x > y || (x == y && h < k);
    assert forall h: nat :: h in a ==> Worth(s, depth, h) == Reply(s, depth, h);
    assert forall i :: 0 <= i < |a| ==> a[i] in a;
    assert forall i :: 0 <= i < |b| ==> b[i] in b;
    Sorting.SameMembers(a, b);
    Sorting.SortedIsUnique(a, b, less);
  }

  ghost function Worth(s: State, depth: int, house: nat): int {
    if Legal(s, house) then Reply(s, depth, house) else 0
  }

  /** The first house ranked attains the value of the position, a later one never
      leaves the opponent less, and one that leaves as much is of a higher number. */
  lemma RankingInNumbers(s: State, depth: int, houses: seq<nat>)
    requires IsRanking(s, depth, houses) && !s.over && depth != 0
    ensures houses == [] <==> forall h: nat :: !Legal(s, h)
    ensures forall i :: 0 <= i < |houses| ==> Apply(s, houses[i]).Ok?
    ensures houses != [] ==> Value(s, depth) == -Value(Apply(s, houses[0]).value, depth - 1)
    ensures forall i, j :: 0 <= i < j < |houses| ==>
      var a, b := Value(Apply(s, houses[i]).value, depth - 1), Value(Apply(s, houses[j]).value, depth - 1);
      a < b || (a == b && houses[i] < houses[j])
  {
    hide Legal, Apply, Eval, Value, Reply, BestReply, After;
    ValueIsMinimax(s, depth);
    forall i | 0 <= i < |houses|
      ensures houses[i] in houses && Legal(s, houses[i]) && Apply(s, houses[i]).Ok?
      ensures Reply(s, depth, houses[i]) == -Value(Apply(s, houses[i]).value, depth - 1)
    {
      assert houses[i] in houses;
      ReplyUnfolds(s, depth, houses[i]);
      AfterIsApply(s, houses[i]);
    }
    if h: nat :| Legal(s, h) && Value(s, depth) == -Value(Apply(s, h).value, depth - 1) {
      assert h in houses;
    }
  }

  // ----- the bot's move -----

  datatype Difficulty = Easy | Medium | Hard

  function DepthOf(d: Difficulty): nat {
    match d
    case Easy => 2
    case Medium => 5
    case Hard => 8
  }

  function BlunderRate(d: Difficulty): real {
    match d
    case Easy => 0.35
    case Medium => 0.08
    case Hard => 0.0
  }

  /** The houses of `houses` worth exactly `v`, in order. */
  function Worthy(s: State, depth: int, houses: seq<nat>, v: int): seq<nat>
    requires forall h :: h in houses ==> Legal(s, h)
  {
    if houses == [] then []
    else
      var last := houses[|houses| - 1];
      Worthy(s, depth, houses[..|houses| - 1], v) + (if Reply(s, depth, last) == v then [last] else [])
  }

  lemma {:induction false} WorthyMembers(s: State, depth: int, houses: seq<nat>, v: int)
    requires forall h :: h in houses ==> Legal(s, h)
    ensures forall h: nat :: h in Worthy(s, depth, houses, v) <==> h in houses && Reply(s, depth, h) == v
    ensures (forall h :: h in houses ==> Reply(s, depth, h) != v) ==> Worthy(s, depth, houses, v) == []
  {
    hide Legal, Reply;
    if houses != [] {
      var n := |houses| - 1;
      assert houses == houses[..n] + [houses[n]];
      WorthyMembers(s, depth, houses[..n], v);
    }
  }

  /** The houses no other legal house beats. */
  function BestHouses(s: State, depth: int): seq<nat>
    requires LegalHouses(s) != []
  {
    Worthy(s, depth, LegalHouses(s), BestReply(s, depth, LegalHouses(s)))
  }

  lemma BestHousesAreBest(s: State, depth: int)
    requires LegalHouses(s) != []
    ensures BestHouses(s, depth) != []
    ensures forall h: nat :: h in BestHouses(s, depth) <==>
      Legal(s, h) && forall k: nat :: Legal(s, k) ==> Reply(s, depth, k) <= Reply(s, depth, h)
  {
    hide Legal, Reply;
    var houses := LegalHouses(s);
    BestReplyIsGreatest(s, depth, houses);
    WorthyMembers(s, depth, houses, BestReply(s, depth, houses));
    var h: nat :| h in houses && Reply(s, depth, h) == BestReply(s, depth, houses);
    assert h in BestHouses(s, depth);
  }

  ghost predicate Increasing(houses: seq<nat>) {
    forall i, j :: 0 <= i < j < |houses| ==> houses[i] < houses[j]
  }

  lemma {:induction false} WorthyIncreases(s: State, depth: int, houses: seq<nat>, v: int)
    requires forall h :: h in houses ==> Legal(s, h)
    requires Increasing(houses)
    ensures Increasing(Worthy(s, depth, houses, v))
  {
    hide Legal, Reply;
    if houses != [] {
      var n := |houses| - 1;
      WorthyIncreases(s, depth, houses[..n], v);
      WorthyMembers(s, depth, houses[..n], v);
      var front := Worthy(s, depth, houses[..n], v);
      forall i | 0 <= i < |front|
        ensures front[i] < houses[n]
      {
        assert front[i] in front && front[i] in houses[..n];
        var k :| 0 <= k < n && houses[..n][k] == front[i];
        assert houses[k] == front[i];
      }
    }
  }

  /** The bot draws among the legal houses that leave the opponent least, each of them
      once and the lower house first. */
  lemma BestHousesInNumbers(s: State, depth: int)
    requires LegalHouses(s) != []
    ensures var best := BestHouses(s, depth);
      && (forall h: nat :: h in best <==> Legal(s, h) && forall k: nat :: Legal(s, k) ==>
           Value(Apply(s, h).value, depth - 1) <= Value(Apply(s, k).value, depth - 1))
      && Increasing(best)
  {
    hide Legal, Apply, Eval, Value, Reply, BestReply, After;
    BestHousesAreBest(s, depth);
    var houses := LegalHouses(s);
    WorthyIncreases(s, depth, houses, BestReply(s, depth, houses));
    assert BestHouses(s, depth) == Worthy(s, depth, houses, BestReply(s, depth, houses));
    forall h: nat | Legal(s, h)
      ensures Apply(s, h).Ok? && Reply(s, depth, h) == -Value(Apply(s, h).value, depth - 1)
    {
      ReplyUnfolds(s, depth, h);
      AfterIsApply(s, h);
    }
  }

  /** The index a draw `u` in [0, 1) picks among `n`. */
  function Pick(u: real, n: nat): nat
    requires 0.0 <= u < 1.0 && n > 0
    ensures Pick(u, n) < n
  {
    assert 0.0 <= u * n as real < n as real;
    (u * n as real).Floor
  }

  /** Each of the `n` is picked on an interval of the same length. */
  lemma PickInNumbers(u: real, n: nat, k: nat)
    requires 0.0 <= u < 1.0 && n > 0
    ensures Pick(u, n) == k <==> k as real <= u * n as real < k as real + 1.0
  {
  }

  lemma DifficultyInNumbers()
    ensures DepthOf(Easy) == 2 && DepthOf(Medium) == 5 && DepthOf(Hard) == 8
    ensures BlunderRate(Easy) == 0.35 && BlunderRate(Medium) == 0.08 && BlunderRate(Hard) == 0.0
  {
  }

  /** `blunder` and `pick` are the two random draws, in the order they are made. */
  method ChooseMove(s: State, difficulty: Difficulty, blunder: real, pick: real) returns (house: int)
    requires 0.0 <= blunder < 1.0 && 0.0 <= pick < 1.0
    ensures var houses := LegalHouses(s);
      if houses == [] then house == -1
      else if |houses| == 1 then house == houses[0]
      else if blunder < BlunderRate(difficulty) then house == houses[Pick(pick, |houses|)]
      else
        var best := BestHouses(s, DepthOf(difficulty));
        best != [] && house == best[Pick(pick, |best|)]
  {
    hide Legal, Apply, Reply, Pick, BestReply;
    var houses := ListLegalHouses(s);
    if |houses| == 0 { return -1; }
    if |houses| == 1 { return houses[0]; }
    if blunder < BlunderRate(difficulty) { return houses[Pick(pick, |houses|)]; }

    var depth := DepthOf(difficulty);
    var bestScore := NegInf;
    var best: seq<nat> := [];
    for i := 0 to |houses|
      invariant i == 0 ==> bestScore == NegInf && best == []
      invariant i > 0 ==>
        var v := BestReply(s, depth, houses[..i]);
        bestScore == Fin(v) && best == Worthy(s, depth, houses[..i], v)
    {
      var child := Engine.ApplyMove(s, houses[i]);
      AfterIsApply(s, houses[i]);
      var v := Negamax(child.value, depth - 1, NegInf, PosInf);
      ReplyIs(s, depth, houses[i]);
      var score := -v;
      BestSoFar(s, depth, houses, i, score);
      if bestScore.Below(Fin(score)) {
        bestScore := Fin(score);
        best := [houses[i]];
      } else if bestScore == Fin(score) {
        best := best + [houses[i]];
      }
    }
    assert houses[..|houses|] == houses;
    BestHousesAreBest(s, depth);
    return best[Pick(pick, |best|)];
  }

  /** How one more house changes the best value and the houses that reach it. */
  lemma BestSoFar(s: State, depth: int, houses: seq<nat>, i: nat, score: int)
    requires i < |houses| && forall h :: h in houses ==> Legal(s, h)
    requires Reply(s, depth, houses[i]) == score
    ensures var v := BestReply(s, depth, houses[..i + 1]);
      if i == 0 || score > BestReply(s, depth, houses[..i]) then
        v == score && Worthy(s, depth, houses[..i + 1], v) == [houses[i]]
      else
        v == BestReply(s, depth, houses[..i]) &&
        Worthy(s, depth, houses[..i + 1], v) ==
          Worthy(s, depth, houses[..i], v) + (if score == v then [houses[i]] else [])
  {
    hide Legal, Reply;
    assert houses[..i + 1][..i] == houses[..i];
    if i > 0 {
      BestReplyIsGreatest(s, depth, houses[..i]);
      WorthyMembers(s, depth, houses[..i], score);
    }
  }

  // ----- symmetry of the search -----

  lemma {:induction false} MirrorTargets(b: Board, p: Player, n: nat)
    requires n <= HOUSES_PER_SIDE
    ensures Targets(MirrorBoard(b), 1 - p, n) == Targets(b, p, n)
  {
    if n > 0 { MirrorTargets(b, p, n - 1); }
  }

  lemma MirrorEval(s: State, p: Player)
    ensures Eval(Mirror(s), 1 - p) == Eval(s, p)
  {
    hide Row, MirrorBoard;
    MirrorTargets(s.pits, 1 - p, HOUSES_PER_SIDE);
    MirrorRow(s.pits, p);
    MirrorRow(s.pits, 1 - p);
  }

  lemma {:induction false} MirrorLegalBelow(s: State, n: nat)
    requires n <= HOUSES_PER_SIDE
    ensures LegalBelow(Mirror(s), n) == LegalBelow(s, n)
  {
    hide Legal, Mirror;
    if n > 0 {
      MirrorLegal(s, n - 1);
      MirrorLegalBelow(s, n - 1);
    }
  }

  lemma MirrorAfter(s: State, house: nat)
    requires Legal(s, house)
    ensures Legal(Mirror(s), house) && After(Mirror(s), house) == Mirror(After(s, house))
  {
    hide Legal, Apply;
    MirrorLegal(s, house);
    AfterIsApply(s, house);
    AfterIsApply(Mirror(s), house);
    MirrorApply(s, house);
  }

  lemma {:induction false} MirrorValue(s: State, depth: int)
    ensures Value(Mirror(s), depth) == Value(s, depth)
    decreases Measure(s), 7
  {
    hide Legal, Eval, Reply;
    MirrorEval(s, s.turn);
    MirrorLegalBelow(s, HOUSES_PER_SIDE);
    if !s.over && depth != 0 && LegalHouses(s) != [] {
      MirrorBestReply(s, depth, LegalHouses(s));
    }
  }

  lemma {:induction false} MirrorReply(s: State, depth: int, house: nat)
    requires Legal(s, house)
    ensures Legal(Mirror(s), house) && Reply(Mirror(s), depth, house) == Reply(s, depth, house)
    decreases Measure(s), 0
  {
    hide Legal, After, Value, Mirror;
    MirrorAfter(s, house);
    MirrorValue(After(s, house), depth - 1);
  }

  lemma {:induction false} MirrorBestReply(s: State, depth: int, houses: seq<nat>)
    requires houses != [] && forall h :: h in houses ==> Legal(s, h)
    ensures forall h :: h in houses ==> Legal(Mirror(s), h)
    ensures BestReply(Mirror(s), depth, houses) == BestReply(s, depth, houses)
    decreases Measure(s), |houses|
  {
    hide Legal, Reply, Mirror;
    forall h | h in houses
      ensures Legal(Mirror(s), h) && Reply(Mirror(s), depth, h) == Reply(s, depth, h)
    {
      MirrorReply(s, depth, h);
    }
    if |houses| > 1 { MirrorBestReply(s, depth, houses[..|houses| - 1]); }
  }

  /** A position and its mirror image have the same ranking. */
  lemma MirrorRanking(s: State, depth: int, houses: seq<nat>)
    ensures IsRanking(Mirror(s), depth, houses) <==> IsRanking(s, depth, houses)
  {
    hide Legal, Reply, Mirror;
    forall h: nat
      ensures Legal(Mirror(s), h) <==> Legal(s, h)
      ensures Legal(s, h) ==> Reply(Mirror(s), depth, h) == Reply(s, depth, h)
    {
      MirrorLegal(s, h);
      if Legal(s, h) { MirrorReply(s, depth, h); }
    }
    assert forall i :: 0 <= i < |houses| ==> houses[i] in houses;
  }
}
