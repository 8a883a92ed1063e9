/** A whole game that the repetition rule ends: sixteen plies that leave one seed on
    each side, and the two seeds then chase each other round the board twice. */
module CycleGame {
  import opened Wrappers
  import opened Rules
  import opened Laws
  import opened Adjudication
  import opened Matches

  function At(pits: Board, store0: nat, store1: nat, turn: Player, quiet: nat): State {
    State(pits, store0, store1, turn, false, 0, quiet)
  }

  // ----- one ply, from its sown board and the run it captures -----

  /** What pit `i` holds after the house at `idx`, with less than a lap in it, is sown. */
  function SownPit(b: Board, idx: nat, i: nat): nat
    requires idx < PITS && i < PITS
  {
    if i == idx then 0 else if Distance(idx, i) <= b[idx] then b[i] + 1 else b[i]
  }

  function SownPits(b: Board, idx: nat): Board
    requires idx < PITS
  {
    [SownPit(b, idx, 0), SownPit(b, idx, 1), SownPit(b, idx, 2), SownPit(b, idx, 3),
     SownPit(b, idx, 4), SownPit(b, idx, 5), SownPit(b, idx, 6), SownPit(b, idx, 7),
     SownPit(b, idx, 8), SownPit(b, idx, 9), SownPit(b, idx, 10), SownPit(b, idx, 11)]
  }

  lemma SownPitIs(b: Board, idx: nat, i: nat)
    requires idx < PITS && i < PITS && 0 < b[idx] < 11
    ensures Sown(b, idx)[i] == SownPit(b, idx, i)
    ensures LastPit(b, idx) == Around(idx, b[idx])
  {
  }

  lemma SownIsSpelledOut(b: Board, idx: nat)
    requires idx < PITS && 0 < b[idx] < 11
    ensures Sown(b, idx) == SownPits(b, idx)
    ensures LastPit(b, idx) == Around(idx, b[idx])
  {
    hide SownPit, Sown, LastPit, Around;
    SownPitIs(b, idx, 0);
    forall i | 0 <= i < PITS
      ensures Sown(b, idx)[i] == SownPits(b, idx)[i]
    {
      SownPitIs(b, idx, i);
    }
  }

  /** Some house of the row holds a seed. */
  predicate HasSeed(b: Board, player: Player) {
    var k := HOUSES_PER_SIDE * player;
    b[k] > 0 || b[k + 1] > 0 || b[k + 2] > 0 || b[k + 3] > 0 || b[k + 4] > 0 || b[k + 5] > 0
  }

  lemma HasSeedIff(b: Board, player: Player)
    ensures HasSeed(b, player) <==> Row(b, player) > 0
  {
    RowSpelledOut(b, player);
  }

  /** The move can be made, sows to `sown`, and reaches the pit `last`. */
  predicate Sows(s: State, house: nat, sown: Board, last: nat) {
    && !s.over && house < HOUSES_PER_SIDE
    && 0 < s.pits[PitOf(s.turn, house)] < 11
    && sown == SownPits(s.pits, PitOf(s.turn, house))
    && last == Around(PitOf(s.turn, house), s.pits[PitOf(s.turn, house)])
    && (HasSeed(s.pits, 1 - s.turn) || HasSeed(sown, 1 - s.turn))
  }

  /** Nothing ends the game in this position. */
  predicate GoesOn(s: State) {
    && s.store0 <= SEEDS / 2 && s.store1 <= SEEDS / 2 && s.noCaptureCount < NO_CAPTURE_LIMIT
    && HasSeed(s.pits, s.turn)
    && (HasSeed(s.pits, 1 - s.turn) || HasMove(s))
  }

  lemma MoveGoesOn(s: State, house: nat, sown: Board, last: nat, caught: Catch, next: State)
    requires Sows(s, house, sown, last) && Captured(sown, s.turn, last) == caught
    requires next == At(caught.board, s.store0 + (if s.turn == 0 then caught.seeds else 0),
                        s.store1 + (if s.turn == 1 then caught.seeds else 0), 1 - s.turn,
                        if caught.seeds > 0 then 0 else s.noCaptureCount + 1)
    requires GoesOn(next)
    ensures Apply(s, house) == Ok(next)
  {
    hide Captured, SownPits, Row, LastPit, Sown, HasMove;
    SownIsSpelledOut(s.pits, PitOf(s.turn, house));
    HasSeedIff(s.pits, 1 - s.turn);
    HasSeedIff(sown, 1 - s.turn);
    HasSeedIff(next.pits, 0);
    HasSeedIff(next.pits, 1);
  }

  /** The pit holds every seed of its row, so that taking them would be a grand slam. */
  predicate OnlySeeds(b: Board, last: nat)
    requires last < PITS
  {
    var k := last / HOUSES_PER_SIDE * HOUSES_PER_SIDE;
    && (k == last || b[k] == 0) && (k + 1 == last || b[k + 1] == 0) && (k + 2 == last || b[k + 2] == 0)
    && (k + 3 == last || b[k + 3] == 0) && (k + 4 == last || b[k + 4] == 0) && (k + 5 == last || b[k + 5] == 0)
  }

  lemma OthersAreEmpty(b: Board, last: nat, q: nat)
    requires last < PITS && OnlySeeds(b, last) && q < PITS
    requires q / HOUSES_PER_SIDE == last / HOUSES_PER_SIDE && q != last
    ensures b[q] == 0
  {
  }

  lemma GrandSlam(b: Board, player: Player, last: nat)
    requires last < PITS && last / HOUSES_PER_SIDE == player && Ripe(b[last]) && OnlySeeds(b, last)
    ensures Row(Harvested(b, player, last), player) == 0
  {
    hide Row, OnlySeeds;
    var left := Harvested(b, player, last);
    forall q: nat | q < PITS && q / HOUSES_PER_SIDE == player
      ensures left[q] == 0
    {
      if q == last {
        assert InRun(b, player, last, last);
      } else {
        OthersAreEmpty(b, last, q);
      }
    }
    hide Harvested;
    RowSpelledOut(left, player);
  }

  lemma NothingCaptured(b: Board, turn: Player, last: nat)
    requires last < PITS && (last / HOUSES_PER_SIDE == turn || !Ripe(b[last]) || OnlySeeds(b, last))
    ensures Captured(b, turn, last) == Catch(b, 0)
  {
    if last / HOUSES_PER_SIDE == turn || !Ripe(b[last]) {
      assert Harvested(b, 1 - turn, last) == b;
    } else {
      hide OnlySeeds, Harvested, Row;
      GrandSlam(b, 1 - turn, last);
    }
  }

  /** A ply whose last seed lands on no capture. */
  lemma QuietPly(s: State, house: nat, sown: Board, last: nat)
    requires Sows(s, house, sown, last)
    requires last / HOUSES_PER_SIDE == s.turn || !Ripe(sown[last]) || OnlySeeds(sown, last)
    requires GoesOn(At(sown, s.store0, s.store1, 1 - s.turn, s.noCaptureCount + 1))
    ensures Apply(s, house) == Ok(At(sown, s.store0, s.store1, 1 - s.turn, s.noCaptureCount + 1))
  {
    hide GoesOn, SownPits, LastPit, Captured, HasSeed, OnlySeeds;
    NothingCaptured(sown, s.turn, last);
    MoveGoesOn(s, house, sown, last, Catch(sown, 0), At(sown, s.store0, s.store1, 1 - s.turn, s.noCaptureCount + 1));
  }

  /** Pit `i` is ripe if it lies between `first` and `last`. */
  predicate RipeIn(b: Board, first: nat, last: nat, i: nat)
    requires i < PITS
  {
    first <= i <= last ==> Ripe(b[i])
  }

  /** The pits from `first` to `last` are a whole run in the row of `player`. */
  predicate IsRun(b: Board, player: Player, first: nat, last: nat) {
    && HOUSES_PER_SIDE * player <= first <= last < HOUSES_PER_SIDE * player + HOUSES_PER_SIDE
    && (first == HOUSES_PER_SIDE * player || !Ripe(b[first - 1]))
    && RipeIn(b, first, last, 0) && RipeIn(b, first, last, 1) && RipeIn(b, first, last, 2)
    && RipeIn(b, first, last, 3) && RipeIn(b, first, last, 4) && RipeIn(b, first, last, 5)
    && RipeIn(b, first, last, 6) && RipeIn(b, first, last, 7) && RipeIn(b, first, last, 8)
    && RipeIn(b, first, last, 9) && RipeIn(b, first, last, 10) && RipeIn(b, first, last, 11)
  }

  function Left(b: Board, first: nat, last: nat, i: nat): nat
    requires i < PITS
  {
    if first <= i <= last then 0 else b[i]
  }

  /** The board without the pits from `first` to `last`. */
  function Emptied(b: Board, first: nat, last: nat): Board {
    [Left(b, first, last, 0), Left(b, first, last, 1), Left(b, first, last, 2), Left(b, first, last, 3),
     Left(b, first, last, 4), Left(b, first, last, 5), Left(b, first, last, 6), Left(b, first, last, 7),
     Left(b, first, last, 8), Left(b, first, last, 9), Left(b, first, last, 10), Left(b, first, last, 11)]
  }

  /** The seeds in the pits from `first` to `last` of the row of `player`. */
  function RunSeeds(b: Board, player: Player, first: nat, last: nat): int {
    var k := HOUSES_PER_SIDE * player;
    b[k] - Left(b, first, last, k) + b[k + 1] - Left(b, first, last, k + 1)
    + b[k + 2] - Left(b, first, last, k + 2) + b[k + 3] - Left(b, first, last, k + 3)
    + b[k + 4] - Left(b, first, last, k + 4) + b[k + 5] - Left(b, first, last, k + 5)
  }

  lemma RunIsYield(b: Board, player: Player, first: nat, last: nat)
    requires IsRun(b, player, first, last)
    ensures Yield(b, player, last) == RunSeeds(b, player, first, last)
    ensures Row(Emptied(b, first, last), player) == Row(b, player) - RunSeeds(b, player, first, last)
  {
    hide IsRun, Harvested;
    RunIsHarvested(b, player, first, last);
    RowSpelledOut(b, player);
    RowSpelledOut(Emptied(b, first, last), player);
  }

  lemma RunIsHarvested(b: Board, player: Player, first: nat, last: nat)
    requires IsRun(b, player, first, last)
    ensures Harvested(b, player, last) == Emptied(b, first, last)
  {
    assert forall q: nat :: first <= q <= last ==> Ripe(b[q]);
    forall q | 0 <= q < PITS
      ensures InRun(b, player, last, q) <==> first <= q <= last
    {
    }
  }

  /** A ply that captures the run from `first` to its last pit. */
  lemma CatchPly(s: State, house: nat, sown: Board, first: nat, last: nat, take: nat, next: State)
    requires Sows(s, house, sown, last) && IsRun(sown, 1 - s.turn, first, last)
    requires take > 0
    requires next == At(Emptied(sown, first, last), s.store0 + (if s.turn == 0 then take else 0),
                        s.store1 + (if s.turn == 1 then take else 0), 1 - s.turn, 0)
    requires take == RunSeeds(sown, 1 - s.turn, first, last) && HasSeed(next.pits, 1 - s.turn) && GoesOn(next)
    ensures Apply(s, house) == Ok(next)
  {
    hide Sows, IsRun, Emptied, Harvested, Row, RunSeeds, HasSeed;
    RunIsHarvested(sown, 1 - s.turn, first, last);
    RunIsYield(sown, 1 - s.turn, first, last);
    HasSeedIff(next.pits, 1 - s.turn);
    MoveGoesOn(s, house, sown, last, Catch(next.pits, take), next);
  }

  // ----- the first sixteen plies -----

  const P0: State := At([4, 4, 4, 4, 4, 4, 4, 4, 4, 4, 4, 4], 0, 0, 0, 0)
  const P1: State := At([4, 4, 0, 5, 5, 5, 5, 4, 4, 4, 4, 4], 0, 0, 1, 1)
  const P2: State := At([5, 5, 1, 6, 5, 5, 5, 4, 4, 4, 4, 0], 0, 0, 0, 2)
  const P3: State := At([5, 5, 1, 6, 5, 0, 6, 5, 5, 5, 5, 0], 0, 0, 1, 3)
  const P4: State := At([6, 6, 0, 6, 5, 0, 6, 5, 5, 0, 6, 1], 0, 2, 0, 0)
  const P5: State := At([6, 0, 1, 7, 6, 1, 7, 6, 5, 0, 6, 1], 0, 2, 1, 1)
  const P6: State := At([7, 1, 2, 8, 7, 1, 7, 6, 5, 0, 0, 2], 0, 2, 0, 2)
  const P7: State := At([7, 1, 2, 8, 0, 2, 8, 7, 6, 1, 1, 0], 3, 2, 1, 0)
  const P8: State := At([8, 0, 0, 8, 0, 2, 8, 7, 0, 2, 2, 1], 3, 7, 0, 0)
  const P9: State := At([8, 0, 0, 0, 1, 3, 9, 8, 1, 0, 0, 0], 11, 7, 1, 0)
  const P10: State := At([9, 1, 1, 1, 1, 3, 9, 0, 2, 1, 1, 1], 11, 7, 0, 1)
  const P11: State := At([0, 2, 2, 2, 2, 4, 10, 1, 0, 0, 1, 1], 16, 7, 1, 0)
  const P12: State := At([1, 0, 0, 0, 0, 4, 0, 2, 1, 1, 2, 2], 16, 19, 0, 0)
  const P13: State := At([1, 0, 0, 0, 0, 0, 1, 0, 0, 0, 2, 2], 23, 19, 1, 0)
  const P14: State := At([2, 0, 0, 0, 0, 0, 1, 0, 0, 0, 0, 3], 23, 19, 0, 1)
  const P15: State := At([0, 1, 1, 0, 0, 0, 1, 0, 0, 0, 0, 3], 23, 19, 1, 2)
  const P16: State := At([1, 0, 0, 0, 0, 0, 1, 0, 0, 0, 0, 0], 23, 23, 0, 0)

  function Opening(i: nat): State {
    match i
    case 0 => P0
    case 1 => P1
    case 2 => P2
    case 3 => P3
    case 4 => P4
    case 5 => P5
    case 6 => P6
    case 7 => P7
    case 8 => P8
    case 9 => P9
    case 10 => P10
    case 11 => P11
    case 12 => P12
    case 13 => P13
    case 14 => P14
    case 15 => P15
    case _ => P16
  }

  const OPENING: seq<nat> := [2, 5, 5, 3, 1, 4, 4, 2, 3, 1, 0, 0, 5, 4, 0, 5]

  lemma Opening0()
    ensures Apply(P0, 2) == Ok(P1)
  {
    hide HasMove, Apply;
    QuietPly(P0, 2, [4, 4, 0, 5, 5, 5, 5, 4, 4, 4, 4, 4], 6);
  }

  lemma Opening1()
    ensures Apply(P1, 5) == Ok(P2)
  {
    hide HasMove, Apply;
    QuietPly(P1, 5, [5, 5, 1, 6, 5, 5, 5, 4, 4, 4, 4, 0], 3);
  }

  lemma Opening2()
    ensures Apply(P2, 5) == Ok(P3)
  {
    hide HasMove, Apply;
    QuietPly(P2, 5, [5, 5, 1, 6, 5, 0, 6, 5, 5, 5, 5, 0], 10);
  }

  lemma Opening3()
    ensures Apply(P3, 3) == Ok(P4)
  {
    hide HasMove, Apply;
    CatchPly(P3, 3, [6, 6, 2, 6, 5, 0, 6, 5, 5, 0, 6, 1], 2, 2, 2, P4);
  }

  lemma Opening4()
    ensures Apply(P4, 1) == Ok(P5)
  {
    hide HasMove, Apply;
    QuietPly(P4, 1, [6, 0, 1, 7, 6, 1, 7, 6, 5, 0, 6, 1], 7);
  }

  lemma Opening5()
    ensures Apply(P5, 4) == Ok(P6)
  {
    hide HasMove, Apply;
    QuietPly(P5, 4, [7, 1, 2, 8, 7, 1, 7, 6, 5, 0, 0, 2], 4);
  }

  lemma Opening6()
    ensures Apply(P6, 4) == Ok(P7)
  {
    hide HasMove, Apply;
    CatchPly(P6, 4, [7, 1, 2, 8, 0, 2, 8, 7, 6, 1, 1, 3], 11, 11, 3, P7);
  }

  lemma Opening7()
    ensures Apply(P7, 2) == Ok(P8)
  {
    hide HasMove, Apply;
    CatchPly(P7, 2, [8, 2, 3, 8, 0, 2, 8, 7, 0, 2, 2, 1], 1, 2, 5, P8);
  }

  lemma Opening8()
    ensures Apply(P8, 3) == Ok(P9)
  {
    hide HasMove, Apply;
    CatchPly(P8, 3, [8, 0, 0, 0, 1, 3, 9, 8, 1, 3, 3, 2], 9, 11, 8, P9);
  }

  lemma Opening9()
    ensures Apply(P9, 1) == Ok(P10)
  {
    hide HasMove, Apply;
    QuietPly(P9, 1, [9, 1, 1, 1, 1, 3, 9, 0, 2, 1, 1, 1], 3);
  }

  lemma Opening10()
    ensures Apply(P10, 0) == Ok(P11)
  {
    hide HasMove, Apply;
    CatchPly(P10, 0, [0, 2, 2, 2, 2, 4, 10, 1, 3, 2, 1, 1], 8, 9, 5, P11);
  }

  lemma Opening11()
    ensures Apply(P11, 0) == Ok(P12)
  {
    hide HasMove, Apply;
    CatchPly(P11, 0, [1, 3, 3, 3, 3, 4, 0, 2, 1, 1, 2, 2], 1, 4, 12, P12);
  }

  lemma Opening12()
    ensures Apply(P12, 5) == Ok(P13)
  {
    hide HasMove, Apply;
    CatchPly(P12, 5, [1, 0, 0, 0, 0, 0, 1, 3, 2, 2, 2, 2], 7, 9, 7, P13);
  }

  lemma Opening13()
    ensures Apply(P13, 4) == Ok(P14)
  {
    hide HasMove, Apply;
    QuietPly(P13, 4, [2, 0, 0, 0, 0, 0, 1, 0, 0, 0, 0, 3], 0);
  }

  lemma Opening14()
    ensures Apply(P14, 0) == Ok(P15)
  {
    hide HasMove, Apply;
    QuietPly(P14, 0, [0, 1, 1, 0, 0, 0, 1, 0, 0, 0, 0, 3], 2);
  }

  lemma Opening15()
    ensures Apply(P15, 5) == Ok(P16)
  {
    hide HasMove, Apply;
    CatchPly(P15, 5, [1, 2, 2, 0, 0, 0, 1, 0, 0, 0, 0, 0], 1, 2, 4, P16);
  }

  lemma OpeningPly(i: nat)
    requires i < 16
    ensures Apply(Opening(i), OPENING[i]) == Ok(Opening(i + 1))
  {
    hide Apply;
    match i
    case 0 => Opening0();
    case 1 => Opening1();
    case 2 => Opening2();
    case 3 => Opening3();
    case 4 => Opening4();
    case 5 => Opening5();
    case 6 => Opening6();
    case 7 => Opening7();
    case 8 => Opening8();
    case 9 => Opening9();
    case 10 => Opening10();
    case 11 => Opening11();
    case 12 => Opening12();
    case 13 => Opening13();
    case 14 => Opening14();
    case _ => Opening15();
  }

  // ----- two seeds chasing each other -----

  function TwoSeeds(p: nat, q: nat): Board {
    seq(PITS, i requires 0 <= i < PITS => if i == p || i == q then 1 else 0)
  }

  /** The house played at ply `j` of the chase: each house twice, in order. */
  function ChaseHouse(j: nat): nat {
    j / 2 % 6
  }

  function Chase(j: nat): State {
    var k := ChaseHouse(j);
    At(if j % 2 == 0 then TwoSeeds(k, 6 + k) else TwoSeeds(k + 1, 6 + k), 23, 23, j % 2, j)
  }

  function After(p: nat): nat {
    if p == 11 then 0 else p + 1
  }

  lemma OneSeedMoves(p: nat, q: nat)
    requires p < PITS && q < PITS && q != p && q != After(p)
    ensures SownPits(TwoSeeds(p, q), p) == TwoSeeds(After(p), q) && SownPits(TwoSeeds(q, p), p) == TwoSeeds(q, After(p))
    ensures LastPit(TwoSeeds(p, q), p) == LastPit(TwoSeeds(q, p), p) == After(p)
  {
    assert TwoSeeds(q, p) == TwoSeeds(p, q) && TwoSeeds(q, After(p)) == TwoSeeds(After(p), q);
    SownIsSpelledOut(TwoSeeds(p, q), p);
    assert Sown(TwoSeeds(p, q), p) == TwoSeeds(After(p), q);
  }

  lemma TwoSeedRows(p: nat, q: nat)
    requires p < PITS && q < PITS && q != p
    ensures var b := TwoSeeds(p, q);
      && (HasSeed(b, 0) <==> p < HOUSES_PER_SIDE || q < HOUSES_PER_SIDE)
      && (HasSeed(b, 1) <==> p >= HOUSES_PER_SIDE || q >= HOUSES_PER_SIDE)
  {
  }

  lemma TwoSeedsEitherWay(p: nat, q: nat)
    ensures TwoSeeds(p, q) == TwoSeeds(q, p)
  {
  }

  /** With the other row empty, the seed in the last house can still feed it. */
  lemma LastHouseFeeds(quiet: nat)
    ensures HasMove(At(TwoSeeds(6, 11), 23, 23, 1, quiet))
  {
    var s := At(TwoSeeds(6, 11), 23, 23, 1, quiet);
    OneSeedMoves(11, 6);
    TwoSeedsEitherWay(11, 6);
    TwoSeedsEitherWay(0, 6);
    TwoSeedRows(0, 6);
    HasSeedIff(TwoSeeds(0, 6), 0);
    SownIsSpelledOut(s.pits, 11);
    hide Row;
    assert Legal(s, 5);
  }

  /** One seed moves on from `p` to the next pit, and captures nothing. */
  lemma SeedPly(s: State, house: nat, q: nat)
    requires var p := PitOf(s.turn, house);
      && house < HOUSES_PER_SIDE && q < PITS && q != p && q != After(p)
      && s == At(TwoSeeds(p, q), 23, 23, s.turn, s.noCaptureCount) && s.noCaptureCount < 39
      && (if s.turn == 0 then q >= 6 && (house < 5 || q == 11) else if house < 5 then q < 6 else q == 6)
    ensures Apply(s, house)
      == Ok(At(TwoSeeds(After(PitOf(s.turn, house)), q), 23, 23, 1 - s.turn, s.noCaptureCount + 1))
  {
    hide SownPits, Apply, HasMove, HasSeed;
    var p := PitOf(s.turn, house);
    var sown := TwoSeeds(After(p), q);
    OneSeedMoves(p, q);
    TwoSeedRows(p, q);
    TwoSeedRows(After(p), q);
    LastHouseFeeds(s.noCaptureCount + 1);
    QuietPly(s, house, sown, After(p));
  }

  lemma ChasePly(j: nat)
    requires j < 39
    ensures Apply(Chase(j), ChaseHouse(j)) == Ok(Chase(j + 1))
  {
    hide Apply, TwoSeeds;
    var k := ChaseHouse(j);
    if j % 2 == 0 {
      SeedPly(Chase(j), k, 6 + k);
    } else {
      TwoSeedsEitherWay(k + 1, 6 + k);
      SeedPly(Chase(j), k, k + 1);
      TwoSeedsEitherWay(After(6 + k), k + 1);
    }
  }

  // ----- the game and the match played along it -----

  const GAME_PLIES: nat := 40

  function House(i: nat): nat {
    if i < 16 then OPENING[i] else ChaseHouse(i - 16)
  }

  function Position(i: nat): State {
    if i < 16 then Opening(i) else Chase(i - 16)
  }

  function Moves(n: nat): seq<nat> {
    seq(n, i requires 0 <= i < n => House(i))
  }

  lemma Seam()
    ensures Opening(16) == Chase(0)
  {
    assert TwoSeeds(0, 6) == [1, 0, 0, 0, 0, 0, 1, 0, 0, 0, 0, 0];
  }

  lemma GamePly(i: nat)
    requires i < GAME_PLIES
    ensures Apply(Position(i), House(i)) == Ok(Position(i + 1))
  {
    hide Apply, Opening, Chase;
    if i < 16 {
      OpeningPly(i);
      Seam();
    } else {
      ChasePly(i - 16);
    }
  }

  lemma GameStarts()
    ensures Position(0) == InitialState(0)
  {
  }

  lemma {:induction false} GameIsPlayed(n: nat)
    requires n <= GAME_PLIES
    ensures PlayFrom(0, Moves(n)) == Ok(Position(n))
  {
    hide Apply, House, Position, InitialState;
    if n == 0 {
      GameStarts();
    } else {
      GameIsPlayed(n - 1);
      GamePly(n - 1);
      assert Moves(n)[..n - 1] == Moves(n - 1);
    }
  }

  lemma PositionsRun(i: nat)
    requires i <= GAME_PLIES
    ensures !Position(i).over
  {
    hide Opening;
    if i < GAME_PLIES { AcceptedWhileRunning(i); }
  }

  lemma AcceptedWhileRunning(i: nat)
    requires i < GAME_PLIES
    ensures !Position(i).over
  {
    hide Position, House;
    GamePly(i);
  }

  /** A later position that is met again has been met once more. */
  lemma {:induction false} MetAgain(i: nat, n: nat, b: Board, t: Player)
    requires i < n <= GAME_PLIES && Position(n).pits == b && Position(n).turn == t
    ensures Visits(0, Moves(n), b, t) >= Visits(0, Moves(i), b, t) + 1
  {
    hide Visits, House, Position;
    VisitsOfGame(n, b, t);
    if i < n - 1 { VisitsGrow(i, n - 1, b, t); }
  }

  lemma VisitsOfGame(n: nat, b: Board, t: Player)
    requires 0 < n <= GAME_PLIES
    ensures Visits(0, Moves(n), b, t)
      == Visits(0, Moves(n - 1), b, t) + (if Position(n).pits == b && Position(n).turn == t then 1 else 0)
  {
    hide PlayFrom, House, Position;
    GameIsPlayed(n);
    assert Moves(n)[..n - 1] == Moves(n - 1);
  }

  lemma {:induction false} VisitsGrow(i: nat, n: nat, b: Board, t: Player)
    requires i <= n <= GAME_PLIES
    ensures Visits(0, Moves(i), b, t) <= Visits(0, Moves(n), b, t)
  {
    hide Visits, House, Position;
    if i < n {
      VisitsGrow(i, n - 1, b, t);
      VisitsOfGame(n, b, t);
    }
  }

  /** The position after ply 40 was there after plies 16 and 28. */
  lemma ThirdTime()
    ensures Visits(0, Moves(40), Position(40).pits, Position(40).turn) >= REPETITION_LIMIT
  {
    hide Visits, House;
    var b, t := Position(16).pits, Position(16).turn;
    assert Position(28).pits == b && Position(28).turn == t && Position(40).pits == b && Position(40).turn == t;
    VisitsOfGame(16, b, t);
    MetAgain(16, 28, b, t);
    MetAgain(28, 40, b, t);
  }

  const SIGNERS: Recovery := (digest, sig) => sig

  /** The game as commands: each side signs with its own session. */
  function Commands(n: nat): seq<Command> {
    seq(n, i requires 0 <= i < n =>
      Command.SubmitMove(i % 2, House(i), if i % 2 == 0 then "a" else "b"))
  }

  function MatchAfter(n: nat): View {
    Run(SIGNERS, NewView(TWO_PLAYERS), Commands(n))
  }

  /** One more move of the game: it is accepted, and leads to the next position
      unless the repetition rule sweeps that. */
  lemma MatchPly(i: nat, v: View)
    requires i < GAME_PLIES && Faithful(v) && !v.state.over
    requires v.cfg == TWO_PLAYERS && v.moves == Moves(i) && v.state == Position(i)
    ensures var w := Step(SIGNERS, v, Commands(i + 1)[i]).view;
      && w.cfg == TWO_PLAYERS
      && (if w.state.over then EndedByCycle(w) else w.moves == Moves(i + 1) && w.state == Position(i + 1))
  {
    hide Apply, House, Position, Adjudicate, Visits, Faithful, PlayFrom, Row;
    TurnOfRunning(v);
    GamePly(i);
    GameIsPlayed(i + 1);
    PositionsRun(i + 1);
    AdjudicateAppends(0, Moves(i), House(i));
    var c := Commands(i + 1)[i];
    assert SignedBy(SIGNERS, v.cfg, c.player, MoveDigest(1, i, c.house, v.cfg.Ctx()), c.sig);
    assert Moves(i) + [House(i)] == Moves(i + 1);
  }

  /** Until the repetition rule ends it, the match follows the game. */
  lemma {:induction false} MatchFollows(n: nat)
    requires n <= GAME_PLIES
    ensures var v := MatchAfter(n);
      && v.cfg == TWO_PLAYERS
      && (if v.state.over then EndedByCycle(v) else v.moves == Moves(n) && v.state == Position(n))
  {
    hide House, Position, Step, EndedByCycle, Faithful, Attested, InitialState;
    if n == 0 {
      GameStarts();
      PositionsRun(0);
    } else {
      MatchFollows(n - 1);
      var v := MatchAfter(n - 1);
      assert Commands(n)[..n - 1] == Commands(n - 1);
      RunKeeps(SIGNERS, TWO_PLAYERS, Commands(n - 1));
      if v.state.over {
        EndingsAreFinal(SIGNERS, v, []);
      } else {
        MatchPly(n - 1, v);
      }
    }
  }

  /** There is a match that the repetition rule ends; a restart brings back the
      position it was swept from, over and with the same winner. */
  lemma ACycleEndsAMatch()
    ensures var v := MatchAfter(GAME_PLIES); var r := Rebuilt(SnapshotOf(v));
      EndedByCycle(v) && v.state.over && r.Ok? && r.value.state != v.state && SameMatch(v, r.value)
  {
    hide House, Position, Run, Rebuilt, EndedByCycle, Faithful, Attested, Visits, SameMatch;
    var v := MatchAfter(GAME_PLIES);
    MatchFollows(GAME_PLIES);
    RunKeeps(SIGNERS, TWO_PLAYERS, Commands(GAME_PLIES));
    if !v.state.over { StillRunning(v); }
    EveryRestartKeepsTheMatch(SIGNERS, TWO_PLAYERS, Commands(GAME_PLIES));
  }

  lemma StillRunning(v: View)
    requires Faithful(v) && v.cfg == TWO_PLAYERS && v.moves == Moves(GAME_PLIES) && v.state == Position(GAME_PLIES)
    ensures v.state.over
  {
    hide House, Position, Adjudicate, Visits;
    if !v.state.over {
      TurnOfRunning(v);
      ThirdTime();
      RepetitionsAreZeroIffOver(0, v.moves, Visits(0, v.moves, v.state.pits, v.state.turn));
      assert false;
    }
  }
}
