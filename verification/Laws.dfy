/** What every accepted move keeps: seeds, progress, and the order of the
    endings.  The results about whole games rest on these. */
module Laws {
  import opened Wrappers
  import opened Rules

  // ----- sowing and capturing conserve seeds -----

  lemma ShareSum(n: nat)
    ensures Share(n, 1) + Share(n, 2) + Share(n, 3) + Share(n, 4) + Share(n, 5) + Share(n, 6)
         + Share(n, 7) + Share(n, 8) + Share(n, 9) + Share(n, 10) + Share(n, 11) == n
  {
    assert n == 11 * (n / 11) + n % 11;
  }

  lemma BoardSpelledOut(b: Board)
    ensures Row(b, 0) == b[0] + b[1] + b[2] + b[3] + b[4] + b[5]
    ensures Row(b, 1) == b[6] + b[7] + b[8] + b[9] + b[10] + b[11]
  {
    RowSpelledOut(b, 0);
    RowSpelledOut(b, 1);
  }

  /** What pit `i` gets when the pit at distance `d` from `idx` gets `w[d]`. */
  function Dealt(w: seq<nat>, idx: nat, i: nat): nat
    requires |w| == PITS && idx < PITS && i < PITS
  {
    if i == idx then 0 else w[Distance(idx, i)]
  }

  /** From wherever one starts, the other eleven pits lie at distances 1 to 11. */
  lemma DistancesCoverTheBoard(w: seq<nat>, idx: nat)
    requires |w| == PITS && idx < PITS
    ensures Dealt(w, idx, 0) + Dealt(w, idx, 1) + Dealt(w, idx, 2) + Dealt(w, idx, 3)
         + Dealt(w, idx, 4) + Dealt(w, idx, 5) + Dealt(w, idx, 6) + Dealt(w, idx, 7)
         + Dealt(w, idx, 8) + Dealt(w, idx, 9) + Dealt(w, idx, 10) + Dealt(w, idx, 11)
      == w[1] + w[2] + w[3] + w[4] + w[5] + w[6] + w[7] + w[8] + w[9] + w[10] + w[11]
  {
  }

  /** Adding `w[d]` seeds to the pit at each distance `d`, from wherever one starts. */
  lemma SpreadTotal(b: Board, c: Board, idx: nat, w: seq<nat>)
    requires idx < PITS && |w| == PITS && c[idx] == 0
    requires forall i: nat :: i < PITS && i != idx ==> c[i] == b[i] + w[Distance(idx, i)]
    ensures OnBoard(c) == OnBoard(b) - b[idx]
         + w[1] + w[2] + w[3] + w[4] + w[5] + w[6] + w[7] + w[8] + w[9] + w[10] + w[11]
  {
    assert forall i: nat :: i < PITS ==> c[i] == b[i] + Dealt(w, idx, i) - (if i == idx then b[i] else 0);
    hide Row, Dealt, Distance;
    DistancesCoverTheBoard(w, idx);
    BoardSpelledOut(b);
    BoardSpelledOut(c);
  }

  lemma SowKeepsTotal(b: Board, idx: nat)
    requires idx < PITS
    ensures OnBoard(Sown(b, idx)) == OnBoard(b)
  {
    var w := seq(PITS, d requires 0 <= d < PITS => Share(b[idx], d));
    assert OnBoard(Sown(b, idx)) == OnBoard(b) - b[idx]
      + w[1] + w[2] + w[3] + w[4] + w[5] + w[6] + w[7] + w[8] + w[9] + w[10] + w[11] by {
      SpreadTotal(b, Sown(b, idx), idx, w);
    }
    ShareSum(b[idx]);
  }

  lemma SowOnlyAdds(b: Board, turn: Player, house: nat)
    requires house < HOUSES_PER_SIDE
    ensures Row(Sown(b, PitOf(turn, house)), 1 - turn) >= Row(b, 1 - turn)
  {
    var c := Sown(b, PitOf(turn, house));
    BoardSpelledOut(b);
    BoardSpelledOut(c);
    assert forall i: nat :: i < PITS && i != PitOf(turn, house) ==> c[i] >= b[i];
  }

  /** A capture takes nothing or at least two seeds, all from the other row, and
      never the last of them: the grand slam captures nothing. */
  lemma CaptureLaw(b: Board, turn: Player, last: nat)
    ensures var Catch(c, take) := Captured(b, turn, last);
      && OnBoard(c) + take == OnBoard(b)
      && ((take == 0 && c == b) || take >= 2)
      && Row(c, turn) == Row(b, turn)
      && (Row(b, 1 - turn) > 0 ==> Row(c, 1 - turn) > 0)
  {
    var c := Harvested(b, 1 - turn, last);
    forall q: nat | q < PITS
      ensures c[q] == b[q] || (InRow(1 - turn, q) && c[q] == 0 && b[q] >= 2)
    {
    }
    EmptyingRipePits(b, c, 1 - turn);
  }

  predicate InRow(player: Player, q: nat) {
    HOUSES_PER_SIDE * player <= q < HOUSES_PER_SIDE * player + HOUSES_PER_SIDE
  }

  lemma EmptyingRipePits(b: Board, c: Board, player: Player)
    requires forall q: nat :: q < PITS ==> c[q] == b[q] || (InRow(player, q) && c[q] == 0 && b[q] >= 2)
    ensures Row(c, 1 - player) == Row(b, 1 - player)
    ensures c == b || Row(b, player) - Row(c, player) >= 2
  {
    BoardSpelledOut(b);
    BoardSpelledOut(c);
  }

  // ----- one move -----

  /** Seeds are conserved, only the mover's store can grow, and the player who
      moves next always finds a seed in their row. */
  lemma AdvanceLaw(s: State, house: nat)
    requires Legal(s, house)
    ensures var r := Advanced(s, house);
      && r.turn == 1 - s.turn && !r.over
      && Total(r) == Total(s)
      && Row(r.pits, r.turn) > 0
      && r.store0 + r.store1 == s.store0 + s.store1 + CatchOf(s, house).seeds
      && r.store0 >= s.store0 && r.store1 >= s.store1
      && (s.turn == 0 ==> r.store1 == s.store1) && (s.turn == 1 ==> r.store0 == s.store0)
      && (if CatchOf(s, house).seeds == 0 then r.noCaptureCount == s.noCaptureCount + 1
          else CatchOf(s, house).seeds >= 2 && r.noCaptureCount == 0)
  {
    hide Sown, Captured, LastPit, Row;
    var idx := PitOf(s.turn, house);
    var sown := Sown(s.pits, idx);
    SowKeepsTotal(s.pits, idx);
    SowOnlyAdds(s.pits, s.turn, house);
    CaptureLaw(sown, s.turn, LastPit(s.pits, idx));
  }

  /** Why a position that has just been reached is over, if it is. */
  datatype Ending = Running | ByMajority | ByEmptyRow | ByStarvation | ByNoCapture

  function EndingOf(r: State): Ending {
    if Majority(r) then ByMajority
    else if Row(r.pits, r.turn) == 0 then ByEmptyRow
    else if Row(r.pits, 1 - r.turn) == 0 && !HasMove(r) then ByStarvation
    else if r.noCaptureCount >= NO_CAPTURE_LIMIT then ByNoCapture
    else Running
  }

  /** The empty-row branch of `resolve` is never taken on a move: the player to
      move next has a seed, by the feeding rule and the grand-slam rule together. */
  lemma EmptyRowNeverEndsAMove(s: State, house: nat)
    requires Legal(s, house)
    ensures !EndingOf(Advanced(s, house)).ByEmptyRow?
  {
    AdvanceLaw(s, house);
  }

  /** What holds of every position a game reaches.  A running game has a move,
      nobody has a majority and the no-capture count is below its limit; a
      finished one is won by the leading store, with a majority or a swept board. */
  predicate Sound(s: State) {
    && Total(s) == SEEDS
    && if s.over then
         s.winner == Leader(s.store0, s.store1) && (Majority(s) || s.pits == Filled(0))
       else
         HasMove(s) && Row(s.pits, s.turn) > 0 && !Majority(s) && s.noCaptureCount < NO_CAPTURE_LIMIT
  }

  lemma InitialStateIsSound(startTurn: Player)
    ensures Sound(InitialState(startTurn))
  {
    BoardSpelledOut(InitialState(startTurn).pits);
    assert Legal(InitialState(startTurn), 0);
  }

  lemma SeedsInBothRowsGiveAMove(s: State)
    requires !s.over && Row(s.pits, s.turn) > 0 && Row(s.pits, 1 - s.turn) > 0
    ensures HasMove(s)
  {
    RowSpelledOut(s.pits, s.turn);
    var full := h requires 0 <= h < HOUSES_PER_SIDE => s.pits[PitOf(s.turn, h)] > 0;
    var h := if full(0) then 0 else if full(1) then 1 else if full(2) then 2
             else if full(3) then 3 else if full(4) then 4 else 5;
    assert Legal(s, h);
  }

  lemma ApplyIsLegal(s: State, house: nat)
    ensures Apply(s, house).Ok? <==> Legal(s, house)
  {
  }

  /** Terminal conditions move seeds from the board to the stores and nowhere else. */
  lemma ResolvedLaw(r: State)
    requires !r.over && Row(r.pits, r.turn) > 0
    ensures var f := Resolved(r);
      && f.turn == r.turn && Total(f) == Total(r)
      && f.store0 >= r.store0 && f.store1 >= r.store1
      && (Total(r) == SEEDS ==> Sound(f))
      && (f.over <==> !EndingOf(r).Running?)
      && (!f.over ==> f == r && HasMove(r))
  {
    BoardSpelledOut(Filled(0));
    if EndingOf(r).Running? && Row(r.pits, 1 - r.turn) > 0 {
      SeedsInBothRowsGiveAMove(r);
    }
  }

  /** Whatever clears the board, starvation or the no-capture limit, each side
      banks exactly the seeds of its own row. */
  lemma SweepsBankOwnRows(r: State)
    requires !r.over && Row(r.pits, r.turn) > 0
    ensures var f := Resolved(r); var e := EndingOf(r);
      && (e.ByStarvation? || e.ByNoCapture? ==>
           f.pits == Filled(0)
           && f.store0 == r.store0 + Row(r.pits, 0) && f.store1 == r.store1 + Row(r.pits, 1))
      && (e.ByMajority? ==> f.pits == r.pits && f.store0 == r.store0 && f.store1 == r.store1)
  {
    hide HasMove, RowPrefix;
  }

  /** One accepted move: the turn passes, no store shrinks, no seed is lost, and
      the result is sound whatever the position it was played from. */
  lemma ApplyLaw(s: State, house: nat)
    requires Apply(s, house).Ok?
    ensures var r := Apply(s, house).value;
      && r.turn == 1 - s.turn
      && Total(r) == Total(s)
      && r.store0 >= s.store0 && r.store1 >= s.store1
      && (Total(s) == SEEDS ==> Sound(r))
      && (!r.over ==> r == Advanced(s, house) && HasMove(r) && Row(r.pits, r.turn) > 0)
  {
    AdvanceLaw(s, house);
    ResolvedLaw(Advanced(s, house));
  }

  /** At least 25 seeds win, and only an even split of all 48 is a draw. */
  lemma SoundWinner(s: State)
    requires Sound(s) && s.over
    ensures s.winner == 0 ==> s.store0 >= 25
    ensures s.winner == 1 ==> s.store1 >= 25
    ensures s.winner == DRAW ==> s.store0 == 24 && s.store1 == 24 && s.pits == Filled(0)
  {
    BoardSpelledOut(Filled(0));
  }

  // ----- the rules in numbers -----

  /** Sowing one by one round the board, skipping the origin: a pit `d` places on
      gets the seeds number d, d + 11, d + 22 and so on. */
  lemma SowingInNumbers(b: Board, idx: nat, i: nat)
    requires idx < 12 && i < 12
    ensures var d := (i - idx) % 12;
      Sown(b, idx)[i] == if i == idx then 0 else b[i] + (b[idx] + 11 - d) / 11
  {
    var n, d := b[idx], (i - idx) % 12;
    if i != idx {
      assert d == Distance(idx, i);
      CountInLaps(n, d);
    }
  }

  lemma CountInLaps(n: nat, d: nat)
    requires 1 <= d <= 11
    ensures Share(n, d) == (n + 11 - d) / 11
  {
    var q, r := n / 11, n % 11;
    assert n == 11 * q + r;
    assert (n + 11 - d) == 11 * q + (r + 11 - d);
  }

  /** Pit `q` of the row from `lo` belongs to the unbroken run of pits of two or three
      seeds that ends where the last seed fell. */
  predicate RunsTo(b: Board, lo: nat, last: nat, q: nat) {
    lo <= q <= last < lo + 6 && last < 12 && forall r: nat :: q <= r <= last ==> b[r] == 2 || b[r] == 3
  }

  /** A capture empties that run in the other player's row, all of it and no more;
      but nothing at all if every seed of the row is in it. */
  lemma CaptureInNumbers(b: Board, turn: Player, last: nat)
    requires last < 12
    ensures var lo := if turn == 0 then 6 else 0; var c := Captured(b, turn, last);
      if forall k: nat :: lo <= k < lo + 6 && b[k] > 0 ==> RunsTo(b, lo, last, k) then c == Catch(b, 0)
      else
        && (forall q: nat :: q < 12 ==> c.board[q] == if RunsTo(b, lo, last, q) then 0 else b[q])
        && OnBoard(c.board) + c.seeds == OnBoard(b)
  {
    var opp: Player := 1 - turn;
    var lo := HOUSES_PER_SIDE * opp;
    var left := Harvested(b, opp, last);
    forall q: nat | q < 12
      ensures left[q] == if RunsTo(b, lo, last, q) then 0 else b[q]
    {
      assert InRun(b, opp, last, q) <==> RunsTo(b, lo, last, q);
    }
    CaptureLaw(b, turn, last);
    EmptiedRow(b, left, opp);
  }

  lemma EmptiedRow(b: Board, c: Board, player: Player)
    requires forall q: nat :: q < PITS ==> c[q] == b[q] || (InRow(player, q) && c[q] == 0)
    ensures var k := HOUSES_PER_SIDE * player;
      && (Row(c, player) == 0 <==> forall q: nat :: k <= q < k + HOUSES_PER_SIDE ==> c[q] == 0)
      && (Row(c, player) == Row(b, player) <==> c == b)
  {
    RowSpelledOut(b, player);
    RowSpelledOut(c, player);
  }

  /** Which error a refused move gets. */
  lemma ErrorsInNumbers(s: State, house: nat)
    ensures Apply(s, house) == Err(GameOver) <==> s.over
    ensures Apply(s, house) == Err(BadHouse) <==> !s.over && house > 5
    ensures Apply(s, house) == Err(EmptyHouse) <==> !s.over && house <= 5 && s.pits[6 * s.turn + house] == 0
    ensures Apply(s, house) == Err(MustFeed) <==>
      && !s.over && house <= 5 && s.pits[6 * s.turn + house] > 0
      && Row(s.pits, 1 - s.turn) == 0 && Row(Sown(s.pits, 6 * s.turn + house), 1 - s.turn) == 0
  {
  }

  /** The player to move has no house that would reach the other's empty row. */
  predicate Starves(b: Board, turn: Player) {
    && Row(b, 1 - turn) == 0
    && forall i: nat :: 6 * turn <= i < 6 * turn + 6 ==> b[i] == 0 || Row(Sown(b, i), 1 - turn) == 0
  }

  /** A move ends the game exactly when it brings a store to 25, leaves the other
      player nothing to play, or is the fortieth in a row without a capture. */
  lemma MoveEndsIff(s: State, house: nat)
    requires Apply(s, house).Ok? && s.store0 <= 24 && s.store1 <= 24
    ensures var c := CatchOf(s, house);
      Apply(s, house).value.over <==>
        || (if s.turn == 0 then s.store0 else s.store1) + c.seeds >= 25
        || Starves(c.board, 1 - s.turn)
        || (c.seeds == 0 && s.noCaptureCount >= 39)
  {
    hide CatchOf, Sown;
    AdvanceLaw(s, house);
    var r := Advanced(s, house);
    if Row(r.pits, 1 - r.turn) == 0 { NoMoveIff(r); }
  }

  lemma NoMoveIff(r: State)
    requires !r.over && Row(r.pits, 1 - r.turn) == 0
    ensures HasMove(r) <==> !Starves(r.pits, r.turn)
  {
    hide Row, Sown;
    if !Starves(r.pits, r.turn) {
      var i: nat :| 6 * r.turn <= i < 6 * r.turn + 6 && r.pits[i] > 0 && Row(Sown(r.pits, i), 1 - r.turn) > 0;
      assert i == PitOf(r.turn, i - 6 * r.turn) && Legal(r, i - 6 * r.turn);
    }
  }

  /** A store that reaches 25 wins there and then, with the board left as it is. */
  lemma TwentyFiveWins(s: State, house: nat)
    requires Apply(s, house).Ok? && s.store0 <= 24 && s.store1 <= 24
    requires (if s.turn == 0 then s.store0 else s.store1) + CatchOf(s, house).seeds >= 25
    ensures var r := Apply(s, house).value;
      && r.over && r.winner == s.turn && r.pits == CatchOf(s, house).board
      && r.store0 == s.store0 + (if s.turn == 0 then CatchOf(s, house).seeds else 0)
      && r.store1 == s.store1 + (if s.turn == 1 then CatchOf(s, house).seeds else 0)
  {
    hide CatchOf;
  }

  /** Any other ending clears the board, and each side banks the seeds of its own row. */
  lemma OtherwiseRowsAreBanked(s: State, house: nat)
    requires Apply(s, house).Ok? && s.store0 <= 24 && s.store1 <= 24 && Apply(s, house).value.over
    requires (if s.turn == 0 then s.store0 else s.store1) + CatchOf(s, house).seeds < 25
    ensures var c := CatchOf(s, house); var r := Apply(s, house).value;
      && (forall i :: 0 <= i < 12 ==> r.pits[i] == 0)
      && r.store0 == s.store0 + (if s.turn == 0 then c.seeds else 0) + Row(c.board, 0)
      && r.store1 == s.store1 + (if s.turn == 1 then c.seeds else 0) + Row(c.board, 1)
  {
    hide CatchOf, HasMove, Row;
    AdvanceLaw(s, house);
    SweepsBankOwnRows(Advanced(s, house));
  }

  /** Nobody goes on playing with 25 seeds or after 40 moves without a capture, and
      an ended game belongs to whoever holds more. */
  predicate InBounds(s: State) {
    if s.over then
      && (s.winner == 0 <==> s.store0 > s.store1) && (s.winner == 1 <==> s.store1 > s.store0)
    else
      s.store0 <= 24 && s.store1 <= 24 && s.noCaptureCount <= 39
  }

  lemma MoveStaysInBounds(s: State, house: nat)
    requires Apply(s, house).Ok?
    ensures InBounds(Apply(s, house).value)
  {
    hide CatchOf, HasMove, Row;
  }

  /** So it is after every line of play from the opening, or from any such position. */
  lemma PlayStaysInBounds(s: State, moves: seq<nat>)
    requires InBounds(s) && Play(s, moves).Ok?
    ensures InBounds(Play(s, moves).value)
  {
    hide Apply, InBounds;
    if moves != [] { MoveStaysInBounds(Play(s, moves[..|moves| - 1]).value, moves[|moves| - 1]); }
  }

  // ----- how an ended game is described -----

  datatype EndKind = OnCapture | OnSweep

  function EndKindOf(s: State): Option<EndKind> {
    if !s.over then None
    else if forall i: nat :: i < PITS ==> s.pits[i] == 0 then Some(OnSweep)
    else Some(OnCapture)
  }

  lemma SeedInRow(b: Board, player: Player)
    requires Row(b, player) > 0
    ensures exists i: nat :: i < PITS && b[i] > 0
  {
    RowSpelledOut(b, player);
  }

  /** A finished move reads "capture" exactly when a store passed half of the
      seeds, and "swept" exactly for starvation and for the no-capture limit. */
  lemma EndKindTellsTheEnding(s: State, house: nat)
    requires Apply(s, house).Ok?
    ensures var r := Apply(s, house).value; var e := EndingOf(Advanced(s, house));
      && (EndKindOf(r) == None <==> e.Running?)
      && (EndKindOf(r) == Some(OnCapture) <==> e.ByMajority?)
      && (EndKindOf(r) == Some(OnSweep) <==> e.ByStarvation? || e.ByNoCapture?)
  {
    AdvanceLaw(s, house);
    SeedInRow(Advanced(s, house).pits, Advanced(s, house).turn);
  }

  // ----- every line of play is finite -----

  /** Seeds on the board weigh more than any streak of moves without a capture. */
  function Measure(s: State): nat {
    var calm := if s.noCaptureCount < NO_CAPTURE_LIMIT then NO_CAPTURE_LIMIT - s.noCaptureCount else 0;
    if s.over then 0 else 1 + 41 * OnBoard(s.pits) + calm
  }

  lemma MeasureDecreases(s: State, house: nat)
    requires Apply(s, house).Ok?
    ensures Measure(Apply(s, house).value) < Measure(s)
  {
    AdvanceLaw(s, house);
  }

  /** Plies a sound position can still see: forty for each two seeds but the last. */
  function PliesLeft(s: State): nat
    requires Sound(s)
  {
    if s.over then 0 else 40 * ((OnBoard(s.pits) - 1) / 2) + (NO_CAPTURE_LIMIT - s.noCaptureCount)
  }

  lemma MoveUsesAPly(s: State, house: nat)
    requires Sound(s) && Apply(s, house).Ok?
    ensures Sound(Apply(s, house).value)
    ensures PliesLeft(Apply(s, house).value) < PliesLeft(s)
  {
    hide Advanced, HasMove, Row;
    AdvanceLaw(s, house);
    ApplyLaw(s, house);
  }

  /** A line of moves under the base rules alone. */
  function Play(s: State, moves: seq<nat>): Result<State, RuleError> {
    if moves == [] then Ok(s)
    else
      match Play(s, moves[..|moves| - 1])
      case Err(e) => Err(e)
      case Ok(t) => Apply(t, moves[|moves| - 1])
  }

  lemma {:induction false} PlayKeepsSound(s: State, moves: seq<nat>)
    requires Sound(s) && Play(s, moves).Ok?
    ensures var r := Play(s, moves).value;
      && Sound(r)
      && r.turn == (if |moves| % 2 == 0 then s.turn else 1 - s.turn)
      && r.store0 >= s.store0 && r.store1 >= s.store1
      && |moves| + PliesLeft(r) <= PliesLeft(s)
  {
    hide Apply, Sound, PliesLeft;
    if moves != [] {
      var m := moves[..|moves| - 1];
      PlayKeepsSound(s, m);
      ApplyLaw(Play(s, m).value, moves[|moves| - 1]);
      MoveUsesAPly(Play(s, m).value, moves[|moves| - 1]);
    }
  }

  /** A line of play, position by position: each move was accepted. */
  ghost predicate IsLine(states: seq<State>, moves: seq<nat>) {
    && |states| == |moves| + 1
    && forall i :: 0 <= i < |moves| ==> Apply(states[i], moves[i]) == Ok(states[i + 1])
  }

  lemma {:induction false} LineIsPlay(states: seq<State>, moves: seq<nat>, i: nat)
    requires IsLine(states, moves) && i <= |moves|
    ensures Play(states[0], moves[..i]) == Ok(states[i])
  {
    hide Apply;
    if i > 0 {
      LineIsPlay(states, moves, i - 1);
      assert moves[..i][..i - 1] == moves[..i - 1];
    }
  }

  /** Every game ends: no line of accepted moves is longer than 960 plies. */
  lemma GameLength(startTurn: Player, states: seq<State>, moves: seq<nat>)
    requires IsLine(states, moves) && states[0] == InitialState(startTurn)
    ensures |moves| <= 960
  {
    hide Sound, Play;
    InitialStateIsSound(startTurn);
    LineIsPlay(states, moves, |moves|);
    assert moves[..|moves|] == moves;
    PlayKeepsSound(states[0], moves);
  }
}
