/** The rules of Awale as a specification: what one sowing, one capture and one
    move do to a position.  Sowing is given in closed form and a capture by the
    set of pits it empties; the loops of the engine are proved against these
    definitions in module Engine. */
module Rules {
  import opened Wrappers

  const PITS := 12
  const HOUSES_PER_SIDE := 6
  const SEEDS := 48
  const DRAW := 2
  const NO_CAPTURE_LIMIT := 40
  const REPETITION_LIMIT := 3

  type Board = b: seq<nat> | |b| == PITS witness [0, 0, 0, 0, 0, 0, 0, 0, 0, 0, 0, 0]
  type Player = p: int | p == 0 || p == 1
  type Outcome = w: int | 0 <= w <= DRAW

  datatype State = State(
    pits: Board,
    store0: nat,
    store1: nat,
    turn: Player,
    over: bool,
    winner: Outcome,
    noCaptureCount: nat)

  datatype RuleError = GameOver | BadHouse | EmptyHouse | MustFeed

  /** The board with `n` seeds in every pit. */
  function Filled(n: nat): Board {
    seq(PITS, i requires 0 <= i < PITS => n)
  }

  /** The opening: four seeds in every pit. */
  function InitialState(startTurn: Player): State {
    State(Filled(4), 0, 0, startTurn, false, 0, 0)
  }

  function PitOf(turn: Player, house: nat): nat {
    HOUSES_PER_SIDE * turn + house
  }

  /** Seeds in the first `n` houses of `player`. */
  function RowPrefix(b: Board, player: Player, n: nat): nat
    requires n <= HOUSES_PER_SIDE
  {
    if n == 0 then 0 else RowPrefix(b, player, n - 1) + b[PitOf(player, n - 1)]
  }

  /** Seeds in the six houses of `player`. */
  function Row(b: Board, player: Player): nat {
    RowPrefix(b, player, HOUSES_PER_SIDE)
  }

  lemma RowSpelledOut(b: Board, player: Player)
    ensures var k := HOUSES_PER_SIDE * player;
      Row(b, player) == b[k] + b[k + 1] + b[k + 2] + b[k + 3] + b[k + 4] + b[k + 5]
  {
    assert RowPrefix(b, player, 1) == b[PitOf(player, 0)];
    assert RowPrefix(b, player, 2) == RowPrefix(b, player, 1) + b[PitOf(player, 1)];
    assert RowPrefix(b, player, 3) == RowPrefix(b, player, 2) + b[PitOf(player, 2)];
    assert RowPrefix(b, player, 4) == RowPrefix(b, player, 3) + b[PitOf(player, 3)];
    assert RowPrefix(b, player, 5) == RowPrefix(b, player, 4) + b[PitOf(player, 4)];
  }

  function OnBoard(b: Board): nat {
    Row(b, 0) + Row(b, 1)
  }

  function Total(s: State): nat {
    OnBoard(s.pits) + s.store0 + s.store1
  }

  /** How many pits counter-clockwise of `idx` the pit `i` lies. */
  function Distance(idx: nat, i: nat): nat
    requires idx < PITS && i < PITS
  {
    if idx <= i then i - idx else i + PITS - idx
  }

  /** The pit `d` places counter-clockwise of `idx`. */
  function Around(idx: nat, d: nat): nat
    requires idx < PITS && d < PITS
  {
    if idx + d < PITS then idx + d else idx + d - PITS
  }

  /** Sowing `n` seeds round the eleven other pits: each gets a full share, and
      the first `n % 11` one more. */
  function Share(n: nat, distance: nat): nat {
    n / 11 + (if distance <= n % 11 then 1 else 0)
  }

  /** The board after the first `n` seeds lifted from `idx` have been dropped. */
  function Sprinkled(b: Board, idx: nat, n: nat): Board
    requires idx < PITS
  {
    seq(PITS, i requires 0 <= i < PITS =>
      if i == idx then 0 else b[i] + Share(n, Distance(idx, i)))
  }

  function Sown(b: Board, idx: nat): Board
    requires idx < PITS
  {
    Sprinkled(b, idx, b[idx])
  }

  /** The pit that receives the last seed (the origin itself when it was empty). */
  function LastPit(b: Board, idx: nat): (last: nat)
    requires idx < PITS
    ensures last < PITS
  {
    if b[idx] == 0 then idx else Around(idx, (b[idx] - 1) % 11 + 1)
  }

  predicate Ripe(v: nat) {
    v == 2 || v == 3
  }

  /** Pit `q` lies in the unbroken run of twos and threes that ends at `last`
      inside the row of `player`. */
  predicate InRun(b: Board, player: Player, last: nat, q: nat) {
    var lo := HOUSES_PER_SIDE * player;
    lo <= q <= last < lo + HOUSES_PER_SIDE && forall r: nat :: q <= r <= last ==> Ripe(b[r])
  }

  function Harvested(b: Board, player: Player, last: nat): Board {
    seq(PITS, q requires 0 <= q < PITS => if InRun(b, player, last, q) then 0 else b[q])
  }

  /** Seeds the run holds. */
  function Yield(b: Board, player: Player, last: nat): nat {
    HarvestShrinks(b, player, last);
    Row(b, player) - Row(Harvested(b, player, last), player)
  }

  lemma HarvestShrinks(b: Board, player: Player, last: nat)
    ensures Row(Harvested(b, player, last), player) <= Row(b, player)
  {
    RowSpelledOut(b, player);
    RowSpelledOut(Harvested(b, player, last), player);
  }

  datatype Catch = Catch(board: Board, seeds: nat)

  /** The capture made by `turn`: the run it reached in the other row, unless
      that is empty or is every seed of that row (the grand slam). */
  function Captured(b: Board, turn: Player, last: nat): Catch {
    var take := Yield(b, 1 - turn, last);
    if take == 0 || take == Row(b, 1 - turn) then Catch(b, 0)
    else Catch(Harvested(b, 1 - turn, last), take)
  }

  /** A move is legal when its house holds seeds and, if the opponent has none,
      sowing it reaches the opponent. */
  predicate Legal(s: State, house: nat) {
    && !s.over
    && house < HOUSES_PER_SIDE
    && s.pits[PitOf(s.turn, house)] > 0
    && (Row(s.pits, 1 - s.turn) == 0 ==> Row(Sown(s.pits, PitOf(s.turn, house)), 1 - s.turn) > 0)
  }

  predicate HasMove(s: State) {
    exists h: nat | h < HOUSES_PER_SIDE :: Legal(s, h)
  }

  function Leader(store0: nat, store1: nat): Outcome {
    if store0 > store1 then 0 else if store1 > store0 then 1 else DRAW
  }

  function Finished(s: State): State {
    s.(over := true, winner := Leader(s.store0, s.store1))
  }

  /** Each side banks the seeds of its own row and the game is scored. */
  function Swept(s: State): State {
    Finished(s.(pits := Filled(0),
                store0 := s.store0 + Row(s.pits, 0),
                store1 := s.store1 + Row(s.pits, 1)))
  }

  /** The stores after `winner` banks the whole board. */
  function SweptTo(s: State, player: Player): State {
    Finished(s.(pits := Filled(0),
                store0 := s.store0 + (if player == 0 then OnBoard(s.pits) else 0),
                store1 := s.store1 + (if player == 1 then OnBoard(s.pits) else 0)))
  }

  predicate Majority(s: State) {
    s.store0 > SEEDS / 2 || s.store1 > SEEDS / 2
  }

  /** Terminal conditions of a freshly advanced position, in the order they are tried. */
  function Resolved(s: State): State {
    if Majority(s) then Finished(s)
    else if Row(s.pits, s.turn) == 0 then SweptTo(s, 1 - s.turn)
    else if Row(s.pits, 1 - s.turn) == 0 && !HasMove(s) then SweptTo(s, s.turn)
    else if s.noCaptureCount >= NO_CAPTURE_LIMIT then Swept(s)
    else s
  }

  /** What the move from `house` captures, and the board it leaves. */
  function CatchOf(s: State, house: nat): Catch
    requires house < HOUSES_PER_SIDE
  {
    var idx := PitOf(s.turn, house);
    Captured(Sown(s.pits, idx), s.turn, LastPit(s.pits, idx))
  }

  /** The position after sowing and capturing, before terminal conditions. */
  function Advanced(s: State, house: nat): State
    requires house < HOUSES_PER_SIDE
  {
    var caught := CatchOf(s, house);
    State(
      caught.board,
      s.store0 + (if s.turn == 0 then caught.seeds else 0),
      s.store1 + (if s.turn == 1 then caught.seeds else 0),
      1 - s.turn,
      false,
      0,
      if caught.seeds > 0 then 0 else s.noCaptureCount + 1)
  }

  /** One move, or the error it is rejected with. */
  function Apply(s: State, house: nat): Result<State, RuleError> {
    if s.over then Err(GameOver)
    else if house >= HOUSES_PER_SIDE then Err(BadHouse)
    else if s.pits[PitOf(s.turn, house)] == 0 then Err(EmptyHouse)
    else if !Legal(s, house) then Err(MustFeed)
    else Ok(Resolved(Advanced(s, house)))
  }
}
