/** The engine as it runs: loops over local arrays, and a game record that
    `resolve` updates in place.  Every method is proved against module Rules. */
module Engine {
  import opened Wrappers
  import opened Rules

  method RowSum(pits: Board, player: Player) returns (total: nat)
    ensures total == Row(pits, player)
  {
    var base := HOUSES_PER_SIDE * player;
    total := 0;
    for h := 0 to HOUSES_PER_SIDE
      invariant total == RowPrefix(pits, player, h)
    {
      total := total + pits[base + h];
    }
  }

  /** Sowing seed by seed.  A lap that comes back to the origin moves on without
      dropping a seed, so the distance travelled is part of the measure. */
  method Sow(pits: Board, idx: nat) returns (out: array<nat>, lastPos: nat)
    requires idx < PITS
    ensures fresh(out) && out.Length == PITS
    ensures out[..] == Sown(pits, idx)
    ensures lastPos == LastPit(pits, idx)
  {
    hide Sprinkled, LastPit, Share;
    out := new nat[PITS](i requires 0 <= i < PITS => pits[i]);
    assert out[..] == pits;
    var seeds := out[idx];
    out[idx] := 0;
    var pos := idx;
    ghost var laps, d := 0, 0;  // full laps, and pits passed on the current one
    NothingSprinkled(pits, idx);
    while seeds > 0
      invariant 11 * laps + d + seeds == pits[idx]
      invariant d <= 11 && pos == Around(idx, d)
      invariant seeds == 0 && pits[idx] > 0 ==> d > 0
      invariant out[..] == Sprinkled(pits, idx, 11 * laps + d)
      decreases seeds, d
    {
      pos := (pos + 1) % PITS;
      if pos == idx {
        laps, d := laps + 1, 0;
        continue;
      }
      SprinkleStep(pits, idx, laps, d);
      ghost var was := out[..];
      out[pos] := out[pos] + 1;
      assert out[..] == was[pos := was[pos] + 1];
      seeds := seeds - 1;
      d := d + 1;
    }
    lastPos := pos;
    LastOfLap(pits, idx, laps, d);
  }

  lemma NothingSprinkled(b: Board, idx: nat)
    requires idx < PITS
    ensures Sprinkled(b, idx, 0) == b[idx := 0]
  {
  }

  lemma LastOfLap(b: Board, idx: nat, laps: nat, d: nat)
    requires idx < PITS && d <= 11 && b[idx] == 11 * laps + d && (b[idx] > 0 ==> d > 0)
    ensures LastPit(b, idx) == Around(idx, d)
  {
    if d > 0 {
      assert 11 * laps + d - 1 == 11 * laps + (d - 1) && (11 * laps + (d - 1)) % 11 == d - 1;
    }
  }

  lemma SprinkleStep(b: Board, idx: nat, laps: nat, d: nat)
    requires idx < PITS && d < 11
    ensures var pos := Around(idx, d + 1); var n := 11 * laps + d;
      Sprinkled(b, idx, n + 1) == Sprinkled(b, idx, n)[pos := Sprinkled(b, idx, n)[pos] + 1]
  {
    var n := 11 * laps + d;
    assert n / 11 == laps && n % 11 == d;
    assert d < 10 ==> (n + 1) / 11 == laps && (n + 1) % 11 == d + 1;
    assert d == 10 ==> (n + 1) / 11 == laps + 1 && (n + 1) % 11 == 0;
    assert forall e: nat :: 1 <= e <= 11 ==> Share(n + 1, e) == Share(n, e) + (if e == d + 1 then 1 else 0);
  }

  /** Captures: first count the run backwards from the last pit, then, unless
      it is the whole row, empty it. */
  method Capture(pits: Board, turn: Player, lastPos: nat) returns (out: array<nat>, captured: nat)
    requires lastPos < PITS
    ensures fresh(out) && out.Length == PITS
    ensures Catch(out[..], captured) == Captured(pits, turn, lastPos)
  {
    out := new nat[PITS](i requires 0 <= i < PITS => pits[i]);
    assert out[..] == pits;
    var opp: Player := 1 - turn;
    var lo, hi := if turn == 0 then 6 else 0, if turn == 0 then 11 else 5;
    if lastPos < lo || lastPos > hi {
      assert Harvested(pits, opp, lastPos) == pits;
      return out, 0;
    }

    var take := CountRun(pits, opp, lastPos);
    if take == 0 { return out, 0; }

    var oppTotal := RowSum(out[..], opp);
    if take == oppTotal { return out, 0; }

    EmptyRun(out, opp, lastPos);
    captured := take;
  }

  /** The first pass of a capture: seeds in the run that ends at `lastPos`. */
  method CountRun(pits: Board, opp: Player, lastPos: nat) returns (take: nat)
    requires HOUSES_PER_SIDE * opp <= lastPos < HOUSES_PER_SIDE * opp + HOUSES_PER_SIDE
    ensures take == Yield(pits, opp, lastPos)
  {
    var lo := HOUSES_PER_SIDE * opp;
    var p: int := lastPos;
    take := 0;
    assert Zeroed(pits, lastPos + 1, lastPos) == pits;
    while p >= lo && (pits[p] == 2 || pits[p] == 3)
      invariant lo - 1 <= p <= lastPos
      invariant forall r :: p < r <= lastPos ==> Ripe(pits[r])
      invariant take == Row(pits, opp) - Row(Zeroed(pits, p + 1, lastPos), opp)
    {
      ZeroedStep(pits, opp, p, lastPos);
      take := take + pits[p];
      p := p - 1;
    }
    ZeroedRunIsHarvest(pits, opp, p + 1, lastPos);
  }

  /** The second pass: the same run, emptied. */
  method EmptyRun(out: array<nat>, opp: Player, lastPos: nat)
    requires out.Length == PITS
    requires HOUSES_PER_SIDE * opp <= lastPos < HOUSES_PER_SIDE * opp + HOUSES_PER_SIDE
    modifies out
    ensures out[..] == Harvested(old(out[..]), opp, lastPos)
  {
    var lo := HOUSES_PER_SIDE * opp;
    var p: int := lastPos;
    while p >= lo && (out[p] == 2 || out[p] == 3)
      invariant lo - 1 <= p <= lastPos
      invariant forall r :: p < r <= lastPos ==> Ripe(old(out[r]))
      invariant forall q :: 0 <= q < PITS ==> out[q] == if p < q <= lastPos then 0 else old(out[q])
    {
      out[p] := 0;
      p := p - 1;
    }
    ZeroedRunIsHarvest(old(out[..]), opp, p + 1, lastPos);
    assert out[..] == Zeroed(old(out[..]), p + 1, lastPos);
  }

  ghost function Zeroed(b: Board, from: nat, to: nat): Board {
    seq(PITS, q requires 0 <= q < PITS => if from <= q <= to then 0 else b[q])
  }

  lemma ZeroedStep(b: Board, player: Player, p: nat, last: nat)
    requires HOUSES_PER_SIDE * player <= p <= last < HOUSES_PER_SIDE * player + HOUSES_PER_SIDE
    ensures Zeroed(b, p, last) == Zeroed(b, p + 1, last)[p := 0]
    ensures Row(Zeroed(b, p, last), player) == Row(Zeroed(b, p + 1, last), player) - b[p]
  {
    RowSpelledOut(Zeroed(b, p, last), player);
    RowSpelledOut(Zeroed(b, p + 1, last), player);
  }

  /** A run that cannot be extended is what the rules harvest. */
  lemma ZeroedRunIsHarvest(b: Board, player: Player, from: nat, last: nat)
    requires HOUSES_PER_SIDE * player <= from <= last + 1
    requires last < HOUSES_PER_SIDE * player + HOUSES_PER_SIDE
    requires forall r :: from <= r <= last ==> Ripe(b[r])
    requires from == HOUSES_PER_SIDE * player || !Ripe(b[from - 1])
    ensures Zeroed(b, from, last) == Harvested(b, player, last)
  {
    forall q: nat | q < PITS
      ensures InRun(b, player, last, q) <==> from <= q <= last
    {
    }
  }

  /** The bit that stands for a house in a legal-moves mask. */
  function HouseBit(house: nat): bv8
    requires house < HOUSES_PER_SIDE
  {
    match house
    case 0 => 1
    case 1 => 2
    case 2 => 4
    case 3 => 8
    case 4 => 16
    case _ => 32
  }

  lemma SettingABit(mask: bv8, h: nat)
    requires h < HOUSES_PER_SIDE && mask & 0xC0 == 0
    ensures (mask | HouseBit(h)) & 0xC0 == 0
    ensures forall k: nat :: k < HOUSES_PER_SIDE ==>
      ((mask | HouseBit(h)) & HouseBit(k) != 0 <==> k == h || mask & HouseBit(k) != 0)
  {
    match h
    case 0 =>
    case 1 =>
    case 2 =>
    case 3 =>
    case 4 =>
    case _ =>
  }

  /** The mask marks exactly the legal houses below `h`. */
  ghost predicate MarksBelow(mask: bv8, s: State, h: nat) {
    && mask & 0xC0 == 0
    && forall k: nat :: k < HOUSES_PER_SIDE ==> (mask & HouseBit(k) != 0 <==> k < h && Legal(s, k))
  }

  lemma MarkOne(mask: bv8, s: State, h: nat)
    requires h < HOUSES_PER_SIDE && MarksBelow(mask, s, h)
    ensures MarksBelow(if Legal(s, h) then mask | HouseBit(h) else mask, s, h + 1)
  {
    SettingABit(mask, h);
  }

  /** Seeds in the opponent's row once `idx` is sown. */
  method SeedsFed(s: State, idx: nat) returns (reached: nat)
    requires idx < PITS
    ensures reached == Row(Sown(s.pits, idx), 1 - s.turn)
  {
    var np, _ := Sow(s.pits, idx);
    reached := RowSum(np[..], 1 - s.turn);
  }

  /** Bits 0 to 5 mark the legal houses; no other bit is ever set. */
  method LegalMovesMask(s: State) returns (mask: bv8)
    ensures forall h: nat :: h < HOUSES_PER_SIDE ==> (mask & HouseBit(h) != 0 <==> Legal(s, h))
    ensures mask & 0xC0 == 0
    ensures mask == 0 <==> !HasMove(s)
  {
    hide Row, Sown;
    if s.over { return 0; }
    var oppSeeds := RowSum(s.pits, 1 - s.turn);
    var oppEmpty := oppSeeds == 0;
    var base := if s.turn == 0 then 0 else HOUSES_PER_SIDE;
    mask := 0;
    for h := 0 to HOUSES_PER_SIDE
      invariant MarksBelow(mask, s, h)
    {
      var idx := base + h;
      MarkOne(mask, s, h);
      if s.pits[idx] == 0 { continue; }
      if oppEmpty {
        var reached := SeedsFed(s, idx);
        if reached == 0 { continue; }
      }
      mask := mask | HouseBit(h);
    }
    MaskComplete(mask, s);
  }

  lemma MaskComplete(mask: bv8, s: State)
    requires MarksBelow(mask, s, HOUSES_PER_SIDE)
    ensures mask == 0 <==> !HasMove(s)
  {
    if mask != 0 {
      var h := SomeBit(mask);
      assert Legal(s, h);
    }
  }

  lemma SomeBit(mask: bv8) returns (h: nat)
    requires mask & 0xC0 == 0 && mask != 0
    ensures h < HOUSES_PER_SIDE && mask & HouseBit(h) != 0
  {
    h := if mask & 1 != 0 then 0 else if mask & 2 != 0 then 1 else if mask & 4 != 0 then 2
      else if mask & 8 != 0 then 3 else if mask & 16 != 0 then 4 else 5;
  }

  method IsLegal(s: State, house: nat) returns (legal: bool)
    ensures legal == Legal(s, house)
  {
    if house >= HOUSES_PER_SIDE { return false; }
    var mask := LegalMovesMask(s);
    return mask & HouseBit(house) != 0;
  }

  /** The record `applyMove` builds and `resolve` then updates in place. */
  class GameRecord {
    var pits: array<nat>
    var store0: nat
    var store1: nat
    var turn: Player
    var over: bool
    var winner: Outcome
    var noCaptureCount: nat

    ghost predicate Valid()
      reads this
    {
      pits.Length == PITS
    }

    function View(): State
      reads this, pits
      requires Valid()
    {
      State(pits[..], store0, store1, turn, over, winner, noCaptureCount)
    }

    constructor (pits: array<nat>, store0: nat, store1: nat, turn: Player, noCaptureCount: nat)
      requires pits.Length == PITS
      ensures Valid() && this.pits == pits
      ensures View() == State(pits[..], store0, store1, turn, false, 0, noCaptureCount)
    {
      this.pits, this.store0, this.store1, this.turn := pits, store0, store1, turn;
      this.over, this.winner, this.noCaptureCount := false, 0, noCaptureCount;
    }

    method Finish()
      requires Valid()
      modifies this`over, this`winner
      ensures Valid() && View() == Finished(old(View()))
    {
      over := true;
      if store0 > store1 { winner := 0; }
      else if store1 > store0 { winner := 1; }
      else { winner := DRAW; }
    }

    method ZeroBoard()
      requires Valid()
      modifies pits
      ensures Valid() && View() == old(View()).(pits := Filled(0))
    {
      for i := 0 to PITS
        invariant forall k :: 0 <= k < i ==> pits[k] == 0
      {
        pits[i] := 0;
      }
      assert pits[..] == Filled(0);
    }

    /** The ending shared by every sweep: bank the given seeds, clear, score. */
    method Sweep(toSouth: nat, toNorth: nat)
      requires Valid()
      modifies this`store0, this`store1, this`over, this`winner, pits
      ensures Valid()
      ensures View() == Finished(old(View()).(pits := Filled(0),
                store0 := old(store0) + toSouth, store1 := old(store1) + toNorth))
    {
      store0 := store0 + toSouth;
      store1 := store1 + toNorth;
      ZeroBoard();
      Finish();
    }

    /** All seeds left go to `player`. */
    method SweepFor(player: Player, seeds: nat)
      requires Valid() && seeds == OnBoard(pits[..])
      modifies this`store0, this`store1, this`over, this`winner, pits
      ensures Valid() && View() == SweptTo(old(View()), player)
    {
      hide OnBoard;
      if player == 0 { Sweep(seeds, 0); } else { Sweep(0, seeds); }
    }

    method Resolve()
      requires Valid()
      modifies this, pits
      ensures Valid() && View() == Resolved(old(View()))
    {
      hide Row, HasMove;
      if store0 > SEEDS / 2 { Finish(); return; }
      if store1 > SEEDS / 2 { Finish(); return; }

      var south := RowSum(pits[..], 0);
      var north := RowSum(pits[..], 1);
      var ownSum, oppSum := if turn == 0 then south else north, if turn == 0 then north else south;
      if ownSum == 0 {
        SweepFor(1 - turn, oppSum);
        return;
      }
      if oppSum == 0 {
        var mask := LegalMovesMask(View());
        if mask == 0 {
          SweepFor(turn, ownSum);
          return;
        }
      }
      if noCaptureCount >= NO_CAPTURE_LIMIT { Sweep(south, north); }
    }
  }

  method ApplyMove(s: State, house: nat) returns (next: Result<State, RuleError>)
    ensures next == Apply(s, house)
  {
    if s.over { return Err(GameOver); }
    if house >= HOUSES_PER_SIDE { return Err(BadHouse); }

    var idx := if s.turn == 0 then house else HOUSES_PER_SIDE + house;
    if s.pits[idx] == 0 { return Err(EmptyHouse); }

    var oppSeeds := RowSum(s.pits, 1 - s.turn);
    var oppEmpty := oppSeeds == 0;
    if oppEmpty {
      var reached := SeedsFed(s, idx);
      if reached == 0 { return Err(MustFeed); }
    }
    var r := Advance(s, house);
    r.Resolve();
    return Ok(r.View());
  }

  /** Sowing and capturing, into a fresh record. */
  method Advance(s: State, house: nat) returns (r: GameRecord)
    requires house < HOUSES_PER_SIDE
    ensures fresh(r) && fresh(r.pits) && r.Valid() && r.View() == Advanced(s, house)
  {
    var sown, lastPos := Sow(s.pits, PitOf(s.turn, house));
    var board, captured := Capture(sown[..], s.turn, lastPos);
    r := new GameRecord(board, s.store0, s.store1, 1 - s.turn,
                        if captured > 0 then 0 else s.noCaptureCount + 1);
    if s.turn == 0 { r.store0 := r.store0 + captured; }
    else { r.store1 := r.store1 + captured; }
  }
}
