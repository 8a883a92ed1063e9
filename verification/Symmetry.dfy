/** The two players are interchangeable: turning the board round, with stores,
    turn and winner, commutes with every rule and so with whole games. */
module Symmetry {
  import opened Wrappers
  import opened Rules
  import opened Laws
  import opened Adjudication

  function MirrorPit(i: nat): nat
    requires i < PITS
  {
    if i < HOUSES_PER_SIDE then i + HOUSES_PER_SIDE else i - HOUSES_PER_SIDE
  }

  function MirrorBoard(b: Board): Board {
    b[HOUSES_PER_SIDE..] + b[..HOUSES_PER_SIDE]
  }

  function Mirror(s: State): State {
    State(MirrorBoard(s.pits), s.store1, s.store0, 1 - s.turn, s.over,
          if s.over && s.winner != DRAW then 1 - s.winner else s.winner, s.noCaptureCount)
  }

  function MirrorResult(r: Result<State, RuleError>): Result<State, RuleError> {
    if r.Ok? then Ok(Mirror(r.value)) else r
  }

  lemma MirrorRow(b: Board, p: Player)
    ensures Row(MirrorBoard(b), 1 - p) == Row(b, p)
  {
    RowSpelledOut(b, p);
    RowSpelledOut(MirrorBoard(b), 1 - p);
  }

  lemma MirrorAt(b: Board, i: nat)
    requires i < PITS
    ensures MirrorBoard(b)[MirrorPit(i)] == b[i]
    ensures MirrorPit(MirrorPit(i)) == i
  {
  }

  /** A board is the mirror of another when its pits are, one by one. */
  lemma MirrorPitwise(b: Board, c: Board)
    requires forall i: nat :: i < PITS ==> c[MirrorPit(i)] == b[i]
    ensures c == MirrorBoard(b)
  {
    forall j: nat | j < PITS
      ensures c[j] == MirrorBoard(b)[j]
    {
      MirrorAt(b, MirrorPit(j));
      MirrorAt(b, j);
      assert c[MirrorPit(MirrorPit(j))] == b[MirrorPit(j)];
    }
  }

  lemma MirrorAround(idx: nat, d: nat)
    requires idx < PITS && d < PITS
    ensures Around(MirrorPit(idx), d) == MirrorPit(Around(idx, d))
  {
  }

  lemma MirrorSown(b: Board, idx: nat)
    requires idx < PITS
    ensures Sown(MirrorBoard(b), MirrorPit(idx)) == MirrorBoard(Sown(b, idx))
    ensures LastPit(MirrorBoard(b), MirrorPit(idx)) == MirrorPit(LastPit(b, idx))
  {
    hide Share, MirrorBoard, Around;
    var c, m := MirrorBoard(b), MirrorPit(idx);
    MirrorAt(b, idx);
    forall i: nat | i < PITS
      ensures Sown(c, m)[MirrorPit(i)] == Sown(b, idx)[i]
    {
      assert Distance(m, MirrorPit(i)) == Distance(idx, i);
      MirrorAt(b, i);
    }
    MirrorPitwise(Sown(b, idx), Sown(c, m));
    if b[idx] > 0 { MirrorAround(idx, (b[idx] - 1) % 11 + 1); }
  }

  lemma MirrorRun(b: Board, p: Player, last: nat, q: nat)
    requires last < PITS && q < PITS
    ensures InRun(b, p, last, q) ==> InRun(MirrorBoard(b), 1 - p, MirrorPit(last), MirrorPit(q))
  {
    if InRun(b, p, last, q) {
      forall r: nat | MirrorPit(q) <= r <= MirrorPit(last)
        ensures Ripe(MirrorBoard(b)[r])
      {
        assert MirrorBoard(b)[r] == b[MirrorPit(r)];
      }
    }
  }

  lemma MirrorHarvested(b: Board, p: Player, last: nat)
    requires last < PITS
    ensures Harvested(MirrorBoard(b), 1 - p, MirrorPit(last)) == MirrorBoard(Harvested(b, p, last))
  {
    hide MirrorBoard, InRun;
    var c := MirrorBoard(b);
    forall i: nat | i < PITS
      ensures Harvested(c, 1 - p, MirrorPit(last))[MirrorPit(i)] == Harvested(b, p, last)[i]
    {
      MirrorAt(b, i);
      MirrorAt(b, last);
      MirrorRun(b, p, last, i);
      MirrorRun(c, 1 - p, MirrorPit(last), MirrorPit(i));
      MirrorBoardTwice(b);
    }
    MirrorPitwise(Harvested(b, p, last), Harvested(c, 1 - p, MirrorPit(last)));
  }

  lemma MirrorBoardTwice(b: Board)
    ensures MirrorBoard(MirrorBoard(b)) == b
  {
  }

  lemma MirrorCatch(s: State, house: nat)
    requires house < HOUSES_PER_SIDE
    ensures CatchOf(Mirror(s), house) == Catch(MirrorBoard(CatchOf(s, house).board), CatchOf(s, house).seeds)
  {
    hide Sown, Harvested, LastPit, Row, MirrorBoard;
    var idx := PitOf(s.turn, house);
    var sown, last := Sown(s.pits, idx), LastPit(s.pits, idx);
    assert PitOf(1 - s.turn, house) == MirrorPit(idx);
    MirrorSown(s.pits, idx);
    MirrorHarvested(sown, 1 - s.turn, last);
    MirrorRow(sown, 1 - s.turn);
    MirrorRow(Harvested(sown, 1 - s.turn, last), 1 - s.turn);
  }

  lemma MirrorLegal(s: State, house: nat)
    ensures Legal(Mirror(s), house) <==> Legal(s, house)
  {
    hide Sown, Row;
    if house < HOUSES_PER_SIDE {
      var idx := PitOf(s.turn, house);
      assert PitOf(1 - s.turn, house) == MirrorPit(idx);
      MirrorSown(s.pits, idx);
      MirrorRow(s.pits, 1 - s.turn);
      MirrorRow(Sown(s.pits, idx), 1 - s.turn);
    }
  }

  lemma MirrorHasMove(s: State)
    ensures HasMove(Mirror(s)) <==> HasMove(s)
  {
    hide Legal;
    forall h: nat | h < HOUSES_PER_SIDE
      ensures Legal(Mirror(s), h) <==> Legal(s, h)
    {
      MirrorLegal(s, h);
    }
  }

  lemma MirrorEmptyBoard()
    ensures MirrorBoard(Filled(0)) == Filled(0)
  {
  }

  lemma MirrorSweeps(r: State, player: Player)
    ensures Mirror(Finished(r)) == Finished(Mirror(r))
    ensures Mirror(Swept(r)) == Swept(Mirror(r))
    ensures Mirror(SweptTo(r, player)) == SweptTo(Mirror(r), 1 - player)
  {
    hide Row, MirrorBoard;
    MirrorEmptyBoard();
    MirrorRow(r.pits, 0);
    MirrorRow(r.pits, 1);
  }

  lemma MirrorResolved(r: State)
    ensures Mirror(Resolved(r)) == Resolved(Mirror(r))
  {
    hide HasMove, Row, MirrorBoard, Finished, Swept, SweptTo;
    MirrorSweeps(r, r.turn);
    MirrorSweeps(r, 1 - r.turn);
    MirrorHasMove(r);
    MirrorRow(r.pits, 0);
    MirrorRow(r.pits, 1);
  }

  /** One move and its mirror image have mirror-image results, or fail alike. */
  lemma MirrorApply(s: State, house: nat)
    ensures Apply(Mirror(s), house) == MirrorResult(Apply(s, house))
  {
    hide Resolved, Legal, CatchOf;
    MirrorLegal(s, house);
    if house < HOUSES_PER_SIDE {
      var idx := PitOf(s.turn, house);
      assert PitOf(1 - s.turn, house) == MirrorPit(idx) && MirrorBoard(s.pits)[MirrorPit(idx)] == s.pits[idx];
      MirrorCatch(s, house);
      assert Advanced(Mirror(s), house) == Mirror(Advanced(s, house));
      MirrorResolved(Advanced(s, house));
    }
  }

  lemma MirrorOpening(startTurn: Player)
    ensures InitialState(1 - startTurn) == Mirror(InitialState(startTurn))
  {
    assert MirrorBoard(InitialState(startTurn).pits) == InitialState(startTurn).pits;
  }

  lemma {:induction false} MirrorPlay(startTurn: Player, moves: seq<nat>)
    ensures PlayFrom(1 - startTurn, moves) == MirrorResult(PlayFrom(startTurn, moves))
  {
    hide Apply, InitialState, Mirror;
    if moves == [] {
      MirrorOpening(startTurn);
    } else {
      MirrorPlay(startTurn, moves[..|moves| - 1]);
      var before := PlayFrom(startTurn, moves[..|moves| - 1]);
      if before.Ok? { MirrorApply(before.value, moves[|moves| - 1]); }
    }
  }

  lemma MirrorBoardInjective(b: Board, c: Board)
    ensures MirrorBoard(b) == MirrorBoard(c) <==> b == c
  {
    MirrorBoardTwice(b);
    MirrorBoardTwice(c);
  }

  lemma {:induction false} MirrorVisits(startTurn: Player, moves: seq<nat>, b: Board, t: Player)
    ensures Visits(1 - startTurn, moves, MirrorBoard(b), 1 - t) == Visits(startTurn, moves, b, t)
  {
    hide PlayFrom, MirrorBoard;
    MirrorPlay(startTurn, moves);
    var here := PlayFrom(startTurn, moves);
    if here.Ok? { MirrorBoardInjective(here.value.pits, b); }
    if moves != [] { MirrorVisits(startTurn, moves[..|moves| - 1], b, t); }
  }

  lemma MirrorSwept(s: State)
    ensures Swept(Mirror(s)) == Mirror(Swept(s))
  {
    hide Row;
    MirrorRow(s.pits, 0);
    MirrorRow(s.pits, 1);
    MirrorEmptyBoard();
  }

  /** A whole game adjudicates to the mirror image when the other player starts. */
  lemma {:induction false} MirrorAdjudicate(startTurn: Player, moves: seq<nat>)
    ensures Adjudicate(1 - startTurn, moves) == MirrorResult(Adjudicate(startTurn, moves))
  {
    hide Apply, InitialState, MirrorBoard, Swept, Visits;
    if moves == [] {
      MirrorOpening(startTurn);
    } else {
      MirrorAdjudicate(startTurn, moves[..|moves| - 1]);
      var before := Adjudicate(startTurn, moves[..|moves| - 1]);
      if before.Ok? && !before.value.over {
        MirrorApply(before.value, moves[|moves| - 1]);
        var next := Apply(before.value, moves[|moves| - 1]);
        if next.Ok? {
          MirrorVisits(startTurn, moves, next.value.pits, next.value.turn);
          MirrorSwept(next.value);
        }
      }
    }
  }
}
