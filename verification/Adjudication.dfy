/** Adjudicating a whole game: the base rules plus the end of a provable cycle.
    The specification counts a position over the entire history; the program
    forgets the history at every capture, and loses nothing by it. */
module Adjudication {
  import opened Wrappers
  import opened Rules
  import opened Laws
  import opened Text
  import Engine

  // ----- position keys -----

  function JoinBoard(b: seq<nat>): string
    requires b != []
  {
    if |b| == 1 then Decimal(b[0]) else Decimal(b[0]) + [','] + JoinBoard(b[1..])
  }

  function Key(b: Board, turn: Player): string {
    JoinBoard(b) + ['|'] + Decimal(turn)
  }

  function PositionKey(s: State): string {
    Key(s.pits, s.turn)
  }

  lemma {:induction false} JoinBoardHasNoBar(b: seq<nat>)
    requires b != []
    ensures '|' !in JoinBoard(b)
  {
    DecimalIsDigits(b[0]);
    if |b| > 1 { JoinBoardHasNoBar(b[1..]); }
  }

  lemma {:induction false} JoinBoardInjective(b: seq<nat>, c: seq<nat>)
    requires b != [] && |b| == |c| && JoinBoard(b) == JoinBoard(c)
    ensures b == c
  {
    DecimalIsDigits(b[0]);
    DecimalIsDigits(c[0]);
    if |b| == 1 {
      DecimalInjective(b[0], c[0]);
    } else {
      FirstField(Decimal(b[0]), Decimal(c[0]), ',', JoinBoard(b[1..]), JoinBoard(c[1..]));
      DecimalInjective(b[0], c[0]);
      JoinBoardInjective(b[1..], c[1..]);
      assert b == [b[0]] + b[1..] && c == [c[0]] + c[1..];
    }
  }

  /** Two moments have the same key exactly when they are the same position. */
  lemma KeyIsThePosition(b: Board, t: Player, c: Board, u: Player)
    ensures Key(b, t) == Key(c, u) <==> b == c && t == u
  {
    if Key(b, t) == Key(c, u) {
      JoinBoardHasNoBar(b);
      JoinBoardHasNoBar(c);
      FirstField(JoinBoard(b), JoinBoard(c), '|', Decimal(t), Decimal(u));
      JoinBoardInjective(b, c);
      DecimalInjective(t, u);
    }
  }

  // ----- the specification -----

  function PlayFrom(startTurn: Player, moves: seq<nat>): Result<State, RuleError> {
    Play(InitialState(startTurn), moves)
  }

  /** How often the position (board, player to move) occurs over the whole line
      of play, the opening included. */
  function Visits(startTurn: Player, moves: seq<nat>, b: Board, t: Player): nat
  {
    var here := PlayFrom(startTurn, moves);
    (if here.Ok? && here.value.pits == b && here.value.turn == t then 1 else 0)
    + (if moves == [] then 0 else Visits(startTurn, moves[..|moves| - 1], b, t))
  }

  /** The result of a game: a finished game ignores what follows, and a position
      met for the third time ends it where it stands. */
  function Adjudicate(startTurn: Player, moves: seq<nat>): Result<State, RuleError> {
    if moves == [] then Ok(InitialState(startTurn))
    else
      match Adjudicate(startTurn, moves[..|moves| - 1])
      case Err(e) => Err(e)
      case Ok(t) => if t.over then Ok(t) else Judge(startTurn, moves, Apply(t, moves[|moves| - 1]))
  }

  /** The last move of `moves`, judged against the history it closes. */
  function Judge(startTurn: Player, moves: seq<nat>, next: Result<State, RuleError>): Result<State, RuleError> {
    if next.Ok? && !next.value.over
       && Visits(startTurn, moves, next.value.pits, next.value.turn) >= REPETITION_LIMIT
    then Ok(Swept(next.value))
    else next
  }

  // ----- what adjudication keeps -----

  /** While a game runs, adjudication is plain play. */
  lemma {:induction false} RunningIsPlay(startTurn: Player, moves: seq<nat>)
    requires Adjudicate(startTurn, moves).Ok? && !Adjudicate(startTurn, moves).value.over
    ensures Adjudicate(startTurn, moves) == PlayFrom(startTurn, moves)
    ensures moves != [] ==>
      var before := Adjudicate(startTurn, moves[..|moves| - 1]); before.Ok? && !before.value.over
  {
    hide Apply;
    if moves != [] { RunningIsPlay(startTurn, moves[..|moves| - 1]); }
  }

  lemma SweptIsSound(s: State)
    requires Sound(s) && !s.over
    ensures Sound(Swept(s)) && Swept(s).over && Swept(s).turn == s.turn
    ensures Swept(s).store0 >= s.store0 && Swept(s).store1 >= s.store1
  {
    hide Legal;
    BoardSpelledOut(Filled(0));
  }

  /** Every adjudicated position is sound, and the stores only grow move by move. */
  lemma {:induction false} AdjudicateKeepsSound(startTurn: Player, moves: seq<nat>)
    requires Adjudicate(startTurn, moves).Ok?
    ensures Sound(Adjudicate(startTurn, moves).value)
    ensures moves != [] ==>
      var before := Adjudicate(startTurn, moves[..|moves| - 1]); var after := Adjudicate(startTurn, moves);
      && before.Ok?
      && before.value.store0 <= after.value.store0 && before.value.store1 <= after.value.store1
  {
    hide Apply, Sound, Total, Swept;
    if moves == [] {
      InitialStateIsSound(startTurn);
    } else {
      AdjudicateKeepsSound(startTurn, moves[..|moves| - 1]);
      var t := Adjudicate(startTurn, moves[..|moves| - 1]).value;
      if !t.over {
        SoundTotal(t);
        ApplyLaw(t, moves[|moves| - 1]);
        var r := Apply(t, moves[|moves| - 1]).value;
        if !r.over { SweptIsSound(r); }
      }
    }
  }

  lemma SoundTotal(s: State)
    requires Sound(s)
    ensures Total(s) == SEEDS
  {
  }

  /** Boards only lose seeds: a position with fewer seeds than the current board
      has never been met, so a position from before a capture cannot recur. */
  lemma {:induction false} NoReturn(startTurn: Player, moves: seq<nat>, b: Board, t: Player)
    requires PlayFrom(startTurn, moves).Ok?
    requires OnBoard(b) < OnBoard(PlayFrom(startTurn, moves).value.pits)
    ensures Visits(startTurn, moves, b, t) == 0
  {
    hide Apply, Row;
    if moves != [] {
      var before := PlayFrom(startTurn, moves[..|moves| - 1]).value;
      ApplyLaw(before, moves[|moves| - 1]);
      NoReturn(startTurn, moves[..|moves| - 1], b, t);
    }
  }

  // ----- the program -----

  function CountIn(seen: map<string, nat>, key: string): nat {
    if key in seen then seen[key] else 0
  }

  /** The map holds the true whole-history count of every position that can still occur. */
  ghost predicate Remembers(seen: map<string, nat>, startTurn: Player, moves: seq<nat>, s: State) {
    forall b: Board, t: Player ::
      OnBoard(b) <= OnBoard(s.pits) ==> CountIn(seen, Key(b, t)) == Visits(startTurn, moves, b, t)
  }

  lemma RemembersOpening(startTurn: Player)
    ensures var s := InitialState(startTurn);
      Remembers(map[PositionKey(s) := 1], startTurn, [], s) && Visits(startTurn, [], s.pits, s.turn) == 1
  {
    hide Key, InitialState;
    var s := InitialState(startTurn);
    forall b: Board, t: Player
      ensures CountIn(map[PositionKey(s) := 1], Key(b, t)) == Visits(startTurn, [], b, t)
    {
      KeyIsThePosition(b, t, s.pits, s.turn);
    }
  }

  /** Counting one more position keeps the map true. */
  lemma RemembersQuietMove(seen: map<string, nat>, startTurn: Player, moves: seq<nat>, s: State, r: State)
    requires moves != [] && PlayFrom(startTurn, moves) == Ok(r)
    requires Remembers(seen, startTurn, moves[..|moves| - 1], s) && OnBoard(r.pits) == OnBoard(s.pits)
    ensures var count := CountIn(seen, PositionKey(r)) + 1;
      && count == Visits(startTurn, moves, r.pits, r.turn)
      && Remembers(seen[PositionKey(r) := count], startTurn, moves, r)
  {
    hide Play, Row;
    var count := CountIn(seen, PositionKey(r)) + 1;
    forall b: Board, t: Player | OnBoard(b) <= OnBoard(r.pits)
      ensures CountIn(seen[PositionKey(r) := count], Key(b, t)) == Visits(startTurn, moves, b, t)
    {
      KeyIsThePosition(b, t, r.pits, r.turn);
    }
  }

  /** So does forgetting everything at a capture. */
  lemma RemembersCapture(startTurn: Player, moves: seq<nat>, s: State, r: State)
    requires moves != [] && PlayFrom(startTurn, moves) == Ok(r)
    requires PlayFrom(startTurn, moves[..|moves| - 1]) == Ok(s) && OnBoard(r.pits) < OnBoard(s.pits)
    ensures Visits(startTurn, moves, r.pits, r.turn) == 1
    ensures Remembers(map[PositionKey(r) := 1], startTurn, moves, r)
  {
    hide Play, Row;
    forall b: Board, t: Player | OnBoard(b) <= OnBoard(r.pits)
      ensures CountIn(map[PositionKey(r) := 1], Key(b, t)) == Visits(startTurn, moves, b, t)
      ensures Visits(startTurn, moves[..|moves| - 1], b, t) == 0
    {
      NoReturn(startTurn, moves[..|moves| - 1], b, t);
      KeyIsThePosition(b, t, r.pits, r.turn);
    }
  }

  /** Once a prefix is decided, or rejected, nothing after it matters. */
  lemma {:induction false} DecidedPrefix(startTurn: Player, moves: seq<nat>, k: nat)
    requires k <= |moves|
    requires var early := Adjudicate(startTurn, moves[..k]); early.Ok? ==> early.value.over
    ensures Adjudicate(startTurn, moves) == Adjudicate(startTurn, moves[..k])
  {
    hide Apply;
    if k < |moves| {
      assert moves[..|moves| - 1][..k] == moves[..k];
      DecidedPrefix(startTurn, moves[..|moves| - 1], k);
    } else {
      assert moves[..k] == moves;
    }
  }

  /** A base move shows a capture in the stores exactly when the board lost seeds. */
  lemma StoresShowCaptures(s: State, house: nat)
    requires Apply(s, house).Ok? && !Apply(s, house).value.over
    ensures var r := Apply(s, house).value;
      && OnBoard(r.pits) <= OnBoard(s.pits)
      && (r.store0 + r.store1 > s.store0 + s.store1 <==> OnBoard(r.pits) < OnBoard(s.pits))
  {
    hide Apply, Row;
    ApplyLaw(s, house);
  }

  /** One turn of the loop, in terms of the specification. */
  lemma NextMove(startTurn: Player, moves: seq<nat>, i: nat, s: State)
    requires i < |moves| && Adjudicate(startTurn, moves[..i]) == Ok(s) && !s.over
    ensures Adjudicate(startTurn, moves[..i + 1]) == Judge(startTurn, moves[..i + 1], Apply(s, moves[i]))
    ensures PlayFrom(startTurn, moves[..i]) == Ok(s)
    ensures PlayFrom(startTurn, moves[..i + 1]) == Apply(s, moves[i])
    ensures moves[..i + 1][..i] == moves[..i]
  {
    hide Apply, Judge;
    assert moves[..i + 1][..|moves[..i + 1]| - 1] == moves[..i];
    RunningIsPlay(startTurn, moves[..i]);
  }

  method AdjudicateGame(moves: seq<nat>, startTurn: Player) returns (result: Result<State, RuleError>)
    ensures result == Adjudicate(startTurn, moves)
  {
    hide Apply, Visits, Play, Remembers, Row, Key;
    var s := InitialState(startTurn);
    var seen: map<string, nat> := map[PositionKey(s) := 1];
    RemembersOpening(startTurn);
    for i := 0 to |moves|
      invariant Adjudicate(startTurn, moves[..i]) == Ok(s) && !s.over
      invariant Remembers(seen, startTurn, moves[..i], s)
    {
      NextMove(startTurn, moves, i, s);
      var before := s.store0 + s.store1;
      ghost var was := s;
      var next := Engine.ApplyMove(s, moves[i]);
      if next.Err? || next.value.over {
        DecidedPrefix(startTurn, moves, i + 1);
        return next;
      }
      StoresShowCaptures(s, moves[i]);
      s := next.value;
      if s.store0 + s.store1 > before {
        RemembersCapture(startTurn, moves[..i + 1], was, s);
        seen := map[PositionKey(s) := 1];
        continue;
      }
      RemembersQuietMove(seen, startTurn, moves[..i + 1], was, s);
      var key := PositionKey(s);
      var count := CountIn(seen, key) + 1;
      seen := seen[key := count];
      if count >= REPETITION_LIMIT {
        DecidedPrefix(startTurn, moves, i + 1);
        return Ok(Swept(s));
      }
    }
    assert moves[..|moves|] == moves;
    return Ok(s);
  }

  /** A finished game reads as a capture ending exactly when its last move gave a
      majority, and as swept exactly for starvation, the no-capture limit and the
      third occurrence of a position. */
  lemma EndKindOfAnAdjudicatedGame(startTurn: Player, moves: seq<nat>, t: State)
    requires moves != [] && Adjudicate(startTurn, moves[..|moves| - 1]) == Ok(t) && !t.over
    requires Adjudicate(startTurn, moves).Ok?
    ensures var house := moves[|moves| - 1]; var s := Adjudicate(startTurn, moves).value;
      && Apply(t, house).Ok? && house < HOUSES_PER_SIDE
      && var r := Apply(t, house).value; var e := EndingOf(Advanced(t, house));
         && (EndKindOf(s) == Some(OnCapture) <==> e.ByMajority?)
         && (EndKindOf(s) == Some(OnSweep) <==>
              e.ByStarvation? || e.ByNoCapture?
              || (e.Running? && Visits(startTurn, moves, r.pits, r.turn) >= REPETITION_LIMIT))
  {
    hide Advanced, EndingOf, Visits, Resolved, Legal, Row;
    var house := moves[|moves| - 1];
    EndKindTellsTheEnding(t, house);
  }

  /** A game that has run so far goes on past a move that does not end it by the
      rules, exactly until that move makes some position stand for the third time. */
  lemma ThirdTimeEndsIff(startTurn: Player, moves: seq<nat>, t: State)
    requires moves != [] && Adjudicate(startTurn, moves[..|moves| - 1]) == Ok(t) && !t.over
    requires Apply(t, moves[|moves| - 1]).Ok? && !Apply(t, moves[|moves| - 1]).value.over
    ensures var r := Apply(t, moves[|moves| - 1]).value; var judged := Adjudicate(startTurn, moves);
      && judged.Ok?
      && (judged.value.over <==> Visits(startTurn, moves, r.pits, r.turn) >= 3)
      && (!judged.value.over ==> judged.value == r)
  {
    hide Apply, Visits;
  }

  /** The line of play leads to this board with this player to move. */
  ghost predicate Reaches(startTurn: Player, moves: seq<nat>, b: Board, t: Player) {
    var here := PlayFrom(startTurn, moves);
    here.Ok? && here.value.pits == b && here.value.turn == t
  }

  /** The plies after which the position stood on the board, 0 being the opening. */
  ghost function PliesAt(startTurn: Player, moves: seq<nat>, b: Board, t: Player): set<nat> {
    set k: nat | k <= |moves| && Reaches(startTurn, moves[..k], b, t)
  }

  lemma PliesUnfold(startTurn: Player, moves: seq<nat>, b: Board, t: Player)
    ensures var last := if Reaches(startTurn, moves, b, t) then {|moves|} else {};
      var earlier := if moves == [] then {} else PliesAt(startTurn, moves[..|moves| - 1], b, t);
      PliesAt(startTurn, moves, b, t) == earlier + last && |moves| !in earlier
  {
    hide Reaches;
    assert moves[..|moves|] == moves;
    if moves != [] {
      assert forall k: nat :: k < |moves| ==> moves[..|moves| - 1][..k] == moves[..k];
    }
  }

  lemma {:induction false} VisitsCountPlies(startTurn: Player, moves: seq<nat>, b: Board, t: Player)
    ensures Visits(startTurn, moves, b, t) == |PliesAt(startTurn, moves, b, t)|
  {
    hide Play, InitialState, PliesAt;
    PliesUnfold(startTurn, moves, b, t);
    if moves != [] { VisitsCountPlies(startTurn, moves[..|moves| - 1], b, t); }
  }

  lemma {:induction false} NoMoreIn(part: set<nat>, whole: set<nat>)
    requires part <= whole
    ensures |part| <= |whole|
  {
    if part != {} {
      var x :| x in part;
      NoMoreIn(part - {x}, whole - {x});
    }
  }

  lemma ThreeIff(ks: set<nat>, n: nat)
    requires n in ks && forall k :: k in ks ==> k <= n
    ensures |ks| >= 3 <==> exists i, j :: i in ks && j in ks && i < j < n
  {
    var rest := ks - {n};
    if |ks| >= 3 {
      assert |rest| >= 2;
      var i :| i in rest;
      assert |rest - {i}| >= 1;
      var j :| j in rest - {i};
      assert i < j < n || j < i < n;
    }
    if i, j :| i in ks && j in ks && i < j < n {
      NoMoreIn({i, j, n}, ks);
    }
  }

  /** Threefold repetition as players know it: a move that does not end the game by
      the rules ends it exactly when the same board, with the same player to move, has
      stood at two different earlier plies. */
  lemma ThreefoldEndsIff(startTurn: Player, moves: seq<nat>, t: State)
    requires moves != [] && Adjudicate(startTurn, moves[..|moves| - 1]) == Ok(t) && !t.over
    requires Apply(t, moves[|moves| - 1]).Ok? && !Apply(t, moves[|moves| - 1]).value.over
    ensures var r := Apply(t, moves[|moves| - 1]).value; var plies := PliesAt(startTurn, moves, r.pits, r.turn);
      && Adjudicate(startTurn, moves).Ok?
      && (Adjudicate(startTurn, moves).value.over <==> exists i, j :: i in plies && j in plies && i < j < |moves|)
  {
    hide Apply, Visits, Play, Adjudicate;
    var n := |moves|;
    var r := Apply(t, moves[n - 1]).value;
    ThirdTimeEndsIff(startTurn, moves, t);
    VisitsCountPlies(startTurn, moves, r.pits, r.turn);
    NextMove(startTurn, moves, n - 1, t);
    assert moves[..n] == moves;
    assert Reaches(startTurn, moves, r.pits, r.turn);
    ThreeIff(PliesAt(startTurn, moves, r.pits, r.turn), n);
  }

  /** While a game runs, no position at all has been met three times. */
  lemma {:induction false} NothingThriceWhileRunning(startTurn: Player, moves: seq<nat>, b: Board, t: Player)
    requires Adjudicate(startTurn, moves).Ok? && !Adjudicate(startTurn, moves).value.over
    ensures Visits(startTurn, moves, b, t) <= 2
  {
    hide Apply;
    RunningIsPlay(startTurn, moves);
    if moves != [] {
      NothingThriceWhileRunning(startTurn, moves[..|moves| - 1], b, t);
      RunningIsPlay(startTurn, moves[..|moves| - 1]);
    }
  }

  /** However a game is adjudicated, it stays in bounds: a store of 25 has won, and
      nobody goes on after 40 moves without a capture. */
  lemma {:induction false} AdjudicateStaysInBounds(startTurn: Player, moves: seq<nat>)
    requires Adjudicate(startTurn, moves).Ok?
    ensures InBounds(Adjudicate(startTurn, moves).value)
  {
    hide Apply, Row, Visits;
    if moves != [] {
      AdjudicateStaysInBounds(startTurn, moves[..|moves| - 1]);
      var t := Adjudicate(startTurn, moves[..|moves| - 1]).value;
      if !t.over { MoveStaysInBounds(t, moves[|moves| - 1]); }
    }
  }

  /** How often the current position has been met; 0 once the game is over. */
  function Repetitions(startTurn: Player, moves: seq<nat>): Result<nat, RuleError> {
    match Adjudicate(startTurn, moves)
    case Err(e) => Err(e)
    case Ok(s) => Ok(if s.over then 0 else Visits(startTurn, moves, s.pits, s.turn))
  }

  /** The warning count is 0 exactly when the game is over, and never reaches the
      limit: the third occurrence ends the game. */
  lemma RepetitionsAreZeroIffOver(startTurn: Player, moves: seq<nat>, n: nat)
    requires Repetitions(startTurn, moves) == Ok(n)
    ensures n < REPETITION_LIMIT && Adjudicate(startTurn, moves).Ok?
    ensures n == 0 <==> Adjudicate(startTurn, moves).value.over
  {
    hide Apply;
    var s := Adjudicate(startTurn, moves).value;
    if !s.over { RunningIsPlay(startTurn, moves); }
  }

  method RepetitionCount(moves: seq<nat>, startTurn: Player) returns (result: Result<nat, RuleError>)
    ensures result == Repetitions(startTurn, moves)
  {
    hide Apply, Visits, Play, Remembers, Row, Key;
    var s := InitialState(startTurn);
    var seen: map<string, nat> := map[PositionKey(s) := 1];
    RemembersOpening(startTurn);
    var current: nat := 1;
    for i := 0 to |moves|
      invariant Adjudicate(startTurn, moves[..i]) == Ok(s) && !s.over
      invariant Remembers(seen, startTurn, moves[..i], s)
      invariant current == Visits(startTurn, moves[..i], s.pits, s.turn)
    {
      NextMove(startTurn, moves, i, s);
      var before := s.store0 + s.store1;
      ghost var was := s;
      var next := Engine.ApplyMove(s, moves[i]);
      if next.Err? {
        DecidedPrefix(startTurn, moves, i + 1);
        return Err(next.error);
      }
      if next.value.over {
        DecidedPrefix(startTurn, moves, i + 1);
        return Ok(0);
      }
      StoresShowCaptures(s, moves[i]);
      s := next.value;
      if s.store0 + s.store1 > before {
        RemembersCapture(startTurn, moves[..i + 1], was, s);
        seen := map[PositionKey(s) := 1];
        current := 1;
        continue;
      }
      RemembersQuietMove(seen, startTurn, moves[..i + 1], was, s);
      var key := PositionKey(s);
      current := CountIn(seen, key) + 1;
      seen := seen[key := current];
      if current >= REPETITION_LIMIT {
        DecidedPrefix(startTurn, moves, i + 1);
        return Ok(0);
      }
    }
    assert moves[..|moves|] == moves;
    return Ok(current);
  }
}
