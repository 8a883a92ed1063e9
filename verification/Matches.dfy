/** A live match: signed moves, resignation, forfeit and agreed draws over the
    engine, and the snapshot a match is rebuilt from after a restart.  Each
    method is one atomic step; clocks are not modelled. */
module Matches {
  import opened Wrappers
  import opened Rules
  import opened Laws
  import opened Adjudication
  import opened Text
  import Engine

  type Signature = string

  datatype Context = Context(chainId: nat, verifier: Address)

  /** What a session key signs.  Different messages have different digests. */
  datatype Digest =
    | MoveDigest(matchId: nat, ply: nat, house: nat, ctx: Context)
    | ResignDigest(matchId: nat, ply: nat, ctx: Context)
    | DrawOfferDigest(matchId: nat, ply: nat, ctx: Context)

  /** Address recovery, about which nothing is assumed. */
  type Recovery = (Digest, Signature) -> Address

  datatype Config = Config(
    matchId: nat, chainId: nat, verifier: Address,
    session0: Address, session1: Address, startTurn: Player)
  {
    function Session(player: Player): Address {
      if player == 0 then session0 else session1
    }

    function Ctx(): Context {
      Context(chainId, verifier)
    }
  }

  datatype MatchError =
    | MatchOver
    | NotYourTurn
    | BadSignature
    | NoPendingOffer
    | Illegal(rule: RuleError)

  /** The fields of a match, as a value. */
  datatype View = View(
    cfg: Config, state: State, moves: seq<nat>, sigs: seq<Signature>, drawOffer: Option<Player>)

  datatype Command =
    | SubmitMove(player: Player, house: nat, sig: Signature)
    | Resign(player: Player, sig: Signature)
    | Forfeit(player: Player)
    | OfferDraw(player: Player, sig: Signature)
    | AcceptDraw(player: Player, sig: Signature)

  /** The match after a command, and what the caller is told. */
  datatype Effect = Effect(view: View, reply: Result<State, MatchError>)

  function NewView(cfg: Config): View {
    View(cfg, InitialState(cfg.startTurn), [], [], None)
  }

  predicate SignedBy(recover: Recovery, cfg: Config, player: Player, digest: Digest, sig: Signature) {
    Lower(recover(digest, sig)) == Lower(cfg.Session(player))
  }

  function Decided(s: State, winner: Outcome): State {
    s.(over := true, winner := winner)
  }

  function Refuse(v: View, e: MatchError): Effect {
    Effect(v, Err(e))
  }

  function End(v: View, winner: Outcome, offer: Option<Player>): Effect {
    var state := Decided(v.state, winner);
    Effect(v.(state := state, drawOffer := offer), Ok(state))
  }

  function Step(recover: Recovery, v: View, c: Command): Effect {
    var cfg := v.cfg;
    var ply := |v.moves|;
    if v.state.over then Refuse(v, MatchOver)
    else
      match c
      case SubmitMove(player, house, sig) =>
        if player != v.state.turn then Refuse(v, NotYourTurn)
        else if !SignedBy(recover, cfg, player, MoveDigest(cfg.matchId, ply, house, cfg.Ctx()), sig) then
          Refuse(v, BadSignature)
        else if Apply(v.state, house).Err? then Refuse(v, Illegal(Apply(v.state, house).error))
        else
          var played := v.(moves := v.moves + [house], sigs := v.sigs + [sig]);
          var next := Adjudicate(cfg.startTurn, played.moves);
          if next.Err? then Effect(played, Err(Illegal(next.error)))
          else Effect(played.(state := next.value), Ok(next.value))
      case Resign(player, sig) =>
        if !SignedBy(recover, cfg, player, ResignDigest(cfg.matchId, ply, cfg.Ctx()), sig) then
          Refuse(v, BadSignature)
        else End(v, 1 - player, v.drawOffer)
      case Forfeit(player) =>
        End(v, 1 - player, v.drawOffer)
      case OfferDraw(player, sig) =>
        if !SignedBy(recover, cfg, player, DrawOfferDigest(cfg.matchId, ply, cfg.Ctx()), sig) then
          Refuse(v, BadSignature)
        else Effect(v.(drawOffer := Some(player)), Ok(v.state))
      case AcceptDraw(player, sig) =>
        if v.drawOffer == None || v.drawOffer == Some(player) then Refuse(v, NoPendingOffer)
        else if !SignedBy(recover, cfg, player, DrawOfferDigest(cfg.matchId, ply, cfg.Ctx()), sig) then
          Refuse(v, BadSignature)
        else End(v, DRAW, None)
  }

  function Run(recover: Recovery, v: View, cs: seq<Command>): View {
    if cs == [] then v
    else Step(recover, Run(recover, v, cs[..|cs| - 1]), cs[|cs| - 1]).view
  }

  // ----- what each command does to a running match -----

  /** The signature over `digest` recovers to the player's session key, letter case aside. */
  predicate RecoversTo(recover: Recovery, cfg: Config, player: Player, digest: Digest, sig: Signature) {
    Lower(recover(digest, sig)) == Lower(if player == 0 then cfg.session0 else cfg.session1)
  }

  /** A resignation ends the match for the other player exactly when the resigner
      signed it for this ply; it may come on either side's turn. */
  lemma ResignationEndsIff(recover: Recovery, v: View, player: Player, sig: Signature)
    requires !v.state.over
    ensures var e := Step(recover, v, Resign(player, sig)); var ctx := Context(v.cfg.chainId, v.cfg.verifier);
      var signed := RecoversTo(recover, v.cfg, player, ResignDigest(v.cfg.matchId, |v.moves|, ctx), sig);
      && (e.view.state.over <==> signed) && (e.reply.Ok? <==> signed)
      && (if signed then
            && e.reply == Ok(e.view.state) && e.view.state.winner == 1 - player
            && e.view == v.(state := v.state.(over := true, winner := 1 - player))
          else e == Effect(v, Err(BadSignature)))
  {
  }

  /** A forfeit always ends the match, for the other player. */
  lemma ForfeitEnds(recover: Recovery, v: View, player: Player)
    requires !v.state.over
    ensures var e := Step(recover, v, Forfeit(player));
      && e.view.state.over && e.view.state.winner == 1 - player && e.reply == Ok(e.view.state)
      && e.view == v.(state := v.state.(over := true, winner := 1 - player))
  {
  }

  /** An offer stands exactly when it is signed for this ply, and changes nothing else. */
  lemma OfferStandsIff(recover: Recovery, v: View, player: Player, sig: Signature)
    requires !v.state.over
    ensures var e := Step(recover, v, OfferDraw(player, sig)); var ctx := Context(v.cfg.chainId, v.cfg.verifier);
      if RecoversTo(recover, v.cfg, player, DrawOfferDigest(v.cfg.matchId, |v.moves|, ctx), sig)
      then e == Effect(v.(drawOffer := Some(player)), Ok(v.state))
      else e == Effect(v, Err(BadSignature))
  {
  }

  /** An acceptance draws the match exactly when the other side's offer stands and
      the acceptance is signed for this ply. */
  lemma AcceptanceDrawsIff(recover: Recovery, v: View, player: Player, sig: Signature)
    requires !v.state.over
    ensures var e := Step(recover, v, AcceptDraw(player, sig)); var ctx := Context(v.cfg.chainId, v.cfg.verifier);
      var offered := v.drawOffer == Some(1 - player);
      var signed := RecoversTo(recover, v.cfg, player, DrawOfferDigest(v.cfg.matchId, |v.moves|, ctx), sig);
      && (e.view.state.over <==> offered && signed)
      && (if !offered then e == Effect(v, Err(NoPendingOffer))
          else if !signed then e == Effect(v, Err(BadSignature))
          else e.view == v.(state := v.state.(over := true, winner := 2), drawOffer := None)
               && e.reply == Ok(e.view.state))
  {
  }

  /** A move is appended exactly when it is the mover's turn, signed for this ply and
      house, and legal; the refusals come in that order and change nothing.  The
      position is then the one the rules give, unless the repetition rule sweeps it. */
  lemma MoveIsPlayedIff(recover: Recovery, v: View, player: Player, house: nat, sig: Signature)
    requires Faithful(v) && !v.state.over
    ensures var e := Step(recover, v, SubmitMove(player, house, sig));
      var ctx := Context(v.cfg.chainId, v.cfg.verifier);
      var signed := RecoversTo(recover, v.cfg, player, MoveDigest(v.cfg.matchId, |v.moves|, house, ctx), sig);
      if player != v.state.turn then e == Effect(v, Err(NotYourTurn))
      else if !signed then e == Effect(v, Err(BadSignature))
      else if !Legal(v.state, house) then
        Apply(v.state, house).Err? && e == Effect(v, Err(Illegal(Apply(v.state, house).error)))
      else
        && e.reply == Ok(e.view.state)
        && e.view == v.(moves := v.moves + [house], sigs := v.sigs + [sig], state := e.view.state)
        && Apply(v.state, house).Ok?
        && (e.view.state == Apply(v.state, house).value || e.view.state == Swept(Apply(v.state, house).value))
  {
    hide Adjudicate, Accepted, Legal, Apply, Visits, Swept;
    TurnOfRunning(v);
    ApplyIsLegal(v.state, house);
    if Apply(v.state, house).Ok? {
      AdjudicateAppends(v.cfg.startTurn, v.moves, house);
    }
  }

  /** A draw offered and accepted on the same ply, each signed by its side, is a draw. */
  lemma OfferedAndAccepted(recover: Recovery, v: View, player: Player, offer: Signature, acceptance: Signature)
    requires !v.state.over
    requires var d := DrawOfferDigest(v.cfg.matchId, |v.moves|, Context(v.cfg.chainId, v.cfg.verifier));
      RecoversTo(recover, v.cfg, player, d, offer) && RecoversTo(recover, v.cfg, 1 - player, d, acceptance)
    ensures var end := Run(recover, v, [OfferDraw(player, offer), AcceptDraw(1 - player, acceptance)]);
      end.state.over && end.state.winner == 2 && end.moves == v.moves
  {
    hide Step;
    var cs := [OfferDraw(player, offer), AcceptDraw(1 - player, acceptance)];
    assert cs[..1] == [cs[0]] && cs[..1][..0] == [];
    assert Run(recover, v, []) == v;
    OfferStandsIff(recover, v, player, offer);
    AcceptanceDrawsIff(recover, v.(drawOffer := Some(player)), 1 - player, acceptance);
  }

  // ----- what every run keeps -----

  /** The moves are a game that was still running before each of them. */
  ghost predicate Accepted(startTurn: Player, moves: seq<nat>) {
    && Adjudicate(startTurn, moves).Ok?
    && forall k :: 0 <= k < |moves| ==>
         var before := Adjudicate(startTurn, moves[..k]); before.Ok? && !before.value.over
  }

  /** The cached state is the adjudication of the moves, except that resignation,
      forfeit and an agreed draw decide a game that was running. */
  ghost predicate Faithful(v: View) {
    && |v.sigs| == |v.moves|
    && Accepted(v.cfg.startTurn, v.moves)
    && var base := Adjudicate(v.cfg.startTurn, v.moves).value;
       v.state == base || (!base.over && v.state == Decided(base, v.state.winner))
  }

  /** Whose move ply `i` is. */
  function Mover(cfg: Config, i: nat): Player {
    if i % 2 == 0 then cfg.startTurn else 1 - cfg.startTurn
  }

  /** Every signature is over its own ply and house, by the player who moved. */
  ghost predicate Attested(recover: Recovery, v: View) {
    && |v.sigs| == |v.moves|
    && forall i :: 0 <= i < |v.moves| ==>
         SignedBy(recover, v.cfg, Mover(v.cfg, i),
                  MoveDigest(v.cfg.matchId, i, v.moves[i], v.cfg.Ctx()), v.sigs[i])
  }

  /** While a match runs, the turn alternates from the start turn. */
  lemma TurnOfRunning(v: View)
    requires Faithful(v) && !v.state.over
    ensures Adjudicate(v.cfg.startTurn, v.moves) == Ok(v.state)
    ensures v.state.turn == Mover(v.cfg, |v.moves|)
  {
    hide Adjudicate, Play, Sound;
    RunningIsPlay(v.cfg.startTurn, v.moves);
    InitialStateIsSound(v.cfg.startTurn);
    PlayKeepsSound(InitialState(v.cfg.startTurn), v.moves);
  }

  /** A legal move on a running match is never refused by the adjudication that follows. */
  lemma AdjudicateAppends(startTurn: Player, moves: seq<nat>, house: nat)
    requires Adjudicate(startTurn, moves).Ok? && !Adjudicate(startTurn, moves).value.over
    ensures Adjudicate(startTurn, moves + [house])
      == Judge(startTurn, moves + [house], Apply(Adjudicate(startTurn, moves).value, house))
  {
    hide Apply, Judge;
    assert (moves + [house])[..|moves|] == moves;
  }

  lemma AcceptedAppends(startTurn: Player, moves: seq<nat>, house: nat)
    requires Accepted(startTurn, moves) && !Adjudicate(startTurn, moves).value.over
    requires Apply(Adjudicate(startTurn, moves).value, house).Ok?
    ensures Accepted(startTurn, moves + [house])
  {
    hide Apply, Adjudicate;
    AdjudicateAppends(startTurn, moves, house);
    var longer := moves + [house];
    forall k | 0 <= k < |longer|
      ensures Adjudicate(startTurn, longer[..k]).Ok? && !Adjudicate(startTurn, longer[..k]).value.over
    {
      assert longer[..k] == moves[..k];
      assert moves[..|moves|] == moves;
    }
  }

  lemma StepKeepsFaithful(recover: Recovery, v: View, c: Command)
    requires Faithful(v)
    ensures Faithful(Step(recover, v, c).view)
    ensures Step(recover, v, c).view.cfg == v.cfg
    ensures Step(recover, v, c).reply.Err? ==> Step(recover, v, c).view == v
  {
    hide Apply, Adjudicate, Judge, SignedBy, Accepted;
    if !v.state.over {
      TurnOfRunning(v);
      if c.SubmitMove? && Apply(v.state, c.house).Ok? {
        AcceptedGame(v);
        AdjudicateAppends(v.cfg.startTurn, v.moves, c.house);
        JudgeAccepts(v.cfg.startTurn, v.moves + [c.house], v.state, c.house);
        AcceptedAppends(v.cfg.startTurn, v.moves, c.house);
      }
    }
  }

  lemma StepKeepsAttested(recover: Recovery, v: View, c: Command)
    requires Faithful(v) && Attested(recover, v)
    ensures Attested(recover, Step(recover, v, c).view)
  {
    hide Apply, Adjudicate, SignedBy;
    if !v.state.over { TurnOfRunning(v); }
  }

  lemma AcceptedGame(v: View)
    requires Faithful(v)
    ensures Accepted(v.cfg.startTurn, v.moves)
  {
  }

  lemma JudgeAccepts(startTurn: Player, moves: seq<nat>, s: State, house: nat)
    requires Apply(s, house).Ok?
    ensures Judge(startTurn, moves, Apply(s, house)).Ok?
  {
  }

  /** Over every run of a match, the cached state is the adjudicated history and
      every signature is the mover's, over that very ply. */
  lemma {:induction false} RunKeeps(recover: Recovery, cfg: Config, cs: seq<Command>)
    ensures var v := Run(recover, NewView(cfg), cs);
      Faithful(v) && Attested(recover, v) && v.cfg == cfg
  {
    hide Step, Faithful, Attested;
    if cs == [] {
      NewViewKeeps(recover, cfg);
    } else {
      RunKeeps(recover, cfg, cs[..|cs| - 1]);
      StepKeepsFaithful(recover, Run(recover, NewView(cfg), cs[..|cs| - 1]), cs[|cs| - 1]);
      StepKeepsAttested(recover, Run(recover, NewView(cfg), cs[..|cs| - 1]), cs[|cs| - 1]);
    }
  }

  lemma NewViewKeeps(recover: Recovery, cfg: Config)
    ensures Faithful(NewView(cfg)) && Attested(recover, NewView(cfg))
  {
  }

  /** Once a match is over, every command is refused and nothing changes. */
  lemma {:induction false} EndingsAreFinal(recover: Recovery, v: View, cs: seq<Command>)
    requires v.state.over
    ensures Run(recover, v, cs) == v
    ensures forall c :: Step(recover, v, c) == Refuse(v, MatchOver)
  {
    if cs != [] { EndingsAreFinal(recover, v, cs[..|cs| - 1]); }
  }

  // ----- who can end a match -----

  /** Command `k` offers a draw for `player`, signed for the ply it was made on. */
  ghost predicate OffersDraw(recover: Recovery, cfg: Config, cs: seq<Command>, k: nat, player: Player)
    requires k < |cs|
  {
    var before := Run(recover, NewView(cfg), cs[..k]);
    && cs[k].OfferDraw? && cs[k].player == player
    && SignedBy(recover, cfg, player, DrawOfferDigest(cfg.matchId, |before.moves|, cfg.Ctx()), cs[k].sig)
  }

  ghost predicate OfferedBefore(recover: Recovery, cfg: Config, cs: seq<Command>, k: nat, player: Player)
    requires k < |cs|
  {
    exists j: nat :: j < k && OffersDraw(recover, cfg, cs, j, player)
  }

  /** A draw offer on the table was made, and signed, by the player it stands for. */
  lemma {:induction false} StandingOfferWasSigned(recover: Recovery, cfg: Config, cs: seq<Command>) returns (k: nat)
    ensures var v := Run(recover, NewView(cfg), cs);
      v.drawOffer.Some? ==> k < |cs| && OffersDraw(recover, cfg, cs, k, v.drawOffer.value)
  {
    hide Apply, Adjudicate, SignedBy;
    k := 0;
    if cs != [] {
      var n := |cs| - 1;
      var front := cs[..n];
      var before := Run(recover, NewView(cfg), front);
      RunKeepsConfig(recover, cfg, front);
      var j := StandingOfferWasSigned(recover, cfg, front);
      if !before.state.over && cs[n].OfferDraw? && Run(recover, NewView(cfg), cs) != before {
        k := n;
      } else if before.drawOffer.Some? {
        k := j;
        assert cs[..k] == front[..k];
      }
    }
  }

  lemma RunKeepsConfig(recover: Recovery, cfg: Config, cs: seq<Command>)
    ensures Run(recover, NewView(cfg), cs).cfg == cfg
  {
    hide Run, Faithful, Attested;
    RunKeeps(recover, cfg, cs);
  }

  /** The command takes a running match to its end, and whoever loses or agrees by
      it signed: a move ends it by the rules, a resignation for the one who signed
      it, an acceptance in a draw.  A forfeit is the server's own verdict. */
  ghost predicate Concludes(recover: Recovery, before: View, after: View, c: Command) {
    var cfg, ply := before.cfg, |before.moves|;
    && !before.state.over && after.state.over
    && match c
       case SubmitMove(player, house, sig) =>
         Adjudicate(cfg.startTurn, after.moves) == Ok(after.state)
       case Resign(player, sig) =>
         && after.state.winner == 1 - player
         && SignedBy(recover, cfg, player, ResignDigest(cfg.matchId, ply, cfg.Ctx()), sig)
       case Forfeit(player) =>
         after.state.winner == 1 - player
       case OfferDraw(_, _) => false
       case AcceptDraw(player, sig) =>
         && after.state.winner == DRAW && before.drawOffer == Some(1 - player)
         && SignedBy(recover, cfg, player, DrawOfferDigest(cfg.matchId, ply, cfg.Ctx()), sig)
  }

  lemma EndingStep(recover: Recovery, v: View, c: Command)
    requires !v.state.over && Step(recover, v, c).view.state.over
    ensures Concludes(recover, v, Step(recover, v, c).view, c)
  {
    hide Apply, Adjudicate, SignedBy;
  }

  /** Command `k` ended the match; a draw by acceptance was offered, and signed, by
      the other player before. */
  ghost predicate EndedBy(recover: Recovery, cfg: Config, cs: seq<Command>, k: nat)
    requires k < |cs|
  {
    && Concludes(recover, Run(recover, NewView(cfg), cs[..k]), Run(recover, NewView(cfg), cs[..k + 1]), cs[k])
    && (cs[k].AcceptDraw? ==> OfferedBefore(recover, cfg, cs, k, 1 - cs[k].player))
  }

  /** Every finished match was ended by one authorised command, and has not
      changed since. */
  lemma {:induction false} EveryEndingIsAuthorised(recover: Recovery, cfg: Config, cs: seq<Command>) returns (k: nat)
    ensures Run(recover, NewView(cfg), cs).state.over ==>
      && k < |cs|
      && EndedBy(recover, cfg, cs, k)
      && Run(recover, NewView(cfg), cs[..k + 1]) == Run(recover, NewView(cfg), cs)
  {
    hide Step, Adjudicate, SignedBy, InitialState, EndedBy;
    k := 0;
    if cs == [] {
      OpeningRuns(cfg);
    } else {
      var n := |cs| - 1;
      var front := cs[..n];
      var before := Run(recover, NewView(cfg), front);
      assert cs == front + [cs[n]] && cs[..n + 1] == cs;
      if before.state.over {
        k := EveryEndingIsAuthorised(recover, cfg, front);
        EndingCarriesOver(recover, cfg, front, cs[n], k);
        EndingsAreFinal(recover, before, []);
        assert Step(recover, before, cs[n]).view == before;
      } else if Run(recover, NewView(cfg), cs).state.over {
        k := n;
        EndedNow(recover, cfg, front, cs[n]);
      }
    }
  }

  lemma EndedNow(recover: Recovery, cfg: Config, front: seq<Command>, c: Command)
    requires !Run(recover, NewView(cfg), front).state.over
    requires Step(recover, Run(recover, NewView(cfg), front), c).view.state.over
    ensures EndedBy(recover, cfg, front + [c], |front|)
  {
    hide Step, Concludes, NewView, OffersDraw;
    var cs := front + [c];
    var before := Run(recover, NewView(cfg), front);
    assert cs[..|front|] == front && cs[..|front| + 1] == cs;
    assert Run(recover, NewView(cfg), cs) == Step(recover, before, c).view;
    hide Run;
    EndingStep(recover, before, c);
    var j := StandingOfferWasSigned(recover, cfg, front);
    if c.AcceptDraw? {
      AcceptanceNeedsAnOffer(recover, before, c);
      OfferCarriesOver(recover, cfg, front, c, j, 1 - c.player);
    }
  }

  lemma AcceptanceNeedsAnOffer(recover: Recovery, v: View, c: Command)
    requires c.AcceptDraw? && !v.state.over && Step(recover, v, c).view.state.over
    ensures v.drawOffer == Some(1 - c.player)
  {
    hide SignedBy;
  }

  lemma OfferCarriesOver(recover: Recovery, cfg: Config, front: seq<Command>, c: Command, j: nat, player: Player)
    requires j < |front|
    ensures OffersDraw(recover, cfg, front + [c], j, player) <==> OffersDraw(recover, cfg, front, j, player)
  {
    hide Run, SignedBy;
    assert (front + [c])[..j] == front[..j];
  }

  lemma OpeningRuns(cfg: Config)
    ensures !NewView(cfg).state.over
  {
  }

  lemma EndingCarriesOver(recover: Recovery, cfg: Config, front: seq<Command>, c: Command, k: nat)
    requires k < |front| && EndedBy(recover, cfg, front, k)
    ensures EndedBy(recover, cfg, front + [c], k)
    ensures (front + [c])[..k + 1] == front[..k + 1]
  {
    hide Run, Concludes, OffersDraw;
    var cs := front + [c];
    assert cs[..k] == front[..k] && cs[..k + 1] == front[..k + 1] && cs[k] == front[k];
    if cs[k].AcceptDraw? {
      var player: Player := 1 - cs[k].player;
      var j: nat :| j < k && OffersDraw(recover, cfg, front, j, player);
      OfferCarriesOver(recover, cfg, front, c, j, player);
    }
  }

  // ----- snapshots and restarts -----

  datatype Snapshot = Snapshot(
    matchId: nat, chainId: nat, verifier: Address, session0: Address, session1: Address,
    startTurn: Player, moves: seq<nat>, sigs: seq<Signature>, terminal: Option<Outcome>)
  {
    function Cfg(): Config {
      Config(matchId, chainId, verifier, session0, session1, startTurn)
    }
  }

  function SnapshotOf(v: View): Snapshot {
    var c := v.cfg;
    Snapshot(c.matchId, c.chainId, c.verifier, c.session0, c.session1, c.startTurn, v.moves, v.sigs,
             if v.state.over then Some(v.state.winner) else None)
  }

  /** Stands where a snapshot has no signature for a move. */
  const NO_SIGNATURE: Signature := ""

  /** One signature for each of the first `n` moves. */
  function SignaturesFor(sigs: seq<Signature>, n: nat): (r: seq<Signature>)
    ensures |r| == n && (|sigs| == n ==> r == sigs)
  {
    seq(n, i requires 0 <= i < n => if i < |sigs| then sigs[i] else NO_SIGNATURE)
  }

  /** A match rebuilt by plain replay, with the recorded outcome applied on top
      when the replay alone does not end the game. */
  function Rebuilt(snap: Snapshot): Result<View, RuleError> {
    match PlayFrom(snap.startTurn, snap.moves)
    case Err(e) => Err(e)
    case Ok(s) =>
      var state := if snap.terminal.Some? && !s.over then Decided(s, snap.terminal.value) else s;
      Ok(View(snap.Cfg(), state, snap.moves, SignaturesFor(snap.sigs, |snap.moves|), None))
  }

  /** The match was ended by the repetition rule, which plain replay does not know. */
  ghost predicate EndedByCycle(v: View) {
    var played := PlayFrom(v.cfg.startTurn, v.moves);
    var judged := Adjudicate(v.cfg.startTurn, v.moves);
    played.Ok? && !played.value.over && judged.Ok? && judged.value.over
  }

  /** Replaying an accepted game succeeds, and gives the adjudicated position or,
      after a repetition ending, the position it swept. */
  lemma ReplayOfAccepted(startTurn: Player, moves: seq<nat>)
    requires Accepted(startTurn, moves)
    ensures var played := PlayFrom(startTurn, moves); var judged := Adjudicate(startTurn, moves).value;
      && played.Ok?
      && Sound(played.value)
      && (judged == played.value || (!played.value.over && judged == Swept(played.value)))
  {
    hide Apply, Sound, Swept;
    if moves != [] {
      var before := moves[..|moves| - 1];
      assert before == moves[..|before|];
      RunningIsPlay(startTurn, before);
    }
    InitialStateIsSound(startTurn);
    PlayKeepsSound(InitialState(startTurn), moves);
  }

  lemma SweepingChangesTheBoard(s: State)
    requires Sound(s) && !s.over
    ensures Swept(s).pits != s.pits && Swept(s).over && Swept(s).turn == s.turn
  {
    BoardSpelledOut(Filled(0));
  }

  /** `w` has the moves and signatures of `v`, the same player to move, and the
      same ending and winner. */
  predicate SameMatch(v: View, w: View) {
    && w.cfg == v.cfg && w.moves == v.moves && w.sigs == v.sigs
    && w.state.turn == v.state.turn && w.state.over == v.state.over
    && (v.state.over ==> w.state.winner == v.state.winner)
  }

  /** A restart succeeds and gives the same match; the position is the same too,
      unless the repetition rule ended the game.  A second snapshot equals the
      first, and a running match loses nothing but a pending draw offer. */
  lemma RestartKeepsTheMatch(v: View)
    requires Faithful(v)
    ensures var r := Rebuilt(SnapshotOf(v));
      && r.Ok?
      && SameMatch(v, r.value)
      && (r.value.state == v.state <==> !EndedByCycle(v))
      && SnapshotOf(r.value) == SnapshotOf(v)
      && (!v.state.over ==> r.value == v.(drawOffer := None))
  {
    hide Play, Adjudicate, Sound, Swept;
    ReplayOfAccepted(v.cfg.startTurn, v.moves);
    var played := PlayFrom(v.cfg.startTurn, v.moves).value;
    if !played.over {
      SweepingChangesTheBoard(played);
    }
  }

  /** The same, for the match any run of commands leads to. */
  lemma EveryRestartKeepsTheMatch(recover: Recovery, cfg: Config, cs: seq<Command>)
    ensures var v := Run(recover, NewView(cfg), cs); var r := Rebuilt(SnapshotOf(v));
      && r.Ok?
      && SameMatch(v, r.value)
      && (r.value.state == v.state <==> !EndedByCycle(v))
      && SnapshotOf(r.value) == SnapshotOf(v)
      && (!v.state.over ==> r.value == v.(drawOffer := None))
  {
    hide Run, Rebuilt, Faithful, EndedByCycle;
    RunKeeps(recover, cfg, cs);
    RestartKeepsTheMatch(Run(recover, NewView(cfg), cs));
  }

  /** A command whose outcome depends on a draw offer made before the restart. */
  predicate AcceptsStandingOffer(v: View, c: Command) {
    !v.state.over && c.AcceptDraw? && v.drawOffer == Some(1 - c.player)
  }

  /** Equal but for a pending offer. */
  predicate Twins(v: View, w: View) {
    v.(drawOffer := None) == w.(drawOffer := None)
  }

  /** One command on a match and on its copy without a pending offer: the replies
      differ exactly for an acceptance of that offer, and the matches then part
      exactly if it is granted.  A new offer makes the two equal. */
  lemma StepWithoutOffer(recover: Recovery, v: View, w: View, c: Command)
    requires Twins(v, w) && w.drawOffer == None
    ensures var next, copy := Step(recover, v, c), Step(recover, w, c);
      && (copy.reply == next.reply <==> !AcceptsStandingOffer(v, c))
      && (Twins(next.view, copy.view) <==> !(AcceptsStandingOffer(v, c) && next.reply.Ok?))
      && (if c.OfferDraw? && next.reply.Ok? then copy.view == next.view
          else copy.view.drawOffer == None
               && (!AcceptsStandingOffer(v, c) ==> next.view.drawOffer == v.drawOffer))
  {
    hide Apply, Adjudicate, SignedBy;
  }

  /** The next command is answered alike with and without the restart exactly when
      it does not accept a draw offered before; and the matches it leaves agree up
      to the offer unless such an acceptance was granted. */
  lemma NextCommandAfterRestart(recover: Recovery, v: View, w: View, c: Command)
    requires Faithful(v) && !v.state.over && Rebuilt(SnapshotOf(v)) == Ok(w)
    ensures var next, copy := Step(recover, v, c), Step(recover, w, c);
      && (copy.reply == next.reply <==> !AcceptsStandingOffer(v, c))
      && (Twins(next.view, copy.view) <==> !(AcceptsStandingOffer(v, c) && next.reply.Ok?))
  {
    hide Rebuilt, Step, Faithful;
    RestartKeepsTheMatch(v);
    StepWithoutOffer(recover, v, w, c);
  }

  function Replies(recover: Recovery, v: View, cs: seq<Command>): seq<Result<State, MatchError>> {
    if cs == [] then []
    else
      Replies(recover, v, cs[..|cs| - 1])
      + [Step(recover, Run(recover, v, cs[..|cs| - 1]), cs[|cs| - 1]).reply]
  }

  /** One of the commands put a new draw offer on the table. */
  predicate OfferedSince(recover: Recovery, v: View, cs: seq<Command>) {
    if cs == [] then false
    else
      var front, c := cs[..|cs| - 1], cs[|cs| - 1];
      || OfferedSince(recover, v, front)
      || (c.OfferDraw? && Step(recover, Run(recover, v, front), c).reply.Ok?)
  }

  /** One of the commands accepts the draw that was on the table at the start,
      before any new offer. */
  predicate AcceptsOldOffer(recover: Recovery, v: View, cs: seq<Command>) {
    if cs == [] then false
    else
      var front, c := cs[..|cs| - 1], cs[|cs| - 1];
      || AcceptsOldOffer(recover, v, front)
      || (!OfferedSince(recover, v, front) && AcceptsStandingOffer(Run(recover, v, front), c))
  }

  /** How a match and its copy without the offer stand after the same commands. */
  ghost predicate Alike(recover: Recovery, v: View, w: View, cs: seq<Command>) {
    var x, y := Run(recover, v, cs), Run(recover, w, cs);
    if OfferedSince(recover, v, cs) then x == y
    else Twins(x, y) && y.drawOffer == None && x.drawOffer == v.drawOffer
  }

  /** The whole run after a restart is answered as it would have been without it,
      exactly when no command accepts the draw offered before the restart; the
      matches then stay equal up to that offer, and are equal from the first new
      offer on. */
  lemma {:induction false} RestartIsInvisibleIff(recover: Recovery, v: View, w: View, cs: seq<Command>)
    requires Twins(v, w) && w.drawOffer == None
    ensures Replies(recover, w, cs) == Replies(recover, v, cs) <==> !AcceptsOldOffer(recover, v, cs)
    ensures !AcceptsOldOffer(recover, v, cs) ==> Alike(recover, v, w, cs)
  {
    hide Step, AcceptsStandingOffer;
    if cs != [] {
      var front, c := cs[..|cs| - 1], cs[|cs| - 1];
      RestartIsInvisibleIff(recover, v, w, front);
      LastReplyIff(recover, v, w, cs);
      if !AcceptsOldOffer(recover, v, front) && !OfferedSince(recover, v, front) {
        StepWithoutOffer(recover, Run(recover, v, front), Run(recover, w, front), c);
      }
    }
  }

  /** Two runs are answered alike when they were so far, and the last replies agree. */
  lemma LastReplyIff(recover: Recovery, v: View, w: View, cs: seq<Command>)
    requires cs != []
    ensures var front, c := cs[..|cs| - 1], cs[|cs| - 1];
      Replies(recover, w, cs) == Replies(recover, v, cs) <==>
        && Replies(recover, w, front) == Replies(recover, v, front)
        && Step(recover, Run(recover, w, front), c).reply == Step(recover, Run(recover, v, front), c).reply
  {
    hide Step, Run;
    var x, y := Replies(recover, v, cs), Replies(recover, w, cs);
    var front := cs[..|cs| - 1];
    assert x[..|x| - 1] == Replies(recover, v, front) && y[..|y| - 1] == Replies(recover, w, front);
  }

  /** A match that is over refuses everything, before and after a restart. */
  lemma {:induction false} RepliesWhenOver(recover: Recovery, v: View, cs: seq<Command>)
    requires v.state.over
    ensures Replies(recover, v, cs) == seq(|cs|, i requires 0 <= i < |cs| => Err(MatchOver))
    ensures !AcceptsOldOffer(recover, v, cs)
  {
    if cs != [] {
      RepliesWhenOver(recover, v, cs[..|cs| - 1]);
      EndingsAreFinal(recover, v, cs[..|cs| - 1]);
    }
  }

  /** The same, wherever in a run of a match the server restarts. */
  lemma EveryRestartIsInvisibleIff(recover: Recovery, cfg: Config, cs: seq<Command>, later: seq<Command>)
    ensures var v := Run(recover, NewView(cfg), cs); var r := Rebuilt(SnapshotOf(v));
      && r.Ok?
      && (Replies(recover, r.value, later) == Replies(recover, v, later) <==> !AcceptsOldOffer(recover, v, later))
      && (!v.state.over && !AcceptsOldOffer(recover, v, later) ==> Alike(recover, v, r.value, later))
  {
    hide Run, Rebuilt, Faithful, Replies, AcceptsOldOffer, Alike;
    var v := Run(recover, NewView(cfg), cs);
    RunKeeps(recover, cfg, cs);
    RestartKeepsTheMatch(v);
    var w := Rebuilt(SnapshotOf(v)).value;
    if v.state.over {
      RepliesWhenOver(recover, v, later);
      RepliesWhenOver(recover, w, later);
    } else {
      RestartIsInvisibleIff(recover, v, w, later);
    }
  }

  const TWO_PLAYERS: Config := Config(1, 42220, "0x0", "a", "b", 0)

  /** A run that shows it: a draw is offered, the server restarts, and
      the acceptance that would have drawn the game is refused. */
  lemma AnOfferIsLost()
    ensures var recover: Recovery := (d, sig) => sig;
      var v := Run(recover, NewView(TWO_PLAYERS), [OfferDraw(0, "a")]);
      var r := Rebuilt(SnapshotOf(v));
      && !v.state.over && r.Ok?
      && Step(recover, v, AcceptDraw(1, "b")).reply == Ok(Decided(v.state, DRAW))
      && Step(recover, r.value, AcceptDraw(1, "b")).reply == Err(NoPendingOffer)
  {
    assert Run((d, sig) => sig, NewView(TWO_PLAYERS), []) == NewView(TWO_PLAYERS);
  }

  // ----- the program -----

  class Match {
    const cfg: Config
    const recover: Recovery
    var state: State
    var moves: seq<nat>
    var sigs: seq<Signature>
    var drawOffer: Option<Player>

    function Now(): View
      reads this
    {
      View(cfg, state, moves, sigs, drawOffer)
    }

    constructor (cfg: Config, recover: Recovery)
      ensures Now() == NewView(cfg) && this.recover == recover
    {
      this.cfg, this.recover := cfg, recover;
      state := InitialState(cfg.startTurn);
      moves, sigs, drawOffer := [], [], None;
    }

    method SubmitMove(player: Player, house: nat, signature: Signature)
      returns (reply: Result<State, MatchError>)
      modifies this`state, this`moves, this`sigs
      ensures Effect(Now(), reply) == Step(recover, old(Now()), Command.SubmitMove(player, house, signature))
    {
      hide Apply, Adjudicate;
      if state.over { return Err(MatchOver); }
      if player != state.turn { return Err(NotYourTurn); }

      var digest := MoveDigest(cfg.matchId, |moves|, house, cfg.Ctx());
      if !SignedBy(recover, cfg, player, digest, signature) { return Err(BadSignature); }

      var next := Engine.ApplyMove(state, house);
      if next.Err? { return Err(Illegal(next.error)); }
      moves := moves + [house];
      sigs := sigs + [signature];
      var judged := AdjudicateGame(moves, cfg.startTurn);
      if judged.Err? { return Err(Illegal(judged.error)); }
      state := judged.value;
      return Ok(state);
    }

    method Resign(player: Player, signature: Signature) returns (reply: Result<State, MatchError>)
      modifies this`state
      ensures Effect(Now(), reply) == Step(recover, old(Now()), Command.Resign(player, signature))
    {
      if state.over { return Err(MatchOver); }
      var digest := ResignDigest(cfg.matchId, |moves|, cfg.Ctx());
      if !SignedBy(recover, cfg, player, digest, signature) { return Err(BadSignature); }
      state := state.(over := true, winner := 1 - player);
      return Ok(state);
    }

    method Forfeit(disconnected: Player) returns (reply: Result<State, MatchError>)
      modifies this`state
      ensures Effect(Now(), reply) == Step(recover, old(Now()), Command.Forfeit(disconnected))
    {
      if state.over { return Err(MatchOver); }
      state := state.(over := true, winner := 1 - disconnected);
      return Ok(state);
    }

    method OfferDraw(player: Player, signature: Signature) returns (reply: Result<State, MatchError>)
      modifies this`drawOffer
      ensures Effect(Now(), reply) == Step(recover, old(Now()), Command.OfferDraw(player, signature))
    {
      if state.over { return Err(MatchOver); }
      var digest := DrawOfferDigest(cfg.matchId, |moves|, cfg.Ctx());
      if !SignedBy(recover, cfg, player, digest, signature) { return Err(BadSignature); }
      drawOffer := Some(player);
      return Ok(state);
    }

    method AcceptDraw(player: Player, signature: Signature) returns (reply: Result<State, MatchError>)
      modifies this`state, this`drawOffer
      ensures Effect(Now(), reply) == Step(recover, old(Now()), Command.AcceptDraw(player, signature))
    {
      if state.over { return Err(MatchOver); }
      if drawOffer == None || drawOffer == Some(player) { return Err(NoPendingOffer); }
      var digest := DrawOfferDigest(cfg.matchId, |moves|, cfg.Ctx());
      if !SignedBy(recover, cfg, player, digest, signature) { return Err(BadSignature); }
      drawOffer := None;
      state := state.(over := true, winner := DRAW);
      return Ok(state);
    }

    method TakeSnapshot() returns (snap: Snapshot)
      ensures snap == SnapshotOf(Now())
    {
      snap := Snapshot(cfg.matchId, cfg.chainId, cfg.verifier, cfg.session0, cfg.session1, cfg.startTurn,
                       moves, sigs, if state.over then Some(state.winner) else None);
    }

    static method Rehydrate(snap: Snapshot, recover: Recovery) returns (m: Result<Match, RuleError>)
      ensures m.Ok? <==> Rebuilt(snap).Ok?
      ensures m.Err? ==> m.error == Rebuilt(snap).error
      ensures m.Ok? ==> fresh(m.value) && m.value.Now() == Rebuilt(snap).value && m.value.recover == recover
    {
      hide Apply;
      var r := new Match(snap.Cfg(), recover);
      for i := 0 to |snap.moves|
        invariant PlayFrom(snap.startTurn, snap.moves[..i]) == Ok(r.state)
        invariant r.moves == snap.moves[..i] && r.sigs == SignaturesFor(snap.sigs, i) && r.drawOffer == None
      {
        assert snap.moves[..i + 1][..i] == snap.moves[..i];
        var next := Engine.ApplyMove(r.state, snap.moves[i]);
        if next.Err? {
          ReplayStops(snap.startTurn, snap.moves, i + 1);
          return Err(next.error);
        }
        r.state := next.value;
        r.moves := r.moves + [snap.moves[i]];
        r.sigs := r.sigs + [if i < |snap.sigs| then snap.sigs[i] else NO_SIGNATURE];
      }
      assert snap.moves[..|snap.moves|] == snap.moves;
      if snap.terminal.Some? && !r.state.over {
        r.state := r.state.(over := true, winner := snap.terminal.value);
      }
      return Ok(r);
    }
  }

  /** A replay stops at the first move that is refused. */
  lemma {:induction false} ReplayStops(startTurn: Player, moves: seq<nat>, k: nat)
    requires k <= |moves| && PlayFrom(startTurn, moves[..k]).Err?
    ensures PlayFrom(startTurn, moves) == PlayFrom(startTurn, moves[..k])
  {
    hide Apply;
    if k < |moves| {
      assert moves[..|moves| - 1][..k] == moves[..k];
      ReplayStops(startTurn, moves[..|moves| - 1], k);
    } else {
      assert moves[..k] == moves;
    }
  }
}
