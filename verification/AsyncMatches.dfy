/** Correspondence matches: every request loads a stored record, rebuilds the
    match from its snapshot, lets the match decide, and saves the result.  Each
    request is one atomic step and is given the time at which it runs. */
module AsyncMatches {
  import opened Wrappers
  import opened Rules
  import opened Adjudication
  import opened Text
  import opened Matches

  const ZERO: Address := "0x0000000000000000000000000000000000000000"

  datatype Mode = Casual | Cash

  datatype Record = Record(
    snapshot: Snapshot, player0: Address, player1: Address, mode: Mode,
    turn: Player, over: bool, ply: nat, updatedAt: int, turnClockMs: Option<int>)

  /** A finished casual game, as told to the player profiles. */
  datatype Report = Report(player0: Address, player1: Address, winner: Outcome)

  datatype Service = Service(store: map<nat, Record>, reports: seq<Report>)

  datatype AsyncError =
    | NoSuchMatch
    | MatchFull
    | OwnGame
    | Staked
    | NoOpponentYet
    | MatchIsOver
    | YourTurn
    | StillTime
    | ByMatch(error: MatchError)
    | ByReplay(rule: RuleError)

  datatype Request =
    | Create(cfg: Config, player0: Address, player1: Address, mode: Mode)
    | CreateOpen(cfg: Config, creator: Address, mode: Mode)
    | Join(id: nat, joiner: Address, session1: Address)
    | Move(id: nat, player: Player, house: nat, sig: Signature)
    | Leave(id: nat, player: Player, sig: Signature)
    | SetTurnClock(id: nat, ms: int)
    | ClaimTimeout(id: nat, claimant: Player, graceMs: int)

  datatype Answer = Answer(service: Service, reply: Result<(), AsyncError>)

  function Refused(svc: Service, e: AsyncError): Answer {
    Answer(svc, Err(e))
  }

  /** The record of match `v`: a snapshot, and three fields copied for listing. */
  function Recorded(v: View, player0: Address, player1: Address, mode: Mode, now: int, clock: Option<int>): Record {
    Record(SnapshotOf(v), player0, player1, mode, v.state.turn, v.state.over, |v.moves|, now, clock)
  }

  function Save(svc: Service, rec: Record): Service {
    svc.(store := svc.store[rec.snapshot.matchId := rec])
  }

  function Reported(svc: Service, rec: Record, winner: Outcome): Service {
    if rec.player1 == ZERO || rec.mode != Casual then svc
    else svc.(reports := svc.reports + [Report(rec.player0, rec.player1, winner)])
  }

  /** Let the rebuilt match take a command; save and report what follows. */
  function Advance(recover: Recovery, svc: Service, rec: Record, c: Command, now: int): Answer {
    match Rebuilt(rec.snapshot)
    case Err(e) => Refused(svc, ByReplay(e))
    case Ok(v) =>
      var after := Step(recover, v, c);
      if after.reply.Err? then Refused(svc, ByMatch(after.reply.error))
      else
        var saved := Save(svc, Recorded(after.view, rec.player0, rec.player1, rec.mode, now, rec.turnClockMs));
        Answer(if after.view.state.over then Reported(saved, rec, after.view.state.winner) else saved, Ok(()))
  }

  function Serve(recover: Recovery, svc: Service, q: Request, now: int): Answer {
    match q
    case Create(cfg, player0, player1, mode) =>
      Answer(Save(svc, Recorded(NewView(cfg), player0, player1, mode, now, None)), Ok(()))
    case CreateOpen(cfg, creator, mode) =>
      var open := cfg.(session1 := ZERO);
      Answer(Save(svc, Recorded(NewView(open), creator, ZERO, mode, now, None)), Ok(()))
    case Join(id, joiner, session1) =>
      if id !in svc.store then Refused(svc, NoSuchMatch)
      else
        var rec := svc.store[id];
        if rec.player1 != ZERO then Refused(svc, MatchFull)
        else if Lower(rec.player0) == Lower(joiner) then Refused(svc, OwnGame)
        else
          var joined := rec.(player1 := joiner, snapshot := rec.snapshot.(session1 := session1), updatedAt := now);
          Answer(Save(svc, joined), Ok(()))
    case Move(id, player, house, sig) =>
      if id !in svc.store then Refused(svc, NoSuchMatch)
      else Advance(recover, svc, svc.store[id], Command.SubmitMove(player, house, sig), now)
    case Leave(id, player, sig) =>
      if id !in svc.store then Refused(svc, NoSuchMatch)
      else
        var rec := svc.store[id];
        if rec.mode != Casual then Refused(svc, Staked)
        else if rec.player1 == ZERO then Refused(svc, NoOpponentYet)
        else Advance(recover, svc, rec, Command.Resign(player, sig), now)
    case SetTurnClock(id, ms) =>
      if id !in svc.store then Refused(svc, NoSuchMatch)
      else Answer(Save(svc, svc.store[id].(turnClockMs := Some(ms), updatedAt := now)), Ok(()))
    case ClaimTimeout(id, claimant, graceMs) =>
      if id !in svc.store then Refused(svc, NoSuchMatch)
      else
        var rec := svc.store[id];
        if rec.mode != Casual then Refused(svc, Staked)
        else if rec.player1 == ZERO then Refused(svc, NoOpponentYet)
        else
          match Rebuilt(rec.snapshot)
          case Err(e) => Refused(svc, ByReplay(e))
          case Ok(v) =>
            var grace := if rec.turnClockMs.Some? then rec.turnClockMs.value else graceMs;
            if v.state.over then Refused(svc, MatchIsOver)
            else if v.state.turn == claimant then Refused(svc, YourTurn)
            else if now - rec.updatedAt < grace then Refused(svc, StillTime)
            else Advance(recover, svc, rec, Command.Forfeit(v.state.turn), now)
  }

  datatype Timed = Timed(request: Request, now: int)

  function Serving(recover: Recovery, svc: Service, qs: seq<Timed>): Service {
    if qs == [] then svc
    else
      var last := qs[|qs| - 1];
      Serve(recover, Serving(recover, svc, qs[..|qs| - 1]), last.request, last.now).service
  }

  // ----- the stored fields never drift from the snapshot -----

  /** The record was written from a match that honours its own history. */
  ghost predicate Written(rec: Record, v: View) {
    && Faithful(v)
    && rec.snapshot == SnapshotOf(v)
    && rec.turn == v.state.turn && rec.over == v.state.over && rec.ply == |v.moves|
  }

  ghost predicate Consistent(svc: Service) {
    forall id :: id in svc.store ==>
      svc.store[id].snapshot.matchId == id && exists v :: Written(svc.store[id], v)
  }

  /** What a stored record promises: its snapshot can be rebuilt, and the copied
      turn, ending and ply are those of the rebuilt match. */
  ghost predicate InSync(rec: Record) {
    var r := Rebuilt(rec.snapshot);
    && r.Ok?
    && rec.turn == r.value.state.turn && rec.over == r.value.state.over && rec.ply == |r.value.moves|
    && SnapshotOf(r.value) == rec.snapshot
  }

  lemma WrittenIsInSync(rec: Record, v: View)
    requires Written(rec, v)
    ensures InSync(rec)
    ensures !v.state.over ==> Rebuilt(rec.snapshot) == Ok(v.(drawOffer := None))
  {
    hide Rebuilt, Faithful;
    RestartKeepsTheMatch(v);
  }

  lemma SaveKeeps(svc: Service, rec: Record, v: View)
    requires Consistent(svc) && Written(rec, v)
    ensures Consistent(Save(svc, rec))
  {
    hide Written;
  }

  lemma NewViewWritten(cfg: Config, player0: Address, player1: Address, mode: Mode, now: int)
    ensures Written(Recorded(NewView(cfg), player0, player1, mode, now, None), NewView(cfg))
  {
    hide Adjudicate;
    NewViewKeeps((d, s) => "", cfg);
  }

  lemma AdvanceKeeps(recover: Recovery, svc: Service, rec: Record, v: View, c: Command, now: int)
    requires Consistent(svc) && Written(rec, v)
    ensures Consistent(Advance(recover, svc, rec, c, now).service)
  {
    hide Rebuilt, Step, Consistent, Faithful;
    WrittenIsInSync(rec, v);
    var w := Rebuilt(rec.snapshot).value;
    var after := Step(recover, w, c);
    if v.state.over {
      EndingsAreFinal(recover, w, []);
    } else {
      OfferDoesNotMatter(v);
      StepKeepsFaithful(recover, w, c);
      SaveKeeps(svc, Recorded(after.view, rec.player0, rec.player1, rec.mode, now, rec.turnClockMs), after.view);
      ReportsKeep(Save(svc, Recorded(after.view, rec.player0, rec.player1, rec.mode, now, rec.turnClockMs)),
                  rec, after.view.state.winner);
    }
  }

  lemma ReportsKeep(svc: Service, rec: Record, winner: Outcome)
    requires Consistent(svc)
    ensures Consistent(Reported(svc, rec, winner))
  {
    hide Written;
  }

  lemma OfferDoesNotMatter(v: View)
    requires Faithful(v)
    ensures Faithful(v.(drawOffer := None))
  {
    hide Adjudicate;
  }

  lemma SessionDoesNotMatter(rec: Record, v: View, joiner: Address, session1: Address, now: int)
    requires Written(rec, v)
    ensures Written(rec.(player1 := joiner, snapshot := rec.snapshot.(session1 := session1), updatedAt := now),
                    v.(cfg := v.cfg.(session1 := session1)))
  {
    hide Adjudicate;
  }

  lemma ServeKeeps(recover: Recovery, svc: Service, q: Request, now: int)
    requires Consistent(svc)
    ensures Consistent(Serve(recover, svc, q, now).service)
  {
    hide Advance, Written, Rebuilt, NewView;
    match q
    case Create(cfg, player0, player1, mode) =>
      NewViewWritten(cfg, player0, player1, mode, now);
      SaveKeeps(svc, Recorded(NewView(cfg), player0, player1, mode, now, None), NewView(cfg));
    case CreateOpen(cfg, creator, mode) =>
      var open := cfg.(session1 := ZERO);
      NewViewWritten(open, creator, ZERO, mode, now);
      SaveKeeps(svc, Recorded(NewView(open), creator, ZERO, mode, now, None), NewView(open));
    case _ =>
      if q.id in svc.store {
        var rec := svc.store[q.id];
        var v :| Written(rec, v);
        ServeStored(recover, svc, q, now, v);
      }
  }

  lemma ServeStored(recover: Recovery, svc: Service, q: Request, now: int, v: View)
    requires !q.Create? && !q.CreateOpen? && q.id in svc.store
    requires Consistent(svc) && Written(svc.store[q.id], v)
    ensures Consistent(Serve(recover, svc, q, now).service)
  {
    hide Advance, Consistent, Rebuilt, Faithful;
    var rec := svc.store[q.id];
    match q
    case Join(id, joiner, session1) =>
      SessionDoesNotMatter(rec, v, joiner, session1, now);
      SaveKeeps(svc, rec.(player1 := joiner, snapshot := rec.snapshot.(session1 := session1), updatedAt := now),
                v.(cfg := v.cfg.(session1 := session1)));
    case Move(id, player, house, sig) =>
      AdvanceKeeps(recover, svc, rec, v, Command.SubmitMove(player, house, sig), now);
    case Leave(id, player, sig) =>
      AdvanceKeeps(recover, svc, rec, v, Command.Resign(player, sig), now);
    case SetTurnClock(id, ms) =>
      SaveKeeps(svc, rec.(turnClockMs := Some(ms), updatedAt := now), v);
    case ClaimTimeout(id, claimant, graceMs) =>
      WrittenIsInSync(rec, v);
      AdvanceKeeps(recover, svc, rec, v, Command.Forfeit(Rebuilt(rec.snapshot).value.state.turn), now);
    case _ =>
  }

  /** Over every run of the service, every stored record can be rebuilt, and its
      turn, ending and ply are those of the rebuilt match. */
  lemma {:induction false} RecordsStayInSync(recover: Recovery, qs: seq<Timed>)
    ensures var svc := Serving(recover, Service(map[], []), qs);
      Consistent(svc) && forall id :: id in svc.store ==> InSync(svc.store[id])
  {
    hide Serve, InSync, Written;
    var svc := Serving(recover, Service(map[], []), qs);
    if qs != [] {
      RecordsStayInSync(recover, qs[..|qs| - 1]);
      ServeKeeps(recover, Serving(recover, Service(map[], []), qs[..|qs| - 1]),
                 qs[|qs| - 1].request, qs[|qs| - 1].now);
    }
    forall id | id in svc.store
      ensures InSync(svc.store[id])
    {
      var v :| Written(svc.store[id], v);
      WrittenIsInSync(svc.store[id], v);
    }
  }

  // ----- results are reported once -----

  /** A request ends the match `id`: it was running, and now is not. */
  predicate Ends(svc: Service, after: Service, id: nat) {
    id in svc.store && id in after.store && !svc.store[id].over && after.store[id].over
  }

  function WinnerOf(rec: Record): Outcome {
    match Rebuilt(rec.snapshot)
    case Ok(v) => v.state.winner
    case Err(_) => DRAW
  }

  /** What the profiles should hear when `svc` became `after` by a request for `id`. */
  function Due(svc: Service, after: Service, id: nat): seq<Report> {
    if Ends(svc, after, id) && svc.store[id].mode == Casual && svc.store[id].player1 != ZERO
    then [Report(svc.store[id].player0, svc.store[id].player1, WinnerOf(after.store[id]))] else []
  }

  lemma AdvanceReports(recover: Recovery, svc: Service, id: nat, v: View, c: Command, now: int)
    requires Consistent(svc) && id in svc.store && Written(svc.store[id], v)
    ensures var rec := svc.store[id]; var after := Advance(recover, svc, rec, c, now).service;
      && id in after.store
      && (rec.over ==> after == svc)
      && after.reports == svc.reports + Due(svc, after, id)
  {
    hide Rebuilt, Step, Faithful;
    var rec := svc.store[id];
    WrittenIsInSync(rec, v);
    var w := Rebuilt(rec.snapshot).value;
    if v.state.over {
      EndingsAreFinal(recover, w, []);
    } else {
      OfferDoesNotMatter(v);
      StepKeepsFaithful(recover, w, c);
      RestartKeepsTheMatch(Step(recover, w, c).view);
    }
  }

  /** The profiles hear of a game exactly when a request ends it, it is casual
      and both players have joined; they hear the winner of the stored record.
      A stored ending is never undone except by creating the match anew. */
  lemma EndingsAreReportedOnce(recover: Recovery, svc: Service, q: Request, now: int)
    requires Consistent(svc) && !q.Create? && !q.CreateOpen? && q.id in svc.store
    ensures var after := Serve(recover, svc, q, now).service;
      && q.id in after.store
      && (svc.store[q.id].over ==> after.store[q.id].over)
      && after.reports == svc.reports + Due(svc, after, q.id)
  {
    hide Advance, Rebuilt, Faithful;
    var rec := svc.store[q.id];
    var v :| Written(rec, v);
    match q
    case Move(id, player, house, sig) =>
      AdvanceReports(recover, svc, id, v, Command.SubmitMove(player, house, sig), now);
    case Leave(id, player, sig) =>
      AdvanceReports(recover, svc, id, v, Command.Resign(player, sig), now);
    case ClaimTimeout(id, claimant, graceMs) =>
      WrittenIsInSync(rec, v);
      AdvanceReports(recover, svc, id, v, Command.Forfeit(Rebuilt(rec.snapshot).value.state.turn), now);
    case _ =>
  }

  /** The match a request is about. */
  function TargetOf(q: Request): nat {
    match q
    case Create(cfg, _, _, _) => cfg.matchId
    case CreateOpen(cfg, _, _) => cfg.matchId
    case Join(id, _, _) => id
    case Move(id, _, _, _) => id
    case Leave(id, _, _) => id
    case SetTurnClock(id, _) => id
    case ClaimTimeout(id, _, _) => id
  }

  predicate Creates(q: Request, id: nat) {
    (q.Create? || q.CreateOpen?) && TargetOf(q) == id
  }

  /** A request leaves every other match alone. */
  lemma OtherMatchesStay(recover: Recovery, svc: Service, q: Request, now: int, id: nat)
    requires Consistent(svc) && TargetOf(q) != id
    ensures var after := Serve(recover, svc, q, now).service;
      (id in after.store <==> id in svc.store) && (id in svc.store ==> after.store[id] == svc.store[id])
  {
    hide Rebuilt, Step, Written;
    if !q.Create? && !q.CreateOpen? && q.id in svc.store {
      var rec := svc.store[q.id];
      if Rebuilt(rec.snapshot).Ok? { RebuiltKeepsId(recover, rec.snapshot); }
    }
  }

  lemma RebuiltKeepsId(recover: Recovery, snap: Snapshot)
    requires Rebuilt(snap).Ok?
    ensures forall c :: Step(recover, Rebuilt(snap).value, c).view.cfg.matchId == snap.matchId
  {
    hide Apply, Adjudicate, PlayFrom, SignedBy;
  }

  predicate IsOver(svc: Service, id: nat) {
    id in svc.store && svc.store[id].over
  }

  /** How many reports the requests for match `id` made. */
  function ReportsFor(recover: Recovery, svc: Service, qs: seq<Timed>, id: nat): int {
    if qs == [] then 0
    else
      var front, last := qs[..|qs| - 1], qs[|qs| - 1];
      var before := Serving(recover, svc, front);
      var after := Serve(recover, before, last.request, last.now).service;
      ReportsFor(recover, svc, front, id)
      + (if TargetOf(last.request) == id then |after.reports| - |before.reports| else 0)
  }

  lemma StepReports(recover: Recovery, svc: Service, q: Request, now: int, id: nat)
    requires Consistent(svc) && !Creates(q, id)
    ensures var after := Serve(recover, svc, q, now).service;
      && (IsOver(svc, id) ==> IsOver(after, id))
      && (TargetOf(q) == id ==>
           0 <= |after.reports| - |svc.reports| <= (if IsOver(after, id) && !IsOver(svc, id) then 1 else 0))
  {
    hide Serve, Consistent;
    if TargetOf(q) != id {
      OtherMatchesStay(recover, svc, q, now, id);
    } else if id in svc.store {
      EndingsAreReportedOnce(recover, svc, q, now);
    } else {
      UnknownMatch(recover, svc, q, now);
    }
  }

  lemma UnknownMatch(recover: Recovery, svc: Service, q: Request, now: int)
    requires TargetOf(q) !in svc.store && !q.Create? && !q.CreateOpen?
    ensures Serve(recover, svc, q, now).service == svc
  {
  }

  lemma {:induction false} ServingKeeps(recover: Recovery, svc: Service, qs: seq<Timed>)
    requires Consistent(svc)
    ensures Consistent(Serving(recover, svc, qs))
  {
    hide Serve, Consistent;
    if qs != [] {
      var front, last := qs[..|qs| - 1], qs[|qs| - 1];
      ServingKeeps(recover, svc, front);
      ServeKeeps(recover, Serving(recover, svc, front), last.request, last.now);
    }
  }

  /** Over any requests that do not create the match anew, its result is reported at
      most once, and only if the match was still running before them and has ended
      since; an ending stays. */
  lemma {:induction false} AtMostOneReport(recover: Recovery, svc: Service, qs: seq<Timed>, id: nat)
    requires Consistent(svc) && forall k :: 0 <= k < |qs| ==> !Creates(qs[k].request, id)
    ensures var after := Serving(recover, svc, qs);
      && (IsOver(svc, id) ==> IsOver(after, id))
      && 0 <= ReportsFor(recover, svc, qs, id) <= (if IsOver(after, id) && !IsOver(svc, id) then 1 else 0)
  {
    hide Serve, Consistent, IsOver, Creates;
    if qs != [] {
      var front, last := qs[..|qs| - 1], qs[|qs| - 1];
      assert forall k :: 0 <= k < |front| ==> front[k] == qs[k];
      AtMostOneReport(recover, svc, front, id);
      ServingKeeps(recover, svc, front);
      StepReports(recover, Serving(recover, svc, front), last.request, last.now, id);
    }
  }

  // ----- when a request is granted, and what it leaves -----

  /** What a command does to a stored match, in terms of the rebuilt one. */
  lemma AdvanceServes(recover: Recovery, svc: Service, id: nat, v: View, c: Command, now: int)
    requires id in svc.store && svc.store[id].snapshot.matchId == id && Written(svc.store[id], v)
    ensures var rec := svc.store[id]; var a := Advance(recover, svc, rec, c, now);
      if rec.over then a == Refused(svc, ByMatch(MatchOver))
      else
        var e := Step(recover, v.(drawOffer := None), c);
        && (a.reply.Ok? <==> e.reply.Ok?)
        && (e.reply.Err? ==> a == Refused(svc, ByMatch(e.reply.error)))
        && (e.reply.Ok? ==>
             && a.service.store
                == svc.store[id := Recorded(e.view, rec.player0, rec.player1, rec.mode, now, rec.turnClockMs)]
             && (e.view.state.over ==> WinnerOf(a.service.store[id]) == e.view.state.winner))
  {
    hide Rebuilt, Step, Faithful;
    var rec := svc.store[id];
    WrittenIsInSync(rec, v);
    var w := Rebuilt(rec.snapshot).value;
    if rec.over {
      EndingsAreFinal(recover, w, []);
    } else {
      OfferDoesNotMatter(v);
      StepKeepsFaithful(recover, w, c);
      RestartKeepsTheMatch(Step(recover, w, c).view);
    }
  }

  /** Leaving resigns: it ends a running casual match between two players exactly
      when it is signed by the session of the player who leaves, and the other wins. */
  lemma LeavingEndsIff(recover: Recovery, svc: Service, id: nat, player: Player, sig: Signature, now: int)
    requires Consistent(svc)
    ensures var a := Serve(recover, svc, Request.Leave(id, player, sig), now);
      && (a.reply.Err? ==> a.service == svc)
      && (a.reply.Ok? <==>
           && id in svc.store
           && var rec := svc.store[id];
              && rec.mode == Casual && rec.player1 != ZERO && !rec.over
              && RecoversTo(recover, rec.snapshot.Cfg(), player,
                   ResignDigest(id, rec.ply, Context(rec.snapshot.chainId, rec.snapshot.verifier)), sig))
      && (a.reply.Ok? ==>
           && id in a.service.store && a.service.store[id].over
           && WinnerOf(a.service.store[id]) == 1 - player)
  {
    hide Advance, Rebuilt, Faithful, Step, RecoversTo, WinnerOf;
    if id in svc.store {
      var v :| Written(svc.store[id], v);
      AdvanceServes(recover, svc, id, v, Command.Resign(player, sig), now);
      if !v.state.over { ResignationEndsIff(recover, v.(drawOffer := None), player, sig); }
    }
  }

  /** How long the player to move may still take. */
  function Grace(rec: Record, graceMs: int): int {
    match rec.turnClockMs
    case Some(ms) => ms
    case None => graceMs
  }

  /** A walkover is granted exactly in a running casual match between two players,
      to the player who is not to move, once the full grace has passed since the
      record was last written; it ends the match for the claimant. */
  lemma ClaimIsGrantedIff(recover: Recovery, svc: Service, id: nat, claimant: Player, graceMs: int, now: int)
    requires Consistent(svc)
    ensures var a := Serve(recover, svc, Request.ClaimTimeout(id, claimant, graceMs), now);
      && (a.reply.Err? ==> a.service == svc)
      && (a.reply.Ok? <==>
           && id in svc.store
           && var rec := svc.store[id];
              && rec.mode == Casual && rec.player1 != ZERO && !rec.over && rec.turn != claimant
              && now >= rec.updatedAt + Grace(rec, graceMs))
      && (a.reply.Ok? ==>
           && id in a.service.store && a.service.store[id].over
           && WinnerOf(a.service.store[id]) == claimant)
  {
    hide Advance, Rebuilt, Faithful, Step, WinnerOf;
    if id in svc.store {
      var rec := svc.store[id];
      var v :| Written(rec, v);
      WrittenIsInSync(rec, v);
      var mover := Rebuilt(rec.snapshot).value.state.turn;
      AdvanceServes(recover, svc, id, v, Command.Forfeit(mover), now);
      if !v.state.over { ForfeitEnds(recover, v.(drawOffer := None), mover); }
    }
  }

  /** A move is stored exactly when the match runs, it is the player's turn, the
      signature is for this ply and house, and the house is legal; the record then
      has one move and one signature more, and its window starts anew. */
  lemma MoveIsStoredIff(
      recover: Recovery, svc: Service, id: nat, v: View, player: Player, house: nat, sig: Signature, now: int)
    requires Consistent(svc) && (id in svc.store ==> Written(svc.store[id], v))
    ensures var a := Serve(recover, svc, Request.Move(id, player, house, sig), now);
      && (a.reply.Err? ==> a.service == svc)
      && (a.reply.Ok? <==>
           && id in svc.store
           && var rec := svc.store[id];
              && !rec.over && rec.turn == player && Legal(v.state, house)
              && RecoversTo(recover, rec.snapshot.Cfg(), player,
                   MoveDigest(id, rec.ply, house, Context(rec.snapshot.chainId, rec.snapshot.verifier)), sig))
      && (a.reply.Ok? ==>
           && id in a.service.store
           && var rec, after := svc.store[id], a.service.store[id];
              && after.snapshot.moves == rec.snapshot.moves + [house]
              && after.snapshot.sigs == rec.snapshot.sigs + [sig]
              && after.snapshot.Cfg() == rec.snapshot.Cfg()
              && after.ply == rec.ply + 1 && after.updatedAt == now && after.turnClockMs == rec.turnClockMs
              && after.player0 == rec.player0 && after.player1 == rec.player1 && after.mode == rec.mode)
  {
    hide Advance, Rebuilt, Faithful, Step, RecoversTo, Legal, WinnerOf, Apply, Swept;
    if id in svc.store {
      AdvanceServes(recover, svc, id, v, Command.SubmitMove(player, house, sig), now);
      if !v.state.over {
        OfferDoesNotMatter(v);
        MoveIsPlayedIff(recover, v.(drawOffer := None), player, house, sig);
      }
    }
  }

  /** The second seat is taken exactly while it is open, by somebody else than the
      creator, letter case aside; nothing but the seat, its session and the time changes. */
  lemma SeatIsTakenIff(recover: Recovery, svc: Service, id: nat, joiner: Address, session1: Address, now: int)
    requires Consistent(svc)
    ensures var a := Serve(recover, svc, Join(id, joiner, session1), now);
      && (a.reply.Err? ==> a.service == svc)
      && (a.reply.Ok? <==>
           id in svc.store && svc.store[id].player1 == ZERO && Lower(svc.store[id].player0) != Lower(joiner))
      && (a.reply.Ok? ==>
           && id in a.service.store && a.service.reports == svc.reports
           && var rec, after := svc.store[id], a.service.store[id];
              && after.player1 == joiner && after.snapshot.session1 == session1 && after.updatedAt == now
              && after.(player1 := rec.player1, snapshot := rec.snapshot, updatedAt := rec.updatedAt) == rec
              && after.snapshot.(session1 := rec.snapshot.session1) == rec.snapshot)
  {
  }

  /** Putting a match on a clock restarts its window. */
  lemma ClockIsSetIff(recover: Recovery, svc: Service, id: nat, ms: int, now: int)
    requires Consistent(svc)
    ensures var a := Serve(recover, svc, SetTurnClock(id, ms), now);
      && (a.reply.Ok? <==> id in svc.store)
      && a.service.reports == svc.reports
      && (if a.reply.Ok? then
            id in a.service.store
            && a.service.store == svc.store[id := svc.store[id].(turnClockMs := Some(ms), updatedAt := now)]
          else a.service == svc)
  {
  }

  /** A new record: nobody has moved, nothing is over, no clock of its own runs; an
      invitation leaves the second seat and session open. */
  lemma NewRecords(
      recover: Recovery, svc: Service, cfg: Config, player0: Address, player1: Address, mode: Mode, now: int)
    ensures var id := cfg.matchId;
      var a := Serve(recover, svc, Create(cfg, player0, player1, mode), now).service;
      var b := Serve(recover, svc, CreateOpen(cfg, player0, mode), now).service;
      && id in a.store && id in b.store && a.reports == b.reports == svc.reports
      && var rec, open := a.store[id], b.store[id];
         && rec.snapshot.Cfg() == cfg && rec.snapshot.moves == [] && rec.snapshot.sigs == []
         && rec.player0 == player0 && rec.player1 == player1 && rec.mode == mode
         && rec.turn == cfg.startTurn && !rec.over && rec.ply == 0
         && rec.updatedAt == now && rec.turnClockMs == None
         && open == rec.(player1 := ZERO, snapshot := rec.snapshot.(session1 := ZERO))
  {
  }

  // ----- who signed what is stored -----

  /** The match a record stands for has every move signed by the stored sessions. */
  ghost predicate Vouched(recover: Recovery, rec: Record) {
    Rebuilt(rec.snapshot).Ok? && Attested(recover, Rebuilt(rec.snapshot).value)
  }

  /** While a seat is open, its session is the zero address, which nobody signs for. */
  ghost predicate AllVouched(recover: Recovery, svc: Service) {
    forall id :: id in svc.store ==>
      && Vouched(recover, svc.store[id])
      && (svc.store[id].player1 == ZERO ==> svc.store[id].snapshot.session1 == ZERO)
  }

  ghost predicate NobodySignsForZero(recover: Recovery) {
    forall d, sig :: Lower(recover(d, sig)) != Lower(ZERO)
  }

  /** Nobody joins as the zero address, and a match created with the second seat
      open has the zero session in it. */
  predicate SeatsAreTaken(q: Request) {
    && (q.Join? ==> q.joiner != ZERO)
    && (q.Create? && q.player1 == ZERO ==> q.cfg.session1 == ZERO)
  }

  lemma SameSignatures(recover: Recovery, v: View, w: View)
    requires w.cfg == v.cfg && w.moves == v.moves && w.sigs == v.sigs
    ensures Attested(recover, w) == Attested(recover, v)
  {
    hide SignedBy;
  }

  lemma SnapshotIsVouched(recover: Recovery, v: View, rec: Record)
    requires Faithful(v) && Attested(recover, v) && rec.snapshot == SnapshotOf(v)
    ensures Vouched(recover, rec)
  {
    hide Rebuilt, Faithful, Attested;
    RestartKeepsTheMatch(v);
    SameSignatures(recover, v, Rebuilt(rec.snapshot).value);
  }

  /** Before anyone has taken the second seat, only the first player has moved. */
  lemma OpenSeatNeverMoved(recover: Recovery, v: View, session1: Address)
    requires NobodySignsForZero(recover) && Attested(recover, v) && v.cfg.session1 == ZERO
    ensures Attested(recover, v.(cfg := v.cfg.(session1 := session1)))
  {
  }

  lemma JoinStaysVouched(recover: Recovery, rec: Record, v: View, joiner: Address, session1: Address, now: int)
    requires NobodySignsForZero(recover) && Written(rec, v) && Vouched(recover, rec) && rec.snapshot.session1 == ZERO
    ensures Vouched(recover, rec.(player1 := joiner, snapshot := rec.snapshot.(session1 := session1), updatedAt := now))
  {
    hide Rebuilt, Faithful, Attested;
    RestartKeepsTheMatch(v);
    SameSignatures(recover, v, Rebuilt(rec.snapshot).value);
    OpenSeatNeverMoved(recover, v, session1);
    SessionDoesNotMatter(rec, v, joiner, session1, now);
    SnapshotIsVouched(recover, v.(cfg := v.cfg.(session1 := session1)),
                      rec.(player1 := joiner, snapshot := rec.snapshot.(session1 := session1), updatedAt := now));
  }

  lemma AdvanceStaysVouched(recover: Recovery, svc: Service, rec: Record, v: View, c: Command, now: int)
    requires Written(rec, v) && AllVouched(recover, svc) && rec in svc.store.Values
    ensures AllVouched(recover, Advance(recover, svc, rec, c, now).service)
  {
    hide Rebuilt, Step, Faithful, Attested;
    WrittenIsInSync(rec, v);
    var w := Rebuilt(rec.snapshot).value;
    var after := Step(recover, w, c);
    if v.state.over {
      EndingsAreFinal(recover, w, []);
    } else {
      OfferDoesNotMatter(v);
      StepKeepsFaithful(recover, w, c);
      StepKeepsAttested(recover, w, c);
      SnapshotIsVouched(recover, after.view,
                        Recorded(after.view, rec.player0, rec.player1, rec.mode, now, rec.turnClockMs));
    }
  }

  lemma ServeStaysVouched(recover: Recovery, svc: Service, q: Request, now: int)
    requires NobodySignsForZero(recover) && SeatsAreTaken(q) && Consistent(svc) && AllVouched(recover, svc)
    ensures AllVouched(recover, Serve(recover, svc, q, now).service)
  {
    hide Advance, Rebuilt, Faithful, Attested, NobodySignsForZero, Vouched;
    match q
    case Create(cfg, player0, player1, mode) =>
      NewViewKeeps(recover, cfg);
      SnapshotIsVouched(recover, NewView(cfg), Recorded(NewView(cfg), player0, player1, mode, now, None));
    case CreateOpen(cfg, creator, mode) =>
      var open := cfg.(session1 := ZERO);
      NewViewKeeps(recover, open);
      SnapshotIsVouched(recover, NewView(open), Recorded(NewView(open), creator, ZERO, mode, now, None));
    case _ =>
      if q.id in svc.store {
        var v :| Written(svc.store[q.id], v);
        StoredStaysVouched(recover, svc, q, now, v);
      }
  }

  lemma StoredStaysVouched(recover: Recovery, svc: Service, q: Request, now: int, v: View)
    requires !q.Create? && !q.CreateOpen? && q.id in svc.store && Written(svc.store[q.id], v)
    requires NobodySignsForZero(recover) && SeatsAreTaken(q) && AllVouched(recover, svc)
    ensures AllVouched(recover, Serve(recover, svc, q, now).service)
  {
    hide Advance, Rebuilt, Faithful, Attested, NobodySignsForZero, Vouched;
    var rec := svc.store[q.id];
    match q
    case Join(id, joiner, session1) =>
      if rec.player1 == ZERO { JoinStaysVouched(recover, rec, v, joiner, session1, now); }
    case Move(id, player, house, sig) =>
      AdvanceStaysVouched(recover, svc, rec, v, Command.SubmitMove(player, house, sig), now);
    case Leave(id, player, sig) =>
      AdvanceStaysVouched(recover, svc, rec, v, Command.Resign(player, sig), now);
    case SetTurnClock(id, ms) =>
      SnapshotDecides(recover, rec, rec.(turnClockMs := Some(ms), updatedAt := now));
    case ClaimTimeout(id, claimant, graceMs) =>
      WrittenIsInSync(rec, v);
      AdvanceStaysVouched(recover, svc, rec, v, Command.Forfeit(Rebuilt(rec.snapshot).value.state.turn), now);
    case _ =>
  }

  lemma SnapshotDecides(recover: Recovery, rec: Record, other: Record)
    requires rec.snapshot == other.snapshot
    ensures Vouched(recover, rec) == Vouched(recover, other)
  {
  }

  /** Over every run in which nobody plays as the zero address, each stored move is
      signed, for its ply and house, by the stored session of the player who moved. */
  lemma {:induction false} StoredMovesAreSigned(recover: Recovery, qs: seq<Timed>)
    requires NobodySignsForZero(recover) && forall k :: 0 <= k < |qs| ==> SeatsAreTaken(qs[k].request)
    ensures AllVouched(recover, Serving(recover, Service(map[], []), qs))
  {
    hide Serve, Vouched, NobodySignsForZero, SeatsAreTaken, Consistent;
    if qs != [] {
      var front, last := qs[..|qs| - 1], qs[|qs| - 1];
      assert forall k :: 0 <= k < |front| ==> front[k] == qs[k];
      StoredMovesAreSigned(recover, front);
      RecordsStayInSync(recover, front);
      ServeStaysVouched(recover, Serving(recover, Service(map[], []), front), last.request, last.now);
    }
  }

  /** A walkover that is granted goes to the player who claimed it. */
  lemma ClaimantWins(recover: Recovery, svc: Service, id: nat, claimant: Player, graceMs: int, now: int)
    requires Consistent(svc) && id in svc.store
    ensures var a := Serve(recover, svc, Request.ClaimTimeout(id, claimant, graceMs), now);
      a.reply.Ok? ==>
        && id in a.service.store
        && a.service.store[id].over && WinnerOf(a.service.store[id]) == claimant
  {
    hide Rebuilt, Faithful, Apply, Adjudicate;
    var rec := svc.store[id];
    var v :| Written(rec, v);
    WrittenIsInSync(rec, v);
    var w := Rebuilt(rec.snapshot).value;
    if !v.state.over {
      OfferDoesNotMatter(v);
      StepKeepsFaithful(recover, w, Command.Forfeit(w.state.turn));
      RestartKeepsTheMatch(Step(recover, w, Command.Forfeit(w.state.turn)).view);
    }
  }

  // ----- the program -----

  class AsyncMatchService {
    const recover: Recovery
    var store: map<nat, Record>
    var reports: seq<Report>

    function Now(): Service
      reads this
    {
      Service(store, reports)
    }

    constructor (recover: Recovery)
      ensures Now() == Service(map[], []) && this.recover == recover
    {
      this.recover := recover;
      store, reports := map[], [];
    }

    method SaveRecord(rec: Record)
      modifies this`store
      ensures Now() == Save(old(Now()), rec)
    {
      store := store[rec.snapshot.matchId := rec];
    }

    method ReportResult(rec: Record, winner: Outcome)
      modifies this`reports
      ensures Now() == Reported(old(Now()), rec, winner)
    {
      if rec.player1 == ZERO { return; }
      if rec.mode != Casual { return; }
      reports := reports + [Report(rec.player0, rec.player1, winner)];
    }

    method CreateMatch(cfg: Config, player0: Address, player1: Address, mode: Mode, now: int)
      modifies this`store
      ensures Now() == Serve(recover, old(Now()), Create(cfg, player0, player1, mode), now).service
    {
      var m := new Match(cfg, recover);
      var snap := m.TakeSnapshot();
      SaveRecord(Record(snap, player0, player1, mode, m.state.turn, m.state.over, |m.moves|, now, None));
    }

    method OpenMatch(cfg: Config, creator: Address, mode: Mode, now: int)
      modifies this`store
      ensures Now() == Serve(recover, old(Now()), CreateOpen(cfg, creator, mode), now).service
    {
      var m := new Match(cfg.(session1 := ZERO), recover);
      var snap := m.TakeSnapshot();
      SaveRecord(Record(snap, creator, ZERO, mode, m.state.turn, m.state.over, |m.moves|, now, None));
    }

    method JoinMatch(id: nat, joiner: Address, session1: Address, now: int) returns (reply: Result<(), AsyncError>)
      modifies this`store
      ensures Answer(Now(), reply) == Serve(recover, old(Now()), Join(id, joiner, session1), now)
    {
      if id !in store { return Err(NoSuchMatch); }
      var rec := store[id];
      if rec.player1 != ZERO { return Err(MatchFull); }
      if Lower(rec.player0) == Lower(joiner) { return Err(OwnGame); }
      SaveRecord(rec.(player1 := joiner, snapshot := rec.snapshot.(session1 := session1), updatedAt := now));
      return Ok(());
    }

    /** Save the match after a command it accepted, and report it if that ended it. */
    method Store(m: Match, rec: Record, now: int)
      modifies this`store, this`reports
      ensures var saved := Save(old(Now()),
                Recorded(m.Now(), rec.player0, rec.player1, rec.mode, now, rec.turnClockMs));
        Now() == if m.state.over then Reported(saved, rec, m.state.winner) else saved
    {
      var snap := m.TakeSnapshot();
      SaveRecord(Record(snap, rec.player0, rec.player1, rec.mode, m.state.turn, m.state.over, |m.moves|,
                        now, rec.turnClockMs));
      if m.state.over { ReportResult(rec, m.state.winner); }
    }

    method PlayMove(id: nat, player: Player, house: nat, sig: Signature, now: int)
      returns (reply: Result<(), AsyncError>)
      modifies this`store, this`reports
      ensures Answer(Now(), reply) == Serve(recover, old(Now()), Move(id, player, house, sig), now)
    {
      hide Step, Rebuilt;
      if id !in store { return Err(NoSuchMatch); }
      var rec := store[id];
      var loaded := Match.Rehydrate(rec.snapshot, recover);
      if loaded.Err? { return Err(ByReplay(loaded.error)); }
      var m := loaded.value;
      var next := m.SubmitMove(player, house, sig);
      if next.Err? { return Err(ByMatch(next.error)); }
      Store(m, rec, now);
      return Ok(());
    }

    method LeaveMatch(id: nat, player: Player, sig: Signature, now: int) returns (reply: Result<(), AsyncError>)
      modifies this`store, this`reports
      ensures Answer(Now(), reply) == Serve(recover, old(Now()), Leave(id, player, sig), now)
    {
      hide Step, Rebuilt;
      if id !in store { return Err(NoSuchMatch); }
      var rec := store[id];
      if rec.mode != Casual { return Err(Staked); }
      if rec.player1 == ZERO { return Err(NoOpponentYet); }
      var loaded := Match.Rehydrate(rec.snapshot, recover);
      if loaded.Err? { return Err(ByReplay(loaded.error)); }
      var m := loaded.value;
      var next := m.Resign(player, sig);
      if next.Err? { return Err(ByMatch(next.error)); }
      Store(m, rec, now);
      return Ok(());
    }

    method SetClock(id: nat, ms: int, now: int) returns (reply: Result<(), AsyncError>)
      modifies this`store
      ensures Answer(Now(), reply) == Serve(recover, old(Now()), SetTurnClock(id, ms), now)
    {
      if id !in store { return Err(NoSuchMatch); }
      SaveRecord(store[id].(turnClockMs := Some(ms), updatedAt := now));
      return Ok(());
    }

    method Claim(id: nat, claimant: Player, graceMs: int, now: int) returns (reply: Result<(), AsyncError>)
      modifies this`store, this`reports
      ensures Answer(Now(), reply) == Serve(recover, old(Now()), Request.ClaimTimeout(id, claimant, graceMs), now)
    {
      hide Step, Rebuilt;
      if id !in store { return Err(NoSuchMatch); }
      var rec := store[id];
      if rec.mode != Casual { return Err(Staked); }
      if rec.player1 == ZERO { return Err(NoOpponentYet); }
      var loaded := Match.Rehydrate(rec.snapshot, recover);
      if loaded.Err? { return Err(ByReplay(loaded.error)); }
      var m := loaded.value;
      if m.state.over { return Err(MatchIsOver); }
      if m.state.turn == claimant { return Err(YourTurn); }
      var grace := if rec.turnClockMs.Some? then rec.turnClockMs.value else graceMs;
      if now - rec.updatedAt < grace { return Err(StillTime); }
      var next := m.Forfeit(m.state.turn);
      if next.Err? { return Err(ByMatch(next.error)); }
      Store(m, rec, now);
      return Ok(());
    }
  }
}
