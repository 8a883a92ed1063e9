# Awalé On-Chain: a verified model

This project models the off-chain core of Awalé On-Chain in Dafny and proves what
its parts promise each other:

- the deterministic rule engine and the adjudication of whole games;
- the game search (negamax with alpha-beta pruning), the anti-cheat ranking and the bot's move;
- match orchestration with signed moves, snapshots and restarts, and the
  correspondence service built on it;
- the prize arithmetic: the Merkle tree of claims, the season split, the weekly
  prizes, and the weekly pool followed over whole runs;
- matchmaking: the pairing rule, the sweep and the waiting queue.

## How it is organised

| file | contents |
|---|---|
| Rules.dfy | the rules as a specification: sowing in closed form, captures by the pits they empty |
| Engine.dfy | the engine's loops over arrays and its record updated in place, proved against Rules |
| Laws.dfy | conservation, progress, endings and the length of games |
| Adjudication.dfy | position keys, whole-history repetition, and the loop that forgets at captures |
| Symmetry.dfy | the two players are interchangeable |
| Search.dfy | evaluation, plain negamax, alpha-beta, forced wins, ranking, the bot's choice |
| Matches.dfy | the live match, its runs, snapshots and restarts |
| CycleGame.dfy | a whole game that the repetition rule ends, played as a match |
| AsyncMatches.dfy | the correspondence service over its in-memory store |
| PrizeTree.dfy, SeasonPrizes.dfy | the prize tree and the season split |
| WeeklyPrizes.dfy, WeeklyLeague.dfy | the weekly split and the league |
| LeagueBooks.dfy | the league over whole runs: where money goes |
| LeaguePoints.dfy | the league over whole runs: what entries hold, counted from the events alone |
| Pairing.dfy, Matchmaking.dfy | who is paired with whom, and the queue |
| Text.dfy, Sorting.dfy, Greedy.dfy, Apportion.dfy, OrderedMap.dfy, Wrappers.dfy | keys and text, the stable sort, greedy choice, floor division, ordered tables, results |

Where the program loops over arrays or changes fields, the model has methods with
loops and classes; each is proved equal to a function of its inputs or of the old
state, and the laws are proved about those functions. Whole runs are sequences of
commands or events. Thrown errors are `Err` values.

## What the proofs show about the code

- The search is exact: with an open window alpha-beta returns the plain negamax
  value at every depth, and on every position a game can reach that value is the
  winning score exactly when the side to move can force a win within the depth.
- Forgetting the repetition map at a capture changes no result.
- `resolve` tests whether the player to move has an empty row; after a move this
  never holds, because of the feeding rule and the grand-slam rule.
- A restart is not quite invisible. A match that the repetition rule ended comes
  back with the position it was swept from instead of the swept board (who won, the
  moves and the signatures are the same); `CycleGame.ACycleEndsAMatch` is a 40-ply
  match that shows it. And a pending draw offer is lost: all later replies are what
  they would have been exactly when nobody accepts that offer before a new one is
  made (`Matches.EveryRestartIsInvisibleIff`); `Matches.AnOfferIsLost` is a
  run where an acceptance is refused. The comment at
  packages/game-server/src/match.ts:49-52 says a naturally ended match needs no
  recorded outcome because replay reaches the end; for a repetition ending replay
  does not, and the recorded outcome is what keeps the match over.
- The comment at packages/game-server/src/weekly-league.ts:329-336 says a rollover
  never drops funds. A week can be paid only while it is open, and opened only while
  the clock has not gone past it (`LeagueBooks.WeekOpensIff`,
  `LeagueBooks.MissedWeeksAreNeverPaid`). Over every run, all money that came in is
  paid or can still be paid exactly when no event fails a guard on the state before
  it (`LeagueBooks.NothingIsLostIff`). The guards, with a run that fails each:
  - a contribution goes to a week that can still be opened. The backfill at
    packages/game-server/src/main.ts:1600-1602 credits earlier weeks on purpose, and
    then adds to a pool that is never paid (`LeagueBooks.ContributionIsLiveIff`,
    `LeagueBooks.LateSettlementLosesItsContribution`,
    `LeagueBooks.PassedWeekLosesItsContribution`);
  - the clock passes no week that holds money without being open, be it skipped
    between two rollovers or earlier than the first one
    (`LeagueBooks.SkippedWeekLosesItsPool`,
    `LeagueBooks.FirstRolloverLosesEarlierWeeks`);
  - the carry limit does not clip the pool that is closed
    (`LeagueBooks.CarryLimitLosesMoney`); this guard and the one before are exact for
    every rollover (`LeagueBooks.RolloverDropsNothingIff`);
  - the operator's override replaces no pool that holds money
    (`LeagueBooks.OverrideErasesRake`).
- Points cannot be farmed or lost: over every run an entry holds exactly the bonuses
  of its first referrals up to the cap and three points for each win among the first
  so many games against its opponent (`LeaguePoints.EntriesAreExact`).
- Amounts of different tokens meet in one pool: the books of a single token balance
  over every run in which no game or carry joins it with another, and an event that
  does so is exactly what breaks them (`LeagueBooks.StepBalancesIff`,
  `LeagueBooks.MixedTokensDoNotBalance`).
- A claim for as many units as some digest has a leaf that reads as an inner node, so
  a proof can run through it. Exactly the positive claims verify, besides what
  climbs to the amount of one, and no amount below 2 to the power 160 can be climbed
  to (`PrizeTree.ExactlyTheClaimsVerify`, `PrizeTree.ADigestAsAmountVerifies`).
- The season split hands out the whole pot exactly when no account that has a share
  is listed again later (`SeasonPrizes.SplitIsExactIff`,
  `SeasonPrizes.RepeatedAccountLosesMoney`); distinct accounts always get all of it.
  Its comparison puts each of two equal players before the other; whatever order the
  sort leaves, a top player is first, and any of them may be
  (`SeasonPrizes.HeadIsTop`, `SeasonPrizes.AnyTopCanLead`).
- The sweep removes by id, and the casual queue
  (packages/game-server/src/server.ts:544-549) does not take out an earlier entry of
  the same connection, so one id can wait twice. Then one id can be put in two pairs
  (`Matchmaking.OneIdInTwoPairs`), and a sweep drops whoever shares an id with
  somebody it pairs, and nobody else (`Matchmaking.SweepLosesNobodyIff`,
  `Matchmaking.OneIdDropped`). No id ever waits twice exactly when no arrival that
  finds no partner has an id that is waiting already
  (`Matchmaking.NoIdWaitsTwiceIff`). The staked queue takes the earlier entry out first
  (packages/game-server/src/server.ts:600-618), and for it nobody is ever dropped
  (`Matchmaking.NewcomersKeepEveryone`).
- Comments that disagree with the code, where the model follows the code: draws add
  no points (packages/game-server/src/weekly-league.ts:215 against line 63); the
  podium bonus is 250, 150 and 100 basis points for the first three ranks
  (lines 331 and 353 against line 69); the pool share is 45 percent by default
  (line 179 against line 97).

## Model

| member | source | states |
|---|---|---|
| Engine.RowSum | packages/engine/src/awale.ts:53-58 | the loop returns the seeds of the player's six houses |
| Engine.Sow | packages/engine/src/awale.ts:61-73 | the seed-by-seed loop, which skips the origin on every lap, terminates and gives the closed form: origin empty, each other pit a full share of the laps plus one more for the nearest; and the pit the last seed reached |
| Engine.Capture | packages/engine/src/awale.ts:76-100 | the two backward passes empty exactly the unbroken run of twos and threes that ends at the last pit in the opponent's row, and nothing when that is no seed or every seed of the row |
| Engine.CountRun | packages/engine/src/awale.ts:82-87 | the first pass counts the seeds of that run |
| Engine.LegalMovesMask | packages/engine/src/awale.ts:103-118 | bit h is set exactly when house h is legal, no bit above 5 is ever set, and the mask is zero exactly when there is no move |
| Engine.IsLegal | packages/engine/src/awale.ts:121-124 | answers legality for every house number, including those off the board |
| Engine.GameRecord.Finish | packages/engine/src/awale.ts:126-131 | in place: over, won by the fuller store, drawn when equal |
| Engine.GameRecord.ZeroBoard | packages/engine/src/awale.ts:133-135 | in place: every pit empty, nothing else changed |
| Engine.GameRecord.Resolve | packages/engine/src/awale.ts:138-168 | in place: the first terminal condition that holds, in the source's order, and otherwise no change |
| Engine.Advance | packages/engine/src/awale.ts:179-201 | the record built by a move: sown and captured board, the mover's store credited, turn passed, streak reset on a capture |
| Engine.ApplyMove | packages/engine/src/awale.ts:175-205 | the next position, or the first of the four errors that applies |
| Laws.SowKeepsTotal | packages/engine/src/awale.ts:61-73 | sowing any number of seeds from any pit keeps the number on the board |
| Laws.SowingInNumbers | packages/engine/src/awale.ts:61-73 | the pit d places on from the origin gets the seeds number d, d + 11, d + 22 and so on, and the origin is empty |
| Laws.CaptureLaw | packages/engine/src/awale.ts:76-100 | a capture takes nothing or at least two seeds, only from the other row, and never the last of them |
| Laws.CaptureInNumbers | packages/engine/src/awale.ts:76-100 | exactly the unbroken run of pits holding two or three, back from the last one in the other row, is emptied and banked; nothing when no other seed of that row would be left |
| Laws.AdvanceLaw | packages/engine/src/awale.ts:175-201 | on every legal move: seeds conserved, only the mover's store grows and by the seeds captured, the next player has a seed, the no-capture streak is counted exactly |
| Laws.EmptyRowNeverEndsAMove | packages/engine/src/awale.ts:142-149 | the empty-row ending of `resolve` is never taken on a move |
| Laws.ApplyIsLegal | packages/engine/src/awale.ts:103-205 | a move is accepted exactly when it is legal, so mask and move agree |
| Laws.ErrorsInNumbers | packages/engine/src/awale.ts:175-183 | which of the four errors a refused move gets, and exactly when |
| Laws.ApplyLaw | packages/engine/src/awale.ts:175-205 | an accepted move passes the turn, shrinks no store, loses no seed, and leads to a sound position: a running game has a legal move, no majority and a streak below the limit; a finished one is won by the fuller store with a majority or a swept board |
| Laws.MoveEndsIff | packages/engine/src/awale.ts:138-168 | a move ends the game exactly when it brings a store to 25, leaves the other player nothing to play, or is the fortieth in a row without a capture |
| Laws.TwentyFiveWins | packages/engine/src/awale.ts:139-141 | a store that reaches 25 wins at once, with the captured board kept |
| Laws.OtherwiseRowsAreBanked | packages/engine/src/awale.ts:142-167 | any other ending clears the board and gives each side the seeds of its own row |
| Laws.SweepsBankOwnRows | packages/engine/src/awale.ts:138-168 | starvation and the no-capture limit both give each side the seeds of its own row; a majority ends the game with the board untouched |
| Laws.SoundWinner | packages/engine/src/awale.ts:126-131 | a winner holds at least 25 seeds and a draw is exactly 24 to 24 on an empty board |
| Laws.EndKindTellsTheEnding | packages/engine/src/awale.ts:302-311 | a finished move reads as a capture ending exactly for a majority and as swept exactly for starvation and the no-capture limit |
| Laws.MeasureDecreases | packages/engine/src/awale.ts:175-205 | every accepted move, from any position at all, decreases one measure, so no line of play is endless |
| Laws.PlayKeepsSound | packages/engine/src/awale.ts:175-205 | along every line of play: soundness, turn by parity, stores that only grow, and a budget of plies that is used up |
| Laws.PlayStaysInBounds | packages/engine/src/awale.ts:138-205 | along every line of play nobody goes on with 25 seeds or after 40 moves without a capture, and an ended game belongs to the fuller store |
| Laws.GameLength | packages/engine/src/awale.ts:24-27 | no line of accepted moves from the opening is longer than 960 plies |
| Adjudication.KeyIsThePosition | packages/engine/src/awale.ts:207-212 | two positions have the same key text exactly when board and player to move are the same |
| Adjudication.NoReturn | packages/engine/src/awale.ts:239-241 | a position with fewer seeds on it than the current board has never been met, so no position recurs across a capture |
| Adjudication.RunningIsPlay | packages/engine/src/awale.ts:231-238 | while a game runs, adjudication is plain play of the base rules |
| Adjudication.AdjudicateKeepsSound | packages/engine/src/awale.ts:243-263 | every adjudicated position holds 48 seeds and is sound, and stores never shrink from ply to ply |
| Adjudication.AdjudicateStaysInBounds | packages/engine/src/awale.ts:243-263 | the same bounds for every adjudicated move list |
| Adjudication.ThreefoldEndsIff | packages/engine/src/awale.ts:243-261 | a move that does not end the game by the rules ends it exactly when the same board with the same player to move stood at two different earlier plies |
| Adjudication.VisitsCountPlies | packages/engine/src/awale.ts:233-261 | the count of a position is the number of plies, the opening included, after which it stood |
| Adjudication.NothingThriceWhileRunning | packages/engine/src/awale.ts:248-261 | while a game runs, no position at all has been met three times |
| Adjudication.SweptIsSound | packages/engine/src/awale.ts:214-229 | ending a cycle keeps all 48 seeds, shrinks no store, clears the board and names the fuller store |
| Adjudication.EndKindOfAnAdjudicatedGame | packages/engine/src/awale.ts:302-311 | a finished game reads as a capture ending exactly when its last move gave a majority, and as swept exactly for starvation, the no-capture limit and the third occurrence |
| Adjudication.DecidedPrefix | packages/engine/src/awale.ts:248-261 | a decided or rejected prefix fixes the result, whatever follows |
| Adjudication.AdjudicateGame | packages/engine/src/awale.ts:243-263 | the loop that clears its map at every capture returns the result of counting each position over the whole history |
| Adjudication.RepetitionsAreZeroIffOver | packages/engine/src/awale.ts:272-300 | the repetition count is 0 exactly when the game is over, and 1 or 2 while it runs: the third occurrence ends the game |
| Adjudication.RepetitionCount | packages/engine/src/awale.ts:277-300 | the loop returns the exact number of occurrences of the current position over the whole history, or 0 when adjudication says the game is over |
| Symmetry.MirrorApply | packages/engine/src/awale.ts:175-205 | turning the board round, with stores, turn and winner, commutes with a move, errors included |
| Symmetry.MirrorSown | packages/engine/src/awale.ts:61-73 | sowing and the last pit commute with turning the board round |
| Symmetry.MirrorHarvested | packages/engine/src/awale.ts:76-100 | the captured run commutes with turning the board round |
| Symmetry.MirrorAdjudicate | packages/engine/src/awale.ts:243-263 | every move list adjudicates to the mirror image when the other player starts |
| Search.Evaluate | packages/engine/src/ai.ts:30-47 | the loop returns the heuristic of the stores, rows and threatened houses, or the score of a finished game |
| Search.StoresCount18 | packages/engine/src/ai.ts:35-37 | of two running positions with one board, each seed more in a store counts 18 for its owner and 18 against the other |
| Search.PitsCount | packages/engine/src/ai.ts:38-45 | of two running positions that differ in one pit, each seed more there counts one for its side and one against, and a pit that holds one or two counts two more for the other side |
| Search.EvenIsZero | packages/engine/src/ai.ts:30-47 | an empty board with even stores is worth nothing, so the two laws above fix every value of a running position |
| Search.FinishedCounts | packages/engine/src/ai.ts:31-34 | a finished game is worth a million to its winner, minus a million to the loser, and nothing when drawn |
| Search.HeuristicIsSmall | packages/engine/src/ai.ts:30-47 | on 48 seeds the heuristic stays below 1000 in size, far from the winning score |
| Search.LeadOfThreeIsAhead | packages/engine/src/ai.ts:36-37 | on 48 seeds a lead of three in the stores outweighs everything on the board |
| Search.ListLegalHouses | packages/engine/src/ai.ts:15-20 | the houses read off the mask are exactly the legal ones, in increasing order |
| Search.BestReplyIsGreatest | packages/engine/src/ai.ts:61-73 | the plain negamax value is reached by a legal house and exceeded by none |
| Search.ValueIsMinimax | packages/engine/src/ai.ts:62-73 | the two equations that fix every value: a leaf is worth its evaluation to the side to move, any other position the best of its legal moves, each worth what it leaves the opponent, negated |
| Search.Negamax | packages/engine/src/ai.ts:62-73 | fail-soft alpha-beta: an upper bound on the plain value at or below alpha, a lower bound at or above beta, the plain value in between, for every position, depth and window; with no bounds the plain value itself |
| Search.ValueIsForcing | packages/engine/src/ai.ts:30-73 | on every sound position the value is the winning score exactly when the side to move can force a won end within the depth against every reply, and its negative exactly when the opponent can |
| Search.RankMoves | packages/engine/src/ai.ts:101-115 | every legal house once, best exact value first, lower house first on ties |
| Search.RankingInNumbers | packages/engine/src/ai.ts:101-115 | the first house ranked attains the value of the position, and each house leaves the opponent less than the next, or as much with a lower number |
| Search.RankingIsUnique | packages/engine/src/ai.ts:101-108 | only one list is a ranking, so the result is determined by the position and the depth |
| Search.ChooseMove | packages/engine/src/ai.ts:79-99 | -1 without moves, the only move, the blunder drawn among the legal houses, or the draw among the best houses |
| Search.BestHousesAreBest | packages/engine/src/ai.ts:86-98 | the best houses are exactly the legal houses that no legal house beats, and there is one |
| Search.BestHousesInNumbers | packages/engine/src/ai.ts:86-98 | the bot draws among the legal houses that leave the opponent least, each once, in increasing order |
| Search.PickInNumbers | packages/engine/src/ai.ts:98 | each candidate is drawn on an interval of the same length |
| Search.DifficultyInNumbers | packages/engine/src/ai.ts:10-11 | the depths 2, 5 and 8 and the blunder rates 0.35, 0.08 and 0 |
| Search.MirrorValue | packages/engine/src/ai.ts:62-73 | a position and its mirror image have the same value at every depth |
| Search.MirrorRanking | packages/engine/src/ai.ts:101-115 | a list ranks a position exactly when it ranks the mirror image |
| Matches.Match.constructor | packages/game-server/src/match.ts:67-74 | a new match is at the opening with the configured player to move |
| Matches.Match.SubmitMove | packages/game-server/src/match.ts:134-158 | refused in the source's order for an ended match, the wrong turn, a wrong signature or an illegal move, with nothing changed; otherwise the move and signature are appended and the whole history adjudicated |
| Matches.Match.Resign | packages/game-server/src/match.ts:166-175 | with the resigner's signature for this ply the opponent wins; otherwise nothing changes |
| Matches.Match.Forfeit | packages/game-server/src/match.ts:184-188 | a running match goes to the other player |
| Matches.Match.OfferDraw | packages/game-server/src/match.ts:191-199 | a signed offer is put on the table |
| Matches.Match.AcceptDraw | packages/game-server/src/match.ts:202-215 | only the other side's offer can be accepted, with a signature for this ply, and the match is drawn |
| Matches.TurnOfRunning | packages/game-server/src/match.ts:134-158 | the state of a running match is the adjudication of its moves, with the turn given by their parity |
| Matches.StepKeepsFaithful | packages/game-server/src/match.ts:134-215 | every command keeps the cached state equal to the adjudicated history up to a decided outcome, and a refused command changes nothing |
| Matches.MoveIsPlayedIff | packages/game-server/src/match.ts:134-158 | a move is appended exactly when it is the player's turn, signed for this ply and house, and legal; else refused in that order with nothing changed |
| Matches.ResignationEndsIff | packages/game-server/src/match.ts:166-175 | a resignation ends a running match, for the other player, exactly when its author signed it for this ply |
| Matches.ForfeitEnds | packages/game-server/src/match.ts:184-188 | a forfeit always ends a running match, for the other player |
| Matches.OfferStandsIff | packages/game-server/src/match.ts:191-199 | an offer stands exactly when signed for this ply, and changes nothing else |
| Matches.AcceptanceDrawsIff | packages/game-server/src/match.ts:202-215 | an acceptance draws the match exactly when the other side's offer stands and it is signed for this ply |
| Matches.OfferedAndAccepted | packages/game-server/src/match.ts:191-215 | an offer and its acceptance on one ply, each signed by its side, draw any running match |
| Matches.RunKeeps | packages/game-server/src/match.ts:134-227 | over every run: cached state equals replay, and signature i recovers, for ply i and move i, to the session of the player who moved |
| Matches.EndingsAreFinal | packages/game-server/src/match.ts:134-215 | once over, every command is refused and nothing changes, for ever |
| Matches.EveryEndingIsAuthorised | packages/game-server/src/match.ts:160-215 | every finished match was ended by one command: a move by the rules, a resignation signed by the loser, a draw signed by both players, or a forfeit; and has not changed since |
| Matches.Match.TakeSnapshot | packages/game-server/src/match.ts:235-249 | the snapshot holds the configuration, moves, signatures and the winner of an ended match |
| Matches.Match.Rehydrate | packages/game-server/src/match.ts:252-271 | for any snapshot: the replay loop rebuilds the match by the base rules, one signature slot for each move, applies the recorded outcome when the replay has not ended, and fails exactly when a move is refused |
| Matches.ReplayOfAccepted | packages/game-server/src/match.ts:260-264 | replaying an accepted game never fails, and reaches the adjudicated position or, after a repetition ending, the one it swept |
| Matches.RestartKeepsTheMatch | packages/game-server/src/match.ts:235-271 | rebuilding succeeds, keeps moves, signatures, turn, ending and winner, keeps the whole position exactly when the repetition rule did not end the game, and snapshots to the same snapshot |
| Matches.EveryRestartKeepsTheMatch | packages/game-server/src/match.ts:235-271 | the same for the match reached by any run of commands |
| Matches.NextCommandAfterRestart | packages/game-server/src/match.ts:202-206 | a running match and its rebuilt copy answer a command alike exactly when it does not accept a draw offered before the restart, and then agree up to the offer; they part exactly when such an acceptance is granted |
| Matches.EveryRestartIsInvisibleIff | packages/game-server/src/match.ts:251-271 | wherever a run is interrupted, all later replies are what they would have been exactly when no command accepts the draw offered before, ahead of any new offer; a match still running then stays equal up to that offer, and equal outright from the first new one |
| Matches.AnOfferIsLost | packages/game-server/src/match.ts:202-206 | a run in which a restart turns an agreed draw into a refusal |
| CycleGame.ACycleEndsAMatch | packages/game-server/src/match.ts:251-271 | forty signed moves from the opening end a match by the repetition rule; the rebuilt match is over with the same winner but another position |
| AsyncMatches.AsyncMatchService.CreateMatch | packages/game-server/src/async-match.ts:63-89 | stores a new match under its id |
| AsyncMatches.AsyncMatchService.OpenMatch | packages/game-server/src/async-match.ts:95-121 | stores an invitation with the second player and session left open |
| AsyncMatches.AsyncMatchService.JoinMatch | packages/game-server/src/async-match.ts:124-134 | refused for an unknown or full match or the creator; otherwise binds the second player and session |
| AsyncMatches.AsyncMatchService.PlayMove | packages/game-server/src/async-match.ts:158-182 | the rebuilt match decides the move; it is saved, and reported when it ends the game |
| AsyncMatches.AsyncMatchService.LeaveMatch | packages/game-server/src/async-match.ts:193-222 | casual matches with two players only; the signed resignation is saved and reported |
| AsyncMatches.AsyncMatchService.SetClock | packages/game-server/src/async-match.ts:230-236 | sets the claim window and restarts it |
| AsyncMatches.AsyncMatchService.Claim | packages/game-server/src/async-match.ts:245-269 | the walkover conditions in the source's order, then a forfeit of the player to move |
| AsyncMatches.NewRecords | packages/game-server/src/async-match.ts:63-121 | a new record holds its configuration with no move, no ending and no clock of its own; an invitation differs in the open second seat and session only |
| AsyncMatches.SeatIsTakenIff | packages/game-server/src/async-match.ts:124-134 | a seat is taken exactly when the match exists, the seat is open and the joiner is not the creator; only seat, session and time change |
| AsyncMatches.MoveIsStoredIff | packages/game-server/src/async-match.ts:158-182 | in every consistent store a move is stored exactly when the match runs, it is the player's turn, the house is legal and the signature is for this ply; it is appended and nothing else of the record changes but ply, turn, ending and time |
| AsyncMatches.LeavingEndsIff | packages/game-server/src/async-match.ts:193-222 | leaving succeeds exactly for a running casual match with two players and a signature for this ply; the stored match is then over and won by the other player |
| AsyncMatches.ClockIsSetIff | packages/game-server/src/async-match.ts:230-236 | a window can be set for every stored match, and changes the window and the time of the record only |
| AsyncMatches.ClaimIsGrantedIff | packages/game-server/src/async-match.ts:245-269 | a walkover is granted exactly for a running casual match with two players, to the one not to move, once the record is older than its window; it is then stored as over and won by the claimant |
| AsyncMatches.RecordsStayInSync | packages/game-server/src/async-match.ts:63-269 | over every run, every stored record can be rebuilt, and its stored turn, ending and ply are those of the rebuilt match |
| AsyncMatches.EndingsAreReportedOnce | packages/game-server/src/async-match.ts:54-60 | a request reports a result exactly when it ends a casual match with two players, with the winner that is stored; a stored ending is not undone |
| AsyncMatches.AtMostOneReport | packages/game-server/src/async-match.ts:54-269 | over any requests that do not create the match anew, its result is reported at most once, and only when it was running before and is over after |
| AsyncMatches.OtherMatchesStay | packages/game-server/src/async-match.ts:63-269 | a request changes no record but that of its own match |
| AsyncMatches.StoredMovesAreSigned | packages/game-server/src/async-match.ts:63-222 | over every run in which nobody plays as the zero address, each stored move is signed, for its ply and house, by the stored session of the player who moved, joins included |
| AsyncMatches.ClaimantWins | packages/game-server/src/async-match.ts:238-269 | a granted walkover goes to the player who claimed it |
| PrizeTree.FilterPositive | packages/game-server/src/league.ts:31 | keeps exactly the claims with a positive amount, in order |
| PrizeTree.PairUp | packages/game-server/src/league.ts:38-43 | one layer from the one below: neighbours hashed in sorted order, an odd node carried up |
| PrizeTree.CollectProof | packages/game-server/src/league.ts:48-55 | the siblings on the way from a leaf to the root |
| PrizeTree.BuildPrizeTree | packages/game-server/src/league.ts:30-60 | the root over the positive claims and a proof for each; the zero root when there is none |
| PrizeTree.VerifyProof | packages/game-server/src/league.ts:63-67 | accepts exactly when the leaf climbs to the root |
| PrizeTree.HashesInNumbers | packages/game-server/src/league.ts:21-27 | a leaf hashes the account's word and the amount in this order, and a pair the smaller digest first |
| PrizeTree.RootOfThree | packages/game-server/src/league.ts:34-46 | the root over three claims: the first two paired, the third carried up |
| PrizeTree.RootOfNone | packages/game-server/src/league.ts:31-33 | without a positive claim the tree is empty and its root is zero |
| PrizeTree.EveryProofVerifies | packages/game-server/src/league.ts:29-67 | every proof built verifies, for any number of claims and any hash |
| PrizeTree.ProofsAreShort | packages/game-server/src/league.ts:47-57 | with at most 2^k leaves a proof has at most k steps |
| PrizeTree.SameWordIff | packages/game-server/src/league.ts:21-23 | two addresses are encoded as the same word exactly when they differ in letter case only, and every address stays below 2 to the power 160 |
| PrizeTree.ExactlyTheClaimsVerify | packages/game-server/src/league.ts:21-67 | with one collision-free hash for leaves and inner nodes alike, some proof verifies an account and amount against the root exactly when a positive claim names that account, in either letter case, with that amount, or their leaf climbs to the amount of a positive claim; the latter never happens for amounts below 2 to the power 160 |
| PrizeTree.ADigestAsAmountVerifies | packages/game-server/src/league.ts:21-27 | the bound is needed: beside a claim for as many units as the digest of a leaf, a proof of one step verifies that leaf |
| PrizeTree.CollisionFreeHashersExist | packages/game-server/src/league.ts:21-27 | hash functions as assumed there exist |
| SeasonPrizes.HeadIsTop | packages/game-server/src/league.ts:90 | whatever order the comparison lets the sort leave, the first is a player nobody ranks above |
| SeasonPrizes.AnyTopCanLead | packages/game-server/src/league.ts:90 | and every such player is first in some order the comparison allows |
| SeasonPrizes.SplitPrizes | packages/game-server/src/league.ts:75-105 | nothing without a pot, players or weight; otherwise the floor shares keyed by lower-case account with the remainder given to the head of the sorted players, whom nobody ranks above |
| SeasonPrizes.WinsElseDeposits | packages/game-server/src/league.ts:79-88 | wins are the weights as soon as anybody has one, and deposits when nobody has |
| SeasonPrizes.RepeatedAccountLosesMoney | packages/game-server/src/league.ts:91-104 | two standings of one account: less than the pot is handed out |
| SeasonPrizes.SplitIsExactIff | packages/game-server/src/league.ts:91-104 | the claims never exceed the pot, and add up to it exactly when every account listed again later has a share below one unit |
| SeasonPrizes.RemainderIsSmall | packages/game-server/src/league.ts:98-103 | the remainder is smaller than the number of standings |
| SeasonPrizes.DistinctAwards | packages/game-server/src/league.ts:91-104 | with distinct accounts each gets its floor share in the order given, and the top player the remainder besides |
| SeasonPrizes.AwardsInNumbers | packages/game-server/src/league.ts:91-104 | with distinct accounts all but the top player get the pot times weight by total weight, rounded down, and the claims add up to the pot |
| SeasonPrizes.MoreWeightNeverPaysLess | packages/game-server/src/league.ts:69-74 | with distinct accounts nobody with less weight is paid more |
| SeasonPrizes.PositiveKeepsTheTotal | packages/game-server/src/league.ts:30-31 | dropping empty claims from the tree changes no total |
| Apportion.SharesNearlyExhaustThePot | packages/game-server/src/league.ts:93-97 | floor shares of a pot never exceed it and fall short of it by fewer units than there are recipients |
| WeeklyPrizes.ComputePrizes | packages/game-server/src/weekly-league.ts:82-92 | podium bonus plus the dividend share of each rank, empty prizes left out |
| WeeklyPrizes.PrizeInNumbers | packages/game-server/src/weekly-league.ts:67-76 | 95 percent of the pool by points, rounded down, and 2.5, 1.5 and 1 percent besides for the first three |
| WeeklyPrizes.PrizesFitThePool | packages/game-server/src/weekly-league.ts:67-92 | the prizes never exceed the pool; with three ranked players and a point scored, at most one unit per player and three more are left over |
| WeeklyPrizes.PrizesFollowRank | packages/game-server/src/weekly-league.ts:70-76 | a better rank is never due less |
| WeeklyPrizes.WinnersAreAPrefix | packages/game-server/src/weekly-league.ts:86-91 | the winners are the first ranks in order, so a place in the list is the rank (the crediting code in packages/game-server/src/main.ts:1709-1722 relies on it) |
| WeeklyLeague.StandingsAreOrdered | packages/game-server/src/weekly-league.ts:268-276 | the standings are the eligible players, each once, none ahead of an earlier one, so in order of points |
| WeeklyLeague.StandingsInNumbers | packages/game-server/src/weekly-league.ts:268-276 | the standings hold exactly the players with enough games; more points come first, then more wins, then fewer games, then the earlier address |
| WeeklyLeague.WeeklyLeague.RecordGame | packages/game-server/src/weekly-league.ts:217-247 | self-play changes nothing; otherwise both entries, the pool and the token of the week are updated |
| WeeklyLeague.WeeklyLeague.AddReferralBonus | packages/game-server/src/weekly-league.ts:255-265 | adds the points and counts the bonus, or refuses at the weekly cap and changes nothing |
| WeeklyLeague.PlayedInNumbers | packages/game-server/src/weekly-league.ts:229-239 | a game counts one game and one meeting, a win one win, and three points while meetings are below the cap |
| WeeklyLeague.ContributionInNumbers | packages/game-server/src/weekly-league.ts:241-245 | a drawn game adds nothing to the pool, a won one its share of the rake rounded down |
| LeaguePoints.EntriesAreExact | packages/game-server/src/weekly-league.ts:217-265 | over every run, for every player and week: points are the bonuses of the first referrals up to the cap plus three for each win among the first so many games against its opponent, and games, wins and meetings are those of the games settled |
| WeeklyLeague.PlayedStaysEarned | packages/game-server/src/weekly-league.ts:229-239 | a game keeps an entry's points, beyond its bonuses, within three per win and three per capped win against each opponent, and counts the opponent once more |
| LeaguePoints.PointsAreAlwaysEarned | packages/game-server/src/weekly-league.ts:217-265 | over every run, for every player and week: points are at least the bonuses granted, and at most those and three per win, and those and three per capped win against each opponent; the bonuses counted are those granted, never more than the weekly cap |
| WeeklyLeague.WeeklyLeague.ProvisionPool | packages/game-server/src/weekly-league.ts:317-327 | sets the pool outright, or refuses another token and changes nothing |
| WeeklyLeague.OverrideInNumbers | packages/game-server/src/weekly-league.ts:306-327 | refused exactly for another token than the week's, letter case aside; otherwise the pool is the amount, repeating it changes nothing, the players stay, and with no pool share later games leave it there |
| WeeklyLeague.WeeklyLeague.RollOver | packages/game-server/src/weekly-league.ts:337-375 | nothing in the open week, adoption at first boot, otherwise pays what is due, carries the rest up to the limit and opens the new week |
| WeeklyLeague.PaidFitsThePool | packages/game-server/src/weekly-league.ts:350-362 | a callback that pays only what is due never pays more than the pool, so the carry is never negative |
| WeeklyLeague.RolloverConserves | packages/game-server/src/weekly-league.ts:337-375 | the old pool and what the new week already held equal what is paid, the new pool and what the limit clipped; a second rollover in the week changes nothing |
| WeeklyLeague.ClosingIsRecorded | packages/game-server/src/weekly-league.ts:350-374 | the history entry of a close holds the closed week with its pool and token, and as winners what the callback answered to the prizes of the standings; what it does not show as paid is in the new week's pool, up to the limit |
| LeagueBooks.RolloverDropsNothingIff | packages/game-server/src/weekly-league.ts:329-369 | every rollover, the first included, keeps each unpaid unit in a pool that can still be paid exactly when the carry limit does not bite and the clock passes no week but the open one that holds money |
| LeagueBooks.ContributionIsLiveIff | packages/game-server/src/weekly-league.ts:217-247 | a settlement's contribution reaches a pool that can still be paid exactly when it is none, or its week is open or not passed by the clock; otherwise all of it is stranded |
| LeagueBooks.WeekOpensIff | packages/game-server/src/weekly-league.ts:337-375 | from any state, some course of events opens a week exactly when it is open now or the clock has not passed it |
| LeagueBooks.MissedWeeksAreNeverPaid | packages/game-server/src/weekly-league.ts:337-375 | whatever happens after, a passed week that is not open is never opened and its pool never shrinks |
| LeagueBooks.StepLosesNothingIff | packages/game-server/src/weekly-league.ts:217-375 | an event loses nothing exactly when its guard holds before it, and losses never come back |
| LeagueBooks.NothingIsLostIff | packages/game-server/src/weekly-league.ts:217-375 | over every run, what came in is paid or can still be paid exactly when every event met its guard |
| LeagueBooks.FirstRolloverLosesEarlierWeeks | packages/game-server/src/weekly-league.ts:344-348 | a run in which the first rollover adopts a week later than one that holds money |
| LeagueBooks.PassedWeekLosesItsContribution | packages/game-server/src/main.ts:1600-1602 | a run in which a game is credited to a week that is passed though none later is open |
| LeagueBooks.OverrideErasesRake | packages/game-server/src/weekly-league.ts:306-327 | a run in which the override replaces a pool of rake by nothing |
| LeagueBooks.SkippedWeekLosesItsPool | packages/game-server/src/weekly-league.ts:337-375 | a run in which a skipped week keeps its pool |
| LeagueBooks.CarryLimitLosesMoney | packages/game-server/src/weekly-league.ts:361-362 | a run in which the carry limit clips a pool |
| LeagueBooks.LateSettlementLosesItsContribution | packages/game-server/src/main.ts:1600-1602 | a run in which a game is credited to a week that is already closed |
| LeagueBooks.BooksAlwaysBalance | packages/game-server/src/weekly-league.ts:217-375 | over every run, games credited to any week: rakes and operator money in equal money paid, clipped, overwritten, stranded in weeks that can no longer be opened, and held in those that can |
| LeagueBooks.StepBalancesIff | packages/game-server/src/weekly-league.ts:241-247 | counting one token only, an event leaves the balance of the books as it was exactly when it does not add a counted amount to a pool of another token, or the reverse |
| LeagueBooks.UnmixedBooksBalance | packages/game-server/src/weekly-league.ts:217-375 | the books of one token balance over every run without such an event |
| LeagueBooks.MixedTokensDoNotBalance | packages/game-server/src/weekly-league.ts:241-246 | two games of one week in different tokens unbalance the books of the first |
| LeagueBooks.ContributionsArePaidOrPooled | packages/game-server/src/weekly-league.ts:217-375 | without a limit or an override and with games credited to the open week, every contribution is paid or in the open pool |
| Pairing.AcceptanceIsMutual | packages/game-server/src/pairing-core.ts:51-64 | acceptance does not depend on the order of the two |
| Pairing.WaitingOnlyHelps | packages/game-server/src/pairing-core.ts:42-64 | an acceptable pair stays acceptable as time passes |
| Pairing.StrictIsStricter | packages/game-server/src/pairing-core.ts:21-27 | whoever the strict rule pairs, the lenient rule pairs |
| Pairing.AcceptsIff | packages/game-server/src/pairing-core.ts:51-64 | two may be paired exactly when wallets differ, the ceiling allows the gap, and one has waited past the backstop or the gap is within the reach of both under the strict rule, of either under the lenient |
| Pairing.WhoDecides | packages/game-server/src/pairing-core.ts:21-27 | short of the backstop the window of the later arrival decides under the strict rule and that of the earlier under the lenient, in both directions |
| Pairing.PastTheBackstop | packages/game-server/src/pairing-core.ts:58-60 | once one has waited past the backstop, only wallets and ceiling count |
| Pairing.FreshPlayerIsSpared | packages/game-server/src/pairing-core.ts:24-26 | under the cash rule a newcomer is not paired 300 points away with somebody who waited a minute, and is once it waited as well |
| Pairing.BestMatchFor | packages/game-server/src/pairing-core.ts:67-79 | the loop returns the earliest of the closest acceptable waiters |
| Pairing.BestIndexIsBest | packages/game-server/src/pairing-core.ts:66-79 | none when nobody is acceptable; otherwise no acceptable waiter is closer and no earlier one is as close |
| Pairing.KeyNamesTheWallets | packages/game-server/src/pairing-core.ts:81-88 | equal keys name the same two wallets |
| Pairing.PairingIsSymmetric | packages/game-server/src/pairing-core.ts:81-97 | gap, key and ordered pair do not depend on the order of two different wallets |
| Pairing.EarlierComesFirst | packages/game-server/src/pairing-core.ts:90-97 | the first of a pair is the earlier arrival, on a tie the lower wallet |
| Pairing.SelectPairings | packages/game-server/src/pairing-core.ts:101-122 | all acceptable pairs, sorted by gap and key, taken greedily without reusing a waiter |
| Pairing.ChosenIsAStableMatching | packages/game-server/src/pairing-core.ts:99-122 | the chosen pairs are acceptable and disjoint, and every acceptable pair left out shares a waiter with a chosen one at least as close |
| Pairing.SweptPairsMayPair | packages/game-server/src/pairing-core.ts:101-122 | every pair a sweep makes meets the pairing rule in numbers |
| Pairing.LeftOutForCloser | packages/game-server/src/pairing-core.ts:81-122 | an acceptable pair is left out only for one that shares a waiter and is no wider apart, and if just as wide has no later arrival |
| Pairing.OrderOfTheQueueDoesNotMatter | packages/game-server/src/pairing-core.ts:81-122 | with distinct wallets, every permutation of the queue gives the same pairs in the same order |
| Matchmaking.Matchmaker.Enqueue | packages/game-server/src/matchmaking.ts:51-60 | the newcomer takes the best match out of the queue or joins its end |
| Matchmaking.Matchmaker.Sweep | packages/game-server/src/matchmaking.ts:70-83 | the selected pairs leave the queue and the others stay in order |
| Matchmaking.Matchmaker.Remove | packages/game-server/src/matchmaking.ts:86-91 | takes out the first waiter with the id and says whether there was one |
| Matchmaking.NewcomerTakesTheClosest | packages/game-server/src/matchmaking.ts:51-60 | the newcomer takes the earliest of the closest waiters the rule allows, and joins the end exactly when it allows none |
| Matchmaking.FirstIsFound | packages/game-server/src/matchmaking.ts:86-91 | the waiter taken out is the first with the id, and none is found exactly when nobody has it |
| Matchmaking.EveryPairIsByTheRule | packages/game-server/src/matchmaking.ts:51-83 | over every run, each pair was made at an arrival or a sweep at which the pairing rule in numbers allowed it |
| Matchmaking.SweepIsExhaustive | packages/game-server/src/matchmaking.ts:62-83 | after a sweep no two of those still waiting accept each other |
| Matchmaking.SweepAccountsForAll | packages/game-server/src/matchmaking.ts:70-83 | for any queue, those who stay, those paired and those dropped for a shared id are together everyone who waited |
| Matchmaking.SweepLosesNobodyIff | packages/game-server/src/matchmaking.ts:70-83 | those who stay and those paired are exactly those who waited, if and only if nobody left unpaired has the id of somebody paired |
| Matchmaking.SweepLosesNobody | packages/game-server/src/matchmaking.ts:70-83 | with distinct ids that is so, and nobody is paired twice |
| Matchmaking.EveryoneIsAccountedFor | packages/game-server/src/matchmaking.ts:47-91 | over every run, ids reused or not: each arrival is waiting, on one side of one pair, has left or was dropped by a sweep, and every pair is of two wallets within the rating ceiling |
| Matchmaking.NobodyIsDroppedIff | packages/game-server/src/matchmaking.ts:70-83 | over every run, somebody was dropped exactly when some sweep met an unpaired waiter with the id of a paired one |
| Matchmaking.NoIdWaitsTwiceIff | packages/game-server/src/matchmaking.ts:51-60 | over every run, no id ever waits twice exactly when no arrival that finds no partner has an id that is waiting already |
| Matchmaking.UniqueIdsKeepEveryone | packages/game-server/src/matchmaking.ts:70-83 | over every run in which no id waits twice, no sweep drops anybody |
| Matchmaking.NewcomersKeepEveryone | packages/game-server/src/server.ts:600-618 | if nobody queues under an id that is already waiting, as the staked queue arranges, no id waits twice and nobody is dropped |
| Matchmaking.OneIdInTwoPairs | packages/game-server/src/server.ts:544-549 | one connection queues twice, and the next two newcomers are both paired with it |
| Matchmaking.OneIdDropped | packages/game-server/src/server.ts:544-549 | one connection queues twice, and a sweep that pairs one entry drops the other |

## Left out

- Solidity contracts, the chain client, the HTTP and socket servers, Redis and Postgres stores, notifications, personhood checks and the mini-app: plumbing around these cores.
- Interleaving at `await` points: every method of a match, of the correspondence service and of the league is one atomic step.
- Move clocks and flag-fall of live matches: a forfeit is a command that may come at any time. The correspondence service is told the current time.
- Signature recovery and hash functions: both are parameters; what is signed is a symbolic value, different messages having different digests.
- Matches.Match.Rehydrate: where a snapshot has fewer signatures than moves, the program pushes undefined values; the model puts one fixed placeholder there.
- AsyncMatches.StoredMovesAreSigned: assumes that no signature recovers to the zero address and that nobody joins as it, for a match whose second seat is open has the zero session.
- Engine.ApplyMove: house numbers are natural numbers; negative or fractional ones, which no typed caller sends, are not modelled.
- Search.ChooseMove: the two random draws are parameters in [0, 1), so nothing is said about their distribution.
- Search.Evaluate: infinite window bounds are separate values, not floating-point infinities; the accept-a-draw helper over the evaluation would add only an easy member.
- PrizeTree.ExactlyTheClaimsVerify: assumes a hash without collisions whose digests are at least 2 to the power 160, which a 256-bit hash only approximates (such functions exist: PrizeTree.CollisionFreeHashersExist); accounts that are no address, and amounts outside 256 bits, for which the encoding throws, are not modelled; digests are numbers, so letter case in hexadecimal digests does not arise.
- SeasonPrizes.SplitPrizes: what the sort makes of an inconsistent comparison is a parameter, any order in which the comparison lets each two neighbours stand; wins and deposits are natural numbers.
- LeagueBooks.BooksAlwaysBalance: assumes that the clock by which rollovers and the operator run never goes back to an earlier week (games and bonuses may be credited to any week), and that the payout callback returns part of what is due, no entry twice; amounts and bonus points are natural numbers.
- Pairing.OrderOfTheQueueDoesNotMatter: asks that wallets contain no vertical bar, which hexadecimal addresses never do; ratings and arrival times are integers, windows are real numbers.
- Matchmaking.NewcomersKeepEveryone: that the staked queue keeps ids apart is read off its handler, whose other steps are not modelled.
- WeeklyLeague.StandingsAreOrdered: the last tie-break compares addresses character by character, which agrees with the locale comparison of the source on hexadecimal text.
- Calendar arithmetic for week keys: weeks are numbered.
- Elo updates, quests, stake bands, lobby listing and counters: small helpers with easy properties.
