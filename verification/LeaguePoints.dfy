/** Where the points of the weekly league come from: over every run, an entry holds
    exactly what the games settled and the friends referred so far amount to. */
module LeaguePoints {
  import opened Wrappers
  import opened Text
  import opened OrderedMap
  import opened Race = WeeklyLeague
  import opened LeagueBooks

  // ----- tallies of the events, without the league -----

  predicate Plays(g: Game, key: Address) {
    Lower(g.player0) != Lower(g.player1) && (key == Lower(g.player0) || key == Lower(g.player1))
  }

  predicate Wins(g: Game, key: Address) {
    && Lower(g.player0) != Lower(g.player1)
    && ((g.winner == 0 && key == Lower(g.player0)) || (g.winner == 1 && key == Lower(g.player1)))
  }

  function Rival(g: Game, key: Address): Address {
    if key == Lower(g.player0) then Lower(g.player1) else Lower(g.player0)
  }

  /** The event is a game the player played, credited to the week. */
  predicate IsGameOf(e: Event, week: nat, key: Address) {
    e.Settled? && e.week == week && Plays(e.game, key)
  }

  /** The event is a friend of the player's converting in the week. */
  predicate IsReferralBy(e: Event, week: nat, key: Address) {
    e.Referred? && e.week == week && Lower(e.referrer) == key
  }

  /** Of the first `n` events: the player's games of the week. */
  function GamesPlayed(events: seq<Event>, n: nat, week: nat, key: Address): nat
    requires n <= |events|
  {
    if n == 0 then 0
    else GamesPlayed(events, n - 1, week, key) + (if IsGameOf(events[n - 1], week, key) then 1 else 0)
  }

  function GamesWon(events: seq<Event>, n: nat, week: nat, key: Address): nat
    requires n <= |events|
  {
    if n == 0 then 0
    else
      GamesWon(events, n - 1, week, key)
      + (if IsGameOf(events[n - 1], week, key) && Wins(events[n - 1].game, key) then 1 else 0)
  }

  /** The games against one opponent. */
  function Meetings(events: seq<Event>, n: nat, week: nat, key: Address, opp: Address): nat
    requires n <= |events|
  {
    if n == 0 then 0
    else
      Meetings(events, n - 1, week, key, opp)
      + (if IsGameOf(events[n - 1], week, key) && Rival(events[n - 1].game, key) == opp then 1 else 0)
  }

  /** The wins that were among the first `cap` games against their opponent. */
  function ScoringWins(events: seq<Event>, n: nat, week: nat, key: Address, cap: nat): nat
    requires n <= |events|
  {
    if n == 0 then 0
    else
      var e := events[n - 1];
      ScoringWins(events, n - 1, week, key, cap)
      + (if IsGameOf(e, week, key) && Wins(e.game, key)
            && Meetings(events, n - 1, week, key, Rival(e.game, key)) < cap then 1 else 0)
  }

  function Referrals(events: seq<Event>, n: nat, week: nat, key: Address): nat
    requires n <= |events|
  {
    if n == 0 then 0
    else Referrals(events, n - 1, week, key) + (if IsReferralBy(events[n - 1], week, key) then 1 else 0)
  }

  /** The points of the first `cap` referrals. */
  function BonusPoints(events: seq<Event>, n: nat, week: nat, key: Address, cap: nat): nat
    requires n <= |events|
  {
    if n == 0 then 0
    else
      var e := events[n - 1];
      BonusPoints(events, n - 1, week, key, cap)
      + (if IsReferralBy(e, week, key) && Referrals(events, n - 1, week, key) < cap then e.points else 0)
  }

  function BonusCount(events: seq<Event>, n: nat, week: nat, key: Address, cap: nat): nat
    requires n <= |events|
  {
    if Referrals(events, n, week, key) < cap then Referrals(events, n, week, key) else cap
  }

  /** The entry says what the first `n` events amount to. */
  ghost predicate Exact(o: Options, e: Entry, events: seq<Event>, n: nat, week: nat, key: Address)
    requires n <= |events|
  {
    && e.address == key
    && e.games == GamesPlayed(events, n, week, key)
    && e.wins == GamesWon(events, n, week, key)
    && e.points == BonusPoints(events, n, week, key, o.refBonusCap)
                   + 3 * ScoringWins(events, n, week, key, o.pairCap)
    && e.refBonuses == BonusCount(events, n, week, key, o.refBonusCap)
    && forall opp: Address :: e.perOpp.GetOr(opp, 0) == Meetings(events, n, week, key, opp)
  }

  // ----- the league keeps them -----

  lemma EntriesSurvive(o: Options, s: System, e: Event, week: nat)
    requires Allowed(o, s, e) && (e.Provision? || e.Tick?)
    ensures LoadOrCreate(LeagueAfter(o, s, e), week).entries == LoadOrCreate(s.league, week).entries
  {
    hide PaidBy, PaysOnlyWhatIsDue, Clip;
  }

  lemma EntryAfterBonus(o: Options, lg: League, referrer: Address, points: nat, k: nat, week: nat, key: Address)
    ensures EntryOf(WithBonus(o, lg, referrer, points, k), week, key)
      == if BonusDue(o, lg, referrer, k) && week == k && key == Lower(referrer)
         then Rewarded(EntryOf(lg, week, key), points) else EntryOf(lg, week, key)
  {
    hide Rewarded;
  }

  /** What an event makes of an entry. */
  lemma EntryAfter(o: Options, unit: Option<Address>, s: System, e: Event, t: System, week: nat, key: Address)
    requires Happens(o, unit, s, e, t)
    ensures var was, now := EntryOf(s.league, week, key), EntryOf(t.league, week, key);
      now == if IsGameOf(e, week, key) then Played(was, Rival(e.game, key), Wins(e.game, key), o.pairCap)
             else if IsReferralBy(e, week, key) && was.refBonuses < o.refBonusCap then Rewarded(was, e.points)
             else was
  {
    hide BooksAfter, PaysOnlyWhatIsDue, Rollover, Record, WithBonus, SetPool, Played, Rewarded, Lower;
    match e
    case Settled(game, k) => EntryAfterGame(o, s.league, game, k, week, key);
    case Referred(referrer, points, k) => EntryAfterBonus(o, s.league, referrer, points, k, week, key);
    case _ => EntriesSurvive(o, s, e, week);
  }

  lemma PlayedStaysExact(o: Options, was: Entry, events: seq<Event>, n: nat, week: nat, key: Address)
    requires n < |events| && Exact(o, was, events, n, week, key) && IsGameOf(events[n], week, key)
    ensures var g := events[n].game;
      Exact(o, Played(was, Rival(g, key), Wins(g, key), o.pairCap), events, n + 1, week, key)
  {
    hide Plays, Wins, Rival, Played;
    PlayedInNumbers(was, Rival(events[n].game, key), Wins(events[n].game, key), o.pairCap);
  }

  lemma OthersStayExact(o: Options, was: Entry, events: seq<Event>, n: nat, week: nat, key: Address)
    requires n < |events| && Exact(o, was, events, n, week, key) && !IsGameOf(events[n], week, key)
    ensures var e := events[n];
      Exact(o, if IsReferralBy(e, week, key) && was.refBonuses < o.refBonusCap then Rewarded(was, e.points) else was,
            events, n + 1, week, key)
  {
    hide Plays, Wins, Rival;
  }

  /** Over every run, for every week and player: games, wins and meetings are those
      of the settled games, and points are the bonuses of the first referrals up to
      the cap and three for each win among the first so many games against its opponent. */
  lemma {:induction false} EntriesAreExact(
      o: Options, unit: Option<Address>, states: seq<System>, events: seq<Event>, i: nat, week: nat, key: Address)
    requires IsRun(o, unit, states, events) && i < |states|
    ensures Exact(o, EntryOf(states[i].league, week, key), events, i, week, key)
  {
    hide Happens, Exact, EntryOf, IsGameOf, IsReferralBy, Played, Rewarded;
    if i == 0 {
      StartsExact(o, events, week, key);
    } else {
      EntriesAreExact(o, unit, states, events, i - 1, week, key);
      EntryAfter(o, unit, states[i - 1], events[i - 1], states[i], week, key);
      var was := EntryOf(states[i - 1].league, week, key);
      if IsGameOf(events[i - 1], week, key) {
        PlayedStaysExact(o, was, events, i - 1, week, key);
      } else {
        OthersStayExact(o, was, events, i - 1, week, key);
      }
    }
  }

  lemma StartsExact(o: Options, events: seq<Event>, week: nat, key: Address)
    ensures Exact(o, EntryOf(START.league, week, key), events, 0, week, key)
  {
    StartsEarned(o, week, key);
  }

  lemma StartsEarned(o: Options, week: nat, key: Address)
    ensures EntryOf(START.league, week, key) == NewEntry(key) && Earned(NewEntry(key), o.pairCap, 0)
  {
  }

  // ----- what that bounds -----

  lemma StepKeepsEarned(o: Options, was: Entry, e: Event, week: nat, key: Address, granted: nat)
    requires Earned(was, o.pairCap, granted)
    ensures IsGameOf(e, week, key) ==>
      Earned(Played(was, Rival(e.game, key), Wins(e.game, key), o.pairCap), o.pairCap, granted)
    ensures IsReferralBy(e, week, key) ==> Earned(Rewarded(was, e.points), o.pairCap, granted + e.points)
  {
    hide Dict.Valid, Counted, Played;
    if IsGameOf(e, week, key) {
      PlayedStaysEarned(was, Rival(e.game, key), Wins(e.game, key), o.pairCap, granted);
    }
  }

  /** In every week of every run, a player's points are the bonuses granted and
      three for each win at most, no opponent being worth more than the capped
      number of wins; and never more bonuses than the cap are granted in a week. */
  lemma {:induction false} PointsAreAlwaysEarned(
      o: Options, unit: Option<Address>, states: seq<System>, events: seq<Event>, i: nat, week: nat, key: Address)
    requires IsRun(o, unit, states, events) && i < |states|
    ensures var e := EntryOf(states[i].league, week, key);
      && Earned(e, o.pairCap, BonusPoints(events, i, week, key, o.refBonusCap))
      && e.refBonuses == BonusCount(events, i, week, key, o.refBonusCap) <= o.refBonusCap
      && e.address == key
  {
    hide Happens, Earned, EntryOf, IsGameOf, IsReferralBy, Played, Rewarded;
    EntriesAreExact(o, unit, states, events, i, week, key);
    if i == 0 {
      StartsEarned(o, week, key);
    } else {
      PointsAreAlwaysEarned(o, unit, states, events, i - 1, week, key);
      EntriesAreExact(o, unit, states, events, i - 1, week, key);
      EntryAfter(o, unit, states[i - 1], events[i - 1], states[i], week, key);
      GamesAreNoReferrals(events[i - 1], week, key);
      StepKeepsEarned(o, EntryOf(states[i - 1].league, week, key), events[i - 1], week, key,
                      BonusPoints(events, i - 1, week, key, o.refBonusCap));
    }
  }

  lemma GamesAreNoReferrals(e: Event, week: nat, key: Address)
    ensures !(IsGameOf(e, week, key) && IsReferralBy(e, week, key))
    ensures IsReferralBy(e, week, key) ==> e.Referred?
    ensures IsGameOf(e, week, key) ==> e.Settled?
  {
  }
}
