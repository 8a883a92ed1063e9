/** The weekly race: games credited to the week in which they settle, referral
    bonuses, standings, and the rollover that pays a finished week and carries the
    rest forward.  Weeks are numbered; each operation is one atomic step and is told
    the week it acts on. */
module WeeklyLeague {
  import opened Wrappers
  import opened Text
  import opened Apportion
  import opened OrderedMap
  import opened WeeklyPrizes
  import Sorting

  datatype Entry = Entry(
    address: Address, points: nat, games: nat, wins: nat, perOpp: Dict<nat>, refBonuses: nat)

  datatype Week = Week(poolWei: nat, token: Option<Address>, entries: Dict<Entry>)

  datatype History = History(week: nat, poolWei: nat, token: Option<Address>, winners: seq<Winner>)

  datatype Options = Options(minGames: nat, pairCap: nat, poolShareBps: nat, maxCarryWei: nat, refBonusCap: nat)

  /** The in-memory store. */
  datatype League = League(weeks: map<nat, Week>, open: Option<nat>, last: Option<History>)

  const WIN_POINTS: nat := 3
  const EMPTY_WEEK: Week := Week(0, None, Dict([], map[]))

  function LoadOrCreate(lg: League, week: nat): Week {
    if week in lg.weeks then lg.weeks[week] else EMPTY_WEEK
  }

  function SaveWeek(lg: League, week: nat, w: Week): League {
    lg.(weeks := lg.weeks[week := w])
  }

  // ----- crediting games -----

  datatype Game = Game(player0: Address, player1: Address, winner: nat, potWei: nat, rakeBps: nat, token: Address)

  /** One side's entry after a game against `opp`: past the cap per opponent a win
      still counts as played and won, but scores nothing. */
  function Played(e: Entry, opp: Address, won: bool, cap: nat): Entry {
    var vsOpp := e.perOpp.GetOr(opp, 0);
    e.(games := e.games + 1,
       wins := e.wins + (if won then 1 else 0),
       points := e.points + (if vsOpp < cap && won then WIN_POINTS else 0),
       perOpp := e.perOpp.Set(opp, vsOpp + 1))
  }

  function NewEntry(key: Address): Entry {
    Entry(key, 0, 0, 0, Dict([], map[]), 0)
  }

  function CreditSide(entries: Dict<Entry>, me: Address, opp: Address, won: bool, cap: nat): Dict<Entry> {
    entries.Set(me, Played(entries.GetOr(me, NewEntry(me)), opp, won, cap))
  }

  function Contribution(o: Options, g: Game): nat {
    if g.winner == 2 then 0 else g.potWei * g.rakeBps * o.poolShareBps / 100_000_000
  }

  predicate SelfPlay(g: Game) {
    Lower(g.player0) == Lower(g.player1)
  }

  function Credit(o: Options, w: Week, g: Game): Week {
    var a, b := Lower(g.player0), Lower(g.player1);
    var first := CreditSide(w.entries, a, b, g.winner == 0, o.pairCap);
    var both := CreditSide(first, b, a, g.winner == 1, o.pairCap);
    Week(w.poolWei + Contribution(o, g), if w.token.None? then Some(g.token) else w.token, both)
  }

  function Record(o: Options, lg: League, g: Game, week: nat): League {
    if SelfPlay(g) then lg else SaveWeek(lg, week, Credit(o, LoadOrCreate(lg, week), g))
  }

  /** A win scores three points, for the first `cap` games against the opponent; the
      game, the win and the opponent are counted in any case, and nothing else changes. */
  lemma PlayedInNumbers(e: Entry, opp: Address, won: bool, cap: nat)
    ensures var f := Played(e, opp, won, cap);
      && f.points == e.points + (if won && e.perOpp.GetOr(opp, 0) < cap then 3 else 0)
      && f.games == e.games + 1 && f.wins == e.wins + (if won then 1 else 0)
      && f.perOpp.GetOr(opp, 0) == e.perOpp.GetOr(opp, 0) + 1
      && (forall other :: other != opp ==> f.perOpp.GetOr(other, 0) == e.perOpp.GetOr(other, 0))
      && f.address == e.address && f.refBonuses == e.refBonuses
  {
  }

  /** A drawn game adds nothing to the pool; a won one adds that share of the rake,
      both in hundredths of a percent, rounded down. */
  lemma ContributionInNumbers(o: Options, g: Game)
    ensures g.winner == 2 ==> Contribution(o, g) == 0
    ensures g.winner != 2 ==>
      var part := g.potWei * g.rakeBps * o.poolShareBps;
      100_000_000 * Contribution(o, g) <= part < 100_000_000 * Contribution(o, g) + 100_000_000
  {
    DivideDown(g.potWei * g.rakeBps * o.poolShareBps, 100_000_000);
  }

  // ----- referral bonuses -----

  function Rewarded(e: Entry, points: nat): Entry {
    e.(refBonuses := e.refBonuses + 1, points := e.points + points)
  }

  function EntryOf(lg: League, week: nat, key: Address): Entry {
    LoadOrCreate(lg, week).entries.GetOr(key, NewEntry(key))
  }

  /** Whether a bonus for this player would still be granted in the week. */
  predicate BonusDue(o: Options, lg: League, referrer: Address, week: nat) {
    EntryOf(lg, week, Lower(referrer)).refBonuses < o.refBonusCap
  }

  function WithBonus(o: Options, lg: League, referrer: Address, points: nat, week: nat): League {
    if !BonusDue(o, lg, referrer, week) then lg
    else
      var w, key := LoadOrCreate(lg, week), Lower(referrer);
      SaveWeek(lg, week, w.(entries := w.entries.Set(key, Rewarded(EntryOf(lg, week, key), points))))
  }

  // ----- standings -----

  /** Points, then wins, then fewer games, then address. */
  predicate Ahead(a: LeagueStanding, b: LeagueStanding) {
    a.points > b.points
    || (a.points == b.points && (a.wins > b.wins
    || (a.wins == b.wins && (a.games < b.games
    || (a.games == b.games && Before(a.address, b.address))))))
  }

  /** The players among the first `n` entries with enough games. */
  function Eligible(o: Options, entries: Dict<Entry>, n: nat): seq<LeagueStanding>
    requires n <= |entries.keys|
  {
    if n == 0 then []
    else
      var e := entries.GetOr(entries.keys[n - 1], NewEntry(entries.keys[n - 1]));
      Eligible(o, entries, n - 1)
      + (if e.games >= o.minGames then [LeagueStanding(e.address, e.points, e.games, e.wins)] else [])
  }

  function Standings(o: Options, w: Week): seq<LeagueStanding> {
    Sorting.Sort(Eligible(o, w.entries, |w.entries.keys|), Ahead)
  }

  lemma AheadIsAnOrdering()
    ensures Sorting.Ordering(Ahead)
  {
    hide Before;
    forall a: LeagueStanding, b: LeagueStanding | Ahead(a, b)
      ensures !Ahead(b, a)
    {
      BeforeIsStrict(a.address, b.address);
    }
    forall a: LeagueStanding, b: LeagueStanding, c: LeagueStanding | Ahead(a, c)
      ensures Ahead(a, b) || Ahead(b, c)
    {
      if Before(a.address, c.address) { BeforeSplits(a.address, b.address, c.address); }
    }
  }

  /** The standings are the eligible players, none ahead of an earlier one; so
      they are in order of points, as the prize split needs. */
  lemma StandingsAreOrdered(o: Options, w: Week)
    ensures var r := Standings(o, w);
      && Sorting.Sorted(r, Ahead)
      && multiset(r) == multiset(Eligible(o, w.entries, |w.entries.keys|))
      && ByPoints(r)
  {
    AheadIsAnOrdering();
    Sorting.SortLaw(Eligible(o, w.entries, |w.entries.keys|), Ahead);
  }

  /** `x` is read off one of the first `n` entries, that of a player with enough games. */
  ghost predicate HasEnoughGames(o: Options, entries: Dict<Entry>, n: nat, x: LeagueStanding)
    requires n <= |entries.keys|
  {
    exists k :: 0 <= k < n
      && var e := entries.GetOr(entries.keys[k], NewEntry(entries.keys[k]));
         e.games >= o.minGames && x == LeagueStanding(e.address, e.points, e.games, e.wins)
  }

  lemma {:induction false} RankedIffEnoughGames(o: Options, entries: Dict<Entry>, n: nat, x: LeagueStanding)
    requires n <= |entries.keys|
    ensures x in Eligible(o, entries, n) <==> HasEnoughGames(o, entries, n, x)
  {
    if n > 0 { RankedIffEnoughGames(o, entries, n - 1, x); }
  }

  /** The standings hold exactly the players with enough games; more points come
      first, then more wins, then fewer games, then the earlier address. */
  lemma StandingsInNumbers(o: Options, w: Week)
    ensures var r := Standings(o, w);
      && (forall x :: x in r <==> HasEnoughGames(o, w.entries, |w.entries.keys|, x))
      && (forall i, j :: 0 <= i < j < |r| ==>
           && r[i].points >= r[j].points
           && (r[i].points == r[j].points ==> r[i].wins >= r[j].wins)
           && (r[i].points == r[j].points && r[i].wins == r[j].wins ==> r[i].games <= r[j].games)
           && (r[i].points == r[j].points && r[i].wins == r[j].wins && r[i].games == r[j].games ==>
                !Before(r[j].address, r[i].address)))
  {
    hide Eligible, HasEnoughGames;
    var r, all := Standings(o, w), Eligible(o, w.entries, |w.entries.keys|);
    StandingsAreOrdered(o, w);
    forall x
      ensures x in r <==> HasEnoughGames(o, w.entries, |w.entries.keys|, x)
    {
      assert x in r <==> x in multiset(r);
      assert x in all <==> x in multiset(all);
      RankedIffEnoughGames(o, w.entries, |w.entries.keys|, x);
    }
  }

  // ----- rollover -----

  /** What the payout callback answers: the winners it managed to pay. */
  type Payout = (Address, seq<Winner>, nat) -> seq<Winner>

  function DueFor(o: Options, w: Week): seq<Winner> {
    Winners(Standings(o, w), w.poolWei)
  }

  function PaidBy(o: Options, w: Week, week: nat, payout: Payout): seq<Winner> {
    var due := DueFor(o, w);
    if |due| > 0 && w.token.Some? then payout(w.token.value, due, week) else []
  }

  /** The callback pays only what is due, and nothing twice. */
  ghost predicate PaysOnlyWhatIsDue(o: Options, w: Week, week: nat, payout: Payout) {
    multiset(PaidBy(o, w, week, payout)) <= multiset(DueFor(o, w))
  }

  function Clip(o: Options, unpaid: int): int {
    if o.maxCarryWei > 0 && unpaid > o.maxCarryWei then o.maxCarryWei else unpaid
  }

  /** Close week `ending` and open `current`. */
  function Close(o: Options, lg: League, ending: nat, payout: Payout, current: nat): League
    requires PaysOnlyWhatIsDue(o, LoadOrCreate(lg, ending), ending, payout)
  {
    var w := LoadOrCreate(lg, ending);
    var paid := PaidBy(o, w, ending, payout);
    PaidFitsThePool(o, w, ending, payout);
    var carry := Clip(o, w.poolWei - AmountTotal(paid));
    var next := LoadOrCreate(lg, current);
    var carried :=
      if carry > 0 || w.token.Some? then
        SaveWeek(lg, current, next.(poolWei := next.poolWei + carry,
                                    token := if next.token.None? then w.token else next.token))
      else lg;
    carried.(open := Some(current), last := Some(History(ending, w.poolWei, w.token, paid)))
  }

  function Rollover(o: Options, lg: League, payout: Payout, current: nat): League
    requires lg.open.Some? && lg.open != Some(current) ==>
      PaysOnlyWhatIsDue(o, LoadOrCreate(lg, lg.open.value), lg.open.value, payout)
  {
    if lg.open == Some(current) then lg
    else if lg.open.None? then lg.(open := Some(current))
    else Close(o, lg, lg.open.value, payout, current)
  }

  lemma {:induction false} TakingOut(ws: seq<Winner>, x: Winner) returns (rest: seq<Winner>)
    requires x in ws
    ensures multiset(rest) == multiset(ws) - multiset{x}
    ensures AmountTotal(rest) == AmountTotal(ws) - x.amountWei
  {
    var n := |ws| - 1;
    assert ws == ws[..n] + [ws[n]];
    if ws[n] == x {
      rest := ws[..n];
    } else {
      var front := TakingOut(ws[..n], x);
      rest := front + [ws[n]];
      AddWinner(front, ws[n]);
    }
  }

  /** Part of a list of payments is worth no more than the whole. */
  lemma {:induction false} PartIsNoMore(part: seq<Winner>, whole: seq<Winner>)
    requires multiset(part) <= multiset(whole)
    ensures AmountTotal(part) <= AmountTotal(whole)
  {
    if part != [] {
      var n := |part| - 1;
      assert part == part[..n] + [part[n]];
      assert part[n] in multiset(part) && part[n] in multiset(whole);
      var rest := TakingOut(whole, part[n]);
      PartIsNoMore(part[..n], rest);
    }
  }

  lemma PaidFitsThePool(o: Options, w: Week, week: nat, payout: Payout)
    requires PaysOnlyWhatIsDue(o, w, week, payout)
    ensures AmountTotal(PaidBy(o, w, week, payout)) <= w.poolWei
  {
    PartIsNoMore(PaidBy(o, w, week, payout), DueFor(o, w));
    PrizesFitThePool(Standings(o, w), w.poolWei);
  }

  // ----- the operator's override -----

  datatype LeagueError = OtherToken

  /** Set the week's pool outright, unless games already settled it in another token. */
  function SetPool(lg: League, amountWei: nat, token: Address, week: nat): Result<League, LeagueError> {
    var w := LoadOrCreate(lg, week);
    if w.token.Some? && Lower(w.token.value) != Lower(token) then Err(OtherToken)
    else Ok(SaveWeek(lg, week, w.(poolWei := amountWei, token := Some(token))))
  }

  /** One closing rollover: the old pool and what was already in the new week are
      paid, carried or clipped, and nothing else. */
  lemma RolloverConserves(o: Options, lg: League, payout: Payout, current: nat)
    requires lg.open.Some? && lg.open != Some(current)
    requires PaysOnlyWhatIsDue(o, LoadOrCreate(lg, lg.open.value), lg.open.value, payout)
    ensures var ending := lg.open.value; var w := LoadOrCreate(lg, ending);
      var paid := AmountTotal(PaidBy(o, w, ending, payout));
      var carry := Clip(o, w.poolWei - paid);
      var after := Rollover(o, lg, payout, current);
      var was, next := LoadOrCreate(lg, current), LoadOrCreate(after, current);
      && 0 <= carry <= w.poolWei - paid
      && w.poolWei + was.poolWei == paid + next.poolWei + (w.poolWei - paid - carry)
      && next.token == (if was.token.None? then w.token else was.token)
      && after.open == Some(current)
      && after.weeks.Keys <= lg.weeks.Keys + {current}
      && (forall week :: week != current ==> LoadOrCreate(after, week) == LoadOrCreate(lg, week))
      && Rollover(o, after, payout, current) == after
  {
    hide Standings, Winners, AmountTotal, PaysOnlyWhatIsDue;
    var ending := lg.open.value;
    PaidFitsThePool(o, LoadOrCreate(lg, ending), ending, payout);
    PaidNeedsToken(o, LoadOrCreate(lg, ending), ending, payout);
  }

  /** The entry a closing rollover leaves behind: the closed week with its pool and
      token, and as winners what the callback answered when it was asked for the prizes
      of the standings.  It is not asked when there is nothing to pay or no token to pay
      in.  What the entry does not show as paid is in the new week's pool, as far as a
      limit other than 0 allows. */
  lemma ClosingIsRecorded(o: Options, lg: League, payout: Payout, current: nat)
    requires lg.open.Some? && lg.open != Some(current)
    requires PaysOnlyWhatIsDue(o, LoadOrCreate(lg, lg.open.value), lg.open.value, payout)
    ensures var after := Rollover(o, lg, payout, current);
      var was, next := LoadOrCreate(lg, current), LoadOrCreate(after, current);
      && after.last.Some?
      && var entry := after.last.value;
         var w := LoadOrCreate(lg, entry.week);
         var due := Winners(Standings(o, w), w.poolWei);
         var left := entry.poolWei - AmountTotal(entry.winners);
      && lg.open == Some(entry.week) && after.open == Some(current)
      && entry.poolWei == w.poolWei && entry.token == w.token
      && entry.winners == (if due == [] || entry.token.None? then [] else payout(entry.token.value, due, entry.week))
      && left >= 0
      && next.poolWei - was.poolWei == (if 0 < o.maxCarryWei < left then o.maxCarryWei else left)
  {
    hide Standings, Winners, AmountTotal, PaysOnlyWhatIsDue;
    RolloverConserves(o, lg, payout, current);
  }

  /** The override is refused exactly when the week holds a token that differs by more
      than letter case.  Otherwise the pool is the amount given, however often it is
      repeated, with the players untouched; and when no share of the rake goes to pools,
      a game settled later leaves it at that amount. */
  lemma OverrideInNumbers(o: Options, lg: League, amountWei: nat, token: Address, week: nat, g: Game)
    ensures var w := LoadOrCreate(lg, week);
      var r := SetPool(lg, amountWei, token, week);
      && (r.Ok? <==> (w.token.Some? ==> Lower(w.token.value) == Lower(token)))
      && (r.Ok? ==>
          var after := LoadOrCreate(r.value, week);
          && after.poolWei == amountWei && after.token == Some(token) && after.entries == w.entries
          && r.value.open == lg.open && r.value.last == lg.last
          && (forall k :: k != week ==> LoadOrCreate(r.value, k) == LoadOrCreate(lg, k))
          && SetPool(r.value, amountWei, token, week) == r
          && (o.poolShareBps == 0 ==> LoadOrCreate(Record(o, r.value, g, week), week).poolWei == amountWei))
  {
    hide Lower, CreditSide;
    ContributionInNumbers(o, g);
    var r := SetPool(lg, amountWei, token, week);
    if r.Ok? {
      assert r.value.weeks[week := LoadOrCreate(r.value, week)] == r.value.weeks;
    }
  }

  lemma PaidNeedsToken(o: Options, w: Week, week: nat, payout: Payout)
    ensures w.token.None? ==> AmountTotal(PaidBy(o, w, week, payout)) == 0
  {
  }

  // ----- what an entry can hold -----

  function Least(a: nat, b: nat): nat {
    if a < b then a else b
  }

  /** Games against the first `n` opponents, each counted at most `cap` times. */
  function Counted(d: Dict<nat>, cap: nat, n: nat): nat
    requires n <= |d.keys|
  {
    if n == 0 then 0 else Counted(d, cap, n - 1) + Least(d.GetOr(d.keys[n - 1], 0), cap)
  }

  lemma {:induction false} CountedAfterSet(d: Dict<nat>, opp: string, v: nat, cap: nat, n: nat)
    requires d.Valid() && n <= |d.keys|
    ensures Counted(d.Set(opp, v), cap, n) == Counted(d, cap, n)
      + (if opp in d.keys[..n] then Least(v, cap) - Least(d.GetOr(opp, 0), cap) else 0)
  {
    hide Dict.Valid, Least;
    if n > 0 {
      KeysDoNotRepeat(d, n);
      CountedAfterSet(d, opp, v, cap, n - 1);
      assert d.keys[..n] == d.keys[..n - 1] + [d.keys[n - 1]];
    }
  }

  /** One more game against `opp` counts one more unless the cap is reached. */
  lemma CountedAfterGame(d: Dict<nat>, opp: string, cap: nat)
    requires d.Valid()
    ensures var more := d.Set(opp, d.GetOr(opp, 0) + 1);
      && more.Valid()
      && Counted(more, cap, |more.keys|) == Counted(d, cap, |d.keys|) + (if d.GetOr(opp, 0) < cap then 1 else 0)
  {
    hide Dict.Valid, Least;
    var vs := d.GetOr(opp, 0);
    var more := d.Set(opp, vs + 1);
    SetStaysValid(d, opp, vs + 1);
    ValidKeys(d, opp);
    CountedAfterSet(d, opp, vs + 1, cap, |d.keys|);
    LeastStep(vs, cap);
    assert d.keys[..|d.keys|] == d.keys;
    if opp !in d.at {
      assert more.keys[|d.keys|] == opp;
      assert Counted(more, cap, |d.keys| + 1) == Counted(more, cap, |d.keys|) + Least(vs + 1, cap);
    }
  }

  lemma LeastStep(v: nat, cap: nat)
    ensures Least(v + 1, cap) == Least(v, cap) + (if v < cap then 1 else 0)
    ensures Least(0, cap) == 0
  {
  }

  /** Besides the `granted` bonus points, points come from wins only, at most
      `cap` of them per opponent. */
  ghost predicate Earned(e: Entry, cap: nat, granted: nat) {
    && e.perOpp.Valid()
    && e.wins <= e.games
    && granted <= e.points <= granted + WIN_POINTS * e.wins
    && e.points <= granted + WIN_POINTS * Counted(e.perOpp, cap, |e.perOpp.keys|)
  }

  /** A game keeps an entry earned: nobody can farm one opponent. */
  lemma PlayedStaysEarned(e: Entry, opp: Address, won: bool, cap: nat, granted: nat)
    requires Earned(e, cap, granted)
    ensures Earned(Played(e, opp, won, cap), cap, granted)
    ensures Played(e, opp, won, cap).perOpp.GetOr(opp, 0) == e.perOpp.GetOr(opp, 0) + 1
  {
    hide Dict.Valid, Counted;
    CountedAfterGame(e.perOpp, opp, cap);
  }

  /** What a game does to the entry of any player in any week. */
  lemma EntryAfterGame(o: Options, lg: League, g: Game, week: nat, k: nat, key: Address)
    ensures var was, now := EntryOf(lg, k, key), EntryOf(Record(o, lg, g, week), k, key);
      var a, b := Lower(g.player0), Lower(g.player1);
      now == if k != week || a == b then was
             else if key == a then Played(was, b, g.winner == 0, o.pairCap)
             else if key == b then Played(was, a, g.winner == 1, o.pairCap)
             else was
  {
    hide Played;
  }

  // ----- the program -----

  class WeeklyLeague {
    const options: Options
    var weeks: map<nat, Week>
    var open: Option<nat>
    var last: Option<History>

    function Now(): League
      reads this
    {
      League(weeks, open, last)
    }

    constructor (options: Options)
      ensures Now() == League(map[], None, None) && this.options == options
    {
      this.options := options;
      weeks, open, last := map[], None, None;
    }

    method RecordGame(g: Game, week: nat)
      modifies this`weeks
      ensures Now() == Record(options, old(Now()), g, week)
    {
      hide Dict.Set, Dict.GetOr, Lower;
      var w := LoadOrCreate(Now(), week);
      var keys := [Lower(g.player0), Lower(g.player1)];
      if keys[0] == keys[1] { return; }

      var entries := w.entries;
      for side := 0 to 2
        invariant entries ==
          if side == 0 then w.entries
          else if side == 1 then CreditSide(w.entries, keys[0], keys[1], g.winner == 0, options.pairCap)
          else CreditSide(CreditSide(w.entries, keys[0], keys[1], g.winner == 0, options.pairCap),
                          keys[1], keys[0], g.winner == 1, options.pairCap)
      {
        var me, opp := keys[side], keys[1 - side];
        var e := entries.GetOr(me, NewEntry(me));
        e := e.(games := e.games + 1);
        if g.winner == side { e := e.(wins := e.wins + 1); }
        var vsOpp := e.perOpp.GetOr(opp, 0);
        e := e.(perOpp := e.perOpp.Set(opp, vsOpp + 1));
        if vsOpp < options.pairCap { e := e.(points := e.points + (if g.winner == side then WIN_POINTS else 0)); }
        entries := entries.Set(me, e);
      }

      var pool := w.poolWei;
      if g.winner != 2 { pool := pool + g.potWei * g.rakeBps * options.poolShareBps / 100_000_000; }
      var token := if w.token.None? then Some(g.token) else w.token;
      weeks := weeks[week := Week(pool, token, entries)];
    }

    method AddReferralBonus(referrer: Address, points: nat, week: nat) returns (awarded: bool)
      modifies this`weeks
      ensures awarded == BonusDue(options, old(Now()), referrer, week)
      ensures Now() == WithBonus(options, old(Now()), referrer, points, week)
    {
      var w := LoadOrCreate(Now(), week);
      var key := Lower(referrer);
      var e := w.entries.GetOr(key, NewEntry(key));
      if e.refBonuses >= options.refBonusCap { return false; }
      e := e.(refBonuses := e.refBonuses + 1);
      e := e.(points := e.points + points);
      weeks := weeks[week := w.(entries := w.entries.Set(key, e))];
      return true;
    }

    method ProvisionPool(amountWei: nat, token: Address, week: nat) returns (ok: bool)
      modifies this`weeks
      ensures var r := SetPool(old(Now()), amountWei, token, week);
        ok == r.Ok? && Now() == (if r.Ok? then r.value else old(Now()))
    {
      var w := LoadOrCreate(Now(), week);
      if w.token.Some? && Lower(w.token.value) != Lower(token) { return false; }
      weeks := weeks[week := w.(poolWei := amountWei, token := Some(token))];
      return true;
    }

    method RollOver(payout: Payout, current: nat) returns (entry: Option<History>)
      requires open.Some? && open != Some(current) ==>
        PaysOnlyWhatIsDue(options, LoadOrCreate(Now(), open.value), open.value, payout)
      modifies this`weeks, this`open, this`last
      ensures Now() == Rollover(options, old(Now()), payout, current)
      ensures entry == if old(open).None? || old(open) == Some(current) then None else last
    {
      hide Standings, Winners, PaysOnlyWhatIsDue;
      if open == Some(current) { return None; }
      if open.None? {
        open := Some(current);
        return None;
      }
      var ending := open.value;
      var w := LoadOrCreate(Now(), ending);
      var ranked := Standings(options, w);
      var due := ComputePrizes(ranked, w.poolWei);
      var paid := if |due| > 0 && w.token.Some? then payout(w.token.value, due, ending) else [];
      PaidFitsThePool(options, w, ending, payout);
      var carry: int := w.poolWei - AmountTotal(paid);
      if options.maxCarryWei > 0 && carry > options.maxCarryWei { carry := options.maxCarryWei; }
      if carry > 0 || w.token.Some? {
        var next := LoadOrCreate(Now(), current);
        weeks := weeks[current := next.(poolWei := next.poolWei + carry,
                                        token := if next.token.None? then w.token else next.token)];
      }
      last := Some(History(ending, w.poolWei, w.token, paid));
      open := Some(current);
      return last;
    }
  }
}
