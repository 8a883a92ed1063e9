/** The weekly league over whole runs, and where its money goes.  Rollovers and the
    operator follow a clock that never goes back; a game or a bonus may be credited
    to any week, since a settlement that is read late counts for the week in which it
    happened.  A week can be paid only while it is open, and it can be opened only
    while the clock has not gone past it. */
module LeagueBooks {
  import opened Wrappers
  import opened Text
  import opened OrderedMap
  import opened WeeklyPrizes
  import opened Race = WeeklyLeague

  // ----- pools, in one token or in all -----

  /** Whether money labelled `token` is counted: the books are kept in one token,
      or with `unit` None in all of them together. */
  predicate Counts(unit: Option<Address>, token: Option<Address>) {
    unit.None? || (token.Some? && Lower(token.value) == Lower(unit.value))
  }

  function Worth(unit: Option<Address>, token: Option<Address>, amount: int): int {
    if Counts(unit, token) then amount else 0
  }

  function PoolOf(unit: Option<Address>, lg: League, week: nat): (amount: int)
    ensures 0 <= amount <= LoadOrCreate(lg, week).poolWei
  {
    Worth(unit, LoadOrCreate(lg, week).token, LoadOrCreate(lg, week).poolWei)
  }

  /** The pools of the given weeks, among the first `n`. */
  ghost function PoolsIn(unit: Option<Address>, lg: League, weeks: set<nat>, n: nat): (amount: int)
    ensures amount >= 0
  {
    if n == 0 then 0 else PoolsIn(unit, lg, weeks, n - 1) + (if n - 1 in weeks then PoolOf(unit, lg, n - 1) else 0)
  }

  lemma {:induction false} PoolsSplit(unit: Option<Address>, lg: League, x: set<nat>, y: set<nat>, n: nat)
    requires x !! y
    ensures PoolsIn(unit, lg, x + y, n) == PoolsIn(unit, lg, x, n) + PoolsIn(unit, lg, y, n)
  {
    hide PoolOf;
    if n > 0 { PoolsSplit(unit, lg, x, y, n - 1); }
  }

  lemma {:induction false} PoolsInOne(unit: Option<Address>, lg: League, k: nat, n: nat)
    ensures PoolsIn(unit, lg, {k}, n) == if k < n then PoolOf(unit, lg, k) else 0
  {
    hide PoolOf;
    if n > 0 { PoolsInOne(unit, lg, k, n - 1); }
  }

  /** Further weeks that hold nothing add nothing. */
  lemma {:induction false} PoolsInWider(
      unit: Option<Address>, lg: League, x: set<nat>, y: set<nat>, n: nat, m: nat)
    requires n <= m
    requires forall k: nat :: k < n ==> (k in x <==> k in y)
    requires forall k: nat :: n <= k < m && k in y ==> PoolOf(unit, lg, k) == 0
    ensures PoolsIn(unit, lg, y, m) == PoolsIn(unit, lg, x, n)
  {
    hide PoolOf;
    if n < m {
      PoolsInWider(unit, lg, x, y, n, m - 1);
    } else if n > 0 {
      PoolsInWider(unit, lg, x, y, n - 1, n - 1);
    }
  }

  /** Changing one week's pool changes the sum by the difference. */
  lemma {:induction false} PoolsDifferAt(
      unit: Option<Address>, lg: League, mg: League, k: nat, weeks: set<nat>, n: nat)
    requires forall week :: week != k ==> PoolOf(unit, mg, week) == PoolOf(unit, lg, week)
    ensures PoolsIn(unit, mg, weeks, n) == PoolsIn(unit, lg, weeks, n)
      + (if k < n && k in weeks then PoolOf(unit, mg, k) - PoolOf(unit, lg, k) else 0)
  {
    hide PoolOf;
    if n > 0 { PoolsDifferAt(unit, lg, mg, k, weeks, n - 1); }
  }

  lemma {:induction false} PoolsAreEmptyIff(unit: Option<Address>, lg: League, weeks: set<nat>, n: nat)
    ensures PoolsIn(unit, lg, weeks, n) == 0 <==>
      forall k: nat :: k < n && k in weeks ==> PoolOf(unit, lg, k) == 0
  {
    hide PoolOf;
    if n > 0 { PoolsAreEmptyIff(unit, lg, weeks, n - 1); }
  }

  // ----- runs -----

  function FirstOpen(lg: League): nat {
    if lg.open.Some? then lg.open.value else 0
  }

  /** What the accounts should show: money in from rakes and from the operator,
      money paid out, clipped by the carry limit, overwritten by the operator, and
      left behind in weeks that can no longer be opened. */
  datatype Books = Books(contributed: int, injected: int, paid: int, clipped: int, overwritten: int, stranded: int)

  /** `horizon` lies beyond every week stored so far. */
  datatype System = System(league: League, books: Books, clock: nat, horizon: nat)

  datatype Event =
    | Settled(game: Game, week: nat)
    | Referred(referrer: Address, points: nat, week: nat)
    | Provision(amountWei: nat, token: Address, week: nat)
    | Tick(payout: Payout, week: nat)

  const START: System := System(League(map[], None, None), Books(0, 0, 0, 0, 0, 0), 0, 1)

  /** The week is open, or the clock has not gone past it. */
  predicate CanStillOpen(lg: League, clock: nat, week: nat) {
    lg.open == Some(week) || clock <= week
  }

  function PayableWeeks(lg: League, clock: nat, h: nat): set<nat> {
    set week: nat | week < h && CanStillOpen(lg, clock, week)
  }

  /** The weeks that are missed when the clock moves on to `week`. */
  function MissedWeeks(lg: League, clock: nat, week: nat): set<nat> {
    set k: nat | clock <= k < week && lg.open != Some(k)
  }

  /** The money in them. */
  ghost function MissedMoney(unit: Option<Address>, s: System, week: nat): int {
    PoolsIn(unit, s.league, MissedWeeks(s.league, s.clock, week), week)
  }

  predicate Closes(lg: League, week: nat) {
    lg.open.Some? && lg.open.value != week
  }

  /** The operator and the rollover act on the current week, and the callback pays
      only what is due.  Games and bonuses may be credited to any week. */
  ghost predicate Allowed(o: Options, s: System, e: Event) {
    match e
    case Settled(_, _) => true
    case Referred(_, _, _) => true
    case Provision(_, _, week) => s.clock <= week
    case Tick(payout, week) =>
      && s.clock <= week
      && (Closes(s.league, week) ==>
           PaysOnlyWhatIsDue(o, LoadOrCreate(s.league, s.league.open.value), s.league.open.value, payout))
  }

  ghost function LeagueAfter(o: Options, s: System, e: Event): League
    requires Allowed(o, s, e)
  {
    match e
    case Settled(game, week) => Record(o, s.league, game, week)
    case Referred(referrer, points, week) => WithBonus(o, s.league, referrer, points, week)
    case Provision(amountWei, token, week) =>
      var r := SetPool(s.league, amountWei, token, week);
      if r.Ok? then r.value else s.league
    case Tick(payout, week) => Rollover(o, s.league, payout, week)
  }

  function Credited(o: Options, g: Game): nat {
    if SelfPlay(g) then 0 else Contribution(o, g)
  }

  /** What a rollover that closes a week pays, in all. */
  function PaidOut(o: Options, lg: League, payout: Payout): nat
    requires lg.open.Some?
  {
    AmountTotal(PaidBy(o, LoadOrCreate(lg, lg.open.value), lg.open.value, payout))
  }

  function Carried(o: Options, lg: League, payout: Payout): int
    requires lg.open.Some?
  {
    Clip(o, LoadOrCreate(lg, lg.open.value).poolWei - PaidOut(o, lg, payout))
  }

  /** The books after an event, kept in `unit`. */
  ghost function BooksAfter(o: Options, unit: Option<Address>, s: System, e: Event): Books
    requires Allowed(o, s, e)
  {
    var lg, mg, books := s.league, LeagueAfter(o, s, e), s.books;
    match e
    case Settled(game, week) =>
      books.(contributed := books.contributed + Worth(unit, Some(game.token), Credited(o, game)),
             stranded := books.stranded
               + (if CanStillOpen(lg, s.clock, week) then 0 else PoolOf(unit, mg, week) - PoolOf(unit, lg, week)))
    case Referred(_, _, _) => books
    case Provision(amountWei, token, week) =>
      var accepted := SetPool(lg, amountWei, token, week).Ok?;
      books.(injected := books.injected + (if accepted then Worth(unit, Some(token), amountWei) else 0),
             overwritten := books.overwritten + (if accepted then PoolOf(unit, lg, week) else 0),
             stranded := books.stranded + MissedMoney(unit, s, week))
    case Tick(payout, week) =>
      var later := books.(stranded := books.stranded + MissedMoney(unit, s, week));
      if Closes(lg, week) then
        var w := LoadOrCreate(lg, lg.open.value);
        var paid, carry := PaidOut(o, lg, payout), Carried(o, lg, payout);
        later.(paid := later.paid + Worth(unit, w.token, paid),
               clipped := later.clipped + Worth(unit, w.token, w.poolWei - paid - carry))
      else later
  }

  function Later(a: nat, b: nat): (c: nat)
    ensures c >= a && c >= b && (c == a || c == b)
  {
    if a < b then b else a
  }

  ghost function After(o: Options, unit: Option<Address>, s: System, e: Event): System
    requires Allowed(o, s, e)
  {
    System(LeagueAfter(o, s, e), BooksAfter(o, unit, s, e),
           if e.Settled? || e.Referred? then s.clock else e.week, Later(s.horizon, e.week + 1))
  }

  ghost predicate Happens(o: Options, unit: Option<Address>, s: System, e: Event, t: System) {
    Allowed(o, s, e) && t == After(o, unit, s, e)
  }

  /** The events lead from `s` through the states, one after the other. */
  ghost predicate Leads(o: Options, unit: Option<Address>, s: System, states: seq<System>, events: seq<Event>) {
    && |states| == |events| + 1
    && states[0] == s
    && forall i :: 0 <= i < |events| ==> Happens(o, unit, states[i], events[i], states[i + 1])
  }

  /** A run of the league, from the empty store. */
  ghost predicate IsRun(o: Options, unit: Option<Address>, states: seq<System>, events: seq<Event>) {
    Leads(o, unit, START, states, events)
  }

  /** Nothing is stored beyond the horizon, the open week is not to come, and a
      pool with money in it has a token. */
  ghost predicate Sound(s: System) {
    && (forall week :: week in s.league.weeks ==> week < s.horizon)
    && FirstOpen(s.league) <= s.clock < s.horizon
    && (forall week :: Labelled(LoadOrCreate(s.league, week)))
  }

  predicate Labelled(w: Week) {
    w.poolWei > 0 ==> w.token.Some?
  }

  lemma ClosingKeepsLabels(o: Options, lg: League, payout: Payout, current: nat)
    requires lg.open.Some? && lg.open != Some(current)
    requires PaysOnlyWhatIsDue(o, LoadOrCreate(lg, lg.open.value), lg.open.value, payout)
    requires forall week :: Labelled(LoadOrCreate(lg, week))
    ensures forall week :: Labelled(LoadOrCreate(Rollover(o, lg, payout, current), week))
  {
    hide Rollover, AmountTotal, PaidBy, PaysOnlyWhatIsDue, LoadOrCreate, Clip;
    RolloverConserves(o, lg, payout, current);
    var after := Rollover(o, lg, payout, current);
    forall week
      ensures Labelled(LoadOrCreate(after, week))
    {
      assert Labelled(LoadOrCreate(lg, week)) && Labelled(LoadOrCreate(lg, lg.open.value));
    }
  }

  lemma ClosingStaysSound(o: Options, unit: Option<Address>, s: System, e: Event)
    requires Sound(s) && Allowed(o, s, e) && e.Tick? && Closes(s.league, e.week)
    ensures Sound(After(o, unit, s, e))
  {
    hide PaidBy, PaysOnlyWhatIsDue, BooksAfter, AmountTotal, Rollover, Labelled, Clip;
    var lg, mg := s.league, Rollover(o, s.league, e.payout, e.week);
    ClosingKeepsLabels(o, lg, e.payout, e.week);
    RolloverConserves(o, lg, e.payout, e.week);
    assert After(o, unit, s, e).league == mg;
    forall week | week in mg.weeks
      ensures week < Later(s.horizon, e.week + 1)
    {
      assert week in mg.weeks.Keys;
      assert week in lg.weeks.Keys + {e.week};
    }
  }

  lemma StepStaysSound(o: Options, unit: Option<Address>, s: System, e: Event, t: System)
    requires Sound(s) && Happens(o, unit, s, e, t)
    ensures Sound(t)
  {
    hide PaidBy, PaysOnlyWhatIsDue, Contribution, BooksAfter, CreditSide, AmountTotal;
    match e
    case Settled(game, week) =>
      assert forall k :: k != week ==> LoadOrCreate(t.league, k) == LoadOrCreate(s.league, k);
    case Referred(_, _, week) =>
      assert forall k :: k != week ==> LoadOrCreate(t.league, k) == LoadOrCreate(s.league, k);
      assert LoadOrCreate(t.league, week).poolWei == LoadOrCreate(s.league, week).poolWei;
    case Provision(_, _, week) =>
      assert forall k :: k != week ==> LoadOrCreate(t.league, k) == LoadOrCreate(s.league, k);
    case Tick(payout, week) =>
      if Closes(s.league, week) {
        ClosingStaysSound(o, unit, s, e);
      } else {
        assert forall k :: LoadOrCreate(t.league, k) == LoadOrCreate(s.league, k);
      }
  }

  lemma {:induction false} LeadsStaysSound(
      o: Options, unit: Option<Address>, s: System, states: seq<System>, events: seq<Event>, i: nat)
    requires Sound(s) && Leads(o, unit, s, states, events) && i < |states|
    ensures Sound(states[i])
  {
    hide Happens, Sound;
    if i > 0 {
      LeadsStaysSound(o, unit, s, states, events, i - 1);
      StepStaysSound(o, unit, states[i - 1], events[i - 1], states[i]);
    }
  }

  lemma RunStaysSound(o: Options, unit: Option<Address>, states: seq<System>, events: seq<Event>, i: nat)
    requires IsRun(o, unit, states, events) && i < |states|
    ensures Sound(states[i])
  {
    hide Leads;
    StartIsSound();
    LeadsStaysSound(o, unit, START, states, events, i);
  }

  lemma StartIsSound()
    ensures Sound(START)
  {
    hide Sound;
    EmptyLeagueIsSound(START);
  }

  lemma EmptyLeagueIsSound(s: System)
    requires s.league.weeks == map[] && s.league.open == None && s.clock < s.horizon
    ensures Sound(s)
  {
  }

  // ----- the books balance -----

  /** The pools that can still be paid: the open week's, and those of the weeks
      the clock has not gone past. */
  ghost function LivePools(unit: Option<Address>, s: System): int {
    PoolsIn(unit, s.league, PayableWeeks(s.league, s.clock, s.horizon), s.horizon)
  }

  /** What never reaches a winner. */
  function Lost(b: Books): int {
    b.clipped + b.overwritten + b.stranded
  }

  /** What came in, less what is paid, lost or live. */
  ghost function Imbalance(unit: Option<Address>, s: System): int {
    s.books.contributed + s.books.injected - s.books.paid - Lost(s.books) - LivePools(unit, s)
  }

  ghost predicate Balanced(unit: Option<Address>, s: System) {
    Imbalance(unit, s) == 0
  }

  /** The event adds money to a pool that already has another token, and just one
      of the two is counted. */
  ghost predicate Mixes(o: Options, unit: Option<Address>, s: System, e: Event) {
    match e
    case Settled(game, week) =>
      var w := LoadOrCreate(s.league, week);
      && Credited(o, game) > 0
      && w.token.Some? && Counts(unit, w.token) != Counts(unit, Some(game.token))
    case Tick(payout, week) =>
      && Closes(s.league, week)
      && Carried(o, s.league, payout) > 0
      && var w, next := LoadOrCreate(s.league, s.league.open.value), LoadOrCreate(s.league, week);
         next.token.Some? && Counts(unit, next.token) != Counts(unit, w.token)
    case _ => false
  }

  lemma HorizonMoves(unit: Option<Address>, s: System, h: nat)
    requires Sound(s) && s.horizon <= h
    ensures PoolsIn(unit, s.league, PayableWeeks(s.league, s.clock, h), h) == LivePools(unit, s)
  {
    PoolsInWider(unit, s.league, PayableWeeks(s.league, s.clock, s.horizon), PayableWeeks(s.league, s.clock, h),
                 s.horizon, h);
  }

  /** When the clock moves on to `week`, the live pools are those missed by it and
      those that stay live. */
  lemma TimePasses(unit: Option<Address>, s: System, week: nat, h: nat)
    requires Sound(s) && s.clock <= week && s.horizon <= h && week < h
    ensures LivePools(unit, s)
      == MissedMoney(unit, s, week) + PoolsIn(unit, s.league, PayableWeeks(s.league, week, h), h)
  {
    hide PoolOf, PoolsIn;
    var lg := s.league;
    var missed, kept := MissedWeeks(lg, s.clock, week), PayableWeeks(lg, week, h);
    HorizonMoves(unit, s, h);
    assert PayableWeeks(lg, s.clock, h) == missed + kept;
    PoolsSplit(unit, lg, missed, kept, h);
    PoolsInWider(unit, lg, missed, missed, week, h);
  }

  lemma CreditAddsTheContribution(o: Options, w: Week, g: Game)
    ensures Credit(o, w, g).poolWei == w.poolWei + Contribution(o, g)
    ensures Credit(o, w, g).token == (if w.token.None? then Some(g.token) else w.token)
  {
  }

  /** A game changes the pool of its week only; the change is worth the contribution
      exactly when no two tokens are mixed. */
  lemma GameMovesOnePool(o: Options, unit: Option<Address>, s: System, e: Event)
    requires Sound(s) && e.Settled?
    ensures var lg, mg := s.league, LeagueAfter(o, s, e);
      && mg.open == lg.open
      && (forall k :: k != e.week ==> PoolOf(unit, mg, k) == PoolOf(unit, lg, k))
      && (PoolOf(unit, mg, e.week) - PoolOf(unit, lg, e.week) == Worth(unit, Some(e.game.token), Credited(o, e.game))
          <==> !Mixes(o, unit, s, e))
  {
    hide Credit, Contribution;
    var w := LoadOrCreate(s.league, e.week);
    assert Labelled(w);
    CreditAddsTheContribution(o, w, e.game);
    assert forall k :: k != e.week ==> LoadOrCreate(LeagueAfter(o, s, e), k) == LoadOrCreate(s.league, k);
  }

  lemma SettledBalancesIff(o: Options, unit: Option<Address>, s: System, e: Event)
    requires Sound(s) && e.Settled?
    ensures Imbalance(unit, After(o, unit, s, e)) == Imbalance(unit, s) <==> !Mixes(o, unit, s, e)
  {
    hide PoolOf, PoolsIn, LeagueAfter, Mixes, Worth, Credited;
    var t := After(o, unit, s, e);
    GameMovesOnePool(o, unit, s, e);
    HorizonMoves(unit, s, t.horizon);
    assert PayableWeeks(t.league, t.clock, t.horizon) == PayableWeeks(s.league, s.clock, t.horizon);
    PoolsDifferAt(unit, s.league, t.league, e.week, PayableWeeks(s.league, s.clock, t.horizon), t.horizon);
  }

  lemma BonusBalances(o: Options, unit: Option<Address>, s: System, e: Event)
    requires Sound(s) && e.Referred?
    ensures Imbalance(unit, After(o, unit, s, e)) == Imbalance(unit, s)
  {
    hide PoolsIn;
    var t := After(o, unit, s, e);
    assert forall k :: k != e.week ==> LoadOrCreate(t.league, k) == LoadOrCreate(s.league, k);
    assert PoolOf(unit, t.league, e.week) == PoolOf(unit, s.league, e.week);
    HorizonMoves(unit, s, t.horizon);
    assert PayableWeeks(t.league, t.clock, t.horizon) == PayableWeeks(s.league, s.clock, t.horizon);
    PoolsDifferAt(unit, s.league, t.league, e.week, PayableWeeks(s.league, s.clock, t.horizon), t.horizon);
  }

  /** The override replaces one pool. */
  lemma OverrideMovesOnePool(o: Options, unit: Option<Address>, s: System, e: Event)
    requires Allowed(o, s, e) && e.Provision?
    ensures var lg, mg := s.league, LeagueAfter(o, s, e);
      && mg.open == lg.open
      && (forall k :: k != e.week ==> PoolOf(unit, mg, k) == PoolOf(unit, lg, k))
      && PoolOf(unit, mg, e.week) - PoolOf(unit, lg, e.week)
         == if SetPool(lg, e.amountWei, e.token, e.week).Ok?
            then Worth(unit, Some(e.token), e.amountWei) - PoolOf(unit, lg, e.week) else 0
  {
    assert forall k :: k != e.week ==> LoadOrCreate(LeagueAfter(o, s, e), k) == LoadOrCreate(s.league, k);
  }

  lemma ProvisionBalances(o: Options, unit: Option<Address>, s: System, e: Event)
    requires Sound(s) && Allowed(o, s, e) && e.Provision?
    ensures Imbalance(unit, After(o, unit, s, e)) == Imbalance(unit, s)
  {
    hide PoolOf, PoolsIn, LeagueAfter, MissedMoney, SetPool, Worth;
    var t := After(o, unit, s, e);
    OverrideMovesOnePool(o, unit, s, e);
    TimePasses(unit, s, e.week, t.horizon);
    assert PayableWeeks(t.league, t.clock, t.horizon) == PayableWeeks(s.league, e.week, t.horizon);
    assert e.week in PayableWeeks(s.league, e.week, t.horizon);
    PoolsDifferAt(unit, s.league, t.league, e.week, PayableWeeks(s.league, e.week, t.horizon), t.horizon);
  }

  /** A tick that closes no week leaves every pool as it is. */
  lemma QuietTick(o: Options, unit: Option<Address>, s: System, e: Event)
    requires Allowed(o, s, e) && e.Tick? && !Closes(s.league, e.week)
    ensures LeagueAfter(o, s, e) == s.league.(open := Some(e.week))
    ensures forall k :: PoolOf(unit, LeagueAfter(o, s, e), k) == PoolOf(unit, s.league, k)
    ensures BooksAfter(o, unit, s, e)
      == s.books.(stranded := s.books.stranded + MissedMoney(unit, s, e.week))
  {
    hide PaysOnlyWhatIsDue, Close, MissedMoney;
  }

  lemma QuietTickBalances(o: Options, unit: Option<Address>, s: System, e: Event)
    requires Sound(s) && Allowed(o, s, e) && e.Tick? && !Closes(s.league, e.week)
    ensures Imbalance(unit, After(o, unit, s, e)) == Imbalance(unit, s)
  {
    hide PoolOf, PoolsIn, LeagueAfter, BooksAfter, MissedMoney, PaysOnlyWhatIsDue;
    var t := After(o, unit, s, e);
    QuietTick(o, unit, s, e);
    TimePasses(unit, s, e.week, t.horizon);
    assert PayableWeeks(t.league, t.clock, t.horizon) == PayableWeeks(s.league, e.week, t.horizon);
    PoolsDifferAt(unit, s.league, t.league, e.week, PayableWeeks(s.league, e.week, t.horizon), t.horizon);
  }

  /** What a closing rollover does to the pools of one week and another. */
  lemma ClosingMovesPools(o: Options, unit: Option<Address>, s: System, e: Event)
    requires Sound(s) && Allowed(o, s, e) && e.Tick? && Closes(s.league, e.week)
    ensures var lg, mg := s.league, LeagueAfter(o, s, e);
      var w, carry := LoadOrCreate(lg, lg.open.value), Carried(o, lg, e.payout);
      && mg.open == Some(e.week)
      && (forall k :: k != e.week ==> PoolOf(unit, mg, k) == PoolOf(unit, lg, k))
      && (PoolOf(unit, mg, e.week) - PoolOf(unit, lg, e.week) == Worth(unit, w.token, carry)
          <==> !Mixes(o, unit, s, e))
  {
    hide PaidBy, Clip, PaysOnlyWhatIsDue, Rollover, LoadOrCreate, AmountTotal;
    RolloverConserves(o, s.league, e.payout, e.week);
    assert Labelled(LoadOrCreate(s.league, e.week)) && Labelled(LoadOrCreate(s.league, s.league.open.value));
  }

  lemma ClosingBalancesIff(o: Options, unit: Option<Address>, s: System, e: Event)
    requires Sound(s) && Allowed(o, s, e) && e.Tick? && Closes(s.league, e.week)
    ensures Imbalance(unit, After(o, unit, s, e)) == Imbalance(unit, s) <==> !Mixes(o, unit, s, e)
  {
    hide PaysOnlyWhatIsDue, Carried, PaidOut, Mixes, LeagueAfter, PoolsIn, MissedMoney;
    var t, ending := After(o, unit, s, e), s.league.open.value;
    var kept, live := PayableWeeks(s.league, e.week, t.horizon), PayableWeeks(t.league, t.clock, t.horizon);
    ClosingMovesPools(o, unit, s, e);
    TimePasses(unit, s, e.week, t.horizon);
    assert kept == {ending} + live;
    PoolsSplit(unit, s.league, {ending}, live, t.horizon);
    PoolsInOne(unit, s.league, ending, t.horizon);
    assert e.week in live;
    PoolsDifferAt(unit, s.league, t.league, e.week, live, t.horizon);
  }

  lemma OnlyGamesAndClosingsMix(o: Options, unit: Option<Address>, s: System, e: Event)
    requires !e.Settled? && (e.Tick? ==> !Closes(s.league, e.week))
    ensures !Mixes(o, unit, s, e)
  {
  }

  /** An event keeps the books of a token as balanced as they were exactly when it
      does not mix that token with another. */
  lemma StepBalancesIff(o: Options, unit: Option<Address>, s: System, e: Event, t: System)
    requires Sound(s) && Happens(o, unit, s, e, t)
    ensures Imbalance(unit, t) == Imbalance(unit, s) <==> !Mixes(o, unit, s, e)
  {
    hide Mixes, Imbalance, Sound, After, Allowed;
    if e.Settled? {
      SettledBalancesIff(o, unit, s, e);
    } else if e.Tick? && Closes(s.league, e.week) {
      ClosingBalancesIff(o, unit, s, e);
    } else {
      OnlyGamesAndClosingsMix(o, unit, s, e);
      match e
      case Referred(_, _, _) => BonusBalances(o, unit, s, e);
      case Provision(_, _, _) => ProvisionBalances(o, unit, s, e);
      case _ => QuietTickBalances(o, unit, s, e);
    }
  }

  lemma EmptyPools(unit: Option<Address>, lg: League)
    requires lg.weeks == map[]
    ensures forall week: nat :: PoolOf(unit, lg, week) == 0
  {
  }

  lemma NoMoneyBalances(unit: Option<Address>, s: System)
    requires s.league.weeks == map[] && Lost(s.books) == 0
    requires s.books.contributed == s.books.injected == s.books.paid == 0
    ensures Balanced(unit, s)
  {
    hide PoolOf;
    EmptyPools(unit, s.league);
    PoolsAreEmptyIff(unit, s.league, PayableWeeks(s.league, s.clock, s.horizon), s.horizon);
  }

  lemma BooksStartBalanced(unit: Option<Address>)
    ensures Balanced(unit, START) && Sound(START)
  {
    hide Sound, Balanced;
    StartIsSound();
    NoMoneyBalances(unit, START);
  }

  /** The books of one token balance over every run that never mixes it with another. */
  lemma {:induction false} UnmixedBooksBalance(
      o: Options, unit: Option<Address>, states: seq<System>, events: seq<Event>, i: nat)
    requires IsRun(o, unit, states, events) && i < |states|
    requires forall k :: 0 <= k < |events| ==> !Mixes(o, unit, states[k], events[k])
    ensures Balanced(unit, states[i])
  {
    hide Happens, Mixes, Imbalance;
    if i == 0 {
      BooksStartBalanced(unit);
    } else {
      UnmixedBooksBalance(o, unit, states, events, i - 1);
      RunStaysSound(o, unit, states, events, i - 1);
      StepBalancesIff(o, unit, states[i - 1], events[i - 1], states[i]);
    }
  }

  /** Over every run, late settlements included, the books of all money together balance. */
  lemma BooksAlwaysBalance(o: Options, states: seq<System>, events: seq<Event>, i: nat)
    requires IsRun(o, None, states, events) && i < |states|
    ensures Balanced(None, states[i])
  {
    UnmixedBooksBalance(o, None, states, events, i);
  }

  // ----- how money drops out -----

  lemma AllMoneyBalances(o: Options, s: System, e: Event, t: System)
    requires Sound(s) && Happens(o, None, s, e, t)
    ensures Imbalance(None, t) == Imbalance(None, s)
  {
    hide Imbalance, Sound, Happens, PaidOut, Carried, Credited;
    StepBalancesIff(o, None, s, e, t);
  }

  /** A settlement's contribution reaches a live pool exactly when it is none, or
      its week can still be opened; otherwise all of it is stranded. */
  lemma ContributionIsLiveIff(o: Options, s: System, e: Event, t: System)
    requires Sound(s) && Happens(o, None, s, e, t) && e.Settled?
    ensures LivePools(None, t) == LivePools(None, s) + Credited(o, e.game)
      <==> Credited(o, e.game) == 0 || CanStillOpen(s.league, s.clock, e.week)
    ensures t.books.stranded - s.books.stranded
      == if CanStillOpen(s.league, s.clock, e.week) then 0 else Credited(o, e.game)
  {
    hide LivePools, PoolOf, LeagueAfter, Credited;
    GameMovesOnePool(o, None, s, e);
    AllMoneyBalances(o, s, e, t);
  }

  lemma MissedStaysMissed(o: Options, unit: Option<Address>, s: System, e: Event, t: System, week: nat)
    requires Sound(s) && Happens(o, unit, s, e, t) && !CanStillOpen(s.league, s.clock, week)
    ensures !CanStillOpen(t.league, t.clock, week)
    ensures LoadOrCreate(t.league, week).poolWei >= LoadOrCreate(s.league, week).poolWei
  {
    hide PaidBy, PaysOnlyWhatIsDue, BooksAfter, Contribution, CreditSide, Clip, AmountTotal;
    if e.Tick? && Closes(s.league, e.week) {
      hide Rollover;
      RolloverConserves(o, s.league, e.payout, e.week);
    }
  }

  /** Whatever happens after, a week that can no longer be opened is never open, and
      its pool never shrinks: the money in it is not paid. */
  lemma {:induction false} MissedWeeksAreNeverPaid(
      o: Options, unit: Option<Address>, s: System, states: seq<System>, events: seq<Event>, k: nat, week: nat)
    requires Sound(s) && Leads(o, unit, s, states, events) && k < |states|
    requires !CanStillOpen(s.league, s.clock, week)
    ensures states[k].league.open != Some(week) && !CanStillOpen(states[k].league, states[k].clock, week)
    ensures LoadOrCreate(states[k].league, week).poolWei >= LoadOrCreate(s.league, week).poolWei
  {
    hide Happens, Sound;
    if k > 0 {
      MissedWeeksAreNeverPaid(o, unit, s, states, events, k - 1, week);
      LeadsStaysSound(o, unit, s, states, events, k - 1);
      MissedStaysMissed(o, unit, states[k - 1], events[k - 1], states[k], week);
    }
  }

  const PAY_NOBODY: Payout := (token, due, week) => []

  lemma NobodyPaid(o: Options, lg: League)
    requires lg.open.Some?
    ensures PaysOnlyWhatIsDue(o, LoadOrCreate(lg, lg.open.value), lg.open.value, PAY_NOBODY)
    ensures PaidOut(o, lg, PAY_NOBODY) == 0
  {
    hide DueFor;
  }

  lemma TickOpens(o: Options, s: System, week: nat)
    requires s.clock <= week
    ensures Allowed(o, s, Tick(PAY_NOBODY, week))
    ensures After(o, None, s, Tick(PAY_NOBODY, week)).league.open == Some(week)
  {
    hide PaysOnlyWhatIsDue, BooksAfter;
    if s.league.open.Some? { NobodyPaid(o, s.league); }
  }

  /** From any state, a week will be open at some time on some course of events
      exactly when it is open now or the clock has not gone past it. */
  lemma WeekOpensIff(o: Options, s: System, week: nat)
    requires Sound(s)
    ensures CanStillOpen(s.league, s.clock, week) <==>
      exists states: seq<System>, events: seq<Event> ::
        Leads(o, None, s, states, events) && states[|events|].league.open == Some(week)
  {
    hide Sound, After;
    if CanStillOpen(s.league, s.clock, week) {
      if s.league.open == Some(week) {
        assert Leads(o, None, s, [s], []);
      } else {
        TickOpens(o, s, week);
        var t := After(o, None, s, Tick(PAY_NOBODY, week));
        assert Happens(o, None, s, Tick(PAY_NOBODY, week), t);
        var states, events := [s, t], [Tick(PAY_NOBODY, week)];
        assert Leads(o, None, s, states, events) && states[|events|] == t;
      }
    } else {
      forall states: seq<System>, events: seq<Event> | Leads(o, None, s, states, events)
        ensures states[|events|].league.open != Some(week)
      {
        MissedWeeksAreNeverPaid(o, None, s, states, events, |events|, week);
      }
    }
  }

  /** No week that the clock passes on its way to `week` holds money, but for the open one. */
  ghost predicate MissesNoMoney(s: System, week: nat) {
    forall k: nat :: s.clock <= k < week && s.league.open != Some(k) ==> LoadOrCreate(s.league, k).poolWei == 0
  }

  lemma MissedMoneyIff(s: System, week: nat)
    ensures MissedMoney(None, s, week) == 0 <==> MissesNoMoney(s, week)
    ensures MissedMoney(None, s, week) >= 0
  {
    var missed := MissedWeeks(s.league, s.clock, week);
    PoolsAreEmptyIff(None, s.league, missed, week);
    assert forall k: nat :: PoolOf(None, s.league, k) == LoadOrCreate(s.league, k).poolWei;
    assert forall k: nat :: k in missed <==> s.clock <= k < week && s.league.open != Some(k);
  }

  /** The carry limit does not bite on what is left of the pool. */
  ghost predicate CarriesAll(o: Options, lg: League, payout: Payout)
    requires lg.open.Some?
  {
    o.maxCarryWei == 0 || LoadOrCreate(lg, lg.open.value).poolWei - PaidOut(o, lg, payout) <= o.maxCarryWei
  }

  lemma CarriesAllIff(o: Options, lg: League, payout: Payout)
    requires lg.open.Some?
    ensures var left := LoadOrCreate(lg, lg.open.value).poolWei - PaidOut(o, lg, payout);
      && (Carried(o, lg, payout) == left <==> CarriesAll(o, lg, payout))
      && Carried(o, lg, payout) <= left
  {
    hide PaidOut, LoadOrCreate;
  }

  /** The guard, on the state before the event, under which the event loses nothing. */
  ghost predicate LosesNothing(o: Options, s: System, e: Event) {
    match e
    case Settled(game, week) => Credited(o, game) == 0 || CanStillOpen(s.league, s.clock, week)
    case Referred(_, _, _) => true
    case Provision(amountWei, token, week) =>
      && MissesNoMoney(s, week)
      && (SetPool(s.league, amountWei, token, week).Err? || LoadOrCreate(s.league, week).poolWei == 0)
    case Tick(payout, week) =>
      MissesNoMoney(s, week) && (Closes(s.league, week) ==> CarriesAll(o, s.league, payout))
  }

  /** Losses only grow, and one event adds none exactly when its guard holds. */
  lemma StepLosesNothingIff(o: Options, s: System, e: Event, t: System)
    requires Sound(s) && Happens(o, None, s, e, t)
    ensures Lost(t.books) >= Lost(s.books)
    ensures Lost(t.books) == Lost(s.books) <==> LosesNothing(o, s, e)
  {
    hide MissedMoney, MissesNoMoney, PaidOut, Carried, CarriesAll, LeagueAfter, PaysOnlyWhatIsDue, Credited;
    hide LoadOrCreate;
    match e
    case Settled(_, _) =>
      ContributionIsLiveIff(o, s, e, t);
    case Referred(_, _, _) =>
    case Provision(_, _, week) =>
      MissedMoneyIff(s, week);
    case Tick(payout, week) =>
      MissedMoneyIff(s, week);
      if Closes(s.league, week) { CarriesAllIff(o, s.league, payout); }
  }

  /** A rollover, the first one included, keeps every unpaid unit in a live pool
      exactly when the carry limit does not bite and the clock passes no week, other
      than the open one, that holds money. */
  lemma RolloverDropsNothingIff(o: Options, s: System, e: Event, t: System)
    requires Sound(s) && Happens(o, None, s, e, t) && e.Tick?
    ensures var closes := Closes(s.league, e.week);
      LivePools(None, s) == LivePools(None, t) + (if closes then PaidOut(o, s.league, e.payout) else 0)
      <==> MissesNoMoney(s, e.week) && (closes ==> CarriesAll(o, s.league, e.payout))
  {
    hide LivePools, MissedMoney, MissesNoMoney, PaidOut, Carried, CarriesAll, LeagueAfter, PaysOnlyWhatIsDue;
    AllMoneyBalances(o, s, e, t);
    StepLosesNothingIff(o, s, e, t);
  }

  lemma {:induction false} LossesAddUp(o: Options, states: seq<System>, events: seq<Event>, i: nat)
    requires IsRun(o, None, states, events) && i < |states|
    ensures Lost(states[i].books) >= 0
    ensures Lost(states[i].books) == 0 <==> forall k :: 0 <= k < i ==> LosesNothing(o, states[k], events[k])
  {
    hide Happens, Sound, Lost, LosesNothing;
    if i == 0 {
      NothingLostYet();
    } else {
      LossesAddUp(o, states, events, i - 1);
      RunStaysSound(o, None, states, events, i - 1);
      StepLosesNothingIff(o, states[i - 1], events[i - 1], states[i]);
    }
  }

  lemma NothingLostYet()
    ensures Lost(START.books) == 0
  {
  }

  /** Over every run, all that came in is paid or can still be paid, if and only if
      no event lost anything: no contribution to a week that can no longer be opened,
      no pool overwritten, none clipped, and no funded week passed by unopened. */
  lemma NothingIsLostIff(o: Options, states: seq<System>, events: seq<Event>, i: nat)
    requires IsRun(o, None, states, events) && i < |states|
    ensures var s := states[i];
      s.books.contributed + s.books.injected == s.books.paid + LivePools(None, s)
      <==> forall k :: 0 <= k < i ==> LosesNothing(o, states[k], events[k])
  {
    hide IsRun, LivePools, LosesNothing, Lost;
    BooksAlwaysBalance(o, states, events, i);
    LossesAddUp(o, states, events, i);
  }

  /** Games land in the open week, and the operator does not set the pool. */
  ghost predicate PlainEvent(s: System, e: Event) {
    !e.Provision? && (e.Settled? ==> s.league.open == Some(e.week))
  }

  ghost predicate PlainSoFar(s: System) {
    && s.books.injected == 0 && Lost(s.books) == 0
    && (forall week: nat :: LoadOrCreate(s.league, week).poolWei > 0 ==>
         s.league.open.Some? && week <= s.league.open.value)
  }

  lemma PlainEventLosesNothing(o: Options, s: System, e: Event)
    requires o.maxCarryWei == 0 && Sound(s) && PlainSoFar(s) && PlainEvent(s, e)
    ensures LosesNothing(o, s, e)
  {
    hide Credited, PaidOut;
  }

  lemma PlainStep(o: Options, s: System, e: Event, t: System)
    requires o.maxCarryWei == 0
    requires Sound(s) && PlainSoFar(s) && PlainEvent(s, e) && Happens(o, None, s, e, t)
    ensures PlainSoFar(t)
  {
    PlainEventLosesNothing(o, s, e);
    StepLosesNothingIff(o, s, e, t);
    hide LosesNothing, Lost, Credit, PaidOut, Carried, PaidBy, PaysOnlyWhatIsDue, Contribution, MissedMoney;
    var lg, week := s.league, e.week;
    match e
    case Settled(_, _) =>
      assert forall k :: k != week ==> LoadOrCreate(t.league, k) == LoadOrCreate(lg, k);
    case Referred(_, _, _) =>
      assert forall k :: k != week ==> LoadOrCreate(t.league, k) == LoadOrCreate(lg, k);
      assert LoadOrCreate(t.league, week).poolWei == LoadOrCreate(lg, week).poolWei;
    case Tick(payout, _) =>
      if Closes(lg, week) {
        hide Rollover;
        RolloverConserves(o, lg, payout, week);
      } else {
        assert forall k :: LoadOrCreate(t.league, k) == LoadOrCreate(lg, k);
      }
  }

  /** With no carry limit and no override, and every game credited to the open week,
      each contribution is either paid or in the open pool. */
  lemma {:induction false} ContributionsArePaidOrPooled(
      o: Options, states: seq<System>, events: seq<Event>, i: nat)
    requires o.maxCarryWei == 0 && IsRun(o, None, states, events) && i < |states|
    requires forall k :: 0 <= k < |events| ==> PlainEvent(states[k], events[k])
    ensures PlainSoFar(states[i])
    ensures states[i].books.contributed == states[i].books.paid
      + (if states[i].league.open.Some? then LoadOrCreate(states[i].league, states[i].league.open.value).poolWei else 0)
  {
    hide Happens, PlainEvent, PlainSoFar, Sound, Balanced;
    if i == 0 {
      PlainAtFirst(START);
    } else {
      ContributionsArePaidOrPooled(o, states, events, i - 1);
      RunStaysSound(o, None, states, events, i - 1);
      PlainStep(o, states[i - 1], events[i - 1], states[i]);
    }
    BooksAlwaysBalance(o, states, events, i);
    RunStaysSound(o, None, states, events, i);
    OnlyTheOpenPool(states[i]);
  }

  lemma PlainAtFirst(s: System)
    requires s.books.injected == 0 && Lost(s.books) == 0 && s.league.weeks == map[]
    ensures PlainSoFar(s)
  {
  }

  /** In such a run the open pool is all that is live. */
  lemma OnlyTheOpenPool(s: System)
    requires Sound(s) && PlainSoFar(s) && Balanced(None, s)
    ensures s.books.contributed == s.books.paid
      + (if s.league.open.Some? then LoadOrCreate(s.league, s.league.open.value).poolWei else 0)
  {
    hide PoolsIn;
    var weeks := PayableWeeks(s.league, s.clock, s.horizon);
    if s.league.open.Some? {
      var open := s.league.open.value;
      assert weeks == {open} + (weeks - {open});
      PoolsSplit(None, s.league, {open}, weeks - {open}, s.horizon);
      PoolsInOne(None, s.league, open, s.horizon);
      PoolsAreEmptyIff(None, s.league, weeks - {open}, s.horizon);
    } else {
      PoolsAreEmptyIff(None, s.league, weeks, s.horizon);
    }
  }

  // ----- runs that lose money -----

  const TEN_AT_MOST: Options := Options(5, 3, 4500, 10, 5)
  const GAME: Game := Game("0xa", "0xb", 0, 10_000, 100, "0xt")

  /** Two players, 45 units of rake; the pool of the week grows by them. */
  lemma GameAdds45(lg: League, week: nat, token: Address)
    ensures var g := GAME.(token := token); var mg := Record(TEN_AT_MOST, lg, g, week);
      && Credited(TEN_AT_MOST, g) == 45
      && LoadOrCreate(mg, week).poolWei == LoadOrCreate(lg, week).poolWei + 45
      && (forall k :: k != week ==> LoadOrCreate(mg, k) == LoadOrCreate(lg, k))
      && mg.open == lg.open
      && LoadOrCreate(mg, week).token
         == (if LoadOrCreate(lg, week).token.None? then Some(token) else LoadOrCreate(lg, week).token)
  {
    hide CreditSide;
    assert Lower("0xa")[2] != Lower("0xb")[2];
  }

  /** The first rollover opens week 0. */
  ghost function Opened(): System {
    System(League(map[], Some(0), None), Books(0, 0, 0, 0, 0, 0), 0, 1)
  }

  lemma OpensWeek0()
    ensures Happens(TEN_AT_MOST, None, START, Tick(PAY_NOBODY, 0), Opened())
  {
    hide LeagueAfter, BooksAfter, PaysOnlyWhatIsDue;
    QuietTick(TEN_AT_MOST, None, START, Tick(PAY_NOBODY, 0));
  }

  /** A game credited to a week, seen by the books. */
  lemma GameStep(s: System, week: nat, t: System)
    requires Happens(TEN_AT_MOST, None, s, Settled(GAME, week), t)
    ensures t.league.open == s.league.open && t.clock == s.clock
    ensures forall k ::
      LoadOrCreate(t.league, k).poolWei == LoadOrCreate(s.league, k).poolWei + (if k == week then 45 else 0)
    ensures LoadOrCreate(t.league, week).token
      == (if LoadOrCreate(s.league, week).token.None? then Some("0xt") else LoadOrCreate(s.league, week).token)
    ensures t.books == s.books.(
      contributed := s.books.contributed + 45,
      stranded := s.books.stranded + (if CanStillOpen(s.league, s.clock, week) then 0 else 45))
  {
    hide Record, Credited;
    GameAdds45(s.league, week, "0xt");
    assert GAME.(token := "0xt") == GAME;
  }

  /** A rollover that pays nobody, seen by the books. */
  lemma TickStep(s: System, week: nat)
    requires s.clock <= week && s.league.open != Some(week)
    ensures Allowed(TEN_AT_MOST, s, Tick(PAY_NOBODY, week))
    ensures var t := After(TEN_AT_MOST, None, s, Tick(PAY_NOBODY, week));
      var pool := if s.league.open.Some? then LoadOrCreate(s.league, s.league.open.value).poolWei else 0;
      && t.league.open == Some(week) && t.clock == week
      && t.books == s.books.(clipped := s.books.clipped + (if pool > 10 then pool - 10 else 0),
                             stranded := s.books.stranded + MissedMoney(None, s, week))
  {
    hide PaysOnlyWhatIsDue, PaidOut, Rollover, LoadOrCreate, PoolOf, MissedMoney;
    TickOpens(TEN_AT_MOST, s, week);
    if s.league.open.Some? {
      NobodyPaid(TEN_AT_MOST, s.league);
      RolloverConserves(TEN_AT_MOST, s.league, PAY_NOBODY, week);
    }
  }

  lemma OneMissedWeek(s: System, k: nat)
    requires s.league.open != Some(k)
    requires s.clock == k || (s.clock == k - 1 && s.league.open == Some(k - 1))
    ensures MissedMoney(None, s, k + 1) == LoadOrCreate(s.league, k).poolWei
  {
    assert MissedWeeks(s.league, s.clock, k + 1) == {k};
    PoolsInOne(None, s.league, k, k + 1);
  }

  lemma NoMissedWeek(s: System, week: nat)
    requires s.clock == week || (s.clock == week - 1 && s.league.open == Some(week - 1))
    ensures MissedMoney(None, s, week) == 0
  {
    assert MissedWeeks(s.league, s.clock, week) == {};
    PoolsAreEmptyIff(None, s.league, {}, week);
  }

  /** What is live can be read off the books. */
  lemma BooksTell(states: seq<System>, events: seq<Event>, i: nat)
    requires IsRun(TEN_AT_MOST, None, states, events) && i < |states|
    ensures var b := states[i].books;
      LivePools(None, states[i]) == b.contributed + b.injected - b.paid - b.clipped - b.overwritten - b.stranded
  {
    hide IsRun, LivePools;
    BooksAlwaysBalance(TEN_AT_MOST, states, events, i);
  }

  /** A game of a week in which no rollover ran: its contribution is left behind. */
  lemma SkippedWeekLosesItsPool() returns (states: seq<System>)
    ensures IsRun(TEN_AT_MOST, None, states, [Tick(PAY_NOBODY, 0), Settled(GAME, 1), Tick(PAY_NOBODY, 2)])
    ensures states[3].books == Books(45, 0, 0, 0, 0, 45) && LivePools(None, states[3]) == 0
  {
    hide After, MissedMoney, LivePools;
    var events := [Tick(PAY_NOBODY, 0), Settled(GAME, 1), Tick(PAY_NOBODY, 2)];
    OpensWeek0();
    var s2 := After(TEN_AT_MOST, None, Opened(), Settled(GAME, 1));
    GameStep(Opened(), 1, s2);
    TickStep(s2, 2);
    OneMissedWeek(s2, 1);
    states := [START, Opened(), s2, After(TEN_AT_MOST, None, s2, Tick(PAY_NOBODY, 2))];
    BooksTell(states, events, 3);
  }

  /** A game credited before the first rollover, as a backfill may do: the week that
      the rollover adopts is a later one, and the earlier pool is left behind. */
  lemma FirstRolloverLosesEarlierWeeks() returns (states: seq<System>)
    ensures IsRun(TEN_AT_MOST, None, states, [Settled(GAME, 0), Tick(PAY_NOBODY, 1)])
    ensures states[2].books == Books(45, 0, 0, 0, 0, 45) && LivePools(None, states[2]) == 0
  {
    hide After, MissedMoney, LivePools;
    var events := [Settled(GAME, 0), Tick(PAY_NOBODY, 1)];
    var s1 := After(TEN_AT_MOST, None, START, Settled(GAME, 0));
    GameStep(START, 0, s1);
    TickStep(s1, 1);
    OneMissedWeek(s1, 0);
    states := [START, s1, After(TEN_AT_MOST, None, s1, Tick(PAY_NOBODY, 1))];
    BooksTell(states, events, 2);
  }

  /** A pool above the carry limit: the rest of it is in no pool. */
  lemma CarryLimitLosesMoney() returns (states: seq<System>)
    ensures IsRun(TEN_AT_MOST, None, states, [Tick(PAY_NOBODY, 0), Settled(GAME, 0), Tick(PAY_NOBODY, 1)])
    ensures states[3].books == Books(45, 0, 0, 35, 0, 0) && LivePools(None, states[3]) == 10
  {
    hide After, MissedMoney, LivePools;
    var events := [Tick(PAY_NOBODY, 0), Settled(GAME, 0), Tick(PAY_NOBODY, 1)];
    OpensWeek0();
    var s2 := After(TEN_AT_MOST, None, Opened(), Settled(GAME, 0));
    GameStep(Opened(), 0, s2);
    TickStep(s2, 1);
    NoMissedWeek(s2, 1);
    states := [START, Opened(), s2, After(TEN_AT_MOST, None, s2, Tick(PAY_NOBODY, 1))];
    BooksTell(states, events, 3);
  }

  /** A game of the week that has just been closed: its contribution is never paid. */
  lemma LateSettlementLosesItsContribution() returns (states: seq<System>)
    ensures IsRun(TEN_AT_MOST, None, states, [Tick(PAY_NOBODY, 0), Tick(PAY_NOBODY, 1), Settled(GAME, 0)])
    ensures states[3].books == Books(45, 0, 0, 0, 0, 45) && LivePools(None, states[3]) == 0
  {
    hide After, MissedMoney, LivePools;
    var events := [Tick(PAY_NOBODY, 0), Tick(PAY_NOBODY, 1), Settled(GAME, 0)];
    OpensWeek0();
    TickStep(Opened(), 1);
    NoMissedWeek(Opened(), 1);
    var s2 := After(TEN_AT_MOST, None, Opened(), Tick(PAY_NOBODY, 1));
    var s3 := After(TEN_AT_MOST, None, s2, Settled(GAME, 0));
    GameStep(s2, 0, s3);
    states := [START, Opened(), s2, s3];
    BooksTell(states, events, 3);
  }

  /** The operator sets a pool, seen by the books. */
  lemma ProvisionStep(s: System, amountWei: nat, week: nat)
    requires s.clock <= week
    requires LoadOrCreate(s.league, week).token in {None, Some("0xt")}
    ensures Allowed(TEN_AT_MOST, s, Provision(amountWei, "0xt", week))
    ensures var t := After(TEN_AT_MOST, None, s, Provision(amountWei, "0xt", week));
      && t.league.open == s.league.open && t.clock == week
      && t.books == s.books.(injected := s.books.injected + amountWei,
                             overwritten := s.books.overwritten + LoadOrCreate(s.league, week).poolWei,
                             stranded := s.books.stranded + MissedMoney(None, s, week))
  {
    hide MissedMoney;
  }

  /** A game of a week that was never opened and that the clock has passed: no
      rollover will ever open that week, though no later one is open yet. */
  lemma PassedWeekLosesItsContribution() returns (states: seq<System>)
    ensures IsRun(TEN_AT_MOST, None, states, [Provision(1, "0xt", 1), Settled(GAME, 0)])
    ensures states[2].books == Books(45, 1, 0, 0, 0, 45) && LivePools(None, states[2]) == 1
  {
    hide After, MissedMoney, LivePools;
    var events := [Provision(1, "0xt", 1), Settled(GAME, 0)];
    ProvisionStep(START, 1, 1);
    OneMissedWeek(START, 0);
    var s1 := After(TEN_AT_MOST, None, START, Provision(1, "0xt", 1));
    var s2 := After(TEN_AT_MOST, None, s1, Settled(GAME, 0));
    GameStep(s1, 0, s2);
    states := [START, s1, s2];
    BooksTell(states, events, 2);
  }

  /** The operator sets a pool to nothing: the rake in it is overwritten. */
  lemma OverrideErasesRake() returns (states: seq<System>)
    ensures IsRun(TEN_AT_MOST, None, states, [Tick(PAY_NOBODY, 0), Settled(GAME, 0), Provision(0, "0xt", 0)])
    ensures states[3].books == Books(45, 0, 0, 0, 45, 0) && LivePools(None, states[3]) == 0
  {
    hide After, MissedMoney, LivePools;
    var events := [Tick(PAY_NOBODY, 0), Settled(GAME, 0), Provision(0, "0xt", 0)];
    OpensWeek0();
    var s2 := After(TEN_AT_MOST, None, Opened(), Settled(GAME, 0));
    GameStep(Opened(), 0, s2);
    ProvisionStep(s2, 0, 0);
    NoMissedWeek(s2, 0);
    states := [START, Opened(), s2, After(TEN_AT_MOST, None, s2, Provision(0, "0xt", 0))];
    BooksTell(states, events, 3);
  }

  lemma OtherToken()
    ensures Lower("0xt") != Lower("0xu")
  {
    assert Lower("0xt")[2] != Lower("0xu")[2];
  }

  /** Two games of one week in different tokens: the books of the first token no
      longer balance, for the pool counts both under it. */
  lemma MixedTokensDoNotBalance() returns (states: seq<System>)
    ensures IsRun(TEN_AT_MOST, Some("0xt"), states, [Settled(GAME, 0), Settled(GAME.(token := "0xu"), 0)])
    ensures Balanced(Some("0xt"), states[1]) && !Balanced(Some("0xt"), states[2])
  {
    hide Record, Credited, BooksAfter, Imbalance, Sound, Lower;
    var unit := Some("0xt");
    var s1 := After(TEN_AT_MOST, unit, START, Settled(GAME, 0));
    GameAdds45(START.league, 0, "0xt");
    assert GAME.(token := "0xt") == GAME;
    var s2 := After(TEN_AT_MOST, unit, s1, Settled(GAME.(token := "0xu"), 0));
    GameAdds45(s1.league, 0, "0xu");
    OtherToken();
    states := [START, s1, s2];
    BooksStartBalanced(unit);
    StepBalancesIff(TEN_AT_MOST, unit, START, Settled(GAME, 0), s1);
    StepStaysSound(TEN_AT_MOST, unit, START, Settled(GAME, 0), s1);
    StepBalancesIff(TEN_AT_MOST, unit, s1, Settled(GAME.(token := "0xu"), 0), s2);
  }
}
