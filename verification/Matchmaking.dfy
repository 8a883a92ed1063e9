/** The waiting queue: a newcomer is matched at once if it can be, the sweep pairs
    whoever has become compatible, and anyone may leave.  People are followed over
    whole runs. */
module Matchmaking {
  import opened Wrappers
  import opened Text
  import opened Greedy
  import opened Pairing
  import Sorting

  function IdsOf(pairs: seq<Pair>): set<string> {
    set p, w | p in pairs && w in {p.a, p.b} :: w.id
  }

  /** The waiters whose id is not in `gone`. */
  function Without(ws: seq<Waiter>, gone: set<string>): seq<Waiter> {
    if ws == [] then []
    else
      var last := ws[|ws| - 1];
      Without(ws[..|ws| - 1], gone) + (if last.id in gone then [] else [last])
  }

  function RemoveAt(ws: seq<Waiter>, k: nat): seq<Waiter>
    requires k < |ws|
  {
    ws[..k] + ws[k + 1..]
  }

  /** The queue after an arrival, and the pair it made. */
  datatype Arrival = Arrival(queue: seq<Waiter>, made: Option<Pair>)

  function Enqueued(ws: seq<Waiter>, p: Waiter, o: Options, now: int): Arrival {
    var best := BestIndex(p, ws, o, now, |ws|);
    if best.Some? then Arrival(RemoveAt(ws, best.value), Some(Pair(p, ws[best.value])))
    else Arrival(ws + [p], None)
  }

  function Swept(ws: seq<Waiter>, o: Options, now: int): seq<Waiter> {
    Without(ws, IdsOf(Pairings(ws, o, now)))
  }

  /** The position of the first waiter with this id. */
  function FindId(ws: seq<Waiter>, id: string): Option<nat>
    ensures FindId(ws, id).Some? ==> FindId(ws, id).value < |ws| && ws[FindId(ws, id).value].id == id
    ensures FindId(ws, id).None? ==> forall k :: 0 <= k < |ws| ==> ws[k].id != id
  {
    if ws == [] then None
    else
      var front := FindId(ws[..|ws| - 1], id);
      if front.Some? then front
      else if ws[|ws| - 1].id == id then Some(|ws| - 1)
      else
        assert forall k :: 0 <= k < |ws| - 1 ==> ws[k] == ws[..|ws| - 1][k];
        None
  }

  function Removed(ws: seq<Waiter>, id: string): seq<Waiter> {
    var k := FindId(ws, id);
    if k.Some? then RemoveAt(ws, k.value) else ws
  }

  // ----- after a sweep -----

  lemma {:induction false} WithoutMembers(ws: seq<Waiter>, gone: set<string>)
    ensures forall w :: w in Without(ws, gone) <==> w in ws && w.id !in gone
  {
    if ws != [] {
      WithoutMembers(ws[..|ws| - 1], gone);
      assert ws == ws[..|ws| - 1] + [ws[|ws| - 1]];
    }
  }

  /** Two places among the survivors are two places in the queue. */
  lemma {:induction false} WithoutPlaces(ws: seq<Waiter>, gone: set<string>, x: nat, y: nat) returns (i: nat, j: nat)
    requires x < y < |Without(ws, gone)|
    ensures i < j < |ws| && ws[i] == Without(ws, gone)[x] && ws[j] == Without(ws, gone)[y]
    ensures ws[i].id !in gone && ws[j].id !in gone
  {
    var n := |ws| - 1;
    var front := Without(ws[..n], gone);
    if y < |front| {
      i, j := WithoutPlaces(ws[..n], gone, x, y);
    } else {
      j := n;
      WithoutMembers(ws[..n], gone);
      assert front[x] in front;
      i :| 0 <= i < n && ws[i] == front[x];
    }
  }

  lemma PairedIds(ws: seq<Waiter>, o: Options, now: int, c: Candidate)
    requires c in Chosen(ws, o, now) && c.i < |ws| && c.j < |ws|
    ensures ws[c.i].id in IdsOf(Pairings(ws, o, now)) && ws[c.j].id in IdsOf(Pairings(ws, o, now))
  {
    hide Chosen;
    var chosen, pairs := Chosen(ws, o, now), Pairings(ws, o, now);
    var k :| 0 <= k < |chosen| && chosen[k] == c;
    var p := pairs[k];
    assert p in pairs && p == OrderPair(ws[c.i], ws[c.j]);
    assert ws[c.i] in {p.a, p.b} && ws[c.j] in {p.a, p.b};
  }

  /** After a sweep, no two of those still waiting would accept each other. */
  lemma SweepIsExhaustive(ws: seq<Waiter>, o: Options, now: int, x: nat, y: nat)
    requires x < y < |Swept(ws, o, now)|
    ensures !Accepts(Swept(ws, o, now)[x], Swept(ws, o, now)[y], o, now)
  {
    hide Accepts, Chosen, Gap, PairKey, IdsOf;
    var gone := IdsOf(Pairings(ws, o, now));
    var i, j := WithoutPlaces(ws, gone, x, y);
    var chosen := Chosen(ws, o, now);
    ChosenIsAStableMatching(ws, o, now);
    if Accepts(ws[i], ws[j], o, now) {
      var c := CandidateOf(ws, i, j);
      assert IsCandidate(ws, o, now, c);
      if c in chosen {
        PairedIds(ws, o, now, c);
      } else {
        var d :| d in chosen && SharesWaiter(d, c);
        PairedIds(ws, o, now, d);
      }
      assert false;
    }
  }

  // ----- where everyone is after a sweep -----

  /** Both sides of every pair, in order. */
  function People(pairs: seq<Pair>): seq<Waiter> {
    seq(2 * |pairs|, m requires 0 <= m < 2 * |pairs| => if m % 2 == 0 then pairs[m / 2].a else pairs[m / 2].b)
  }

  lemma PeopleOfMore(pairs: seq<Pair>, more: seq<Pair>)
    ensures multiset(People(pairs + more)) == multiset(People(pairs)) + multiset(People(more))
  {
    assert People(pairs + more) == People(pairs) + People(more);
  }

  lemma PeopleOfOne(p: Pair)
    ensures multiset(People([p])) == multiset{p.a, p.b}
  {
    assert People([p]) == [p.a, p.b];
  }

  /** The waiters at `places`, among the first `n`. */
  ghost function At(ws: seq<Waiter>, places: set<nat>, n: nat): multiset<Waiter>
    requires n <= |ws|
  {
    if n == 0 then multiset{}
    else At(ws, places, n - 1) + (if n - 1 in places then multiset{ws[n - 1]} else multiset{})
  }

  lemma {:induction false} AtSplits(ws: seq<Waiter>, x: set<nat>, y: set<nat>, n: nat)
    requires n <= |ws| && x !! y
    ensures At(ws, x + y, n) == At(ws, x, n) + At(ws, y, n)
  {
    if n > 0 { AtSplits(ws, x, y, n - 1); }
  }

  lemma {:induction false} AtAll(ws: seq<Waiter>, places: set<nat>, n: nat)
    requires n <= |ws| && forall i: nat :: i < n ==> i in places
    ensures At(ws, places, n) == multiset(ws[..n])
  {
    if n > 0 {
      AtAll(ws, places, n - 1);
      assert ws[..n] == ws[..n - 1] + [ws[n - 1]];
    }
  }

  lemma {:induction false} AtOne(ws: seq<Waiter>, i: nat, n: nat)
    requires n <= |ws|
    ensures At(ws, {i}, n) == if i < n then multiset{ws[i]} else multiset{}
  {
    if n > 0 { AtOne(ws, i, n - 1); }
  }

  lemma {:induction false} AtIsEmptyIff(ws: seq<Waiter>, places: set<nat>, n: nat)
    requires n <= |ws|
    ensures At(ws, places, n) == multiset{} <==> forall i: nat :: i < n ==> i !in places
  {
    if n > 0 {
      AtIsEmptyIff(ws, places, n - 1);
      if n - 1 in places { assert ws[n - 1] in At(ws, places, n); }
    }
  }

  ghost function StayingPlaces(ws: seq<Waiter>, gone: set<string>): set<nat> {
    set i: nat | i < |ws| && ws[i].id !in gone
  }

  lemma {:induction false} AtStaying(ws: seq<Waiter>, gone: set<string>, n: nat)
    requires n <= |ws|
    ensures At(ws, StayingPlaces(ws, gone), n) == multiset(Without(ws[..n], gone))
  {
    hide Without;
    if n > 0 { AtStaying(ws, gone, n - 1); }
    WithoutLast(ws, gone, n);
  }

  lemma WithoutLast(ws: seq<Waiter>, gone: set<string>, n: nat)
    requires n <= |ws|
    ensures Without(ws[..n], gone)
      == if n == 0 then []
         else Without(ws[..n - 1], gone) + (if ws[n - 1].id in gone then [] else [ws[n - 1]])
  {
    if n > 0 { assert ws[..n][..n - 1] == ws[..n - 1]; }
  }

  /** The places of the queue the candidates take. */
  ghost function PlacesOf(cs: seq<Candidate>): set<nat> {
    if cs == [] then {} else PlacesOf(cs[..|cs| - 1]) + {cs[|cs| - 1].i, cs[|cs| - 1].j}
  }

  lemma {:induction false} PlacesOfMembers(cs: seq<Candidate>, i: nat)
    ensures i in PlacesOf(cs) <==> exists k :: 0 <= k < |cs| && i in {cs[k].i, cs[k].j}
  {
    if cs != [] {
      var n := |cs| - 1;
      PlacesOfMembers(cs[..n], i);
      if i in PlacesOf(cs[..n]) {
        var k :| 0 <= k < n && i in {cs[..n][k].i, cs[..n][k].j};
        assert i in {cs[k].i, cs[k].j};
      }
      if k :| 0 <= k < |cs| && i in {cs[k].i, cs[k].j} {
        if k < n { assert i in {cs[..n][k].i, cs[..n][k].j}; }
      }
    }
  }

  lemma OrderPairSides(x: Waiter, y: Waiter)
    ensures multiset{OrderPair(x, y).a, OrderPair(x, y).b} == multiset{x, y}
  {
  }

  ghost function PairsOf(ws: seq<Waiter>, cs: seq<Candidate>): seq<Pair> {
    Map(cs, c => PairOf(ws, c))
  }

  lemma PairsOfLast(ws: seq<Waiter>, cs: seq<Candidate>)
    requires cs != []
    ensures PairsOf(ws, cs) == PairsOf(ws, cs[..|cs| - 1]) + [PairOf(ws, cs[|cs| - 1])]
  {
  }

  lemma AtTwo(ws: seq<Waiter>, i: nat, j: nat)
    requires i < j < |ws|
    ensures At(ws, {i, j}, |ws|) == multiset{ws[i], ws[j]}
  {
    AtSplits(ws, {i}, {j}, |ws|);
    AtOne(ws, i, |ws|);
    AtOne(ws, j, |ws|);
    assert {i} + {j} == {i, j};
  }

  /** Disjoint candidates pair exactly the people at their places. */
  lemma {:induction false} AtPaired(ws: seq<Waiter>, cs: seq<Candidate>)
    requires forall k :: 0 <= k < |cs| ==> cs[k].i < cs[k].j < |ws|
    requires forall k, l :: 0 <= k < l < |cs| ==> !SharesWaiter(cs[k], cs[l])
    ensures At(ws, PlacesOf(cs), |ws|) == multiset(People(PairsOf(ws, cs)))
  {
    hide OrderPair, People, At, PairsOf;
    if cs == [] {
      AtIsEmptyIff(ws, {}, |ws|);
      NoPairs(ws);
    } else {
      var n := |cs| - 1;
      var c := cs[n];
      AtPaired(ws, cs[..n]);
      assert c.i !in PlacesOf(cs[..n]) && c.j !in PlacesOf(cs[..n]) by {
        PlacesOfMembers(cs[..n], c.i);
        PlacesOfMembers(cs[..n], c.j);
      }
      AtSplits(ws, PlacesOf(cs[..n]), {c.i, c.j}, |ws|);
      AtTwo(ws, c.i, c.j);
      OrderPairSides(ws[c.i], ws[c.j]);
      PairsOfLast(ws, cs);
      PeopleOfMore(PairsOf(ws, cs[..n]), [PairOf(ws, c)]);
      PeopleOfOne(PairOf(ws, c));
    }
  }

  lemma NoPairs(ws: seq<Waiter>)
    ensures People(PairsOf(ws, [])) == []
  {
  }

  lemma NoPeople()
    ensures People([]) == []
  {
  }

  ghost function PairedPlaces(ws: seq<Waiter>, o: Options, now: int): set<nat> {
    PlacesOf(Chosen(ws, o, now))
  }

  /** The places of those whom the sweep takes out unpaired, for the id they share with someone paired. */
  ghost function DroppedPlaces(ws: seq<Waiter>, o: Options, now: int): set<nat> {
    set i: nat | i < |ws| && i !in PairedPlaces(ws, o, now) && ws[i].id in IdsOf(Pairings(ws, o, now))
  }

  ghost function Dropped(ws: seq<Waiter>, o: Options, now: int): multiset<Waiter> {
    At(ws, DroppedPlaces(ws, o, now), |ws|)
  }

  lemma ChosenInRange(ws: seq<Waiter>, o: Options, now: int)
    ensures forall k :: 0 <= k < |Chosen(ws, o, now)| ==> Chosen(ws, o, now)[k].i < Chosen(ws, o, now)[k].j < |ws|
  {
    hide Chosen, Accepts;
    ChosenIsAStableMatching(ws, o, now);
    forall k | 0 <= k < |Chosen(ws, o, now)|
      ensures Chosen(ws, o, now)[k].i < Chosen(ws, o, now)[k].j < |ws|
    {
      assert IsCandidate(ws, o, now, Chosen(ws, o, now)[k]);
    }
  }

  /** The sweep takes out exactly the ids of the paired places. */
  lemma PairedIdsAreGone(ws: seq<Waiter>, o: Options, now: int)
    ensures forall i :: i in PairedPlaces(ws, o, now) ==> i < |ws|
    ensures forall id :: (id in IdsOf(Pairings(ws, o, now))
      <==> exists i :: i in PairedPlaces(ws, o, now) && i < |ws| && ws[i].id == id)
  {
    hide Chosen, PlacesOf, Pairings, IdsOf;
    var chosen, pairs := Chosen(ws, o, now), Pairings(ws, o, now);
    ChosenInRange(ws, o, now);
    forall i | i in PairedPlaces(ws, o, now)
      ensures i < |ws| && ws[i].id in IdsOf(pairs)
    {
      PlacesOfMembers(chosen, i);
      var k :| 0 <= k < |chosen| && i in {chosen[k].i, chosen[k].j};
      PairedIds(ws, o, now, chosen[k]);
    }
    forall id | id in IdsOf(pairs)
      ensures exists i :: i in PairedPlaces(ws, o, now) && i < |ws| && ws[i].id == id
    {
      var i := PlaceOfGone(ws, o, now, id);
    }
  }

  lemma PlaceOfGone(ws: seq<Waiter>, o: Options, now: int, id: string) returns (i: nat)
    requires id in IdsOf(Pairings(ws, o, now))
    ensures i in PairedPlaces(ws, o, now) && i < |ws| && ws[i].id == id
  {
    hide Chosen, OrderPair, PlacesOf;
    var chosen, pairs := Chosen(ws, o, now), Pairings(ws, o, now);
    ChosenInRange(ws, o, now);
    var p, w :| p in pairs && w in {p.a, p.b} && w.id == id;
    var k :| 0 <= k < |pairs| && pairs[k] == p;
    var c := chosen[k];
    OrderPairSides(ws[c.i], ws[c.j]);
    assert w in multiset{ws[c.i], ws[c.j]};
    i := if ws[c.i] == w then c.i else c.j;
    assert i in {c.i, c.j};
    PlacesOfMembers(chosen, i);
  }

  /** For any queue: those who stay, those paired and those dropped are together
      everyone who waited, each place counted once. */
  lemma SweepAccountsForAll(ws: seq<Waiter>, o: Options, now: int)
    ensures multiset(ws)
      == multiset(Swept(ws, o, now)) + multiset(People(Pairings(ws, o, now))) + Dropped(ws, o, now)
  {
    hide Chosen, People, IdsOf, PairedPlaces;
    var gone := IdsOf(Pairings(ws, o, now));
    var staying, paired, dropped := StayingPlaces(ws, gone), PairedPlaces(ws, o, now), DroppedPlaces(ws, o, now);
    PairedIdsAreGone(ws, o, now);
    AtStaying(ws, gone, |ws|);
    PairedPeople(ws, o, now);
    AtSplits(ws, staying, paired, |ws|);
    AtSplits(ws, staying + paired, dropped, |ws|);
    AtAll(ws, staying + paired + dropped, |ws|);
    assert ws[..|ws|] == ws;
  }

  lemma PairedPeople(ws: seq<Waiter>, o: Options, now: int)
    ensures At(ws, PairedPlaces(ws, o, now), |ws|) == multiset(People(Pairings(ws, o, now)))
  {
    hide Chosen, People, At, PlacesOf;
    ChosenIsAStableMatching(ws, o, now);
    ChosenInRange(ws, o, now);
    AtPaired(ws, Chosen(ws, o, now));
  }

  /** Nobody left unpaired shares an id with somebody paired. */
  ghost predicate NoIdIsShared(ws: seq<Waiter>, o: Options, now: int) {
    forall i: nat, j: nat :: i < |ws| && j < |ws| && i !in PairedPlaces(ws, o, now) && j in PairedPlaces(ws, o, now) ==>
      ws[i].id != ws[j].id
  }

  lemma NobodyDroppedIff(ws: seq<Waiter>, o: Options, now: int)
    ensures Dropped(ws, o, now) == multiset{} <==> NoIdIsShared(ws, o, now)
  {
    hide IdsOf, PairedPlaces, Pairings;
    PairedIdsAreGone(ws, o, now);
    AtIsEmptyIff(ws, DroppedPlaces(ws, o, now), |ws|);
    if i: nat, j: nat :| i < |ws| && j < |ws| && i !in PairedPlaces(ws, o, now) && j in PairedPlaces(ws, o, now)
                         && ws[i].id == ws[j].id {
      assert i in DroppedPlaces(ws, o, now);
    }
  }

  /** The survivors and the paired are together exactly those who were waiting,
      if and only if nobody left unpaired has the id of somebody paired. */
  lemma SweepLosesNobodyIff(ws: seq<Waiter>, o: Options, now: int)
    ensures multiset(ws) == multiset(Swept(ws, o, now)) + multiset(People(Pairings(ws, o, now)))
      <==> NoIdIsShared(ws, o, now)
  {
    hide Dropped, Swept, People, Pairings, NoIdIsShared;
    SweepAccountsForAll(ws, o, now);
    NobodyDroppedIff(ws, o, now);
    var rest, dropped := multiset(Swept(ws, o, now)) + multiset(People(Pairings(ws, o, now))), Dropped(ws, o, now);
    if rest + dropped == rest { assert forall w :: dropped[w] == (rest + dropped)[w] - rest[w]; }
  }

  ghost predicate UniqueIds(ws: seq<Waiter>) {
    forall i, j :: 0 <= i < j < |ws| ==> ws[i].id != ws[j].id
  }

  /** With unique ids, the survivors and the paired are exactly those who were
      waiting, and nobody is paired twice. */
  lemma SweepLosesNobody(ws: seq<Waiter>, o: Options, now: int)
    requires UniqueIds(ws)
    ensures multiset(ws) == multiset(Swept(ws, o, now)) + multiset(People(Pairings(ws, o, now)))
    ensures Sorting.Distinct(People(Pairings(ws, o, now))) && NoIdIsShared(ws, o, now)
  {
    hide PairedPlaces, Swept, People, Pairings;
    var rest, paired := multiset(Swept(ws, o, now)), multiset(People(Pairings(ws, o, now)));
    SweepLosesNobodyIff(ws, o, now);
    Sorting.DistinctCounts(ws);
    forall w | w in paired
      ensures paired[w] == 1
    {
      assert multiset(ws)[w] == rest[w] + paired[w];
    }
    Sorting.DistinctCounts(People(Pairings(ws, o, now)));
  }

  lemma RemovingOne(ws: seq<Waiter>, k: nat)
    requires k < |ws|
    ensures multiset(ws) == multiset(RemoveAt(ws, k)) + multiset{ws[k]}
  {
    assert ws == ws[..k] + [ws[k]] + ws[k + 1..];
  }

  // ----- whole runs -----

  /** The queue, everyone who ever arrived, the pairs made, and those who left the
      queue unpaired: by asking, or dropped by a sweep. */
  datatype Hall = Hall(
    queue: seq<Waiter>, arrived: multiset<Waiter>, made: seq<Pair>, left: multiset<Waiter>, dropped: multiset<Waiter>)

  datatype Event = Arrive(p: Waiter, now: int) | Sweep(now: int) | Leave(id: string)

  const EMPTY_HALL: Hall := Hall([], multiset{}, [], multiset{}, multiset{})

  ghost function After(o: Options, h: Hall, e: Event): Hall {
    match e
    case Arrive(p, now) =>
      var a := Enqueued(h.queue, p, o, now);
      h.(queue := a.queue, arrived := h.arrived + multiset{p}, made := h.made + PairsMade(a))
    case Sweep(now) =>
      h.(queue := Swept(h.queue, o, now), made := h.made + Pairings(h.queue, o, now),
         dropped := h.dropped + Dropped(h.queue, o, now))
    case Leave(id) =>
      var k := FindId(h.queue, id);
      h.(queue := Removed(h.queue, id), left := h.left + (if k.Some? then multiset{h.queue[k.value]} else multiset{}))
  }

  function PairsMade(a: Arrival): seq<Pair> {
    if a.made.Some? then [a.made.value] else []
  }

  /** The hall after any events at all, in order. */
  ghost function HallAfter(o: Options, events: seq<Event>): Hall {
    if events == [] then EMPTY_HALL
    else After(o, HallAfter(o, events[..|events| - 1]), events[|events| - 1])
  }

  /** A pair is of two wallets, within the rating ceiling. */
  predicate FairPair(o: Options, p: Pair) {
    Wallet(p.a) != Wallet(p.b) && (o.maxGap.Some? ==> Gap(p.a, p.b) as real <= o.maxGap.value)
  }

  ghost predicate AllFair(o: Options, made: seq<Pair>) {
    forall k :: 0 <= k < |made| ==> FairPair(o, made[k])
  }

  /** Every arrival is in one place: waiting, on one side of one pair, gone, or dropped. */
  ghost predicate Accounted(o: Options, h: Hall) {
    && h.arrived == multiset(h.queue) + multiset(People(h.made)) + h.left + h.dropped
    && AllFair(o, h.made)
  }

  lemma AcceptedPairsAreFair(ws: seq<Waiter>, o: Options, now: int)
    ensures AllFair(o, Pairings(ws, o, now))
  {
    hide Chosen, WaitedSec, PairKey;
    ChosenIsAStableMatching(ws, o, now);
    forall k | 0 <= k < |Pairings(ws, o, now)|
      ensures FairPair(o, Pairings(ws, o, now)[k])
    {
      assert IsCandidate(ws, o, now, Chosen(ws, o, now)[k]);
    }
  }

  /** A newcomer joins the queue, or takes a partner out of it. */
  lemma ArrivalMovesPeople(ws: seq<Waiter>, p: Waiter, o: Options, now: int)
    ensures var a := Enqueued(ws, p, o, now);
      && multiset(ws) + multiset{p} == multiset(a.queue) + multiset(People(PairsMade(a)))
      && AllFair(o, PairsMade(a))
  {
    hide Accepts, FairPair;
    BestIndexIsBest(p, ws, o, now, |ws|);
    var best := BestIndex(p, ws, o, now, |ws|);
    if best.Some? {
      var partner := ws[best.value];
      RemovingOne(ws, best.value);
      PeopleOfOne(Pair(p, partner));
      AcceptedIsFair(p, partner, o, now);
    }
  }

  lemma AcceptedIsFair(a: Waiter, b: Waiter, o: Options, now: int)
    requires Accepts(a, b, o, now)
    ensures FairPair(o, Pair(a, b))
  {
  }

  lemma StepKeeps(o: Options, h: Hall, e: Event)
    requires Accounted(o, h)
    ensures Accounted(o, After(o, h, e))
  {
    hide People, FairPair, Enqueued, Swept, Pairings, Dropped, Removed;
    match e
    case Arrive(p, now) =>
      ArrivalMovesPeople(h.queue, p, o, now);
      var a := Enqueued(h.queue, p, o, now);
      PeopleOfMore(h.made, PairsMade(a));
      Regroup(multiset(h.queue), multiset(a.queue), multiset(People(h.made)), multiset(People(PairsMade(a))),
              h.left, h.dropped, multiset{p});
    case Sweep(now) =>
      SweepAccountsForAll(h.queue, o, now);
      PeopleOfMore(h.made, Pairings(h.queue, o, now));
      AcceptedPairsAreFair(h.queue, o, now);
    case Leave(id) =>
      var k := FindId(h.queue, id);
      RemovedIs(h.queue, id);
      if k.Some? { RemovingOne(h.queue, k.value); }
  }

  lemma Regroup(
      queue: multiset<Waiter>, rest: multiset<Waiter>, paired: multiset<Waiter>, added: multiset<Waiter>,
      left: multiset<Waiter>, dropped: multiset<Waiter>, p: multiset<Waiter>)
    requires queue + p == rest + added
    ensures queue + paired + left + dropped + p == rest + (paired + added) + left + dropped
  {
    assert queue + paired + left + dropped + p == (queue + p) + paired + left + dropped;
  }

  lemma RemovedIs(ws: seq<Waiter>, id: string)
    ensures var k := FindId(ws, id);
      Removed(ws, id) == if k.Some? then RemoveAt(ws, k.value) else ws
  {
  }

  /** After any events, everyone who arrived is waiting, paired, gone or dropped,
      each arrival once; and every pair is of different wallets within the ceiling. */
  lemma {:induction false} EveryoneIsAccountedFor(o: Options, events: seq<Event>)
    ensures Accounted(o, HallAfter(o, events))
  {
    hide After, Accounted;
    if events == [] {
      NobodyYet(o);
    } else {
      var n := |events| - 1;
      EveryoneIsAccountedFor(o, events[..n]);
      StepKeeps(o, HallAfter(o, events[..n]), events[n]);
    }
  }

  lemma NobodyYet(o: Options)
    ensures Accounted(o, EMPTY_HALL)
  {
    NoPeople();
  }

  /** The event at place `i`, if it is a sweep, meets no shared id. */
  ghost predicate DropsNobody(o: Options, events: seq<Event>, i: nat)
    requires i < |events|
  {
    events[i].Sweep? ==> NoIdIsShared(HallAfter(o, events[..i]).queue, o, events[i].now)
  }

  /** Over any events, a sweep has dropped somebody exactly when at some sweep an
      unpaired waiter had the id of a paired one. */
  lemma {:induction false} NobodyIsDroppedIff(o: Options, events: seq<Event>)
    ensures HallAfter(o, events).dropped == multiset{} <==>
      forall i :: 0 <= i < |events| ==> DropsNobody(o, events, i)
  {
    hide DropsNobody, After;
    if events != [] {
      var n := |events| - 1;
      NobodyIsDroppedIff(o, events[..n]);
      forall i | 0 <= i < n
        ensures DropsNobody(o, events[..n], i) == DropsNobody(o, events, i)
      {
        SameSoFar(o, events, n, i);
      }
      LastDropsNobody(o, events);
    }
  }

  lemma SameSoFar(o: Options, events: seq<Event>, n: nat, i: nat)
    requires i < n <= |events|
    ensures DropsNobody(o, events[..n], i) == DropsNobody(o, events, i)
  {
    hide NoIdIsShared, HallAfter;
    assert events[..n][..i] == events[..i];
  }

  lemma LastDropsNobody(o: Options, events: seq<Event>)
    requires events != []
    ensures var n := |events| - 1; var was, now := HallAfter(o, events[..n]).dropped, HallAfter(o, events).dropped;
      now == multiset{} <==> was == multiset{} && DropsNobody(o, events, n)
  {
    hide NoIdIsShared, Dropped, Swept, Pairings, Enqueued, Removed;
    var n := |events| - 1;
    var h := HallAfter(o, events[..n]);
    if events[n].Sweep? { NobodyDroppedIff(h.queue, o, events[n].now); }
  }

  lemma {:induction false} WithoutKeepsUnique(ws: seq<Waiter>, gone: set<string>)
    requires UniqueIds(ws)
    ensures UniqueIds(Without(ws, gone))
  {
    forall x, y | 0 <= x < y < |Without(ws, gone)|
      ensures Without(ws, gone)[x].id != Without(ws, gone)[y].id
    {
      var i, j := WithoutPlaces(ws, gone, x, y);
    }
  }

  /** The event is an arrival that finds no partner and joins the queue, in which its
      id is waiting already. */
  ghost predicate JoinsAgain(o: Options, h: Hall, e: Event) {
    && e.Arrive?
    && Enqueued(h.queue, e.p, o, e.now).made.None?
    && exists w :: w in h.queue && w.id == e.p.id
  }

  lemma OneMoreIsUniqueIff(ws: seq<Waiter>, p: Waiter)
    requires UniqueIds(ws)
    ensures UniqueIds(ws + [p]) <==> !exists w :: w in ws && w.id == p.id
  {
    var more := ws + [p];
    if w :| w in ws && w.id == p.id {
      var k :| 0 <= k < |ws| && ws[k] == w;
      assert more[k] == w && more[|ws|] == p;
    } else {
      assert forall k :: 0 <= k < |ws| ==> more[k] == ws[k] && ws[k] in ws;
    }
  }

  lemma RemovingKeepsUnique(ws: seq<Waiter>, k: nat)
    requires UniqueIds(ws) && k < |ws|
    ensures UniqueIds(RemoveAt(ws, k))
  {
  }

  /** One event makes an id wait twice exactly if it is such an arrival. */
  lemma StepKeepsUniqueIff(o: Options, h: Hall, e: Event)
    requires UniqueIds(h.queue)
    ensures UniqueIds(After(o, h, e).queue) <==> !JoinsAgain(o, h, e)
  {
    hide UniqueIds, BestIndex, RemoveAt, Pairings, IdsOf, Without;
    match e
    case Sweep(now) =>
      WithoutKeepsUnique(h.queue, IdsOf(Pairings(h.queue, o, now)));
    case Leave(id) =>
      var k := FindId(h.queue, id);
      if k.Some? { RemovingKeepsUnique(h.queue, k.value); }
    case Arrive(p, now) =>
      var best := BestIndex(p, h.queue, o, now, |h.queue|);
      if best.Some? { RemovingKeepsUnique(h.queue, best.value); }
      OneMoreIsUniqueIff(h.queue, p);
  }

  ghost predicate UniqueAt(o: Options, events: seq<Event>, i: nat)
    requires i <= |events|
  {
    UniqueIds(HallAfter(o, events[..i]).queue)
  }

  ghost predicate JoinsAgainAt(o: Options, events: seq<Event>, i: nat)
    requires i < |events|
  {
    JoinsAgain(o, HallAfter(o, events[..i]), events[i])
  }

  lemma UniqueNextIff(o: Options, events: seq<Event>, i: nat)
    requires i < |events| && UniqueAt(o, events, i)
    ensures UniqueAt(o, events, i + 1) <==> !JoinsAgainAt(o, events, i)
  {
    hide UniqueIds, JoinsAgain, After;
    assert events[..i + 1][..i] == events[..i];
    StepKeepsUniqueIff(o, HallAfter(o, events[..i]), events[i]);
  }

  /** Over every run, no id ever waits twice if and only if no arrival that finds no
      partner has an id that is waiting already. */
  lemma {:induction false} NoIdWaitsTwiceIff(o: Options, events: seq<Event>, n: nat)
    requires n <= |events|
    ensures (forall i :: 0 <= i <= n ==> UniqueAt(o, events, i)) <==>
      forall i :: 0 <= i < n ==> !JoinsAgainAt(o, events, i)
  {
    hide UniqueAt, JoinsAgainAt;
    if n == 0 {
      NobodyWaitsAtFirst(o, events);
    } else {
      NoIdWaitsTwiceIff(o, events, n - 1);
      if UniqueAt(o, events, n - 1) { UniqueNextIff(o, events, n - 1); }
    }
  }

  lemma NobodyWaitsAtFirst(o: Options, events: seq<Event>)
    ensures UniqueAt(o, events, 0)
  {
  }

  /** If no id ever waits twice, no sweep drops anybody. */
  lemma UniqueIdsKeepEveryone(o: Options, events: seq<Event>)
    requires forall i :: 0 <= i <= |events| ==> UniqueAt(o, events, i)
    ensures HallAfter(o, events).dropped == multiset{}
  {
    hide HallAfter, UniqueIds, NoIdIsShared;
    NobodyIsDroppedIff(o, events);
    forall i | 0 <= i < |events| && events[i].Sweep?
      ensures DropsNobody(o, events, i)
    {
      assert UniqueAt(o, events, i);
      SweepLosesNobody(HallAfter(o, events[..i]).queue, o, events[i].now);
    }
  }

  /** Nobody arrives under an id that is waiting already. */
  ghost predicate NewcomersAreNew(o: Options, events: seq<Event>) {
    forall i, w :: 0 <= i < |events| && events[i].Arrive? && w in HallAfter(o, events[..i]).queue ==>
      w.id != events[i].p.id
  }

  /** If nobody queues under an id that is already waiting, then no id waits twice
      and no sweep ever drops anybody. */
  lemma NewcomersKeepEveryone(o: Options, events: seq<Event>)
    requires NewcomersAreNew(o, events)
    ensures UniqueIds(HallAfter(o, events).queue) && HallAfter(o, events).dropped == multiset{}
  {
    hide HallAfter, UniqueIds, Enqueued;
    NoIdWaitsTwiceIff(o, events, |events|);
    UniqueIdsKeepEveryone(o, events);
    assert events[..|events|] == events && UniqueAt(o, events, |events|);
  }

  // ----- what a newcomer and a departure do to the queue -----

  /** A newcomer whom somebody waiting may be paired with takes the earliest of the
      closest out of the queue, and otherwise joins its end. */
  lemma NewcomerTakesTheClosest(ws: seq<Waiter>, p: Waiter, o: Options, now: int) returns (k: nat)
    ensures var a := Enqueued(ws, p, o, now);
      if forall j :: 0 <= j < |ws| ==> !MayPair(p, ws[j], o, now) then a == Arrival(ws + [p], None)
      else
        && k < |ws| && MayPair(p, ws[k], o, now)
        && a == Arrival(ws[..k] + ws[k + 1..], Some(Pair(p, ws[k])))
        && (forall j :: 0 <= j < |ws| && MayPair(p, ws[j], o, now) ==> RatingGap(p, ws[k]) <= RatingGap(p, ws[j]))
        && (forall j :: 0 <= j < k && MayPair(p, ws[j], o, now) ==> RatingGap(p, ws[k]) < RatingGap(p, ws[j]))
  {
    hide Accepts, MayPair, BestIndex;
    BestIndexIsBest(p, ws, o, now, |ws|);
    forall j | 0 <= j < |ws|
      ensures Accepts(p, ws[j], o, now) <==> MayPair(p, ws[j], o, now)
      ensures Gap(ws[j], p) as real == RatingGap(p, ws[j])
    {
      AcceptsIff(p, ws[j], o, now);
    }
    var best := BestIndex(p, ws, o, now, |ws|);
    k := if best.Some? then best.value else 0;
  }

  /** Leaving takes out the first waiter with the id, if there is one. */
  lemma {:induction false} FirstIsFound(ws: seq<Waiter>, id: string)
    ensures match FindId(ws, id)
      case None => forall j :: 0 <= j < |ws| ==> ws[j].id != id
      case Some(k) => k < |ws| && ws[k].id == id && forall j :: 0 <= j < k ==> ws[j].id != id
  {
    if ws != [] { FirstIsFound(ws[..|ws| - 1], id); }
  }

  /** At one of the events, an arrival or a sweep, the two could be paired by the rule. */
  ghost predicate MadeByTheRule(o: Options, events: seq<Event>, p: Pair) {
    exists i :: 0 <= i < |events| && !events[i].Leave? && MayPair(p.a, p.b, o, events[i].now)
  }

  lemma NewPairsMayPair(o: Options, h: Hall, e: Event, k: nat)
    requires |h.made| <= k < |After(o, h, e).made|
    ensures !e.Leave? && MayPair(After(o, h, e).made[k].a, After(o, h, e).made[k].b, o, e.now)
  {
    hide MayPair, Enqueued, Pairings;
    match e
    case Sweep(now) =>
      SweptPairsMayPair(h.queue, o, now, k - |h.made|);
    case Arrive(p, now) =>
      ArrivalMayPair(h.queue, p, o, now);
    case Leave(_) =>
  }

  lemma ArrivalMayPair(ws: seq<Waiter>, p: Waiter, o: Options, now: int)
    ensures var a := Enqueued(ws, p, o, now);
      a.made.Some? ==> MayPair(a.made.value.a, a.made.value.b, o, now)
  {
    hide MayPair, RatingGap;
    var k := NewcomerTakesTheClosest(ws, p, o, now);
  }

  /** Over any events, every pair was made when the rule allowed it. */
  lemma {:induction false} EveryPairIsByTheRule(o: Options, events: seq<Event>, k: nat)
    requires k < |HallAfter(o, events).made|
    ensures MadeByTheRule(o, events, HallAfter(o, events).made[k])
  {
    hide MayPair, Pairings, Enqueued, Swept, Removed, Dropped;
    var n := |events| - 1;
    var h := HallAfter(o, events[..n]);
    if k < |h.made| {
      EveryPairIsByTheRule(o, events[..n], k);
      var p := h.made[k];
      var i :| 0 <= i < n && !events[..n][i].Leave? && MayPair(p.a, p.b, o, events[..n][i].now);
      assert events[i] == events[..n][i];
    } else {
      NewPairsMayPair(o, h, events[n], k);
    }
  }

  // ----- what an id that waits twice can lead to -----

  const CASUAL: Options := Options(100.0, 10.0, 0.0, false, None)
  const ANA: Waiter := Waiter("s1", "0xa", 1200, 0)
  const BEN: Waiter := Waiter("s2", "0xb", 1200, 0)
  const CAM: Waiter := Waiter("s3", "0xc", 1200, 0)
  const DAN: Waiter := Waiter("s4", "0xd", 1350, 0)

  lemma ArrivalMeets(ws: seq<Waiter>, p: Waiter, o: Options, now: int)
    requires ws != [] && forall w :: w in ws ==> w == ws[0]
    ensures Enqueued(ws, p, o, now)
      == if Accepts(p, ws[0], o, now) then Arrival(ws[1..], Some(Pair(p, ws[0]))) else Arrival(ws + [p], None)
  {
    hide Accepts, Gap;
    BestIndexIsBest(p, ws, o, now, |ws|);
    assert forall k :: 0 <= k < |ws| ==> ws[k] in ws;
    assert ws[..0] + ws[1..] == ws[1..];
  }

  lemma Differ(a: Waiter, b: Waiter)
    requires |a.address| == |b.address| == 3 && ToLower(a.address[2]) != ToLower(b.address[2])
    ensures Wallet(a) != Wallet(b)
  {
    assert Wallet(a)[2] != Wallet(b)[2];
  }

  lemma WaitingTwice(o: Options, p: Waiter, now: int)
    ensures HallAfter(o, [Arrive(p, now), Arrive(p, now)])
      == Hall([p, p], multiset{p, p}, [], multiset{}, multiset{})
  {
    hide Enqueued;
    var events := [Arrive(p, now), Arrive(p, now)];
    assert events[..1] == [Arrive(p, now)] && events[..1][..0] == [];
    assert HallAfter(o, events[..1][..0]) == EMPTY_HALL;
    AloneInTheQueue(p, o, now);
    ArrivalMeets([p], p, o, now);
  }

  lemma AloneInTheQueue(p: Waiter, o: Options, now: int)
    ensures Enqueued([], p, o, now) == Arrival([p], None)
  {
  }

  /** Someone who queues twice on one connection, as the casual queue allows, can
      be put in two pairs at once. */
  lemma OneIdInTwoPairs()
    ensures var h := HallAfter(CASUAL, [Arrive(ANA, 0), Arrive(ANA, 0), Arrive(BEN, 0), Arrive(CAM, 0)]);
      h.queue == [] && h.made == [Pair(BEN, ANA), Pair(CAM, ANA)]
  {
    hide Enqueued, Wallet;
    var events := [Arrive(ANA, 0), Arrive(ANA, 0), Arrive(BEN, 0), Arrive(CAM, 0)];
    WaitingTwice(CASUAL, ANA, 0);
    Differ(ANA, BEN);
    Differ(ANA, CAM);
    ArrivalMeets([ANA, ANA], BEN, CASUAL, 0);
    ArrivalMeets([ANA], CAM, CASUAL, 0);
    assert events[..3][..2] == [Arrive(ANA, 0), Arrive(ANA, 0)];
    assert HallAfter(CASUAL, events[..3]) == After(CASUAL, HallAfter(CASUAL, events[..3][..2]), Arrive(BEN, 0));
  }

  lemma ThreeWaiting()
    ensures var h := HallAfter(CASUAL, [Arrive(ANA, 0), Arrive(ANA, 0), Arrive(DAN, 0)]);
      h.queue == [ANA, ANA, DAN] && h.dropped == multiset{}
  {
    hide Enqueued, Wallet;
    var events := [Arrive(ANA, 0), Arrive(ANA, 0), Arrive(DAN, 0)];
    WaitingTwice(CASUAL, ANA, 0);
    ArrivalMeets([ANA, ANA], DAN, CASUAL, 0);
    assert events[..2] == [Arrive(ANA, 0), Arrive(ANA, 0)];
  }

  lemma DanMeetsAnaLater()
    ensures Accepts(ANA, DAN, CASUAL, 5000)
  {
    hide Wallet;
    Differ(ANA, DAN);
  }

  /** And a sweep that pairs one of the two entries drops the other. */
  lemma OneIdDropped()
    ensures var events := [Arrive(ANA, 0), Arrive(ANA, 0), Arrive(DAN, 0), Sweep(5000)];
      HallAfter(CASUAL, events).dropped != multiset{}
  {
    hide Accepts, NoIdIsShared, Dropped, Swept, Pairings, Enqueued;
    var events := [Arrive(ANA, 0), Arrive(ANA, 0), Arrive(DAN, 0), Sweep(5000)];
    var front := [Arrive(ANA, 0), Arrive(ANA, 0), Arrive(DAN, 0)];
    assert events[..3] == front && events[3] == Sweep(5000);
    ThreeWaiting();
    assert HallAfter(CASUAL, events) == After(CASUAL, HallAfter(CASUAL, front), Sweep(5000));
    hide HallAfter;
    DanMeetsAnaLater();
    SharedIdSwept([ANA, ANA, DAN], CASUAL, 5000);
    NobodyDroppedIff([ANA, ANA, DAN], CASUAL, 5000);
  }

  lemma SharedIdSwept(ws: seq<Waiter>, o: Options, now: int)
    requires |ws| == 3 && ws[0] == ws[1] && Accepts(ws[0], ws[2], o, now)
    ensures !NoIdIsShared(ws, o, now)
  {
    hide Accepts, Chosen, Gap, PairKey;
    var chosen := Chosen(ws, o, now);
    ChosenIsAStableMatching(ws, o, now);
    var c := CandidateOf(ws, 0, 2);
    assert IsCandidate(ws, o, now, c);
    assert chosen != [];
    forall k | 0 <= k < |chosen|
      ensures chosen[k].i < chosen[k].j == 2
    {
      assert IsCandidate(ws, o, now, chosen[k]);
      AcceptedDiffer(ws[chosen[k].i], ws[chosen[k].j], o, now);
    }
    assert |chosen| <= 1 || !SharesWaiter(chosen[0], chosen[1]);
    PlacesOfMembers(chosen, 0);
    PlacesOfMembers(chosen, 1);
    assert chosen[0].i in {chosen[0].i, chosen[0].j};
    assert ws[0].id == ws[1].id;
  }

  // ----- the program -----

  class Matchmaker {
    const options: Options
    var waiting: seq<Waiter>

    constructor (options: Options)
      ensures waiting == [] && this.options == options
    {
      this.options := options;
      waiting := [];
    }

    method Enqueue(p: Waiter, now: int) returns (made: Option<Pair>)
      modifies this`waiting
      ensures Arrival(waiting, made) == Enqueued(old(waiting), p, options, now)
    {
      hide Accepts, Gap;
      var best := BestMatchFor(p, waiting, options, now);
      if best.Some? {
        BestIndexIsBest(p, waiting, options, now, |waiting|);
        var k := IndexOf(waiting, best.value);
        waiting := waiting[..k] + waiting[k + 1..];
        return Some(Pair(p, best.value));
      }
      waiting := waiting + [p];
      return None;
    }

    method Sweep(now: int) returns (pairs: seq<Pair>)
      modifies this`waiting
      ensures pairs == Pairings(old(waiting), options, now)
      ensures waiting == Swept(old(waiting), options, now)
    {
      hide Pairings;
      pairs := SelectPairings(waiting, options, now);
      if |pairs| > 0 {
        var matched: set<string> := {};
        for k := 0 to |pairs|
          invariant waiting == old(waiting)
          invariant matched == IdsOf(pairs[..k])
        {
          IdsOfOneMore(pairs, k);
          matched := matched + {pairs[k].a.id, pairs[k].b.id};
        }
        assert pairs[..|pairs|] == pairs;
        var survivors := Keep(waiting, matched);
        waiting := survivors;
      } else {
        assert pairs == [];
        NoIds();
        NobodyGone(waiting);
      }
    }

    method Remove(id: string) returns (found: bool)
      modifies this`waiting
      ensures found == FindId(old(waiting), id).Some? && waiting == Removed(old(waiting), id)
    {
      var i := FindId(waiting, id);
      if i.None? { return false; }
      waiting := waiting[..i.value] + waiting[i.value + 1..];
      return true;
    }
  }

  /** The first place that holds `w`. */
  method IndexOf(ws: seq<Waiter>, w: Waiter) returns (k: nat)
    requires w in ws
    ensures k < |ws| && ws[k] == w && w !in ws[..k]
  {
    k := 0;
    while ws[k] != w
      invariant k < |ws| && w in ws[k..] && w !in ws[..k]
      decreases |ws| - k
    {
      k := k + 1;
    }
  }

  /** The filter of the sweep. */
  method Keep(ws: seq<Waiter>, gone: set<string>) returns (kept: seq<Waiter>)
    ensures kept == Without(ws, gone)
  {
    kept := [];
    for i := 0 to |ws|
      invariant kept == Without(ws[..i], gone)
    {
      assert ws[..i + 1][..i] == ws[..i];
      if ws[i].id !in gone { kept := kept + [ws[i]]; }
    }
    assert ws[..|ws|] == ws;
  }

  lemma IdsOfOneMore(pairs: seq<Pair>, k: nat)
    requires k < |pairs|
    ensures IdsOf(pairs[..k + 1]) == IdsOf(pairs[..k]) + {pairs[k].a.id, pairs[k].b.id}
  {
    var more, ids := IdsOf(pairs[..k + 1]), IdsOf(pairs[..k]) + {pairs[k].a.id, pairs[k].b.id};
    assert pairs[k] in pairs[..k + 1];
    forall id
      ensures id in more <==> id in ids
    {
      if id in more {
        var p, w :| p in pairs[..k + 1] && w in {p.a, p.b} && w.id == id;
        assert p == pairs[k] || p in pairs[..k];
      }
      if id in IdsOf(pairs[..k]) {
        var p, w :| p in pairs[..k] && w in {p.a, p.b} && w.id == id;
        assert p in pairs[..k + 1];
      }
      if id == pairs[k].a.id { assert pairs[k].a in {pairs[k].a, pairs[k].b}; }
      if id == pairs[k].b.id { assert pairs[k].b in {pairs[k].a, pairs[k].b}; }
    }
  }

  lemma NoIds()
    ensures IdsOf([]) == {}
  {
  }

  lemma {:induction false} NobodyGone(ws: seq<Waiter>)
    ensures Without(ws, {}) == ws
  {
    if ws != [] { NobodyGone(ws[..|ws| - 1]); }
  }
}
