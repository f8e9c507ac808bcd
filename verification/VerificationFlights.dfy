/**
 The single-flight table of verification_flight.rs: requests for the same proof share one verification. A flight has
 one leader and a result channel; followers hold one permit of the flight and one of all flights while they wait.
 */
module VerificationFlights {
  import opened Base
  import opened VerificationCache

  const MAX_FLIGHTS := 10
  const MAX_FOLLOWERS_PER_PROOF := 63
  const MAX_FOLLOWERS := 64

  type FlightId = nat
  type WaiterId = nat

  /** The leader runs; its drop first takes the entry out of the table and then closes the channel. */
  datatype Leader = Live | Leaving | Gone

  /** What a secret check ends with: the secret matches, it does not, or the check could not be made in time. */
  datatype CheckResult = Verified | Invalid | Overload

  datatype Flight = Flight(proof: Proof, result: Option<CheckResult>, leader: Leader, followers: nat)

  datatype Wait = Wait(flight: FlightId, follower: bool)

  datatype Flights = Flights(
    table: map<Proof, FlightId>, flights: map<FlightId, Flight>, waits: map<WaiterId, Wait>, followers: nat)

  const NONE := Flights(map[], map[], map[], 0)

  datatype Joined = Led | Followed | Refused

  function JoinOutcome(s: Flights, p: Proof): Joined {
    if p in s.table then
      if s.followers >= MAX_FOLLOWERS then Refused
      else if s.table[p] !in s.flights || s.flights[s.table[p]].followers >= MAX_FOLLOWERS_PER_PROOF then Refused
      else Followed
    else if |s.table| >= MAX_FLIGHTS then Refused
    else Led
  }

  /** `join` under the table's lock; a new flight takes the unused identity `newId`. */
  function Join(s: Flights, w: WaiterId, p: Proof, newId: FlightId): Flights {
    match JoinOutcome(s, p)
    case Refused => s
    case Followed =>
      var f := s.table[p];
      s.(flights := s.flights[f := s.flights[f].(followers := s.flights[f].followers + 1)],
         waits := s.waits[w := Wait(f, true)], followers := s.followers + 1)
    case Led =>
      s.(table := s.table[p := newId], flights := s.flights[newId := Flight(p, None, Live, 0)],
         waits := s.waits[w := Wait(newId, false)])
  }

  /** The leader sends its result. */
  function Publish(s: Flights, f: FlightId, result: CheckResult): Flights
    requires f in s.flights
  {
    s.(flights := s.flights[f := s.flights[f].(result := Some(result))])
  }

  /** The first half of a leader's drop: its entry leaves the table. */
  function Leave(s: Flights, f: FlightId): Flights
    requires f in s.flights
  {
    s.(table := s.table - {s.flights[f].proof}, flights := s.flights[f := s.flights[f].(leader := Leaving)])
  }

  /** The second half: the only sender is dropped. */
  function Close(s: Flights, f: FlightId): Flights
    requires f in s.flights
  {
    s.(flights := s.flights[f := s.flights[f].(leader := Gone)])
  }

  /** A wait ends, by a result, a closed channel, the deadline or cancellation; its permits are released. */
  function EndWait(s: Flights, w: WaiterId): Flights
    requires w in s.waits && s.waits[w].flight in s.flights
  {
    var f := s.waits[w].flight;
    if s.waits[w].follower then
      s.(waits := s.waits - {w}, followers := Max(s.followers - 1, 0),
         flights := s.flights[f := s.flights[f].(followers := Max(s.flights[f].followers - 1, 0))])
    else s.(waits := s.waits - {w})
  }

  // ----- what every step keeps -----

  function Following(s: Flights): set<WaiterId> { set w | w in s.waits && s.waits[w].follower }

  function FollowingOne(s: Flights, f: FlightId): set<WaiterId> {
    set w | w in s.waits && s.waits[w] == Wait(f, true)
  }

  /** Table entries and live leaders correspond one to one by proof. */
  ghost predicate OneLeaderPerEntry(s: Flights) {
    && (forall p :: p in s.table ==>
          s.table[p] in s.flights && s.flights[s.table[p]].proof == p && s.flights[s.table[p]].leader == Live)
    && (forall f :: f in s.flights && s.flights[f].leader == Live ==>
          s.flights[f].proof in s.table && s.table[s.flights[f].proof] == f)
  }

  /** Used permits are exactly the followers that wait, in all and per flight, within the limits. */
  ghost predicate PermitsAreWaits(s: Flights) {
    && (forall w :: w in s.waits ==> s.waits[w].flight in s.flights)
    && s.followers == |Following(s)| <= MAX_FOLLOWERS
    && (forall f :: f in s.flights ==> s.flights[f].followers == |FollowingOne(s, f)| <= MAX_FOLLOWERS_PER_PROOF)
  }

  ghost predicate Safe(s: Flights) { |s.table| <= MAX_FLIGHTS && OneLeaderPerEntry(s) && PermitsAreWaits(s) }

  /** A step that moves no leader and no entry. */
  ghost predicate SameLeaders(s: Flights, t: Flights) {
    && t.table == s.table && t.flights.Keys == s.flights.Keys
    && forall f :: f in s.flights ==>
         t.flights[f].proof == s.flights[f].proof && t.flights[f].leader == s.flights[f].leader
  }

  lemma LeadersStay(s: Flights, t: Flights)
    requires OneLeaderPerEntry(s) && SameLeaders(s, t)
    ensures OneLeaderPerEntry(t)
  {
  }

  lemma LeadKeepsLeaders(s: Flights, p: Proof, newId: FlightId, t: Flights)
    requires OneLeaderPerEntry(s) && p !in s.table && newId !in s.flights
    requires t.table == s.table[p := newId] && t.flights == s.flights[newId := Flight(p, None, Live, 0)]
    ensures OneLeaderPerEntry(t)
  {
  }

  lemma TableGrows(table: map<Proof, FlightId>, p: Proof, f: FlightId)
    ensures |table[p := f]| <= |table| + 1
  {
    assert table[p := f].Keys == table.Keys + {p};
  }

  lemma JoinKeepsLeaders(s: Flights, w: WaiterId, p: Proof, newId: FlightId)
    requires Safe(s) && w !in s.waits && newId !in s.flights
    ensures |Join(s, w, p, newId).table| <= MAX_FLIGHTS && OneLeaderPerEntry(Join(s, w, p, newId))
  {
    hide PermitsAreWaits, OneLeaderPerEntry;
    var t := Join(s, w, p, newId);
    match JoinOutcome(s, p)
    case Refused =>
    case Followed => LeadersStay(s, t);
    case Led => TableGrows(s.table, p, newId); LeadKeepsLeaders(s, p, newId, t);
  }

  lemma FollowOne(s: Flights, t: Flights, w: WaiterId, f: FlightId, g: FlightId)
    requires w !in s.waits && t.waits == s.waits[w := Wait(f, true)]
    ensures |FollowingOne(t, g)| == |FollowingOne(s, g)| + if g == f then 1 else 0
  {
    assert FollowingOne(t, g) == if g == f then FollowingOne(s, g) + {w} else FollowingOne(s, g);
  }

  lemma FollowPermits(s: Flights, w: WaiterId, p: Proof, newId: FlightId)
    requires Safe(s) && w !in s.waits && JoinOutcome(s, p).Followed?
    ensures PermitsAreWaits(Join(s, w, p, newId))
  {
    hide OneLeaderPerEntry, FollowingOne, Following;
    var t, f := Join(s, w, p, newId), s.table[p];
    FollowAll(s, t, w, f);
    forall g | g in t.flights ensures t.flights[g].followers == |FollowingOne(t, g)| <= MAX_FOLLOWERS_PER_PROOF {
      FollowOne(s, t, w, f, g);
    }
  }

  lemma FollowAll(s: Flights, t: Flights, w: WaiterId, f: FlightId)
    requires w !in s.waits && t.waits == s.waits[w := Wait(f, true)]
    ensures |Following(t)| == |Following(s)| + 1
  {
    assert Following(t) == Following(s) + {w};
  }

  lemma LeadPermits(s: Flights, w: WaiterId, p: Proof, newId: FlightId)
    requires Safe(s) && w !in s.waits && newId !in s.flights && JoinOutcome(s, p).Led?
    ensures PermitsAreWaits(Join(s, w, p, newId))
  {
    hide OneLeaderPerEntry;
    var t := Join(s, w, p, newId);
    assert Following(t) == Following(s);
    forall g | g in t.flights ensures t.flights[g].followers == |FollowingOne(t, g)| <= MAX_FOLLOWERS_PER_PROOF {
      assert FollowingOne(t, g) == if g == newId then {} else FollowingOne(s, g);
    }
  }

  lemma JoinIsSafe(s: Flights, w: WaiterId, p: Proof, newId: FlightId)
    requires Safe(s) && w !in s.waits && newId !in s.flights
    ensures Safe(Join(s, w, p, newId))
  {
    hide OneLeaderPerEntry, PermitsAreWaits, JoinOutcome;
    JoinKeepsLeaders(s, w, p, newId);
    match JoinOutcome(s, p)
    case Followed => FollowPermits(s, w, p, newId);
    case Led => LeadPermits(s, w, p, newId);
    case Refused =>
  }

  /** Changing a flight's result or leader touches no wait. */
  lemma SamePermits(s: Flights, t: Flights)
    requires PermitsAreWaits(s) && t.waits == s.waits && t.followers == s.followers && t.flights.Keys == s.flights.Keys
    requires forall f :: f in s.flights ==> t.flights[f].followers == s.flights[f].followers
    ensures PermitsAreWaits(t)
  {
    assert Following(t) == Following(s);
    forall f | f in t.flights ensures t.flights[f].followers == |FollowingOne(t, f)| <= MAX_FOLLOWERS_PER_PROOF {
      assert FollowingOne(t, f) == FollowingOne(s, f);
    }
  }

  lemma PublishIsSafe(s: Flights, f: FlightId, result: CheckResult)
    requires Safe(s) && f in s.flights
    ensures Safe(Publish(s, f, result))
  {
    hide PermitsAreWaits, OneLeaderPerEntry;
    SamePermits(s, Publish(s, f, result));
    LeadersStay(s, Publish(s, f, result));
  }

  lemma LeaveIsSafe(s: Flights, f: FlightId)
    requires Safe(s) && f in s.flights && s.flights[f].leader == Live
    ensures Safe(Leave(s, f))
  {
    hide PermitsAreWaits, OneLeaderPerEntry;
    SamePermits(s, Leave(s, f));
    LeaveKeepsLeaders(s, f);
    TableShrinks(s.table, s.flights[f].proof);
  }

  lemma LeaveKeepsLeaders(s: Flights, f: FlightId)
    requires OneLeaderPerEntry(s) && f in s.flights && s.flights[f].leader == Live
    ensures OneLeaderPerEntry(Leave(s, f))
  {
  }

  lemma TableShrinks(table: map<Proof, FlightId>, p: Proof)
    ensures |table - {p}| <= |table|
  {
    assert (table - {p}).Keys == table.Keys - {p};
  }

  lemma CloseIsSafe(s: Flights, f: FlightId)
    requires Safe(s) && f in s.flights && s.flights[f].leader == Leaving
    ensures Safe(Close(s, f))
  {
    hide PermitsAreWaits;
    SamePermits(s, Close(s, f));
  }

  lemma EndWaitPermits(s: Flights, w: WaiterId)
    requires PermitsAreWaits(s) && w in s.waits
    ensures PermitsAreWaits(EndWait(s, w))
  {
    var t, f := EndWait(s, w), s.waits[w].flight;
    assert Following(t) == Following(s) - {w};
    forall g | g in t.flights ensures t.flights[g].followers == |FollowingOne(t, g)| <= MAX_FOLLOWERS_PER_PROOF {
      assert FollowingOne(t, g) == FollowingOne(s, g) - {w};
      assert s.waits[w].follower && g == f ==> w in FollowingOne(s, g);
      assert !(s.waits[w].follower && g == f) ==> w !in FollowingOne(s, g);
    }
  }

  lemma WaitHasFlight(s: Flights, w: WaiterId)
    requires PermitsAreWaits(s) && w in s.waits
    ensures s.waits[w].flight in s.flights
  {
  }

  lemma EntryHasFlight(s: Flights, p: Proof)
    requires OneLeaderPerEntry(s) && p in s.table
    ensures s.table[p] in s.flights
  {
  }

  lemma EndWaitIsSafe(s: Flights, w: WaiterId)
    requires Safe(s) && w in s.waits
    ensures s.waits[w].flight in s.flights && Safe(EndWait(s, w))
  {
    hide PermitsAreWaits, OneLeaderPerEntry;
    WaitHasFlight(s, w);
    EndWaitPermits(s, w);
    LeadersStay(s, EndWait(s, w));
  }

  /**
   A join for a listed proof follows exactly if fewer than 64 followers wait in all and fewer than 63 on that flight;
   one for an unlisted proof leads exactly if fewer than 10 proofs are listed; any other is refused.
   */
  lemma JoinDecides(s: Flights, p: Proof)
    requires Safe(s)
    ensures JoinOutcome(s, p).Followed? <==>
            p in s.table && |Following(s)| < 64 && |FollowingOne(s, s.table[p])| < 63
    ensures JoinOutcome(s, p).Led? <==> p !in s.table && |s.table| < 10
  {
    hide Following, FollowingOne;
    if p in s.table { EntryHasFlight(s, p); }
  }

  // ----- runs -----

  datatype Step =
    | Joins(waiter: WaiterId, proof: Proof, newId: FlightId)
    | Publishes(flight: FlightId, result: CheckResult)
    | Leaves(flight: FlightId)
    | Closes(flight: FlightId)
    | Ends(waiter: WaiterId)

  /** Who may do what: only a live leader publishes, a leader leaves once, and a wait ends once. */
  ghost predicate Next(s: Flights, step: Step, t: Flights) {
    match step
    case Joins(w, p, newId) => w !in s.waits && newId !in s.flights && t == Join(s, w, p, newId)
    case Publishes(f, result) => f in s.flights && s.flights[f].leader == Live && t == Publish(s, f, result)
    case Leaves(f) => f in s.flights && s.flights[f].leader == Live && t == Leave(s, f)
    case Closes(f) => f in s.flights && s.flights[f].leader == Leaving && t == Close(s, f)
    case Ends(w) => w in s.waits && s.waits[w].flight in s.flights && t == EndWait(s, w)
  }

  lemma NextIsSafe(s: Flights, step: Step, t: Flights)
    requires Safe(s) && Next(s, step, t)
    ensures Safe(t)
  {
    hide Safe, Join, Publish, Leave, Close, EndWait;
    match step
    case Joins(w, p, newId) => JoinIsSafe(s, w, p, newId);
    case Publishes(f, result) => PublishIsSafe(s, f, result);
    case Leaves(f) => LeaveIsSafe(s, f);
    case Closes(f) => CloseIsSafe(s, f);
    case Ends(w) => EndWaitIsSafe(s, w);
  }

  ghost predicate Behaviour(states: seq<Flights>, steps: seq<Step>) {
    && |states| == |steps| + 1 && states[0] == NONE
    && forall i :: 0 <= i < |steps| ==> Next(states[i], steps[i], states[i + 1])
  }

  /**
   Over every run: at most 10 flights, one live leader per table entry, at most 63 followers per flight and 64 in
   all, and exactly as many permits used as followers wait.
   */
  lemma {:induction false} AlwaysSafe(states: seq<Flights>, steps: seq<Step>, n: nat)
    requires Behaviour(states, steps) && n < |states|
    ensures Safe(states[n])
  {
    if n == 0 {
      assert Following(NONE) == {};
    } else {
      hide Safe, Next;
      AlwaysSafe(states, steps, n - 1);
      assert Next(states[n - 1], steps[n - 1], states[n - 1 + 1]);
      NextIsSafe(states[n - 1], steps[n - 1], states[n]);
    }
  }

  /** What a waiter can be told: the result, or that the channel closed without one. */
  predicate CanWake(f: Flight) { f.result.Some? || f.leader == Gone }

  /** The leader of the flight has sent a result within the first `n` steps. */
  ghost predicate Published(steps: seq<Step>, n: nat, f: FlightId) {
    exists i :: 0 <= i < n && i < |steps| && IsPublish(steps[i], f)
  }

  predicate IsPublish(step: Step, f: FlightId) { step.Publishes? && step.flight == f }

  lemma PublishedSnoc(steps: seq<Step>, n: nat, f: FlightId)
    requires n < |steps|
    ensures Published(steps, n + 1, f) <==> Published(steps, n, f) || IsPublish(steps[n], f)
  {
    hide IsPublish;
  }

  predicate HasResult(s: Flights, f: FlightId) { f in s.flights && s.flights[f].result.Some? }

  /** What a step leaves of a flight: a new one has no result, and only its leader's own steps change an old one. */
  ghost predicate Moved(s: Flights, step: Step, t: Flights, f: FlightId) {
    if f !in s.flights then f in t.flights ==> t.flights[f].result.None? && t.flights[f].leader == Live
    else
      && f in t.flights
      && (t.flights[f].result == if IsPublish(step, f) then Some(step.result) else s.flights[f].result)
      && (t.flights[f].leader ==
          if step == Leaves(f) then Leaving else if step == Closes(f) then Gone else s.flights[f].leader)
  }

  lemma JoinMoves(s: Flights, w: WaiterId, p: Proof, newId: FlightId, f: FlightId)
    requires newId !in s.flights
    ensures Moved(s, Joins(w, p, newId), Join(s, w, p, newId), f)
  {
    var o := JoinOutcome(s, p);
    hide JoinOutcome;
    if o.Followed? { assert s.table[p] in s.flights by { FollowedHasFlight(s, p); } }
  }

  lemma FollowedHasFlight(s: Flights, p: Proof)
    requires JoinOutcome(s, p).Followed?
    ensures p in s.table && s.table[p] in s.flights
  {
  }

  lemma EndWaitMoves(s: Flights, w: WaiterId, f: FlightId)
    requires w in s.waits && s.waits[w].flight in s.flights
    ensures Moved(s, Ends(w), EndWait(s, w), f)
  {
  }

  lemma LeaderMoves(s: Flights, g: FlightId, result: CheckResult, f: FlightId)
    requires g in s.flights
    ensures Moved(s, Publishes(g, result), Publish(s, g, result), f)
    ensures Moved(s, Leaves(g), Leave(s, g), f)
    ensures Moved(s, Closes(g), Close(s, g), f)
  {
  }

  lemma NextMoves(s: Flights, step: Step, t: Flights, f: FlightId)
    requires Next(s, step, t)
    ensures Moved(s, step, t, f)
  {
    hide Moved, Join, EndWait, Publish, Leave, Close;
    match step
    case Joins(w, p, newId) => JoinMoves(s, w, p, newId, f);
    case Publishes(g, result) => LeaderMoves(s, g, result, f);
    case Leaves(g) => LeaderMoves(s, g, Verified, f);
    case Closes(g) => LeaderMoves(s, g, Verified, f);
    case Ends(w) => EndWaitMoves(s, w, f);
  }

  lemma PublisherFlies(s: Flights, step: Step, t: Flights, f: FlightId)
    requires Next(s, step, t) && IsPublish(step, f)
    ensures f in s.flights && s.flights[f].leader == Live
  {
    hide Publish;
  }

  lemma LeaverIsLive(s: Flights, step: Step, t: Flights, f: FlightId)
    requires Next(s, step, t) && step == Leaves(f)
    ensures f in s.flights && s.flights[f].leader == Live
  {
    hide Leave;
  }

  /** A step gives a flight its result exactly by publishing it, and no step takes one away. */
  lemma NextResult(s: Flights, step: Step, t: Flights, f: FlightId)
    requires Next(s, step, t)
    ensures HasResult(t, f) <==> HasResult(s, f) || IsPublish(step, f)
  {
    hide Next;
    NextMoves(s, step, t, f);
    if IsPublish(step, f) { PublisherFlies(s, step, t, f); }
  }

  /** In every state of every run a flight has a result exactly when its leader has published one. */
  lemma {:induction false} ResultIsPublished(states: seq<Flights>, steps: seq<Step>, n: nat, f: FlightId)
    requires Behaviour(states, steps) && n < |states|
    ensures HasResult(states[n], f) <==> Published(steps, n, f)
  {
    hide Next, IsPublish;
    if n > 0 {
      ResultIsPublished(states, steps, n - 1, f);
      assert Next(states[n - 1], steps[n - 1], states[n - 1 + 1]);
      NextResult(states[n - 1], steps[n - 1], states[n], f);
      PublishedSnoc(steps, n - 1, f);
    }
  }

  predicate Removed(s: Flights, f: FlightId)
    requires f in s.flights
  {
    !(s.flights[f].proof in s.table && s.table[s.flights[f].proof] == f)
  }

  /**
   A waiter whose flight has left the table cannot wake if and only if the leader is still within its drop, its sender
   not yet dropped, and never published. A leader that publishes before its drop strands nobody at any moment.
   */
  lemma RemovedFlightsWake(states: seq<Flights>, steps: seq<Step>, n: nat, w: WaiterId)
    requires Behaviour(states, steps) && n < |states| && w in states[n].waits
    ensures var s := states[n]; var f := s.waits[w].flight;
      && f in s.flights
      && (Removed(s, f) ==>
            (!CanWake(s.flights[f]) <==> s.flights[f].leader == Leaving && !Published(steps, n, f)))
  {
    hide Published;
    AlwaysSafe(states, steps, n);
    ResultIsPublished(states, steps, n, states[n].waits[w].flight);
  }

  ghost predicate Closed(steps: seq<Step>, n: nat, m: nat, f: FlightId) {
    exists i :: n <= i < m && i < |steps| && steps[i] == Closes(f)
  }

  /** What becomes of a flight whose leader is not live any more. */
  lemma NextAfterLeaving(s: Flights, step: Step, t: Flights, f: FlightId)
    requires Next(s, step, t) && f in s.flights && s.flights[f].leader != Live
    ensures f in t.flights && t.flights[f].result == s.flights[f].result
    ensures t.flights[f].leader == if step == Closes(f) then Gone else s.flights[f].leader
  {
    hide Next;
    NextMoves(s, step, t, f);
    if IsPublish(step, f) { PublisherFlies(s, step, t, f); }
    if step == Leaves(f) { LeaverIsLive(s, step, t, f); }
  }

  /** A waiter left in that gap can wake again exactly from the step that closes the channel. */
  lemma {:induction false} ClosingEndsTheGap(states: seq<Flights>, steps: seq<Step>, n: nat, m: nat, f: FlightId)
    requires Behaviour(states, steps) && n <= m < |states|
    requires f in states[n].flights && states[n].flights[f].leader == Leaving && !Published(steps, n, f)
    ensures f in states[m].flights && states[m].flights[f].leader == (if Closed(steps, n, m, f) then Gone else Leaving)
    ensures CanWake(states[m].flights[f]) <==> Closed(steps, n, m, f)
  {
    hide Next, Published;
    ResultIsPublished(states, steps, n, f);
    GapStays(states, steps, n, m, f);
  }

  lemma {:induction false} GapStays(states: seq<Flights>, steps: seq<Step>, n: nat, m: nat, f: FlightId)
    requires Behaviour(states, steps) && n <= m < |states|
    requires f in states[n].flights && states[n].flights[f].leader == Leaving
    ensures f in states[m].flights && states[m].flights[f].result == states[n].flights[f].result
    ensures states[m].flights[f].leader == if Closed(steps, n, m, f) then Gone else Leaving
  {
    hide Next;
    if n < m {
      GapStays(states, steps, n, m - 1, f);
      assert Next(states[m - 1], steps[m - 1], states[m - 1 + 1]);
      NextAfterLeaving(states[m - 1], steps[m - 1], states[m], f);
      assert Closed(steps, n, m, f) <==> Closed(steps, n, m - 1, f) || steps[m - 1] == Closes(f);
    }
  }

  /** The gap is real: a leader that drops without a result leaves its own waiter hanging for a moment. */
  lemma GapIsReached(p: Proof) returns (states: seq<Flights>, steps: seq<Step>)
    ensures Behaviour(states, steps) && |states| == 3 && 0 in states[2].waits
    ensures states[2].waits[0].flight == 0 && 0 in states[2].flights && Removed(states[2], 0)
        && !CanWake(states[2].flights[0])
  {
    steps := [Joins(0, p, 0), Leaves(0)];
    var joined := Join(NONE, 0, p, 0);
    assert JoinOutcome(NONE, p) == Led;
    states := [NONE, joined, Leave(joined, 0)];
  }

  // ----- the object -----

  class Table {
    var table: map<Proof, FlightId>
    var flights: map<FlightId, Flight>
    var waits: map<WaiterId, Wait>
    var followers: nat

    constructor ()
      ensures Now() == NONE
    {
      table, flights, waits, followers := map[], map[], map[], 0;
    }

    ghost function Now(): Flights
      reads this
    {
      Flights(table, flights, waits, followers)
    }

    /** Joins a flight for the proof, or starts one; a permit taken before a refusal is given back. */
    method JoinFlight(w: WaiterId, proof: Proof, newId: FlightId) returns (joined: Joined)
      requires Safe(Now()) && w !in waits && newId !in flights
      modifies this
      ensures joined == JoinOutcome(old(Now()), proof) && Now() == Join(old(Now()), w, proof, newId) && Safe(Now())
    {
      hide OneLeaderPerEntry, PermitsAreWaits;
      JoinIsSafe(Now(), w, proof, newId);
      if proof in table {
        EntryHasFlight(Now(), proof);
        var f := table[proof];
        if followers >= MAX_FOLLOWERS { return Refused; }
        followers := followers + 1;
        if flights[f].followers >= MAX_FOLLOWERS_PER_PROOF {
          followers := followers - 1;
          return Refused;
        }
        flights := flights[f := flights[f].(followers := flights[f].followers + 1)];
        waits := waits[w := Wait(f, true)];
        return Followed;
      }
      if |table| >= MAX_FLIGHTS { return Refused; }
      table := table[proof := newId];
      flights := flights[newId := Flight(proof, None, Live, 0)];
      waits := waits[w := Wait(newId, false)];
      return Led;
    }

    /** The whole drop of a leader. */
    method DropLeader(f: FlightId)
      requires Safe(Now()) && f in flights && flights[f].leader == Live
      modifies this
      ensures Now() == Close(Leave(old(Now()), f), f) && Safe(Now())
    {
      hide Safe;
      LeaveIsSafe(Now(), f);
      CloseIsSafe(Leave(Now(), f), f);
      ghost var flight := flights[f];
      assert flights[f := flight.(leader := Leaving)][f := flight.(leader := Gone)] ==
          flights[f := flight.(leader := Gone)];
      table := table - {flights[f].proof};
      flights := flights[f := flights[f].(leader := Gone)];
    }

    /** What one look at the channel tells a waiter; the wait ends when it tells something. */
    method Poll(w: WaiterId) returns (told: Option<Option<CheckResult>>)
      requires Safe(Now()) && w in waits
      modifies this
      ensures waits.Keys == old(waits.Keys) - (if told.Some? then {w} else {})
      ensures var f := old(Now()).flights[old(Now()).waits[w].flight];
        && (told.Some? <==> CanWake(f)) && (told.Some? ==> told.value == f.result)
      ensures Now() == (if told.Some? then EndWait(old(Now()), w) else old(Now())) && Safe(Now())
    {
      hide OneLeaderPerEntry, PermitsAreWaits;
      EndWaitIsSafe(Now(), w);
      var wait := waits[w];
      var flight := flights[wait.flight];
      if flight.result.None? && flight.leader != Gone { return None; }
      if wait.follower {
        WaitIsCounted(Now(), w);
        followers := followers - 1;
        flights := flights[wait.flight := flight.(followers := flight.followers - 1)];
      }
      waits := waits - {w};
      return Some(flight.result);
    }
  }

  lemma WaitIsCounted(s: Flights, w: WaiterId)
    requires Safe(s) && w in s.waits && s.waits[w].follower
    ensures s.waits[w].flight in s.flights && s.followers > 0 && s.flights[s.waits[w].flight].followers > 0
  {
    hide OneLeaderPerEntry;
    assert w in Following(s) && w in FollowingOne(s, s.waits[w].flight);
  }
}
