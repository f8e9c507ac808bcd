/**
 How a key authentication ends, over every run: which step settles a request, with which error or grant, and why a
 right key is let in.
 */
module KeyOutcomes {
  import opened Base
  import opened VerificationCache
  import opened KeyAuthentication
  import F = VerificationFlights

  // ----- the steps that settle a request -----

  /** What is wrong with a record, the first of three faults. */
  predicate Faulty(r: Record, now: nat, e: KeyError) {
    || (e == RevokedKey && r.revoked)
    || (e == DisabledKey && !r.revoked && r.disabled)
    || (e == ExpiredKey && !r.revoked && !r.disabled && r.expires.Some? && r.expires.value <= now)
  }

  predicate Faultless(r: Record, now: nat) {
    !r.revoked && !r.disabled && (r.expires.None? || now < r.expires.value)
  }

  /** What a waiting request is told that ends it. */
  predicate Tells(result: F.CheckResult, e: KeyError) {
    (result == F.Invalid && e == InvalidKey) || (result == F.Overload && e == Overloaded)
  }

  /** The step denies its request with this error. */
  ghost predicate Denies(c: Config, s: System, a: Action, e: KeyError) {
    OfRequest(a) && a.request in s.requests &&
    var q := s.requests[a.request];
    match a
    case Begin(_, _, _) => false
    case Reads(_) => e == InvalidKey && q.prefix !in s.store
    case Validates(_) => q.phase.Validate? && Faulty(q.phase.record, s.clock, e)
    case Consults(_) => false
    case Enters(_, _) =>
      && e == Overloaded && q.phase.Enter? && c.caching
      && !Contains(s.cache, ProofOf(q, q.phase.record), s.clock)
      && F.JoinOutcome(s.flights, ProofOf(q, q.phase.record)).Refused?
    case Wakes(r) =>
      && r in s.flights.waits && s.flights.waits[r].flight in s.flights.flights
      && FlightOf(s, r).result.Some? && Tells(FlightOf(s, r).result.value, e)
    case Collects(_) =>
      && q.phase.OwnJob? && q.phase.job in s.jobs && s.jobs[q.phase.job].phase.Finished?
      && Tells(s.jobs[q.phase.job].phase.result, e)
    case ReadsAgain(_) => e == InvalidKey && q.prefix !in s.store
    case Revalidates(_) =>
      && q.phase.Revalidate?
      && (|| Faulty(q.phase.fetched, s.clock, e)
          || (e == InvalidKey && Faultless(q.phase.fetched, s.clock) &&
              (q.phase.fetched.id != q.phase.record.id || q.phase.fetched.hash != q.phase.record.hash)))
    case Fails(_) => e == Overloaded
    case _ => false
  }

  /** The step grants its request: the proof is cached and young, or the second read passes. */
  ghost predicate Grants(c: Config, s: System, a: Action, g: Grant) {
    OfRequest(a) && a.request in s.requests &&
    var q := s.requests[a.request];
    var p := Proof(g.record.id, g.record.hash, q.secret);
    || (a.Consults? && q.phase == Consult(g.record, g.readAt) && !g.cold
        && c.caching && p in s.cache.proofs && s.clock - s.cache.proofs[p] < 60_000_000_000)
    || (a.Revalidates? && g.cold && q.phase.Revalidate? && g.record == q.phase.fetched && g.readAt == q.phase.readAt
        && Faultless(g.record, s.clock) && g.record.id == q.phase.record.id && g.record.hash == q.phase.record.hash)
  }

  /** What the step leaves of its request is a denial or a grant exactly as said. */
  ghost predicate Settles(c: Config, s: System, a: Action, phase: Phase) {
    && (forall e :: phase == Denied(e) <==> Denies(c, s, a, e))
    && (forall g :: phase == Granted(g) <==> Grants(c, s, a, g))
  }

  lemma ReadSettles(c: Config, n: nat, s: System, a: Action, t: System)
    requires Next(c, n, s, a, t) && (a.Begin? || a.Reads? || a.ReadsAgain?)
    ensures a.request in t.requests && Settles(c, s, a, t.requests[a.request].phase)
  {
    hide Contains, F.JoinOutcome, ProofOf;
  }

  lemma CheckSettles(c: Config, n: nat, s: System, a: Action, t: System)
    requires Next(c, n, s, a, t) && a.Validates?
    ensures a.request in t.requests && Settles(c, s, a, t.requests[a.request].phase)
  {
    hide Contains, F.JoinOutcome, ProofOf;
  }

  lemma RecheckSettles(c: Config, n: nat, s: System, a: Action, t: System)
    requires Next(c, n, s, a, t) && a.Revalidates?
    ensures a.request in t.requests && Settles(c, s, a, t.requests[a.request].phase)
  {
    hide Contains, F.JoinOutcome, ProofOf;
  }

  lemma ConsultSettles(c: Config, n: nat, s: System, a: Action, t: System)
    requires Next(c, n, s, a, t) && a.Consults?
    ensures a.request in t.requests && Settles(c, s, a, t.requests[a.request].phase)
  {
    hide F.JoinOutcome;
  }

  lemma EnterSettles(c: Config, n: nat, s: System, a: Action, t: System)
    requires Next(c, n, s, a, t) && a.Enters?
    ensures a.request in t.requests && Settles(c, s, a, t.requests[a.request].phase)
  {
    hide Contains, F.JoinOutcome, F.Join, ProofOf;
  }

  lemma ToldSettles(c: Config, n: nat, s: System, a: Action, t: System)
    requires Next(c, n, s, a, t) && (a.Wakes? || a.Collects? || a.Fails?)
    ensures a.request in t.requests && Settles(c, s, a, t.requests[a.request].phase)
  {
    hide Contains, F.JoinOutcome, F.EndWait, ProofOf;
  }

  lemma StepSettles(c: Config, n: nat, s: System, a: Action, t: System)
    requires Next(c, n, s, a, t) && OfRequest(a)
    ensures a.request in t.requests && Settles(c, s, a, t.requests[a.request].phase)
  {
    hide Next, Settles;
    if a.Begin? || a.Reads? || a.ReadsAgain? {
      ReadSettles(c, n, s, a, t);
    } else if a.Validates? {
      CheckSettles(c, n, s, a, t);
    } else if a.Revalidates? {
      RecheckSettles(c, n, s, a, t);
    } else if a.Consults? {
      ConsultSettles(c, n, s, a, t);
    } else if a.Enters? {
      EnterSettles(c, n, s, a, t);
    } else {
      ToldSettles(c, n, s, a, t);
    }
  }

  // ----- over runs -----

  predicate Final(q: Request) { q.phase.Granted? || q.phase.Denied? }

  /** A settled request takes no step any more, and no request is taken back. */
  lemma SettledRests(c: Config, n: nat, s: System, a: Action, t: System, r: nat)
    requires Next(c, n, s, a, t) && r in s.requests && Final(s.requests[r])
    ensures !(OfRequest(a) && a.request == r)
  {
    hide Contains, F.JoinOutcome, F.Join, F.EndWait, Insert, ValidateKeyState;
  }

  lemma RequestsStay(c: Config, n: nat, s: System, a: Action, t: System, r: nat)
    requires Next(c, n, s, a, t) && r in s.requests
    ensures r in t.requests
  {
    hide Next;
    if OfRequest(a) { ActedStays(c, n, s, a, t, r); } else { JobsMoveNoRequest(c, n, s, a, t); }
  }

  lemma ActedStays(c: Config, n: nat, s: System, a: Action, t: System, r: nat)
    requires Next(c, n, s, a, t) && OfRequest(a) && r in s.requests
    ensures r in t.requests
  {
    if Plain(a) {
      hide Next;
      PlainStep(c, n, s, a, t);
    } else {
      hide Contains, F.JoinOutcome, F.Join, F.EndWait, ValidateKeyState;
    }
  }

  /** Step `m` of the run is one of request `r`. */
  ghost predicate Acts(run: seq<System>, actions: seq<Action>, m: nat, r: nat) {
    m < |actions| && m < |run| && OfRequest(actions[m]) && actions[m].request == r
  }

  ghost predicate DeniedBy(c: Config, run: seq<System>, actions: seq<Action>, n: nat, r: nat, e: KeyError) {
    exists m :: 0 <= m < n && Acts(run, actions, m, r) && Denies(c, run[m], actions[m], e)
  }

  ghost predicate GrantedBy(c: Config, run: seq<System>, actions: seq<Action>, n: nat, r: nat, g: Grant) {
    exists m :: 0 <= m < n && Acts(run, actions, m, r) && Grants(c, run[m], actions[m], g)
  }

  predicate Ended(s: System, r: nat, phase: Phase) { r in s.requests && s.requests[r].phase == phase }

  lemma EndsByAStep(c: Config, n: nat, s: System, a: Action, t: System, r: nat, phase: Phase)
    requires Next(c, n, s, a, t) && (phase.Granted? || phase.Denied?)
    ensures Ended(t, r, phase) <==>
      if OfRequest(a) && a.request == r then r in t.requests && t.requests[r].phase == phase else Ended(s, r, phase)
    ensures Ended(s, r, phase) ==> !(OfRequest(a) && a.request == r)
  {
    hide Next;
    if Ended(s, r, phase) { SettledRests(c, n, s, a, t, r); }
    if !(OfRequest(a) && a.request == r) {
      if r in s.requests { RequestsStay(c, n, s, a, t, r); }
      if r in t.requests { OnlyItsRequest(c, n, s, a, t, r); }
    }
  }

  /**
   In every state of every run, a request is denied with an error exactly if one of its steps denied it so: a read
   found no record, a check found the record revoked, disabled or expired, the second read differed, the secret check
   it waited for ended badly, or there was no room or no time.
   */
  lemma {:induction false} DenialsAreExact(
    c: Config, run: seq<System>, actions: seq<Action>, n: nat, r: nat, e: KeyError)
    requires Behaviour(c, run, actions) && n < |run|
    ensures Ended(run[n], r, Denied(e)) <==> DeniedBy(c, run, actions, n, r, e)
  {
    hide Next, Denies, Grants, Settles;
    if n > 0 {
      var m := n - 1;
      DenialsAreExact(c, run, actions, m, r, e);
      assert Next(c, m, run[m], actions[m], run[m + 1]);
      EndsByAStep(c, m, run[m], actions[m], run[n], r, Denied(e));
      if OfRequest(actions[m]) && actions[m].request == r {
        StepSettles(c, m, run[m], actions[m], run[n]);
        SettlesDenied(c, run[m], actions[m], run[n].requests[r].phase, e);
      }
      assert DeniedBy(c, run, actions, n, r, e) <==>
        DeniedBy(c, run, actions, m, r, e) || (Acts(run, actions, m, r) && Denies(c, run[m], actions[m], e));
    }
  }

  lemma SettlesDenied(c: Config, s: System, a: Action, phase: Phase, e: KeyError)
    requires Settles(c, s, a, phase)
    ensures phase == Denied(e) <==> Denies(c, s, a, e)
  {
    hide Denies, Grants;
  }

  lemma SettlesGranted(c: Config, s: System, a: Action, phase: Phase, g: Grant)
    requires Settles(c, s, a, phase)
    ensures phase == Granted(g) <==> Grants(c, s, a, g)
  {
    hide Denies, Grants;
  }

  /** And it is granted exactly if one of its steps found its proof young in the cache or passed the second read. */
  lemma {:induction false} GrantsAreExact(
    c: Config, run: seq<System>, actions: seq<Action>, n: nat, r: nat, g: Grant)
    requires Behaviour(c, run, actions) && n < |run|
    ensures Ended(run[n], r, Granted(g)) <==> GrantedBy(c, run, actions, n, r, g)
  {
    hide Next, Denies, Grants, Settles;
    if n > 0 {
      var m := n - 1;
      GrantsAreExact(c, run, actions, m, r, g);
      assert Next(c, m, run[m], actions[m], run[m + 1]);
      EndsByAStep(c, m, run[m], actions[m], run[n], r, Granted(g));
      if OfRequest(actions[m]) && actions[m].request == r {
        StepSettles(c, m, run[m], actions[m], run[n]);
        SettlesGranted(c, run[m], actions[m], run[n].requests[r].phase, g);
      }
      assert GrantedBy(c, run, actions, n, r, g) <==>
        GrantedBy(c, run, actions, m, r, g) || (Acts(run, actions, m, r) && Grants(c, run[m], actions[m], g));
    }
  }

  // ----- why a check ends badly -----

  /** Step `k` found that the secret of the proof does not match its hash, or the check of it panicked. */
  ghost predicate CheckFails(c: Config, run: seq<System>, actions: seq<Action>, k: nat, p: Proof) {
    && k < |actions| && k < |run| && (actions[k].JobChecks? || actions[k].JobPanics?)
    && actions[k].job in run[k].jobs && run[k].jobs[actions[k].job].proof == p
    && (actions[k].JobChecks? ==> !c.checks(p.secret, p.hash))
  }

  predicate Spoiled(s: System, j: nat) { j in s.jobs && s.jobs[j].phase == Finished(F.Invalid) }

  lemma OnlyFailuresSpoil(c: Config, n: nat, s: System, a: Action, t: System, j: nat)
    requires Next(c, n, s, a, t) && Spoiled(t, j)
    ensures j in s.jobs && t.jobs[j].proof == s.jobs[j].proof
    ensures Spoiled(s, j) || a == JobPanics(j) ||
            (a == JobChecks(j) && !c.checks(s.jobs[j].proof.secret, s.jobs[j].proof.hash))
  {
    if OfRequest(a) {
      hide Next;
      RequestsSpoilNothing(c, n, s, a, t, j);
    } else {
      hide Insert, Purge, Contains, F.Publish, F.Leave, F.Close;
    }
  }

  lemma RequestsSpoilNothing(c: Config, n: nat, s: System, a: Action, t: System, j: nat)
    requires Next(c, n, s, a, t) && OfRequest(a) && Spoiled(t, j)
    ensures Spoiled(s, j) && t.jobs[j].proof == s.jobs[j].proof
  {
    if Plain(a) {
      hide Next;
      PlainStep(c, n, s, a, t);
    } else {
      hide F.Join, F.JoinOutcome, F.EndWait, Contains;
    }
  }

  lemma {:induction false} SpoiledByAStep(c: Config, run: seq<System>, actions: seq<Action>, n: nat, j: nat)
    returns (k: nat)
    requires Behaviour(c, run, actions) && n < |run| && Spoiled(run[n], j)
    ensures k < n && CheckFails(c, run, actions, k, run[n].jobs[j].proof)
  {
    hide Next;
    var m := n - 1;
    assert Next(c, m, run[m], actions[m], run[m + 1]);
    OnlyFailuresSpoil(c, m, run[m], actions[m], run[n], j);
    if Spoiled(run[m], j) { k := SpoiledByAStep(c, run, actions, m, j); } else { k := m; }
  }

  predicate Refuted(s: System, f: nat) { f in s.flights.flights && s.flights.flights[f].result == Some(F.Invalid) }

  lemma OnlyPublishersRefute(c: Config, n: nat, s: System, a: Action, t: System, f: nat)
    requires Next(c, n, s, a, t) && Refuted(t, f)
    ensures f in s.flights.flights && t.flights.flights[f].proof == s.flights.flights[f].proof
    ensures Refuted(s, f) || (a.Publishes? && a.job in s.jobs && Spoiled(s, a.job) && s.jobs[a.job].flight == Some(f))
  {
    if OfRequest(a) {
      hide Next;
      RequestsRefuteNothing(c, n, s, a, t, f);
    } else {
      hide Insert, Purge, Contains;
    }
  }

  lemma RequestsRefuteNothing(c: Config, n: nat, s: System, a: Action, t: System, f: nat)
    requires Next(c, n, s, a, t) && OfRequest(a) && Refuted(t, f)
    ensures Refuted(s, f) && t.flights.flights[f].proof == s.flights.flights[f].proof
  {
    if Plain(a) {
      hide Next;
      PlainStep(c, n, s, a, t);
    } else if a.Enters? {
      EnteredFlights(c, s, a.request, a.newId, f);
    } else {
      hide F.JoinOutcome, Contains;
    }
  }

  lemma EnteredFlights(c: Config, s: System, r: nat, newId: nat, f: nat)
    requires r in s.requests && s.requests[r].phase.Enter? && newId !in s.flights.flights
    requires f in EnterVerify(c, s, r, newId).flights.flights
    ensures var t := EnterVerify(c, s, r, newId);
      if f in s.flights.flights then
        && t.flights.flights[f].proof == s.flights.flights[f].proof
        && t.flights.flights[f].result == s.flights.flights[f].result
      else t.flights.flights[f].result.None?
  {
    hide Contains, F.JoinOutcome;
    var p := ProofOf(s.requests[r], s.requests[r].phase.record);
    if F.JoinOutcome(s.flights, p).Followed? { F.FollowedHasFlight(s.flights, p); }
  }

  lemma {:induction false} RefutedByAStep(c: Config, run: seq<System>, actions: seq<Action>, n: nat, f: nat)
    returns (k: nat)
    requires Behaviour(c, run, actions) && n < |run| && Refuted(run[n], f)
    ensures k < n && CheckFails(c, run, actions, k, run[n].flights.flights[f].proof)
  {
    hide Next, SharedOk;
    var m := n - 1;
    assert Next(c, m, run[m], actions[m], run[m + 1]);
    OnlyPublishersRefute(c, m, run[m], actions[m], run[n], f);
    if Refuted(run[m], f) {
      k := RefutedByAStep(c, run, actions, m, f);
    } else {
      AlwaysShared(c, run, actions, m);
      FlightOfJob(c, run[m], actions[m].job);
      k := SpoiledByAStep(c, run, actions, m, actions[m].job);
    }
  }

  lemma FlightOfJob(c: Config, s: System, j: nat)
    requires SharedOk(c, s) && j in s.jobs && s.jobs[j].flight.Some?
    ensures s.jobs[j].flight.value in s.flights.flights
    ensures s.flights.flights[s.jobs[j].flight.value].proof == s.jobs[j].proof
  {
    hide CacheOk, FlightsOk, ChecksOk, WaitsOk;
    assert JobOk(s.jobs[j], s);
  }

  /** The step found no record, found another one the second time, or was told that the check failed. */
  ghost predicate InvalidBecause(c: Config, run: seq<System>, actions: seq<Action>, m: nat, r: nat) {
    Acts(run, actions, m, r) && r in run[m].requests &&
    var q := run[m].requests[r];
    || ((actions[m].Reads? || actions[m].ReadsAgain?) && q.prefix !in run[m].store)
    || (actions[m].Revalidates? && q.phase.Revalidate? &&
        (q.phase.fetched.id != q.phase.record.id || q.phase.fetched.hash != q.phase.record.hash))
    || (actions[m].Wakes? && q.phase.Waiting? &&
        exists k :: 0 <= k < m && CheckFails(c, run, actions, k,
            Proof(q.phase.record.id, q.phase.record.hash, q.secret)))
    || (actions[m].Collects? && q.phase.OwnJob? &&
        exists k :: 0 <= k < m && CheckFails(c, run, actions, k,
            Proof(q.phase.record.id, q.phase.record.hash, q.secret)))
  }

  /**
   A key is called invalid only if its record was missing or had changed, or a check of exactly this secret against
   exactly this record's hash failed: without a panic, a right secret for a record that stays is never refused so.
   */
  lemma InvalidIsJustified(c: Config, run: seq<System>, actions: seq<Action>, n: nat, r: nat) returns (m: nat)
    requires Behaviour(c, run, actions) && n < |run| && Ended(run[n], r, Denied(InvalidKey))
    ensures m < n && InvalidBecause(c, run, actions, m, r)
  {
    hide SharedOk;
    DenialsAreExact(c, run, actions, n, r, InvalidKey);
    m :| 0 <= m < n && Acts(run, actions, m, r) && Denies(c, run[m], actions[m], InvalidKey);
    assert Next(c, m, run[m], actions[m], run[m + 1]);
    hide Next, F.JoinOutcome, Contains;
    if actions[m].Wakes? {
      WakesWaiting(c, m, run[m], actions[m], run[m + 1]);
      AlwaysShared(c, run, actions, m);
      WaitsForItsProof(c, run[m], r);
      var k := RefutedByAStep(c, run, actions, m, run[m].flights.waits[r].flight);
    } else if actions[m].Collects? {
      AlwaysShared(c, run, actions, m);
      WaitsForItsProof(c, run[m], r);
      var k := SpoiledByAStep(c, run, actions, m, run[m].requests[r].phase.job);
    }
  }

  lemma WakesWaiting(c: Config, n: nat, s: System, a: Action, t: System)
    requires Next(c, n, s, a, t) && a.Wakes?
    ensures a.request in s.requests && s.requests[a.request].phase.Waiting?
  {
    hide F.EndWait;
  }

  lemma WaitsForItsProof(c: Config, s: System, r: nat)
    requires SharedOk(c, s) && r in s.requests && (s.requests[r].phase.Waiting? || s.requests[r].phase.OwnJob?)
    ensures var q := s.requests[r]; var p := Proof(q.phase.record.id, q.phase.record.hash, q.secret);
      if q.phase.Waiting? then
        && r in s.flights.waits && s.flights.waits[r].flight in s.flights.flights
        && s.flights.flights[s.flights.waits[r].flight].proof == p
      else q.phase.job in s.jobs && s.jobs[q.phase.job].proof == p
  {
    hide CacheOk, FlightsOk, ChecksOk, JobsOk;
    assert WaitOk(s, r);
  }

  // ----- a right key is let in -----

  lemma Extend(c: Config, run: seq<System>, actions: seq<Action>, a: Action, t: System)
    requires Behaviour(c, run, actions) && Next(c, |actions|, run[|actions|], a, t)
    ensures Behaviour(c, run + [t], actions + [a]) && (run + [t])[|actions| + 1] == t
  {
    hide Next;
    var more, all := actions + [a], run + [t];
    assert |all| == |more| + 1 && all[0] == run[0];
    forall i | 0 <= i < |more| ensures Next(c, i, all[i], more[i], all[i + 1]) {
      if i < |actions| {
        assert Next(c, i, run[i], actions[i], run[i + 1]);
        assert all[i] == run[i] && all[i + 1] == run[i + 1] && more[i] == actions[i];
      }
    }
  }

  /** A run from `start` to `s`. */
  ghost predicate Reaches(c: Config, run: seq<System>, actions: seq<Action>, start: System, s: System) {
    Behaviour(c, run, actions) && run[0] == start && run[|actions|] == s
  }

  lemma Step(c: Config, run: seq<System>, actions: seq<Action>, start: System, s: System, a: Action, t: System)
    returns (longer: seq<System>, more: seq<Action>)
    requires Reaches(c, run, actions, start, s) && Next(c, |actions|, s, a, t)
    ensures Reaches(c, longer, more, start, t) && more == actions + [a]
  {
    hide Next;
    Extend(c, run, actions, a, t);
    longer, more := run + [t], actions + [a];
  }

  function Fresh(store: map<string, Record>, clock: nat): System {
    System(store, clock, EMPTY, F.NONE, map[], map[], {})
  }

  /** The request of this run, in a phase. */
  function Asking(prefix: string, secret: string, phase: Phase): Request { Request(prefix, secret, 0, phase) }

  /** A system with a single request, the one with number 0. */
  function Alone(
    store: map<string, Record>, clock: nat, cache: Entries, flights: F.Flights, q: Request, jobs: map<nat, Job>,
    checked: set<Proof>): System {
    System(store, clock, cache, flights, map[0 := q], jobs, checked)
  }

  /** The first read, its check and a look at the empty cache. */
  lemma ReachesEnter(c: Config, store: map<string, Record>, clock: nat, prefix: string, secret: string)
    returns (run: seq<System>, actions: seq<Action>)
    requires prefix in store && Faultless(store[prefix], clock)
    ensures Reaches(c, run, actions, Fresh(store, clock),
              Alone(store, clock, EMPTY, F.NONE, Asking(prefix, secret, Enter(store[prefix])), map[], {}))
  {
    var record, start := store[prefix], Fresh(store, clock);
    run, actions := [start], [];
    var s1 := Alone(store, clock, EMPTY, F.NONE, Asking(prefix, secret, Fetch), map[], {});
    run, actions := Step(c, run, actions, start, start, Begin(0, prefix, secret), s1);
    var s2 := Alone(store, clock, EMPTY, F.NONE, Asking(prefix, secret, Validate(record, 1)), map[], {});
    assert s1.requests[0 := s2.requests[0]] == s2.requests;
    run, actions := Step(c, run, actions, start, s1, Reads(0), s2);
    var s3 := Alone(store, clock, EMPTY, F.NONE, Asking(prefix, secret, Consult(record, 1)), map[], {});
    assert s2.requests[0 := s3.requests[0]] == s3.requests;
    run, actions := Step(c, run, actions, start, s2, Validates(0), s3);
    var s4 := Alone(store, clock, EMPTY, F.NONE, Asking(prefix, secret, Enter(record)), map[], {});
    assert s3.requests[0 := s4.requests[0]] == s4.requests;
    run, actions := Step(c, run, actions, start, s3, Consults(0), s4);
  }

  /** Once it is queued, the check finds nothing in the cache, and the secret right. */
  lemma ReachesChecked(
    c: Config, run: seq<System>, actions: seq<Action>, start: System, store: map<string, Record>, clock: nat,
    flights: F.Flights, q: Request, p: Proof, flight: Option<F.FlightId>)
    returns (longer: seq<System>, more: seq<Action>)
    requires c.checks(p.secret, p.hash)
    requires Reaches(c, run, actions, start,
               Alone(store, clock, EMPTY, flights, q, map[0 := Job(p, flight, Queued)], {}))
    ensures Reaches(c, longer, more, start,
              Alone(store, clock, EMPTY, flights, q, map[0 := Job(p, flight, Checked)], {p}))
  {
    hide Reaches;
    var s1 := Alone(store, clock, EMPTY, flights, q, map[0 := Job(p, flight, Queued)], {});
    var s2 := Alone(store, clock, EMPTY, flights, q, map[0 := Job(p, flight, Missed)], {});
    assert s1.jobs[0 := Job(p, flight, Missed)] == s2.jobs;
    longer, more := Step(c, run, actions, start, s1, JobLooks(0), s2);
    var s3 := Alone(store, clock, EMPTY, flights, q, map[0 := Job(p, flight, Checked)], {p});
    assert s2.jobs[0 := Job(p, flight, Checked)] == s3.jobs && {} + {p} == {p};
    longer, more := Step(c, longer, more, start, s2, JobChecks(0), s3);
  }

  /** Checked, the job stores the proof and ends well. */
  lemma ReachesVerified(
    c: Config, run: seq<System>, actions: seq<Action>, start: System, store: map<string, Record>, clock: nat,
    flights: F.Flights, q: Request, p: Proof, flight: Option<F.FlightId>)
    returns (longer: seq<System>, more: seq<Action>, cache: Entries)
    requires Reaches(c, run, actions, start,
               Alone(store, clock, EMPTY, flights, q, map[0 := Job(p, flight, Checked)], {p}))
    ensures Reaches(c, longer, more, start,
              Alone(store, clock, cache, flights, q, map[0 := Job(p, flight, Finished(F.Verified))], {p}))
  {
    hide Reaches, Insert;
    cache := if c.caching then Insert(EMPTY, p, clock) else EMPTY;
    var s := Alone(store, clock, EMPTY, flights, q, map[0 := Job(p, flight, Checked)], {p});
    var t := Alone(store, clock, cache, flights, q, map[0 := Job(p, flight, Finished(F.Verified))], {p});
    assert s.jobs[0 := Job(p, flight, Finished(F.Verified))] == t.jobs;
    longer, more := Step(c, run, actions, start, s, JobStores(0), t);
  }

  /** The state in which the request is about to read again. */
  predicate AboutToReread(s: System, store: map<string, Record>, clock: nat, prefix: string, secret: string)
    requires prefix in store
  {
    && s.store == store && s.clock == clock
    && 0 in s.requests && s.requests[0] == Asking(prefix, secret, Refetch(store[prefix]))
  }

  lemma ReachesByOwnJob(c: Config, store: map<string, Record>, clock: nat, prefix: string, secret: string)
    returns (run: seq<System>, actions: seq<Action>, s: System)
    requires prefix in store && Faultless(store[prefix], clock) && c.checks(secret, store[prefix].hash) && !c.caching
    ensures Reaches(c, run, actions, Fresh(store, clock), s) && AboutToReread(s, store, clock, prefix, secret)
  {
    hide Reaches;
    var record, start := store[prefix], Fresh(store, clock);
    var p, w := Proof(record.id, record.hash, secret), Asking(prefix, secret, OwnJob(record, 0));
    run, actions := ReachesEnter(c, store, clock, prefix, secret);
    var s0 := Alone(store, clock, EMPTY, F.NONE, Asking(prefix, secret, Enter(record)), map[], {});
    var s1 := Alone(store, clock, EMPTY, F.NONE, w, map[0 := Job(p, None, Queued)], {});
    assert s0.requests[0 := w] == s1.requests;
    run, actions := Step(c, run, actions, start, s0, Enters(0, 0), s1);
    run, actions := ReachesChecked(c, run, actions, start, store, clock, F.NONE, w, p, None);
    var cache;
    run, actions, cache := ReachesVerified(c, run, actions, start, store, clock, F.NONE, w, p, None);
    var s4 := Alone(store, clock, cache, F.NONE, w, map[0 := Job(p, None, Finished(F.Verified))], {p});
    s := WithPhase(s4, 0, Refetch(record));
    run, actions := Step(c, run, actions, start, s4, Collects(0), s);
  }

  /** The table with one flight, led by waiter 0. */
  function OneFlight(p: Proof, result: Option<F.CheckResult>): F.Flights {
    F.Flights(map[p := 0], map[0 := F.Flight(p, result, F.Live, 0)], map[0 := F.Wait(0, false)], 0)
  }

  lemma FirstJoinLeads(p: Proof)
    ensures F.JoinOutcome(F.NONE, p) == F.Led && F.Join(F.NONE, 0, p, 0) == OneFlight(p, None)
  {
    assert |F.NONE.table| == 0;
  }

  lemma LeaderPublishes(p: Proof)
    ensures F.Publish(OneFlight(p, None), 0, F.Verified) == OneFlight(p, Some(F.Verified))
  {
    var flights := OneFlight(p, None).flights;
    assert flights[0 := F.Flight(p, Some(F.Verified), F.Live, 0)] == OneFlight(p, Some(F.Verified)).flights;
  }

  lemma ReachesFlight(c: Config, store: map<string, Record>, clock: nat, prefix: string, secret: string, p: Proof)
    returns (run: seq<System>, actions: seq<Action>)
    requires prefix in store && Faultless(store[prefix], clock) && c.caching
    requires p == Proof(store[prefix].id, store[prefix].hash, secret)
    ensures var w := Asking(prefix, secret, Waiting(store[prefix]));
      Reaches(c, run, actions, Fresh(store, clock),
        Alone(store, clock, EMPTY, OneFlight(p, None), w, map[0 := Job(p, Some(0), Queued)], {}))
  {
    hide Reaches, F.JoinOutcome, F.Join;
    var record := store[prefix];
    run, actions := ReachesEnter(c, store, clock, prefix, secret);
    var s0 := Alone(store, clock, EMPTY, F.NONE, Asking(prefix, secret, Enter(record)), map[], {});
    var w := Asking(prefix, secret, Waiting(record));
    FirstJoinLeads(p);
    var s1 := Alone(store, clock, EMPTY, OneFlight(p, None), w, map[0 := Job(p, Some(0), Queued)], {});
    assert s0.requests[0 := w] == s1.requests;
    run, actions := Step(c, run, actions, Fresh(store, clock), s0, Enters(0, 0), s1);
  }

  lemma ReachesByFlight(c: Config, store: map<string, Record>, clock: nat, prefix: string, secret: string)
    returns (run: seq<System>, actions: seq<Action>, s: System)
    requires prefix in store && Faultless(store[prefix], clock) && c.checks(secret, store[prefix].hash) && c.caching
    ensures Reaches(c, run, actions, Fresh(store, clock), s) && AboutToReread(s, store, clock, prefix, secret)
  {
    hide Reaches, F.Publish, F.EndWait;
    var record, start := store[prefix], Fresh(store, clock);
    var p, w := Proof(record.id, record.hash, secret), Asking(prefix, secret, Waiting(record));
    run, actions := ReachesFlight(c, store, clock, prefix, secret, p);
    run, actions := ReachesChecked(c, run, actions, start, store, clock, OneFlight(p, None), w, p, Some(0));
    var cache;
    run, actions, cache := ReachesVerified(c, run, actions, start, store, clock, OneFlight(p, None), w, p, Some(0));
    var done := map[0 := Job(p, Some(0), Finished(F.Verified))];
    var s4 := Alone(store, clock, cache, OneFlight(p, None), w, done, {p});
    var s5 := Alone(store, clock, cache, OneFlight(p, Some(F.Verified)), w, done, {p});
    LeaderPublishes(p);
    run, actions := Step(c, run, actions, start, s4, Publishes(0), s5);
    s := WithPhase(StopWaiting(s5, 0), 0, Refetch(record));
    run, actions := Step(c, run, actions, start, s5, Wakes(0), s);
  }

  /** The second read of the same record grants. */
  lemma ReachesGrant(
    c: Config, run: seq<System>, actions: seq<Action>, start: System, s: System, store: map<string, Record>,
    clock: nat, prefix: string, secret: string)
    returns (longer: seq<System>, more: seq<Action>, t: System)
    requires Reaches(c, run, actions, start, s) && prefix in store && Faultless(store[prefix], clock)
    requires AboutToReread(s, store, clock, prefix, secret)
    ensures Reaches(c, longer, more, start, t) && 0 in t.requests
    ensures t.requests[0] == Asking(prefix, secret, Granted(Grant(store[prefix], |actions|, true)))
  {
    hide Reaches;
    var n, record := |actions|, store[prefix];
    var r := WithPhase(s, 0, Revalidate(record, record, n));
    longer, more := Step(c, run, actions, start, s, ReadsAgain(0), r);
    t := WithPhase(r, 0, Granted(Grant(record, n, true)));
    longer, more := Step(c, longer, more, start, r, Revalidates(0), t);
  }

  /** Every usable stored record lets in whoever presents the secret that its hash verifies, from an empty cache. */
  lemma RightKeysGetIn(c: Config, store: map<string, Record>, clock: nat, prefix: string, secret: string)
    returns (run: seq<System>, actions: seq<Action>, g: Grant)
    requires prefix in store && Usable(store[prefix], clock) && c.checks(secret, store[prefix].hash)
    ensures Behaviour(c, run, actions) && run[0] == Fresh(store, clock)
    ensures var s := run[|actions|];
      0 in s.requests && s.requests[0] == Asking(prefix, secret, Granted(g)) && g.record == store[prefix] && g.cold
  {
    var start := Fresh(store, clock);
    var s, t;
    if c.caching {
      run, actions, s := ReachesByFlight(c, store, clock, prefix, secret);
    } else {
      run, actions, s := ReachesByOwnJob(c, store, clock, prefix, secret);
    }
    g := Grant(store[prefix], |actions|, true);
    run, actions, t := ReachesGrant(c, run, actions, start, s, store, clock, prefix, secret);
  }
}
