/**
 The key-authentication protocol of auth.rs over every interleaving: requests that read a key record, share secret
 checks through the cache and the single-flight table, and read the record again; store edits, evictions, expiry,
 cancellation and leaders that die are steps of their own.
 */
module KeyAuthentication {
  import opened Base
  import opened VerificationCache
  import F = VerificationFlights

  // ----- records -----

  datatype Record = Record(
    id: int, project: Option<int>, prefix: string, hash: string, disabled: bool, revoked: bool, expires: Option<nat>)

  datatype KeyError = RevokedKey | DisabledKey | ExpiredKey | InvalidKey | Overloaded

  /** `validate_key_state`. */
  function ValidateKeyState(r: Record, now: nat): Option<KeyError> {
    if r.revoked then Some(RevokedKey)
    else if r.disabled then Some(DisabledKey)
    else if r.expires.Some? && r.expires.value <= now then Some(ExpiredKey)
    else None
  }

  predicate Usable(r: Record, now: nat) { !r.revoked && !r.disabled && (r.expires.Some? ==> now < r.expires.value) }

  lemma ValidIsUsable(r: Record, now: nat)
    ensures ValidateKeyState(r, now).None? <==> Usable(r, now)
  {
  }

  // ----- requests and jobs -----

  /** The record an authentication succeeded with, when it was read, and whether the secret was checked meanwhile. */
  datatype Grant = Grant(record: Record, readAt: nat, cold: bool)

  datatype Phase =
    | Fetch
    | Validate(record: Record, readAt: nat)
    | Consult(record: Record, readAt: nat)
    | Enter(record: Record)
    | Waiting(record: Record)
    | OwnJob(record: Record, job: nat)
    | Refetch(record: Record)
    | Revalidate(record: Record, fetched: Record, readAt: nat)
    | Granted(grant: Grant)
    | Denied(error: KeyError)

  datatype Request = Request(prefix: string, secret: string, startedAt: nat, phase: Phase)

  /** A secret check on the bounded executor, on behalf of a flight or of one request. */
  datatype JobPhase = Queued | Missed | Checked | Finished(result: F.CheckResult)

  datatype Job = Job(proof: Proof, flight: Option<F.FlightId>, phase: JobPhase)

  datatype System = System(
    store: map<string, Record>, clock: nat, cache: Entries, flights: F.Flights,
    requests: map<nat, Request>, jobs: map<nat, Job>, checked: set<Proof>)

  /** `checks` is Argon2 verification; `caching` is false when the cache could not get entropy for its secret. */
  datatype Config = Config(checks: (string, string) -> bool, caching: bool)

  function ProofOf(q: Request, r: Record): Proof { Proof(r.id, r.hash, q.secret) }

  predicate Cached(c: Config, s: System, p: Proof) { c.caching && Contains(s.cache, p, s.clock) }

  function WithPhase(s: System, r: nat, phase: Phase): System
    requires r in s.requests
  {
    s.(requests := s.requests[r := s.requests[r].(phase := phase)])
  }

  function WithJob(s: System, j: nat, phase: JobPhase): System
    requires j in s.jobs
  {
    s.(jobs := s.jobs[j := s.jobs[j].(phase := phase)])
  }

  // ----- the steps of a request -----

  function ReadStore(s: System, r: nat, n: nat): System
    requires r in s.requests && s.requests[r].phase.Fetch?
  {
    var q := s.requests[r];
    WithPhase(s, r, if q.prefix in s.store then Validate(s.store[q.prefix], n) else Denied(InvalidKey))
  }

  function CheckState(s: System, r: nat): System
    requires r in s.requests && s.requests[r].phase.Validate?
  {
    var Validate(record, at) := s.requests[r].phase;
    var e := ValidateKeyState(record, s.clock);
    WithPhase(s, r, if e.None? then Consult(record, at) else Denied(e.value))
  }

  function LookUp(c: Config, s: System, r: nat): System
    requires r in s.requests && s.requests[r].phase.Consult?
  {
    var q := s.requests[r];
    var Consult(record, at) := q.phase;
    WithPhase(s, r, if Cached(c, s, ProofOf(q, record)) then Granted(Grant(record, at, false)) else Enter(record))
  }

  /** `verification_flight::verify`: its own job without a proof, a second look at the cache, or a flight. */
  function EnterVerify(c: Config, s: System, r: nat, newId: nat): System
    requires r in s.requests && s.requests[r].phase.Enter?
  {
    var q := s.requests[r];
    var record := q.phase.record;
    var p := ProofOf(q, record);
    if !c.caching then
      WithPhase(s, r, OwnJob(record, newId)).(jobs := s.jobs[newId := Job(p, None, Queued)])
    else if Contains(s.cache, p, s.clock) then WithPhase(s, r, Refetch(record))
    else
      var joined := s.(flights := F.Join(s.flights, r, p, newId));
      match F.JoinOutcome(s.flights, p)
      case Refused => WithPhase(joined, r, Denied(Overloaded))
      case Followed => WithPhase(joined, r, Waiting(record))
      case Led => WithPhase(joined, r, Waiting(record)).(jobs := s.jobs[newId := Job(p, Some(newId), Queued)])
  }

  function StopWaiting(s: System, r: nat): System
    requires r in s.flights.waits ==> s.flights.waits[r].flight in s.flights.flights
  {
    if r in s.flights.waits then s.(flights := F.EndWait(s.flights, r)) else s
  }

  function FlightOf(s: System, r: nat): F.Flight
    requires r in s.flights.waits && s.flights.waits[r].flight in s.flights.flights
  {
    s.flights.flights[s.flights.waits[r].flight]
  }

  /** The first read is told what the check ended with. */
  function Told(record: Record, result: F.CheckResult): Phase {
    match result
    case Verified => Refetch(record)
    case Invalid => Denied(InvalidKey)
    case Overload => Denied(Overloaded)
  }

  function ReadAgain(s: System, r: nat, n: nat): System
    requires r in s.requests && s.requests[r].phase.Refetch?
  {
    var q := s.requests[r];
    WithPhase(s, r,
      if q.prefix in s.store then Revalidate(q.phase.record, s.store[q.prefix], n) else Denied(InvalidKey))
  }

  function CheckAgain(s: System, r: nat): System
    requires r in s.requests && s.requests[r].phase.Revalidate?
  {
    var Revalidate(record, fetched, at) := s.requests[r].phase;
    var e := ValidateKeyState(fetched, s.clock);
    WithPhase(s, r,
      if e.Some? then Denied(e.value)
      else if fetched.id != record.id || fetched.hash != record.hash then Denied(InvalidKey)
      else Granted(Grant(fetched, at, true)))
  }

  // ----- every step -----

  datatype Action =
    | Begin(request: nat, prefix: string, secret: string)
    | Reads(request: nat)
    | Validates(request: nat)
    | Consults(request: nat)
    | Enters(request: nat, newId: nat)
    | Wakes(request: nat)
    | Collects(request: nat)
    | ReadsAgain(request: nat)
    | Revalidates(request: nat)
    | Fails(request: nat)
    | JobLooks(job: nat)
    | JobChecks(job: nat)
    | JobStores(job: nat)
    | JobDies(job: nat)
    | JobPanics(job: nat)
    | Publishes(job: nat)
    | LeaderLeaves(flight: nat)
    | LeaderCloses(flight: nat)
    | Edit(store: map<string, Record>)
    | Passes(clock: nat)
    | Purges

  /** What may happen in the state with index `n` of a run. */
  ghost predicate Next(c: Config, n: nat, s: System, a: Action, t: System) {
    match a
    case Begin(r, prefix, secret) =>
      r !in s.requests && r !in s.flights.waits
          && t == s.(requests := s.requests[r := Request(prefix, secret, n, Fetch)])
    case Reads(r) => r in s.requests && s.requests[r].phase.Fetch? && t == ReadStore(s, r, n)
    case Validates(r) => r in s.requests && s.requests[r].phase.Validate? && t == CheckState(s, r)
    case Consults(r) => r in s.requests && s.requests[r].phase.Consult? && t == LookUp(c, s, r)
    case Enters(r, newId) =>
      && r in s.requests && s.requests[r].phase.Enter? && r !in s.flights.waits
      && newId !in s.flights.flights && newId !in s.jobs
      && t == EnterVerify(c, s, r, newId)
    case Wakes(r) =>
      && r in s.requests && s.requests[r].phase.Waiting? && r in s.flights.waits
      && s.flights.waits[r].flight in s.flights.flights
      && FlightOf(s, r).result.Some?
      && t == WithPhase(StopWaiting(s, r), r, Told(s.requests[r].phase.record, FlightOf(s, r).result.value))
    case Collects(r) =>
      && r in s.requests && s.requests[r].phase.OwnJob? && s.requests[r].phase.job in s.jobs
      && s.jobs[s.requests[r].phase.job].phase.Finished?
      && t == WithPhase(s, r, Told(s.requests[r].phase.record, s.jobs[s.requests[r].phase.job].phase.result))
    case ReadsAgain(r) => r in s.requests && s.requests[r].phase.Refetch? && t == ReadAgain(s, r, n)
    case Revalidates(r) => r in s.requests && s.requests[r].phase.Revalidate? && t == CheckAgain(s, r)
    // The store fails, the deadline passes, the channel closes, or the request is cancelled.
    case Fails(r) =>
      && r in s.requests && !s.requests[r].phase.Granted? && !s.requests[r].phase.Denied?
      && (r in s.flights.waits ==> s.flights.waits[r].flight in s.flights.flights)
      && t == WithPhase(StopWaiting(s, r), r, Denied(Overloaded))
    case JobLooks(j) =>
      && j in s.jobs && s.jobs[j].phase == Queued
      && t == WithJob(s, j, if Cached(c, s, s.jobs[j].proof) then Finished(F.Verified) else Missed)
    case JobChecks(j) =>
      && j in s.jobs && s.jobs[j].phase == Missed
      && t == (if c.checks(s.jobs[j].proof.secret, s.jobs[j].proof.hash)
               then WithJob(s, j, Checked).(checked := s.checked + {s.jobs[j].proof})
               else WithJob(s, j, Finished(F.Invalid)))
    case JobStores(j) =>
      && j in s.jobs && s.jobs[j].phase == Checked
      && t == WithJob(s, j, Finished(F.Verified))
              .(cache := if c.caching then Insert(s.cache, s.jobs[j].proof, s.clock) else s.cache)
    // The executor has no room for the job, or its queue times out.
    case JobDies(j) => j in s.jobs && s.jobs[j].phase == Queued && t == WithJob(s, j, Finished(F.Overload))
    case JobPanics(j) => j in s.jobs && !s.jobs[j].phase.Finished? && t == WithJob(s, j, Finished(F.Invalid))
    case Publishes(j) =>
      && j in s.jobs && s.jobs[j].phase.Finished? && s.jobs[j].flight.Some?
      && s.jobs[j].flight.value in s.flights.flights
      && s.flights.flights[s.jobs[j].flight.value].leader == F.Live
      && t == s.(flights := F.Publish(s.flights, s.jobs[j].flight.value, s.jobs[j].phase.result))
    case LeaderLeaves(f) =>
      f in s.flights.flights && s.flights.flights[f].leader == F.Live && t == s.(flights := F.Leave(s.flights, f))
    case LeaderCloses(f) =>
      f in s.flights.flights && s.flights.flights[f].leader == F.Leaving && t == s.(flights := F.Close(s.flights, f))
    case Edit(store) => t == s.(store := store)
    case Passes(clock) => clock >= s.clock && t == s.(clock := clock)
    case Purges => t == s.(cache := Purge(s.cache, s.clock))
  }

  const EMPTY_SYSTEM := System(map[], 0, EMPTY, F.NONE, map[], map[], {})

  ghost predicate Behaviour(c: Config, run: seq<System>, actions: seq<Action>) {
    && |run| == |actions| + 1
    && run[0] == EMPTY_SYSTEM.(store := run[0].store, clock := run[0].clock)
    && forall i :: 0 <= i < |actions| ==> Next(c, i, run[i], actions[i], run[i + 1])
  }

  // ----- what every step keeps of the shared state -----

  ghost predicate CacheOk(s: System) { forall p :: p in s.cache.proofs ==> p in s.checked }

  ghost predicate FlightOk(f: F.Flight, checked: set<Proof>) { f.result == Some(F.Verified) ==> f.proof in checked }

  ghost predicate FlightsOk(s: System) {
    F.Safe(s.flights) && forall f :: f in s.flights.flights ==> FlightOk(s.flights.flights[f], s.checked)
  }

  ghost predicate JobOk(j: Job, s: System) {
    && (j.phase == Checked || j.phase == Finished(F.Verified) ==> j.proof in s.checked)
    && (j.flight.Some? ==> j.flight.value in s.flights.flights && s.flights.flights[j.flight.value].proof == j.proof)
  }

  ghost predicate JobsOk(s: System) { forall j :: j in s.jobs ==> JobOk(s.jobs[j], s) }

  ghost predicate ChecksOk(c: Config, s: System) { forall p :: p in s.checked ==> c.checks(p.secret, p.hash) }

  /** A waiting request waits for the proof of the record it read. */
  ghost predicate WaitOk(s: System, r: nat)
    requires r in s.requests
  {
    var q := s.requests[r];
    match q.phase
    case Waiting(record) =>
      && r in s.flights.waits && s.flights.waits[r].flight in s.flights.flights
      && FlightOf(s, r).proof == ProofOf(q, record)
    case OwnJob(record, j) => r !in s.flights.waits && j in s.jobs && s.jobs[j].proof == ProofOf(q, record)
    case _ => r !in s.flights.waits
  }

  ghost predicate WaitsOk(s: System) { forall r :: r in s.requests ==> WaitOk(s, r) }

  ghost predicate SharedOk(c: Config, s: System) {
    CacheOk(s) && FlightsOk(s) && JobsOk(s) && ChecksOk(c, s) && WaitsOk(s)
  }

  /** Flights only gain results and lose leaders; their proofs never change. */
  ghost predicate FlightsExtend(s: System, t: System) {
    forall f :: f in s.flights.flights ==>
        f in t.flights.flights && t.flights.flights[f].proof == s.flights.flights[f].proof
  }

  // Steps that change one request's phase and nothing else that is shared.

  lemma RequestStep(c: Config, s: System, r: nat, phase: Phase)
    requires SharedOk(c, s) && r in s.requests && r !in s.flights.waits && !phase.Waiting? && !phase.OwnJob?
    ensures SharedOk(c, WithPhase(s, r, phase))
  {
    hide F.Safe, FlightOk;
    var t := WithPhase(s, r, phase);
    assert FlightsOk(t) && CacheOk(t) && ChecksOk(c, t);
    forall j | j in t.jobs ensures JobOk(t.jobs[j], t) { assert JobOk(s.jobs[j], s); }
    forall k | k in t.requests ensures WaitOk(t, k) {
      assert WaitOk(s, k);
    }
  }

  lemma NotWaiting(s: System, r: nat)
    requires WaitsOk(s) && r in s.requests && !s.requests[r].phase.Waiting?
    ensures r !in s.flights.waits
  {
    assert WaitOk(s, r);
  }

  lemma BeginStep(c: Config, s: System, r: nat, q: Request)
    requires SharedOk(c, s) && r !in s.requests && r !in s.flights.waits && q.phase.Fetch?
    ensures SharedOk(c, s.(requests := s.requests[r := q]))
  {
    hide F.Safe, FlightOk;
    var t := s.(requests := s.requests[r := q]);
    forall j | j in t.jobs ensures JobOk(t.jobs[j], t) { assert JobOk(s.jobs[j], s); }
    forall k | k in t.requests ensures WaitOk(t, k) { if k != r { assert WaitOk(s, k); } }
  }

  // Steps of the flights alone.

  lemma FlightStep(c: Config, s: System, g: F.Flights)
    requires SharedOk(c, s) && F.Safe(g) && g.waits == s.flights.waits
    requires FlightsExtend(s, s.(flights := g))
    requires forall f :: f in g.flights ==> FlightOk(g.flights[f], s.checked)
    ensures SharedOk(c, s.(flights := g))
  {
    hide F.Safe, FlightOk;
    var t := s.(flights := g);
    forall j | j in t.jobs ensures JobOk(t.jobs[j], t) { assert JobOk(s.jobs[j], s); }
    forall k | k in t.requests ensures WaitOk(t, k) { assert WaitOk(s, k); }
  }

  lemma PublishStep(c: Config, s: System, j: nat)
    requires SharedOk(c, s) && j in s.jobs && s.jobs[j].phase.Finished? && s.jobs[j].flight.Some?
    requires s.jobs[j].flight.value in s.flights.flights
    ensures SharedOk(c, s.(flights := F.Publish(s.flights, s.jobs[j].flight.value, s.jobs[j].phase.result)))
  {
    hide F.Safe, CacheOk, ChecksOk, WaitsOk;
    assert JobOk(s.jobs[j], s);
    F.PublishIsSafe(s.flights, s.jobs[j].flight.value, s.jobs[j].phase.result);
    FlightStep(c, s, F.Publish(s.flights, s.jobs[j].flight.value, s.jobs[j].phase.result));
  }

  lemma LeaveStep(c: Config, s: System, f: nat)
    requires SharedOk(c, s) && f in s.flights.flights && s.flights.flights[f].leader == F.Live
    ensures SharedOk(c, s.(flights := F.Leave(s.flights, f)))
  {
    hide F.Safe, CacheOk, ChecksOk, WaitsOk, JobsOk;
    F.LeaveIsSafe(s.flights, f);
    FlightStep(c, s, F.Leave(s.flights, f));
  }

  lemma CloseStep(c: Config, s: System, f: nat)
    requires SharedOk(c, s) && f in s.flights.flights && s.flights.flights[f].leader == F.Leaving
    ensures SharedOk(c, s.(flights := F.Close(s.flights, f)))
  {
    hide F.Safe, CacheOk, ChecksOk, WaitsOk, JobsOk;
    F.CloseIsSafe(s.flights, f);
    FlightStep(c, s, F.Close(s.flights, f));
  }

  // A wait that ends.

  lemma StopStep(c: Config, s: System, r: nat, phase: Phase)
    requires SharedOk(c, s) && r in s.requests && !phase.Waiting? && !phase.OwnJob?
    requires r in s.flights.waits ==> s.flights.waits[r].flight in s.flights.flights
    ensures SharedOk(c, WithPhase(StopWaiting(s, r), r, phase))
  {
    hide SharedOk, F.EndWait;
    if r !in s.flights.waits { RequestStep(c, s, r, phase); } else { EndWaitStep(c, s, r, phase); }
  }

  lemma EndWaitStep(c: Config, s: System, r: nat, phase: Phase)
    requires SharedOk(c, s) && r in s.requests && !phase.Waiting? && !phase.OwnJob?
    requires r in s.flights.waits && s.flights.waits[r].flight in s.flights.flights
    ensures SharedOk(c, WithPhase(s.(flights := F.EndWait(s.flights, r)), r, phase))
  {
    hide F.Safe, FlightOk, F.EndWait;
    F.EndWaitIsSafe(s.flights, r);
    var t := WithPhase(s.(flights := F.EndWait(s.flights, r)), r, phase);
    EndedFlights(s, r);
    forall j | j in t.jobs ensures JobOk(t.jobs[j], t) { assert JobOk(s.jobs[j], s); }
    forall k | k in t.requests ensures WaitOk(t, k) { assert WaitOk(s, k); }
  }

  lemma EndedFlights(s: System, r: nat)
    requires r in s.flights.waits && s.flights.waits[r].flight in s.flights.flights
    ensures var g := F.EndWait(s.flights, r);
      && g.flights.Keys == s.flights.flights.Keys && g.waits == s.flights.waits - {r}
      && forall f :: f in g.flights ==>
           g.flights[f].proof == s.flights.flights[f].proof && g.flights[f].result == s.flights.flights[f].result
           && (FlightOk(s.flights.flights[f], s.checked) ==> FlightOk(g.flights[f], s.checked))
  {
  }

  // A request that joins or leads.

  predicate SameFlight(f: F.Flight, g: F.Flight) { f.proof == g.proof && f.result == g.result }

  lemma JoinedFlights(s: System, r: nat, p: Proof, newId: nat)
    requires F.Safe(s.flights) && r !in s.flights.waits && newId !in s.flights.flights
    requires !F.JoinOutcome(s.flights, p).Refused?
    ensures var g := F.Join(s.flights, r, p, newId);
      && r in g.waits && g.waits[r].flight in g.flights && g.flights[g.waits[r].flight].proof == p
      && (forall k :: k in s.flights.waits ==> k in g.waits && g.waits[k] == s.flights.waits[k])
      && (forall k :: k in g.waits ==> k == r || k in s.flights.waits)
      && (forall f :: f in s.flights.flights ==> f in g.flights && SameFlight(g.flights[f], s.flights.flights[f]))
      && (forall f :: f in g.flights && f !in s.flights.flights ==> g.flights[f].result.None?)
      && (F.JoinOutcome(s.flights, p).Led? ==> newId in g.flights && g.flights[newId].proof == p)
  {
    hide F.PermitsAreWaits;
  }

  lemma JoinKeepsFlights(c: Config, s: System, r: nat, record: Record, newId: nat, jobs: map<nat, Job>)
    requires SharedOk(c, s) && r in s.requests && r !in s.flights.waits && newId !in s.flights.flights
        && newId !in s.jobs
    requires !F.JoinOutcome(s.flights, ProofOf(s.requests[r], record)).Refused?
    requires jobs == if F.JoinOutcome(s.flights, ProofOf(s.requests[r], record)).Led?
                     then s.jobs[newId := Job(ProofOf(s.requests[r], record), Some(newId), Queued)] else s.jobs
    ensures var g := F.Join(s.flights, r, ProofOf(s.requests[r], record), newId);
      FlightsOk(WithPhase(s.(flights := g), r, Waiting(record)).(jobs := jobs))
  {
    hide F.Safe, F.JoinOutcome, F.Join;
    var p := ProofOf(s.requests[r], record);
    var g := F.Join(s.flights, r, p, newId);
    JoinedFlights(s, r, p, newId);
    var t := WithPhase(s.(flights := g), r, Waiting(record)).(jobs := jobs);
    F.JoinIsSafe(s.flights, r, p, newId);
    forall f | f in g.flights ensures FlightOk(g.flights[f], t.checked) {
      if f in s.flights.flights { assert FlightOk(s.flights.flights[f], s.checked); }
    }
  }

  lemma JoinKeepsJobs(c: Config, s: System, r: nat, record: Record, newId: nat, jobs: map<nat, Job>)
    requires SharedOk(c, s) && r in s.requests && r !in s.flights.waits && newId !in s.flights.flights
        && newId !in s.jobs
    requires !F.JoinOutcome(s.flights, ProofOf(s.requests[r], record)).Refused?
    requires jobs == if F.JoinOutcome(s.flights, ProofOf(s.requests[r], record)).Led?
                     then s.jobs[newId := Job(ProofOf(s.requests[r], record), Some(newId), Queued)] else s.jobs
    ensures var g := F.Join(s.flights, r, ProofOf(s.requests[r], record), newId);
      JobsOk(WithPhase(s.(flights := g), r, Waiting(record)).(jobs := jobs))
  {
    hide F.Safe, F.JoinOutcome, F.Join;
    var p := ProofOf(s.requests[r], record);
    var g := F.Join(s.flights, r, p, newId);
    JoinedFlights(s, r, p, newId);
    var t := WithPhase(s.(flights := g), r, Waiting(record)).(jobs := jobs);
    forall j | j in t.jobs ensures JobOk(t.jobs[j], t) { if j in s.jobs { assert JobOk(s.jobs[j], s); } }
  }

  lemma JoinKeepsWaits(c: Config, s: System, r: nat, record: Record, newId: nat, jobs: map<nat, Job>)
    requires SharedOk(c, s) && r in s.requests && r !in s.flights.waits && newId !in s.flights.flights
        && newId !in s.jobs
    requires !F.JoinOutcome(s.flights, ProofOf(s.requests[r], record)).Refused?
    requires jobs == if F.JoinOutcome(s.flights, ProofOf(s.requests[r], record)).Led?
                     then s.jobs[newId := Job(ProofOf(s.requests[r], record), Some(newId), Queued)] else s.jobs
    ensures var g := F.Join(s.flights, r, ProofOf(s.requests[r], record), newId);
      WaitsOk(WithPhase(s.(flights := g), r, Waiting(record)).(jobs := jobs))
  {
    hide F.Safe, F.JoinOutcome, F.Join;
    var p := ProofOf(s.requests[r], record);
    var g := F.Join(s.flights, r, p, newId);
    JoinedFlights(s, r, p, newId);
    var t := WithPhase(s.(flights := g), r, Waiting(record)).(jobs := jobs);
    forall k | k in t.requests ensures WaitOk(t, k) { assert WaitOk(s, k); }
  }

  /** The request now waits for its proof; a leader also brings the job of its flight. */
  lemma JoinStep(c: Config, s: System, r: nat, record: Record, newId: nat, jobs: map<nat, Job>)
    requires SharedOk(c, s) && r in s.requests && r !in s.flights.waits && newId !in s.flights.flights
        && newId !in s.jobs
    requires !F.JoinOutcome(s.flights, ProofOf(s.requests[r], record)).Refused?
    requires jobs == if F.JoinOutcome(s.flights, ProofOf(s.requests[r], record)).Led?
                     then s.jobs[newId := Job(ProofOf(s.requests[r], record), Some(newId), Queued)] else s.jobs
    ensures var g := F.Join(s.flights, r, ProofOf(s.requests[r], record), newId);
      SharedOk(c, WithPhase(s.(flights := g), r, Waiting(record)).(jobs := jobs))
  {
    hide F.JoinOutcome, F.Join, FlightsOk, JobsOk, WaitsOk;
    JoinKeepsFlights(c, s, r, record, newId, jobs);
    JoinKeepsJobs(c, s, r, record, newId, jobs);
    JoinKeepsWaits(c, s, r, record, newId, jobs);
  }

  lemma OwnJobStep(c: Config, s: System, r: nat, record: Record, newId: nat)
    requires SharedOk(c, s) && r in s.requests && r !in s.flights.waits && newId !in s.jobs
    ensures SharedOk(c, WithPhase(s, r, OwnJob(record, newId))
                        .(jobs := s.jobs[newId := Job(ProofOf(s.requests[r], record), None, Queued)]))
  {
    hide F.Safe, FlightOk;
    var jobs := s.jobs[newId := Job(ProofOf(s.requests[r], record), None, Queued)];
    var t := WithPhase(s, r, OwnJob(record, newId)).(jobs := jobs);
    forall j | j in t.jobs ensures JobOk(t.jobs[j], t) { if j in s.jobs { assert JobOk(s.jobs[j], s); } }
    forall k | k in t.requests ensures WaitOk(t, k) { assert WaitOk(s, k); }
  }

  lemma EnterStep(c: Config, s: System, r: nat, newId: nat)
    requires SharedOk(c, s) && r in s.requests && s.requests[r].phase.Enter?
    requires newId !in s.flights.flights && newId !in s.jobs
    ensures SharedOk(c, EnterVerify(c, s, r, newId))
  {
    hide SharedOk, F.Join, F.JoinOutcome, Contains;
    SharedParts(c, s);
    NotWaiting(s, r);
    var q := s.requests[r];
    var record := q.phase.record;
    if !c.caching {
      OwnJobStep(c, s, r, record, newId);
    } else if Contains(s.cache, ProofOf(q, record), s.clock) {
      RequestStep(c, s, r, Refetch(record));
    } else if F.JoinOutcome(s.flights, ProofOf(q, record)).Refused? {
      RefusedJoin(s.flights, r, ProofOf(q, record), newId);
      RequestStep(c, s, r, Denied(Overloaded));
    } else {
      var led := F.JoinOutcome(s.flights, ProofOf(q, record)).Led?;
      var jobs := if led then s.jobs[newId := Job(ProofOf(q, record), Some(newId), Queued)] else s.jobs;
      JoinStep(c, s, r, record, newId, jobs);
    }
  }

  lemma RefusedJoin(g: F.Flights, r: nat, p: Proof, newId: nat)
    requires F.JoinOutcome(g, p).Refused?
    ensures F.Join(g, r, p, newId) == g
  {
  }

  lemma SharedParts(c: Config, s: System)
    requires SharedOk(c, s)
    ensures CacheOk(s) && FlightsOk(s) && JobsOk(s) && ChecksOk(c, s) && WaitsOk(s)
  {
  }

  // Steps of a job.

  /** A job moves on; proofs are only ever added to those whose check succeeded. */
  lemma JobStep(c: Config, s: System, j: nat, phase: JobPhase, checked: set<Proof>, cache: Entries)
    requires SharedOk(c, s) && j in s.jobs && s.checked <= checked
    requires phase == Checked || phase == Finished(F.Verified) ==> s.jobs[j].proof in checked
    requires forall p :: p in checked ==> c.checks(p.secret, p.hash)
    requires forall p :: p in cache.proofs ==> p in checked
    ensures SharedOk(c, WithJob(s, j, phase).(checked := checked, cache := cache))
  {
    hide F.Safe;
    var t := WithJob(s, j, phase).(checked := checked, cache := cache);
    forall f | f in t.flights.flights ensures FlightOk(t.flights.flights[f], checked) {
      assert FlightOk(s.flights.flights[f], s.checked);
    }
    forall i | i in t.jobs ensures JobOk(t.jobs[i], t) { assert JobOk(s.jobs[i], s); }
    forall k | k in t.requests ensures WaitOk(t, k) { assert WaitOk(s, k); }
  }

  /** Every proof of `e` is in `f` since the same time. */
  ghost predicate Within(e: Entries, f: Entries) {
    forall p :: p in e.proofs ==> p in f.proofs && e.proofs[p] == f.proofs[p]
  }

  lemma {:induction false} EvictShrinks(e: Entries, now: nat)
    ensures Within(Evict(e, now), e)
    decreases |e.order|
  {
    if e.order != [] && !(|e.proofs| < CAPACITY && Contains(e, e.order[0], now)) { EvictShrinks(RemoveOldest(e), now); }
  }

  lemma {:induction false} PurgeShrinks(e: Entries, now: nat)
    ensures Within(Purge(e, now), e)
    decreases |e.order|
  {
    if e.order != [] && !Contains(e, e.order[0], now) { PurgeShrinks(RemoveOldest(e), now); }
  }

  lemma InsertAddsOne(e: Entries, p: Proof, now: nat)
    ensures var f := Insert(e, p, now);
      forall q :: q in f.proofs ==> (q == p && f.proofs[q] == now) || (q in e.proofs && f.proofs[q] == e.proofs[q])
  {
    hide Evict;
    EvictShrinks(e, now);
  }

  lemma JobLooksStep(c: Config, s: System, j: nat)
    requires SharedOk(c, s) && j in s.jobs
    ensures SharedOk(c, WithJob(s, j, if Cached(c, s, s.jobs[j].proof) then Finished(F.Verified) else Missed))
  {
    hide FlightsOk, JobsOk, WaitsOk;
    JobStep(c, s, j, if Cached(c, s, s.jobs[j].proof) then Finished(F.Verified) else Missed, s.checked, s.cache);
  }

  lemma JobChecksStep(c: Config, s: System, j: nat)
    requires SharedOk(c, s) && j in s.jobs && c.checks(s.jobs[j].proof.secret, s.jobs[j].proof.hash)
    ensures SharedOk(c, WithJob(s, j, Checked).(checked := s.checked + {s.jobs[j].proof}))
  {
    hide FlightsOk, JobsOk, WaitsOk;
    JobStep(c, s, j, Checked, s.checked + {s.jobs[j].proof}, s.cache);
  }

  lemma JobFinishesStep(c: Config, s: System, j: nat, result: F.CheckResult)
    requires SharedOk(c, s) && j in s.jobs && result != F.Verified
    ensures SharedOk(c, WithJob(s, j, Finished(result)))
  {
    hide FlightsOk, JobsOk, WaitsOk;
    JobStep(c, s, j, Finished(result), s.checked, s.cache);
  }

  lemma JobStoresStep(c: Config, s: System, j: nat)
    requires SharedOk(c, s) && j in s.jobs && s.jobs[j].phase == Checked
    ensures var cache := if c.caching then Insert(s.cache, s.jobs[j].proof, s.clock) else s.cache;
      SharedOk(c, WithJob(s, j, Finished(F.Verified)).(cache := cache))
  {
    hide FlightsOk, WaitsOk, Insert;
    assert JobOk(s.jobs[j], s);
    InsertAddsOne(s.cache, s.jobs[j].proof, s.clock);
    var cache := if c.caching then Insert(s.cache, s.jobs[j].proof, s.clock) else s.cache;
    JobStep(c, s, j, Finished(F.Verified), s.checked, cache);
  }

  lemma BackgroundStep(c: Config, s: System, store: map<string, Record>, clock: nat, cache: Entries)
    requires SharedOk(c, s) && forall p :: p in cache.proofs ==> p in s.cache.proofs
    ensures SharedOk(c, s.(store := store, clock := clock, cache := cache))
  {
    hide F.Safe, FlightOk;
    var t := s.(store := store, clock := clock, cache := cache);
    forall j | j in t.jobs ensures JobOk(t.jobs[j], t) { assert JobOk(s.jobs[j], s); }
    forall k | k in t.requests ensures WaitOk(t, k) { assert WaitOk(s, k); }
  }

  /** The steps a request takes on its own. */
  predicate OfRequest(a: Action) {
    a.Begin? || a.Reads? || a.Validates? || a.Consults? || a.Enters? || a.Wakes? || a.Collects? || a.ReadsAgain?
    || a.Revalidates? || a.Fails?
  }

  /** A step that only moves its request on, to a phase that does not wait. */
  predicate Plain(a: Action) {
    a.Reads? || a.Validates? || a.Consults? || a.Collects? || a.ReadsAgain? || a.Revalidates?
  }

  lemma PlainStep(c: Config, n: nat, s: System, a: Action, t: System)
    requires Next(c, n, s, a, t) && Plain(a)
    ensures a.request in s.requests && !s.requests[a.request].phase.Waiting?
    ensures a.request in t.requests && t == WithPhase(s, a.request, t.requests[a.request].phase)
    ensures !t.requests[a.request].phase.Waiting? && !t.requests[a.request].phase.OwnJob?
  {
    hide Contains, ValidateKeyState;
  }

  lemma PlainKeepsShared(c: Config, n: nat, s: System, a: Action, t: System)
    requires SharedOk(c, s) && Next(c, n, s, a, t) && Plain(a)
    ensures SharedOk(c, t)
  {
    hide SharedOk, Next;
    SharedParts(c, s);
    PlainStep(c, n, s, a, t);
    NotWaiting(s, a.request);
    RequestStep(c, s, a.request, t.requests[a.request].phase);
  }

  lemma StartKeepsShared(c: Config, n: nat, s: System, a: Action, t: System)
    requires SharedOk(c, s) && Next(c, n, s, a, t) && (a.Begin? || a.Enters?)
    ensures SharedOk(c, t)
  {
    hide SharedOk, EnterVerify;
    if a.Begin? {
      BeginStep(c, s, a.request, Request(a.prefix, a.secret, n, Fetch));
    } else {
      EnterStep(c, s, a.request, a.newId);
    }
  }

  lemma StopKeepsShared(c: Config, n: nat, s: System, a: Action, t: System)
    requires SharedOk(c, s) && Next(c, n, s, a, t) && (a.Wakes? || a.Fails?)
    ensures SharedOk(c, t)
  {
    hide SharedOk, StopWaiting;
    var phase :=
      if a.Wakes? then Told(s.requests[a.request].phase.record, FlightOf(s, a.request).result.value)
      else Denied(Overloaded);
    StopStep(c, s, a.request, phase);
  }

  lemma RequestKeepsShared(c: Config, n: nat, s: System, a: Action, t: System)
    requires SharedOk(c, s) && Next(c, n, s, a, t) && OfRequest(a)
    ensures SharedOk(c, t)
  {
    hide SharedOk, Next;
    if Plain(a) {
      PlainKeepsShared(c, n, s, a, t);
    } else if a.Begin? || a.Enters? {
      StartKeepsShared(c, n, s, a, t);
    } else {
      StopKeepsShared(c, n, s, a, t);
    }
  }

  lemma OthersKeepShared(c: Config, n: nat, s: System, a: Action, t: System)
    requires SharedOk(c, s) && Next(c, n, s, a, t) && !OfRequest(a)
    ensures SharedOk(c, t)
  {
    hide SharedOk, Contains, Insert, Purge;
    match a
    case JobLooks(j) => JobLooksStep(c, s, j);
    case JobChecks(j) =>
      if c.checks(s.jobs[j].proof.secret, s.jobs[j].proof.hash) {
        JobChecksStep(c, s, j);
      } else {
        JobFinishesStep(c, s, j, F.Invalid);
      }
    case JobStores(j) => JobStoresStep(c, s, j);
    case JobDies(j) => JobFinishesStep(c, s, j, F.Overload);
    case JobPanics(j) => JobFinishesStep(c, s, j, F.Invalid);
    case Publishes(j) => PublishStep(c, s, j);
    case LeaderLeaves(f) => LeaveStep(c, s, f);
    case LeaderCloses(f) => CloseStep(c, s, f);
    case Edit(store) => BackgroundStep(c, s, store, s.clock, s.cache);
    case Passes(clock) => BackgroundStep(c, s, s.store, clock, s.cache);
    case Purges => PurgeShrinks(s.cache, s.clock); BackgroundStep(c, s, s.store, s.clock, Purge(s.cache, s.clock));
  }

  /** Checks are never forgotten and time does not run backwards. */
  lemma NextIsMonotone(c: Config, n: nat, s: System, a: Action, t: System)
    requires Next(c, n, s, a, t)
    ensures s.checked <= t.checked && s.clock <= t.clock
  {
    hide F.Join, F.EndWait, Insert, Contains, ValidateKeyState;
  }

  lemma {:induction false} AlwaysShared(c: Config, run: seq<System>, actions: seq<Action>, n: nat)
    requires Behaviour(c, run, actions) && n < |run|
    ensures SharedOk(c, run[n])
  {
    if n == 0 {
      NoFlights();
    } else {
      hide SharedOk, Next;
      AlwaysShared(c, run, actions, n - 1);
      var a := actions[n - 1];
      assert Next(c, n - 1, run[n - 1], a, run[n - 1 + 1]);
      if OfRequest(a) {
        RequestKeepsShared(c, n - 1, run[n - 1], a, run[n]);
      } else {
        OthersKeepShared(c, n - 1, run[n - 1], a, run[n]);
      }
    }
  }

  lemma NoFlights()
    ensures F.Safe(F.NONE)
  {
    assert F.Following(F.NONE) == {};
  }

  lemma {:induction false} Monotone(c: Config, run: seq<System>, actions: seq<Action>, m: nat, n: nat)
    requires Behaviour(c, run, actions) && m <= n < |run|
    ensures run[m].checked <= run[n].checked && run[m].clock <= run[n].clock
    decreases n
  {
    if m < n {
      hide Next;
      Monotone(c, run, actions, m, n - 1);
      assert Next(c, n - 1, run[n - 1], actions[n - 1], run[n - 1 + 1]);
      NextIsMonotone(c, n - 1, run[n - 1], actions[n - 1], run[n]);
    }
  }

  // ----- what a request knows -----

  /** `record` is what the store held for the request's prefix at `at`, since the request started. */
  ghost predicate ReadAt(run: seq<System>, n: nat, q: Request, record: Record, at: nat) {
    && q.startedAt <= at <= n < |run|
    && q.prefix in run[at].store && run[at].store[q.prefix] == record
  }

  ghost predicate GrantOk(c: Config, run: seq<System>, n: nat, q: Request, g: Grant) {
    && ReadAt(run, n, q, g.record, g.readAt)
    && Usable(g.record, run[g.readAt].clock)
    && c.checks(q.secret, g.record.hash)
    && (g.cold ==> ProofOf(q, g.record) in run[g.readAt].checked)
  }

  ghost predicate Known(c: Config, run: seq<System>, n: nat, q: Request)
    requires n < |run|
  {
    && q.startedAt <= n
    && match q.phase
       case Validate(record, at) => ReadAt(run, n, q, record, at)
       case Consult(record, at) => ReadAt(run, n, q, record, at) && Usable(record, run[at].clock)
       case Refetch(record) => ProofOf(q, record) in run[n].checked
       case Revalidate(record, fetched, at) =>
         ReadAt(run, n, q, fetched, at) && ProofOf(q, record) in run[at].checked
       case Granted(grant) => GrantOk(c, run, n, q, grant)
       case _ => true
  }

  ghost predicate AllKnown(c: Config, run: seq<System>, n: nat)
    requires n < |run|
  {
    forall r :: r in run[n].requests ==> Known(c, run, n, run[n].requests[r])
  }

  lemma KnownLater(c: Config, run: seq<System>, actions: seq<Action>, n: nat, q: Request)
    requires Behaviour(c, run, actions) && n + 1 < |run| && Known(c, run, n, q)
    ensures Known(c, run, n + 1, q)
  {
    hide Behaviour;
    Monotone(c, run, actions, n, n + 1);
  }

  lemma UsableEarlier(r: Record, then_: nat, now: nat)
    requires then_ <= now && Usable(r, now)
    ensures Usable(r, then_)
  {
  }

  // Each step of a request, as seen from the run.

  lemma ReadKnown(c: Config, run: seq<System>, n: nat, r: nat)
    requires n + 1 < |run| && r in run[n].requests && run[n].requests[r].phase.Fetch?
        && run[n + 1] == ReadStore(run[n], r, n)
    requires Known(c, run, n, run[n].requests[r])
    ensures Known(c, run, n + 1, run[n + 1].requests[r])
  {
  }

  lemma ValidateKnown(c: Config, run: seq<System>, actions: seq<Action>, n: nat, r: nat)
    requires Behaviour(c, run, actions)
    requires n + 1 < |run| && r in run[n].requests && run[n].requests[r].phase.Validate?
        && run[n + 1] == CheckState(run[n], r)
    requires Known(c, run, n, run[n].requests[r])
    ensures Known(c, run, n + 1, run[n + 1].requests[r])
  {
    hide Behaviour;
    var Validate(record, at) := run[n].requests[r].phase;
    ValidIsUsable(record, run[n].clock);
    Monotone(c, run, actions, at, n);
    if Usable(record, run[n].clock) { UsableEarlier(record, run[at].clock, run[n].clock); }
  }

  lemma ConsultKnown(c: Config, run: seq<System>, n: nat, r: nat)
    requires n + 1 < |run| && SharedOk(c, run[n])
    requires r in run[n].requests && run[n].requests[r].phase.Consult? && run[n + 1] == LookUp(c, run[n], r)
    requires Known(c, run, n, run[n].requests[r])
    ensures Known(c, run, n + 1, run[n + 1].requests[r])
  {
    hide FlightsOk, JobsOk, WaitsOk;
  }

  lemma EnterKnown(c: Config, run: seq<System>, n: nat, r: nat, newId: nat)
    requires n + 1 < |run| && SharedOk(c, run[n])
    requires r in run[n].requests && run[n].requests[r].phase.Enter? && run[n + 1] == EnterVerify(c, run[n], r, newId)
    requires Known(c, run, n, run[n].requests[r])
    ensures Known(c, run, n + 1, run[n + 1].requests[r])
  {
    hide FlightsOk, JobsOk, WaitsOk, F.Join, F.JoinOutcome;
  }

  lemma WakeKnown(c: Config, run: seq<System>, n: nat, r: nat)
    requires n + 1 < |run| && SharedOk(c, run[n]) && Next(c, n, run[n], Wakes(r), run[n + 1])
    requires Known(c, run, n, run[n].requests[r])
    ensures Known(c, run, n + 1, run[n + 1].requests[r])
  {
    hide JobsOk, CacheOk, ChecksOk, F.Safe, F.EndWait;
    var s := run[n];
    assert WaitOk(s, r);
    assert FlightOk(FlightOf(s, r), s.checked);
  }

  lemma CollectKnown(c: Config, run: seq<System>, n: nat, r: nat)
    requires n + 1 < |run| && SharedOk(c, run[n]) && Next(c, n, run[n], Collects(r), run[n + 1])
    requires Known(c, run, n, run[n].requests[r])
    ensures Known(c, run, n + 1, run[n + 1].requests[r])
  {
    hide FlightsOk, CacheOk, ChecksOk;
    var s := run[n];
    assert WaitOk(s, r);
    assert JobOk(s.jobs[s.requests[r].phase.job], s);
  }

  lemma ReadAgainKnown(c: Config, run: seq<System>, n: nat, r: nat)
    requires n + 1 < |run| && r in run[n].requests && run[n].requests[r].phase.Refetch?
        && run[n + 1] == ReadAgain(run[n], r, n)
    requires Known(c, run, n, run[n].requests[r])
    ensures Known(c, run, n + 1, run[n + 1].requests[r])
  {
  }

  lemma RevalidateKnown(c: Config, run: seq<System>, actions: seq<Action>, n: nat, r: nat)
    requires Behaviour(c, run, actions) && n + 1 < |run|
    requires r in run[n].requests && run[n].requests[r].phase.Revalidate? && run[n + 1] == CheckAgain(run[n], r)
    requires Known(c, run, n, run[n].requests[r]) && SharedOk(c, run[n])
    ensures Known(c, run, n + 1, run[n + 1].requests[r])
  {
    hide Behaviour, FlightsOk, JobsOk, WaitsOk, CacheOk;
    var Revalidate(record, fetched, at) := run[n].requests[r].phase;
    ValidIsUsable(fetched, run[n].clock);
    Monotone(c, run, actions, at, n);
    if Usable(fetched, run[n].clock) { UsableEarlier(fetched, run[at].clock, run[n].clock); }
  }

  // ----- every request in every run -----

  /** A step moves at most the request it names. */
  lemma OnlyItsRequest(c: Config, n: nat, s: System, a: Action, t: System, r: nat)
    requires Next(c, n, s, a, t) && r in t.requests && !(OfRequest(a) && a.request == r)
    ensures r in s.requests && t.requests[r] == s.requests[r]
  {
    hide Next;
    if OfRequest(a) { OtherRequestStays(c, n, s, a, t, r); } else { JobsMoveNoRequest(c, n, s, a, t); }
  }

  lemma OtherRequestStays(c: Config, n: nat, s: System, a: Action, t: System, r: nat)
    requires Next(c, n, s, a, t) && r in t.requests && OfRequest(a) && a.request != r
    ensures r in s.requests && t.requests[r] == s.requests[r]
  {
    if Plain(a) {
      hide Next;
      PlainStep(c, n, s, a, t);
    } else {
      hide F.Join, F.JoinOutcome, F.EndWait, Contains, ValidateKeyState;
    }
  }

  lemma JobsMoveNoRequest(c: Config, n: nat, s: System, a: Action, t: System)
    requires Next(c, n, s, a, t) && !OfRequest(a)
    ensures t.requests == s.requests
  {
    hide F.Join, F.JoinOutcome, F.EndWait, Insert, Contains, ValidateKeyState;
  }

  lemma ActingKnown(c: Config, run: seq<System>, actions: seq<Action>, n: nat)
    requires Behaviour(c, run, actions) && n < |actions| && n + 1 < |run| && SharedOk(c, run[n]) && AllKnown(c, run, n)
    requires Next(c, n, run[n], actions[n], run[n + 1]) && OfRequest(actions[n])
    requires actions[n].request in run[n + 1].requests
    ensures Known(c, run, n + 1, run[n + 1].requests[actions[n].request])
  {
    hide Behaviour, SharedOk, ReadStore, CheckState, LookUp, EnterVerify, ReadAgain, CheckAgain, StopWaiting;
    var a := actions[n];
    var r := a.request;
    if a.Begin? {
    } else if a.Fails? {
      FailedKnown(c, run, n, r);
    } else {
      assert Known(c, run, n, run[n].requests[r]);
      if a.Reads? { ReadKnown(c, run, n, r); }
      else if a.Validates? { ValidateKnown(c, run, actions, n, r); }
      else if a.Consults? { ConsultKnown(c, run, n, r); }
      else if a.Enters? { EnterKnown(c, run, n, r, a.newId); }
      else if a.Wakes? { WakeKnown(c, run, n, r); }
      else if a.Collects? { CollectKnown(c, run, n, r); }
      else if a.ReadsAgain? { ReadAgainKnown(c, run, n, r); }
      else { RevalidateKnown(c, run, actions, n, r); }
    }
  }

  lemma FailedKnown(c: Config, run: seq<System>, n: nat, r: nat)
    requires n + 1 < |run| && AllKnown(c, run, n) && Next(c, n, run[n], Fails(r), run[n + 1])
    ensures r in run[n + 1].requests && Known(c, run, n + 1, run[n + 1].requests[r])
  {
    hide F.EndWait;
    assert Known(c, run, n, run[n].requests[r]);
  }

  lemma {:induction false} AlwaysKnown(c: Config, run: seq<System>, actions: seq<Action>, n: nat)
    requires Behaviour(c, run, actions) && n < |run|
    ensures AllKnown(c, run, n)
  {
    if n > 0 {
      var m := n - 1;
      AlwaysKnown(c, run, actions, m);
      AlwaysShared(c, run, actions, m);
      StepKnown(c, run, actions, m);
    }
  }

  lemma StepKnown(c: Config, run: seq<System>, actions: seq<Action>, m: nat)
    requires Behaviour(c, run, actions) && m < |actions| && m + 1 < |run| && AllKnown(c, run, m) && SharedOk(c, run[m])
    ensures AllKnown(c, run, m + 1)
  {
    assert Next(c, m, run[m], actions[m], run[m + 1]);
    hide Next, Known, SharedOk, Behaviour;
    var requests := run[m + 1].requests;
    forall r | r in requests ensures Known(c, run, m + 1, requests[r]) {
      if OfRequest(actions[m]) && actions[m].request == r {
        ActingKnown(c, run, actions, m);
      } else {
        OnlyItsRequest(c, m, run[m], actions[m], run[m + 1], r);
        KnownLater(c, run, actions, m, run[m].requests[r]);
      }
    }
  }

  /**
   In every interleaving, an authentication that succeeds returns a record that the store held for its prefix at some
   point during the call, unrevoked, enabled and unexpired there, whose hash the presented secret verifies. On the
   cold path the secret had been checked against that very id and hash before the record was read.
   */
  lemma SuccessIsJustified(c: Config, run: seq<System>, actions: seq<Action>, n: nat, r: nat)
    requires Behaviour(c, run, actions) && n < |run| && r in run[n].requests && run[n].requests[r].phase.Granted?
    ensures var q := run[n].requests[r]; var g := q.phase.grant;
      && q.startedAt <= g.readAt <= n
      && q.prefix in run[g.readAt].store && run[g.readAt].store[q.prefix] == g.record
      && Usable(g.record, run[g.readAt].clock)
      && c.checks(q.secret, g.record.hash)
      && (g.cold ==> Proof(g.record.id, g.record.hash, q.secret) in run[g.readAt].checked)
  {
    hide Behaviour;
    AlwaysKnown(c, run, actions, n);
    assert Known(c, run, n, run[n].requests[r]);
  }

  /** The single-flight limits hold in every state of the whole protocol. */
  lemma FlightsStaySafe(c: Config, run: seq<System>, actions: seq<Action>, n: nat)
    requires Behaviour(c, run, actions) && n < |run|
    ensures F.Safe(run[n].flights)
  {
    hide Behaviour, F.Safe, CacheOk, JobsOk, WaitsOk, ChecksOk;
    AlwaysShared(c, run, actions, n);
  }

  /** A proof counts as checked only from a step in which its secret was checked against its hash and matched. */
  lemma {:induction false} CheckedByAStep(c: Config, run: seq<System>, actions: seq<Action>, n: nat, p: Proof)
    returns (k: nat)
    requires Behaviour(c, run, actions) && n < |run| && p in run[n].checked
    ensures k < n && p !in run[k].checked && actions[k].JobChecks?
    ensures actions[k].job in run[k].jobs && run[k].jobs[actions[k].job].proof == p && c.checks(p.secret, p.hash)
  {
    if p in run[n - 1].checked {
      k := CheckedByAStep(c, run, actions, n - 1, p);
    } else {
      k := n - 1;
      assert Next(c, k, run[k], actions[k], run[k + 1]);
      OnlyChecksAdd(c, k, run[k], actions[k], run[k + 1], p);
    }
  }

  lemma OnlyChecksAdd(c: Config, n: nat, s: System, a: Action, t: System, p: Proof)
    requires Next(c, n, s, a, t) && p in t.checked && p !in s.checked
    ensures a.JobChecks? && a.job in s.jobs && s.jobs[a.job].proof == p && c.checks(p.secret, p.hash)
  {
    hide F.Join, F.JoinOutcome, F.EndWait, Insert, Contains, ValidateKeyState;
  }

  /** On the cold path some earlier step of the run checked the presented secret against the returned id and hash. */
  lemma ColdReadFollowsCheck(c: Config, run: seq<System>, actions: seq<Action>, n: nat, r: nat) returns (k: nat)
    requires Behaviour(c, run, actions) && n < |run| && r in run[n].requests
    requires run[n].requests[r].phase.Granted? && run[n].requests[r].phase.grant.cold
    ensures var q := run[n].requests[r]; var g := q.phase.grant;
      && k < g.readAt < |run| && k < |actions| && actions[k].JobChecks? && actions[k].job in run[k].jobs
      && run[k].jobs[actions[k].job].proof == Proof(g.record.id, g.record.hash, q.secret)
  {
    SuccessIsJustified(c, run, actions, n, r);
    var q := run[n].requests[r];
    var g := q.phase.grant;
    k := CheckedByAStep(c, run, actions, g.readAt, Proof(g.record.id, g.record.hash, q.secret));
  }

  // ----- how old a cached check may be -----

  /** Step `k` stored the proof in the cache. */
  ghost predicate Stores(run: seq<System>, actions: seq<Action>, k: nat, p: Proof) {
    && k < |actions| && k < |run| && actions[k].JobStores?
    && actions[k].job in run[k].jobs && run[k].jobs[actions[k].job].proof == p
  }

  lemma OnlyStoresAdd(c: Config, n: nat, s: System, a: Action, t: System, p: Proof)
    requires Next(c, n, s, a, t) && p in t.cache.proofs
    ensures || (p in s.cache.proofs && t.cache.proofs[p] == s.cache.proofs[p])
            || (a.JobStores? && a.job in s.jobs && s.jobs[a.job].proof == p && t.cache.proofs[p] == s.clock)
  {
    if a.JobStores? {
      hide Insert;
      InsertAddsOne(s.cache, s.jobs[a.job].proof, s.clock);
    } else if a.Purges? {
      hide Purge;
      PurgeShrinks(s.cache, s.clock);
    } else {
      hide Next;
      OthersKeepCache(c, n, s, a, t);
    }
  }

  lemma OthersKeepCache(c: Config, n: nat, s: System, a: Action, t: System)
    requires Next(c, n, s, a, t) && !a.JobStores? && !a.Purges?
    ensures t.cache == s.cache
  {
    hide F.Join, F.JoinOutcome, F.EndWait, Insert, Purge, Contains, ValidateKeyState, F.Publish, F.Leave, F.Close;
  }

  /** Every proof in the cache was stored there by a step of the run, at the time the cache has for it. */
  lemma {:induction false} CachedByAStep(c: Config, run: seq<System>, actions: seq<Action>, n: nat, p: Proof)
    returns (k: nat)
    requires Behaviour(c, run, actions) && n < |run| && p in run[n].cache.proofs
    ensures k < n && Stores(run, actions, k, p) && run[n].cache.proofs[p] == run[k].clock
  {
    hide Next;
    var m := n - 1;
    assert Next(c, m, run[m], actions[m], run[m + 1]);
    OnlyStoresAdd(c, m, run[m], actions[m], run[n], p);
    if p in run[m].cache.proofs && run[n].cache.proofs[p] == run[m].cache.proofs[p] {
      k := CachedByAStep(c, run, actions, m, p);
    } else {
      k := m;
    }
  }

  predicate Warm(q: Request) { q.phase.Granted? && !q.phase.grant.cold }

  /** A warm grant comes from a look at the cache that found the proof. */
  lemma OnlyConsultsWarm(c: Config, n: nat, s: System, a: Action, t: System, r: nat)
    requires Next(c, n, s, a, t) && OfRequest(a) && a.request == r && r in t.requests && Warm(t.requests[r])
    ensures r in s.requests && a == Consults(r) && s.requests[r].phase.Consult?
    ensures var g := t.requests[r].phase.grant;
      && s.requests[r].phase == Consult(g.record, g.readAt) && t.requests[r] == s.requests[r].(phase := Granted(g))
      && Contains(s.cache, ProofOf(s.requests[r], g.record), s.clock)
  {
    hide F.Join, F.JoinOutcome, F.EndWait, Contains, ValidateKeyState;
  }

  /**
   On the warm path some earlier step `k` stored that very proof, and the cache was asked at a step `m`, after the
   record was read, less than the lifetime of 60 s after that.
   */
  lemma {:induction false} WarmGrantIsFresh(c: Config, run: seq<System>, actions: seq<Action>, n: nat, r: nat)
    returns (k: nat, m: nat)
    requires Behaviour(c, run, actions) && n < |run| && r in run[n].requests && Warm(run[n].requests[r])
    ensures var q := run[n].requests[r]; var g := q.phase.grant;
      && k < m && g.readAt <= m < n && Stores(run, actions, k, Proof(g.record.id, g.record.hash, q.secret))
      && actions[m] == Consults(r) && run[g.readAt].clock <= run[m].clock < run[k].clock + TTL
  {
    hide Next;
    m := n - 1;
    assert Next(c, m, run[m], actions[m], run[m + 1]);
    var a := actions[m];
    if OfRequest(a) && a.request == r {
      OnlyConsultsWarm(c, m, run[m], a, run[n], r);
      var q := run[m].requests[r];
      var g := run[n].requests[r].phase.grant;
      AlwaysKnown(c, run, actions, m);
      assert Known(c, run, m, q);
      Monotone(c, run, actions, g.readAt, m);
      k := CachedByAStep(c, run, actions, m, ProofOf(q, g.record));
      Monotone(c, run, actions, k, m);
    } else {
      OnlyItsRequest(c, m, run[m], a, run[n], r);
      k, m := WarmGrantIsFresh(c, run, actions, m, r);
    }
  }
}
