/**
 Connection leases of accessa_transport.rs: a shared count per (service, key), taken and given back under a lock,
 limited per instance, per service route and per key.
 */
module ConnectionLeases {
  const INSTANCE_CONNECTION_LIMIT := 4096

  /** A service name and the identity of a key. */
  type Entry = (string, int)

  type Counts = map<Entry, nat>

  // ----- sums over a table -----

  ghost function Sum(counts: Counts, keys: set<Entry>): nat
    requires keys <= counts.Keys
  {
    if keys == {} then 0 else
      var k :| k in keys;
      counts[k] + Sum(counts, keys - {k})
  }

  /** The sum does not depend on the order in which the keys are taken. */
  lemma {:induction false} SumPick(counts: Counts, keys: set<Entry>, k: Entry)
    requires keys <= counts.Keys && k in keys
    ensures Sum(counts, keys) == counts[k] + Sum(counts, keys - {k})
    decreases keys
  {
    var j :| j in keys && Sum(counts, keys) == counts[j] + Sum(counts, keys - {j});
    if j != k {
      SumPick(counts, keys - {j}, k);
      SumPick(counts, keys - {k}, j);
      assert keys - {j} - {k} == keys - {k} - {j};
    }
  }

  lemma {:induction false} SumAgrees(a: Counts, b: Counts, keys: set<Entry>)
    requires keys <= a.Keys && keys <= b.Keys && forall k :: k in keys ==> a[k] == b[k]
    ensures Sum(a, keys) == Sum(b, keys)
    decreases keys
  {
    if keys != {} {
      var k :| k in keys;
      SumPick(a, keys, k);
      SumPick(b, keys, k);
      SumAgrees(a, b, keys - {k});
    }
  }

  function Named(counts: Counts, service: string): set<Entry> { set e | e in counts && e.0 == service }

  ghost function Total(counts: Counts): nat { Sum(counts, counts.Keys) }

  ghost function Route(counts: Counts, service: string): nat { Sum(counts, Named(counts, service)) }

  function Count(counts: Counts, e: Entry): nat { if e in counts then counts[e] else 0 }

  // ----- taking and giving back -----

  predicate Refuses(total: nat, route: nat, count: nat, routeMax: nat, keyMax: nat) {
    total >= INSTANCE_CONNECTION_LIMIT || route >= routeMax || count >= keyMax
  }

  ghost predicate Refused(counts: Counts, e: Entry, routeMax: nat, keyMax: nat) {
    Refuses(Total(counts), Route(counts, e.0), Count(counts, e), routeMax, keyMax)
  }

  function Taken(counts: Counts, e: Entry): Counts { counts[e := Count(counts, e) + 1] }

  /** A drop takes nothing from a table without the entry; that a count of zero is never met is proved below. */
  function Given(counts: Counts, e: Entry): Counts {
    if e !in counts then counts else if counts[e] <= 1 then counts - {e} else counts[e := counts[e] - 1]
  }

  /** One entry more or less changes a sum over a family of keys by one exactly when the family holds it. */
  lemma SumTaken(counts: Counts, e: Entry, keys: set<Entry>, after: set<Entry>)
    requires keys <= counts.Keys && after == (if e in after then keys + {e} else keys) && (e in keys ==> e in after)
    requires e in counts && e in after ==> e in keys
    ensures after <= Taken(counts, e).Keys
    ensures Sum(Taken(counts, e), after) == Sum(counts, keys) + if e in after then 1 else 0
  {
    var t := Taken(counts, e);
    if e in after {
      SumPick(t, after, e);
      if e in keys { SumPick(counts, keys, e); }
      assert after - {e} == keys - {e};
      SumAgrees(t, counts, keys - {e});
      assert e !in keys ==> keys - {e} == keys;
    } else {
      SumAgrees(t, counts, keys);
    }
  }

  lemma TotalTaken(counts: Counts, e: Entry)
    ensures Total(Taken(counts, e)) == Total(counts) + 1
  {
    SumTaken(counts, e, counts.Keys, Taken(counts, e).Keys);
  }

  lemma RouteTaken(counts: Counts, e: Entry, service: string)
    ensures Route(Taken(counts, e), service) == Route(counts, service) + if e.0 == service then 1 else 0
  {
    SumTaken(counts, e, Named(counts, service), Named(Taken(counts, e), service));
  }

  lemma TakenBack(counts: Counts, e: Entry)
    requires e in counts && counts[e] > 0
    ensures Count(Given(counts, e), e) == counts[e] - 1 && Taken(Given(counts, e), e) == counts
  {
  }

  // ----- the system of leases -----

  /** The shared table, and the leases handed out and not yet dropped. */
  datatype System = System(counts: Counts, live: multiset<Entry>)

  datatype Event = Acquire(entry: Entry, routeMax: nat, keyMax: nat) | Release(entry: Entry)

  /** What can happen: an acquire that is admitted or refused, or the drop of a live lease. */
  ghost predicate Next(s: System, event: Event, t: System) {
    match event
    case Acquire(e, routeMax, keyMax) =>
      if Refused(s.counts, e, routeMax, keyMax) then t == s
      else t == System(Taken(s.counts, e), s.live + multiset{e})
    case Release(e) =>
      s.live[e] > 0 && t == System(Given(s.counts, e), s.live - multiset{e})
  }

  /** The count of each entry is its live leases, and no zero is kept. */
  ghost predicate Exact(s: System) {
    && (forall e :: e in s.counts ==> s.counts[e] > 0)
    && (forall e :: Count(s.counts, e) == s.live[e])
  }

  ghost predicate WithinInstance(s: System) { Total(s.counts) <= INSTANCE_CONNECTION_LIMIT }

  lemma NextExact(s: System, event: Event, t: System)
    requires Exact(s) && Next(s, event, t)
    ensures Exact(t)
  {
    hide Refused;
    if event.Release? { assert Count(s.counts, event.entry) == s.live[event.entry]; }
  }

  /** A lease that is live can always be given back: its entry is there and its count is not zero. */
  lemma ReleaseNeverUnderflows(s: System, e: Entry)
    requires Exact(s) && s.live[e] > 0
    ensures e in s.counts && s.counts[e] > 0
    ensures Next(s, Release(e), System(Given(s.counts, e), s.live - multiset{e}))
  {
    assert Count(s.counts, e) == s.live[e];
  }

  lemma NextWithin(s: System, event: Event, t: System)
    requires Exact(s) && WithinInstance(s) && Next(s, event, t)
    ensures WithinInstance(t)
  {
    hide Total;
    match event
    case Acquire(e, routeMax, keyMax) => TotalTaken(s.counts, e);
    case Release(e) => ReleaseNeverUnderflows(s, e); TakenBack(s.counts, e); TotalTaken(t.counts, e);
  }

  /** Upper bounds on the limits of some services; a service's own limits may change from call to call below them. */
  datatype Limits = Limits(routeMax: map<string, nat>, keyMax: map<string, nat>)

  ghost predicate Capped(limits: Limits, event: Event) {
    event.Acquire? ==>
      && (event.entry.0 in limits.routeMax ==> event.routeMax <= limits.routeMax[event.entry.0])
      && (event.entry.0 in limits.keyMax ==> event.keyMax <= limits.keyMax[event.entry.0])
  }

  ghost predicate WithinLimits(s: System, limits: Limits) {
    && (forall service :: service in limits.routeMax ==> Route(s.counts, service) <= limits.routeMax[service])
    && (forall e :: e in s.counts && e.0 in limits.keyMax ==> s.counts[e] <= limits.keyMax[e.0])
  }

  lemma NextWithinLimits(s: System, event: Event, t: System, limits: Limits)
    requires Exact(s) && WithinLimits(s, limits) && Capped(limits, event) && Next(s, event, t)
    ensures WithinLimits(t, limits)
  {
    hide Route, Total;
    forall service | service in limits.routeMax ensures Route(t.counts, service) <= limits.routeMax[service] {
      match event
      case Acquire(e, routeMax, keyMax) => RouteTaken(s.counts, e, service);
      case Release(e) => ReleaseNeverUnderflows(s, e); TakenBack(s.counts, e); RouteTaken(t.counts, e, service);
    }
  }

  ghost predicate Behaviour(states: seq<System>, events: seq<Event>) {
    && |states| == |events| + 1
    && states[0] == System(map[], multiset{})
    && forall i :: 0 <= i < |events| ==> Next(states[i], events[i], states[i + 1])
  }

  /** Over every run, whatever limits its calls name: counts are exact, no zero is kept and the instance limit holds. */
  lemma {:induction false} LeasesAreExactAndBounded(states: seq<System>, events: seq<Event>, n: nat)
    requires Behaviour(states, events) && n < |states|
    ensures Exact(states[n]) && WithinInstance(states[n])
  {
    if n > 0 {
      hide Exact, WithinInstance, Next;
      LeasesAreExactAndBounded(states, events, n - 1);
      assert Next(states[n - 1], events[n - 1], states[n - 1 + 1]);
      NextExact(states[n - 1], events[n - 1], states[n]);
      NextWithin(states[n - 1], events[n - 1], states[n]);
    }
  }

  /** Routes and keys stay within any bounds that the limits named by the calls so far stay within. */
  lemma {:induction false} LimitsHold(states: seq<System>, events: seq<Event>, limits: Limits, n: nat)
    requires Behaviour(states, events) && n < |states|
    requires forall i :: 0 <= i < n ==> Capped(limits, events[i])
    ensures WithinLimits(states[n], limits)
  {
    if n == 0 {
      assert forall service :: Named(map[], service) == {};
    } else {
      hide Exact, WithinLimits, Next, Capped;
      LimitsHold(states, events, limits, n - 1);
      LeasesAreExactAndBounded(states, events, n - 1);
      assert Next(states[n - 1], events[n - 1], states[n - 1 + 1]);
      NextWithinLimits(states[n - 1], events[n - 1], states[n], limits);
    }
  }

  /** The total is the number of live leases. */
  lemma {:induction false} TotalIsLive(states: seq<System>, events: seq<Event>, n: nat)
    requires Behaviour(states, events) && n < |states|
    ensures Total(states[n].counts) == |states[n].live|
  {
    if n > 0 {
      var m := n - 1;
      TotalIsLive(states, events, m);
      LeasesAreExactAndBounded(states, events, m);
      assert Next(states[m], events[m], states[m + 1]);
      NextTotal(states[m], events[m], states[n]);
    }
  }

  lemma NextTotal(s: System, event: Event, t: System)
    requires Exact(s) && Next(s, event, t) && Total(s.counts) == |s.live|
    ensures Total(t.counts) == |t.live|
  {
    hide Total, Refused;
    match event
    case Acquire(e, routeMax, keyMax) => TotalTaken(s.counts, e);
    case Release(e) => ReleaseNeverUnderflows(s, e); TakenBack(s.counts, e); TotalTaken(t.counts, e);
  }

  // ----- the object -----

  class ConnectionLimits {
    var counts: Counts

    constructor ()
      ensures counts == map[]
    {
      counts := map[];
    }

    method SumCounts(keys: set<Entry>) returns (sum: nat)
      requires keys <= counts.Keys
      ensures sum == Sum(counts, keys)
    {
      sum := 0;
      var rest := keys;
      while rest != {}
        invariant rest <= keys && sum + Sum(counts, rest) == Sum(counts, keys)
      {
        var k :| k in rest;
        SumPick(counts, rest, k);
        sum := sum + counts[k];
        rest := rest - {k};
      }
    }

    method Acquire(entry: Entry, routeMax: nat, keyMax: nat) returns (leased: bool)
      modifies this
      ensures leased <==>
        && Sum(old(counts), old(counts).Keys) < 4096
        && Sum(old(counts), set k | k in old(counts) && k.0 == entry.0) < routeMax
        && (if entry in old(counts) then old(counts)[entry] else 0) < keyMax
      ensures leased == !Refused(old(counts), entry, routeMax, keyMax)
      ensures counts == if leased then Taken(old(counts), entry) else old(counts)
    {
      var total := SumCounts(counts.Keys);
      var route := SumCounts(Named(counts, entry.0));
      if Refuses(total, route, Count(counts, entry), routeMax, keyMax) { return false; }
      counts := counts[entry := Count(counts, entry) + 1];
      return true;
    }

    /** The drop of a lease: the last one of its entry takes the entry with it. */
    method Release(entry: Entry)
      requires entry in counts ==> counts[entry] > 0
      modifies this
      ensures counts == Given(old(counts), entry)
    {
      if entry !in counts { return; }
      counts := counts[entry := counts[entry] - 1];
      if counts[entry] == 0 { counts := counts - {entry}; }
    }
  }
}
