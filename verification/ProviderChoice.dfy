/** Choosing an upstream provider among candidates (provider_intelligence.rs). */
module ProviderChoice {
  import opened Base

  datatype Strategy =
    | Priority | Weighted | LeastLatency | LeastCost | HealthAware | BudgetAware | RegionAffinity | CapabilityAware

  datatype Circuit = Closed | Open | HalfOpen

  datatype Health = Healthy | Degraded | Unhealthy | Unknown

  datatype Candidate = Candidate(
    name: string, priority: int, weight: nat, enabled: bool, health: Health, circuit: Circuit, latency: Option<int>,
    cost: Option<real>, budget: Option<real>, regions: seq<string>, capabilities: seq<string>,
    cooldownUntil: Option<int>)

  datatype Request = Request(
    strategy: Strategy, region: Option<string>, required: seq<string>, cost: Option<real>, hash: Option<nat>, now: int)

  datatype Reason =
    | Disabled | CircuitOpen | IsUnhealthy | BudgetExhausted | RegionMismatch | MissingCapability(name: string)

  datatype Rejection = Rejection(provider: string, reason: Reason)

  datatype Selection = Selection(
    selected: Candidate, strategy: Strategy, considered: seq<string>, rejected: seq<Rejection>)

  // ----- weighted choice -----

  function Weight(c: Candidate): (w: nat)
    ensures w > 0
  {
    if c.weight >= 1 then c.weight else 1
  }

  function Total(cs: seq<Candidate>): (t: nat)
    ensures cs != [] ==> t > 0
  {
    if cs == [] then 0 else Total(cs[..|cs| - 1]) + Weight(cs[|cs| - 1])
  }

  /** Position `i` owns the slots from the weights before it up to, not including, the weights up to and with it. */
  ghost predicate Owns(cs: seq<Candidate>, i: nat, slot: int) {
    i < |cs| && Total(cs[..i]) <= slot < Total(cs[..i + 1])
  }

  lemma {:induction false} TotalMonotone(cs: seq<Candidate>, i: nat, j: nat)
    requires i <= j <= |cs|
    ensures Total(cs[..i]) <= Total(cs[..j])
  {
    hide Weight;
    if i < j {
      TotalMonotone(cs, i, j - 1);
      assert cs[..j][..j - 1] == cs[..j - 1];
    }
  }

  lemma OwnersDiffer(cs: seq<Candidate>, i: nat, j: nat, slot: int)
    requires Owns(cs, i, slot) && Owns(cs, j, slot)
    ensures i == j
  {
    hide Total;
    if i < j { TotalMonotone(cs, i + 1, j); }
    if j < i { TotalMonotone(cs, j + 1, i); }
  }

  /** `weighted_pick`: walks the slot down the weights; the position after the loop is never needed. */
  method WeightedPick(cs: seq<Candidate>, hash: nat) returns (i: nat)
    requires cs != []
    ensures Owns(cs, i, hash % Total(cs))
  {
    hide Weight;
    var total: nat := 0;
    for j := 0 to |cs|
      invariant total == Total(cs[..j])
    {
      assert cs[..j + 1][..j] == cs[..j];
      total := total + Weight(cs[j]);
    }
    assert cs[..|cs|] == cs;
    var slot: nat := hash % total;
    for j := 0 to |cs|
      invariant slot + Total(cs[..j]) == hash % Total(cs)
    {
      assert cs[..j + 1][..j] == cs[..j];
      if slot < Weight(cs[j]) { return j; }
      slot := slot - Weight(cs[j]);
    }
    assert false; // the fallback to the first candidate
  }

  /** How many of `n` consecutive hashes from `hash` choose position `i`. */
  ghost function Times(cs: seq<Candidate>, i: nat, hash: nat, n: nat): nat
    requires cs != []
  {
    if n == 0 then 0 else
      Times(cs, i, hash, n - 1) + (if Owns(cs, i, (hash + n - 1) % Total(cs)) then 1 else 0)
  }

  lemma {:induction false} TimesSplit(cs: seq<Candidate>, i: nat, hash: nat, m: nat, n: nat)
    requires cs != []
    ensures Times(cs, i, hash, m + n) == Times(cs, i, hash, m) + Times(cs, i, hash + m, n)
  {
    hide Owns, Total;
    if n > 0 {
      TimesSplit(cs, i, hash, m, n - 1);
      assert hash + (m + n) - 1 == hash + m + n - 1;
    }
  }

  /** Sliding the window by one drops a hash and adds the one a whole cycle later, which has the same slot. */
  lemma TimesSlide(cs: seq<Candidate>, i: nat, hash: nat)
    requires cs != []
    ensures Times(cs, i, hash + 1, Total(cs)) == Times(cs, i, hash, Total(cs))
  {
    hide Owns, Total;
    var t := Total(cs);
    TimesSplit(cs, i, hash, 1, t);
    TimesSplit(cs, i, hash, t, 1);
    TimesOne(cs, i, hash);
    TimesOne(cs, i, hash + t);
    SameSlot(hash, t);
  }

  lemma TimesOne(cs: seq<Candidate>, i: nat, hash: nat)
    requires cs != []
    ensures Times(cs, i, hash, 1) == if Owns(cs, i, hash % Total(cs)) then 1 else 0
  {
    hide Owns, Total;
    assert Times(cs, i, hash, 0) == 0;
    assert hash + 1 - 1 == hash;
  }

  lemma SameSlot(hash: nat, t: nat)
    requires t > 0
    ensures (hash + t) % t == hash % t
  {
    var q, r := hash / t, hash % t;
    assert hash + t == (q + 1) * t + r;
    Remainder(hash + t, q + 1, r, t);
  }

  lemma Remainder(n: int, q: int, r: int, t: int)
    requires 0 <= r < t && n == q * t + r
    ensures n % t == r
  {
    var d := n / t - q;
    assert d * t == n / t * t - q * t == r - n % t;
    assert d >= 1 ==> d * t >= t;
    assert d <= -1 ==> d * t <= -t;
  }

  /** Over the first `n` slots a position is chosen once for each slot it owns. */
  lemma {:induction false} TimesFromZero(cs: seq<Candidate>, i: nat, n: nat)
    requires i < |cs| && n <= Total(cs)
    ensures var low, high := Total(cs[..i]), Total(cs[..i + 1]);
            Times(cs, i, 0, n) == if n <= low then 0 else if n <= high then n - low else high - low
  {
    hide Total;
    TotalMonotone(cs, i, i + 1);
    if n > 0 {
      TimesFromZero(cs, i, n - 1);
      Remainder(n - 1, 0, n - 1, Total(cs));
    }
  }

  /** Any cycle of consecutive hashes chooses each position exactly as often as its weight says, and at least once. */
  lemma {:induction false} WeightsAreExact(cs: seq<Candidate>, i: nat, hash: nat)
    requires i < |cs|
    ensures Times(cs, i, hash, Total(cs)) == if cs[i].weight == 0 then 1 else cs[i].weight
  {
    hide Owns, Times;
    if hash == 0 {
      TimesFromZero(cs, i, Total(cs));
      assert cs[..|cs|] == cs && cs[..i + 1][..i] == cs[..i];
      TotalMonotone(cs, i, |cs|);
      TotalMonotone(cs, i + 1, |cs|);
    } else {
      WeightsAreExact(cs, i, hash - 1);
      TimesSlide(cs, i, hash - 1);
    }
  }

  // ----- who is eligible -----

  function FirstMissing(required: seq<string>, capabilities: seq<string>): (missing: Option<string>)
    ensures missing.None? <==> forall i :: 0 <= i < |required| ==> required[i] in capabilities
  {
    if required == [] then None
    else if required[0] in capabilities then FirstMissing(required[1..], capabilities)
    else Some(required[0])
  }

  /** `rejection_reason`: the first rule that the candidate breaks. */
  function RejectionReason(q: Request, c: Candidate): Option<Reason> {
    if !c.enabled then Some(Disabled)
    else if c.circuit == Open && (c.cooldownUntil.None? || c.cooldownUntil.value > q.now) then Some(CircuitOpen)
    else if c.health == Unhealthy then Some(IsUnhealthy)
    else if q.cost.Some? && c.budget.Some? && c.budget.value < q.cost.value then Some(BudgetExhausted)
    else if q.region.Some? && q.strategy == RegionAffinity && q.region.value !in c.regions then Some(RegionMismatch)
    else
      var missing := FirstMissing(q.required, c.capabilities);
      if missing.Some? then Some(MissingCapability(missing.value)) else None
  }

  predicate Eligible(q: Request, c: Candidate) { RejectionReason(q, c).None? }

  /** The candidates that were kept, in order. */
  function Kept(q: Request, cs: seq<Candidate>): seq<Candidate> {
    if cs == [] then [] else
      Kept(q, cs[..|cs| - 1]) + (if Eligible(q, cs[|cs| - 1]) then [cs[|cs| - 1]] else [])
  }

  /** The candidates that were turned away, in order. */
  function Dropped(q: Request, cs: seq<Candidate>): seq<Candidate> {
    if cs == [] then [] else
      Dropped(q, cs[..|cs| - 1]) + (if Eligible(q, cs[|cs| - 1]) then [] else [cs[|cs| - 1]])
  }

  ghost predicate Explains(q: Request, dropped: seq<Candidate>, rejected: seq<Rejection>) {
    && |rejected| == |dropped|
    && forall i :: 0 <= i < |dropped| ==>
         rejected[i].provider == dropped[i].name && RejectionReason(q, dropped[i]) == Some(rejected[i].reason)
  }

  lemma SortOne(q: Request, init: seq<Candidate>, last: Candidate)
    ensures Kept(q, init + [last]) == if Eligible(q, last) then Kept(q, init) + [last] else Kept(q, init)
    ensures Dropped(q, init + [last]) == if Eligible(q, last) then Dropped(q, init) else Dropped(q, init) + [last]
  {
    hide Eligible;
    var cs := init + [last];
    assert cs[..|cs| - 1] == init && cs[|cs| - 1] == last;
  }

  lemma SortNone(q: Request)
    ensures Kept(q, []) == [] && Dropped(q, []) == []
  {
  }

  /** Kept and dropped candidates partition the input. */
  lemma {:induction false} KeptAndDropped(q: Request, cs: seq<Candidate>)
    ensures multiset(Kept(q, cs)) + multiset(Dropped(q, cs)) == multiset(cs)
  {
    hide Eligible, Kept, Dropped;
    SortNone(q);
    if cs != [] {
      var init, last := cs[..|cs| - 1], cs[|cs| - 1];
      KeptAndDropped(q, init);
      SortOne(q, init, last);
      assert cs == init + [last];
    }
  }

  // ----- the choice -----

  function Latency(c: Candidate): int { if c.latency.None? then I64_MAX else c.latency.value }

  /** A candidate without a price counts as infinitely dear. */
  predicate Cheaper(a: Candidate, b: Candidate) { a.cost.Some? && (b.cost.Some? ==> a.cost.value < b.cost.value) }

  /** Strictly better under an ordering strategy. */
  predicate Better(s: Strategy, a: Candidate, b: Candidate)
    requires s != Weighted
  {
    if s == LeastLatency || s == HealthAware then
      Latency(a) < Latency(b) || (Latency(a) == Latency(b) && a.priority < b.priority)
    else if s == LeastCost || s == BudgetAware then
      Cheaper(a, b) || (!Cheaper(b, a) && a.priority < b.priority)
    else a.priority < b.priority
  }

  lemma BetterIsAsymmetric(s: Strategy, a: Candidate, b: Candidate)
    requires s != Weighted
    ensures !(Better(s, a, b) && Better(s, b, a))
  {
  }

  lemma BetterIsTransitive(s: Strategy, a: Candidate, b: Candidate, c: Candidate)
    requires s != Weighted && Better(s, a, b) && !Better(s, c, b)
    ensures Better(s, a, c)
  {
  }

  /** The first of the best: nobody is better and everybody before is worse. */
  ghost predicate FirstBest(s: Strategy, cs: seq<Candidate>, i: nat)
    requires s != Weighted
  {
    && i < |cs|
    && (forall j :: 0 <= j < |cs| ==> !Better(s, cs[j], cs[i]))
    && forall j :: 0 <= j < i ==> Better(s, cs[i], cs[j])
  }

  /** `min_by`, which keeps the first of equal minima. */
  method PickBest(s: Strategy, cs: seq<Candidate>) returns (i: nat)
    requires s != Weighted && cs != []
    ensures FirstBest(s, cs, i)
  {
    hide Better;
    i := 0;
    BetterIsAsymmetric(s, cs[0], cs[0]);
    for j := 1 to |cs|
      invariant i < j && !Better(s, cs[i], cs[i])
      invariant forall k :: 0 <= k < j ==> !Better(s, cs[k], cs[i])
      invariant forall k :: 0 <= k < i ==> Better(s, cs[i], cs[k])
    {
      if Better(s, cs[j], cs[i]) {
        NewBest(s, cs, i, j);
        i := j;
      }
    }
  }

  lemma NewBest(s: Strategy, cs: seq<Candidate>, i: nat, j: nat)
    requires s != Weighted && i < j < |cs| && Better(s, cs[j], cs[i])
    requires forall k :: 0 <= k < j ==> !Better(s, cs[k], cs[i])
    ensures forall k :: 0 <= k <= j ==> !Better(s, cs[k], cs[j])
    ensures forall k :: 0 <= k < j ==> Better(s, cs[j], cs[k])
  {
    hide Better;
    BetterIsAsymmetric(s, cs[j], cs[j]);
    forall k | 0 <= k < j ensures Better(s, cs[j], cs[k]) && !Better(s, cs[k], cs[j]) {
      BetterIsTransitive(s, cs[j], cs[i], cs[k]);
      BetterIsAsymmetric(s, cs[j], cs[k]);
    }
  }

  function Hash(q: Request): nat { if q.hash.Some? then q.hash.value else 0 }

  /** What a strategy promises of the position it chooses. */
  ghost predicate Chosen(q: Request, kept: seq<Candidate>, i: nat) {
    if q.strategy == Weighted then kept != [] && Owns(kept, i, Hash(q) % Total(kept))
    else FirstBest(q.strategy, kept, i)
  }

  /**
   `select_provider`: refused exactly when nobody is eligible, and otherwise the strategy's choice among the eligible.
   */
  method SelectProvider(q: Request, cs: seq<Candidate>) returns (r: Option<Selection>)
    ensures r.None? <==> forall i :: 0 <= i < |cs| ==> !Eligible(q, cs[i])
    ensures r.Some? ==> exists i: nat :: Chosen(q, Kept(q, cs), i) && r.value.selected == Kept(q, cs)[i]
    ensures r.Some? ==> r.value.selected in cs && Eligible(q, r.value.selected) && r.value.strategy == q.strategy
    ensures r.Some? ==> Explains(q, Dropped(q, cs), r.value.rejected)
    ensures r.Some? ==>
      |r.value.considered| == |cs| && forall i :: 0 <= i < |cs| ==> r.value.considered[i] == cs[i].name
  {
    hide RejectionReason, Total, Owns, FirstBest;
    var rejected: seq<Rejection> := [];
    var kept: seq<Candidate> := [];
    for i := 0 to |cs|
      invariant kept == Kept(q, cs[..i]) && Explains(q, Dropped(q, cs[..i]), rejected)
    {
      assert cs[..i + 1][..i] == cs[..i];
      var reason := RejectionReason(q, cs[i]);
      if reason.Some? {
        rejected := rejected + [Rejection(cs[i].name, reason.value)];
      } else {
        kept := kept + [cs[i]];
      }
    }
    assert cs[..|cs|] == cs;
    KeptExactly(q, cs);
    if kept == [] {
      assert forall i :: 0 <= i < |cs| ==> cs[i] in cs;
      return None;
    }
    var i: nat;
    if q.strategy == Weighted {
      i := WeightedPick(kept, Hash(q));
    } else {
      i := PickBest(q.strategy, kept);
    }
    assert Chosen(q, kept, i) && i < |kept| by { InRange(q, kept, i); }
    assert kept[i] in Kept(q, cs);
    r := Some(Selection(kept[i], q.strategy, seq(|cs|, j requires 0 <= j < |cs| => cs[j].name), rejected));
  }

  lemma InRange(q: Request, kept: seq<Candidate>, i: nat)
    requires Chosen(q, kept, i)
    ensures i < |kept|
  {
    hide Total;
  }

  /** Eligibility alone decides who is kept and who is dropped. */
  lemma {:induction false} KeptExactly(q: Request, cs: seq<Candidate>)
    ensures forall c :: c in Kept(q, cs) <==> c in cs && Eligible(q, c)
    ensures forall c :: c in Dropped(q, cs) <==> c in cs && !Eligible(q, c)
  {
    hide Eligible, Kept, Dropped;
    SortNone(q);
    if cs != [] {
      var init, last := cs[..|cs| - 1], cs[|cs| - 1];
      KeptExactly(q, init);
      SortOne(q, init, last);
      assert cs == init + [last];
    }
  }

  // ----- eligibility and choice by value -----

  /** A candidate is eligible exactly if no field of it or of the request speaks against it. */
  lemma EligibleByField(q: Request, c: Candidate)
    ensures Eligible(q, c) <==>
      && c.enabled && c.health != Unhealthy
      && (c.circuit == Open ==> c.cooldownUntil.Some? && c.cooldownUntil.value <= q.now)
      && (q.cost.Some? && c.budget.Some? ==> q.cost.value <= c.budget.value)
      && (q.strategy == RegionAffinity && q.region.Some? ==> q.region.value in c.regions)
      && forall i :: 0 <= i < |q.required| ==> q.required[i] in c.capabilities
  {
  }

  /** The reason is the first rule broken, in this order. */
  lemma ReasonByField(q: Request, c: Candidate)
    ensures RejectionReason(q, c) == Some(Disabled) <==> !c.enabled
    ensures RejectionReason(q, c) == Some(CircuitOpen) <==>
      c.enabled && c.circuit == Open && (c.cooldownUntil.None? || q.now < c.cooldownUntil.value)
    ensures RejectionReason(q, c) == Some(IsUnhealthy) ==> c.enabled && c.health == Unhealthy
    ensures RejectionReason(q, c) == Some(BudgetExhausted) ==>
      q.cost.Some? && c.budget.Some? && c.budget.value < q.cost.value
    ensures RejectionReason(q, c) == Some(RegionMismatch) ==>
      q.strategy == RegionAffinity && q.region.Some? && q.region.value !in c.regions
    ensures forall name :: RejectionReason(q, c) == Some(MissingCapability(name)) ==>
      name in q.required && name !in c.capabilities
  {
    MissingIsRequired(q.required, c.capabilities);
  }

  lemma {:induction false} MissingIsRequired(required: seq<string>, capabilities: seq<string>)
    ensures var m := FirstMissing(required, capabilities); m.Some? ==> m.value in required && m.value !in capabilities
  {
    if required != [] { MissingIsRequired(required[1..], capabilities); }
  }

  /** What a candidate is ranked by: its latency, a missing one counting as the longest of all. */
  function LatencyRank(c: Candidate): int {
    match c.latency case Some(ms) => ms case None => 0x7FFF_FFFF_FFFF_FFFF
  }

  predicate AsCheap(a: Candidate, b: Candidate) { b.cost.Some? ==> a.cost.Some? && a.cost.value <= b.cost.value }

  /**
   The chosen candidate has the least latency, cost or priority of all, the least priority among equals, and is first.
   */
  lemma BestByValue(s: Strategy, cs: seq<Candidate>, i: nat)
    requires s != Weighted && FirstBest(s, cs, i)
    ensures forall j :: 0 <= j < |cs| ==>
      if s == LeastLatency || s == HealthAware then
        NotLater(LatencyRank(cs[i]), LatencyRank(cs[j]), cs[i], cs[j], i <= j)
      else if s == LeastCost || s == BudgetAware then
        AsCheap(cs[i], cs[j]) && (AsCheap(cs[j], cs[i]) ==> NotLater(0, 0, cs[i], cs[j], i <= j))
      else NotLater(0, 0, cs[i], cs[j], i <= j)
  {
    assert forall j :: 0 <= j < |cs| ==> !Better(s, cs[j], cs[i]);
  }

  /** Ranked by a key first, by priority among equal keys, and by position among equal priorities. */
  predicate NotLater(key: int, otherKey: int, a: Candidate, b: Candidate, first: bool) {
    key < otherKey || (key == otherKey && (a.priority < b.priority || (a.priority == b.priority && first)))
  }
}
