/**
 The per-source token bucket of auth_admission.rs. Idle full buckets are pruned and new sources are refused when the
 table is full; neither may change what an admitted source is allowed. Tokens and seconds are exact reals.
 */
module SourceAdmission {
  import opened Base

  const SOURCE_CAPACITY := 4096
  const SOURCE_TTL := 60.0

  // ----- sources -----

  datatype IpAddr = V4(bits: nat) | V6(bits: nat)

  const MAPPED: nat := 0xFFFF_0000_0000

  /** IPv4-mapped IPv6 addresses share the bucket of the IPv4 address; unknown peers share one bucket. */
  function Normalize(peer: Option<IpAddr>): Option<IpAddr> {
    if peer.Some? && peer.value.V6? && MAPPED <= peer.value.bits < MAPPED + 0x1_0000_0000
    then Some(V4(peer.value.bits - MAPPED)) else peer
  }

  type Source = Option<IpAddr>

  // ----- one bucket -----

  datatype Rates = Rates(rps: real, burst: real)

  ghost predicate Sensible(r: Rates) { r.rps >= 1.0 && r.burst >= 1.0 }

  datatype Bucket = Bucket(tokens: real, updated: real)

  function Since(now: real, then_: real): real { if now >= then_ then now - then_ else 0.0 }

  function MinReal(a: real, b: real): real { if a <= b then a else b }

  /** The tokens earned over a time. */
  function Earned(r: Rates, time: real): real { time * r.rps }

  /** The tokens of a bucket that was left alone until `now`. */
  function Level(r: Rates, b: Bucket, now: real): real {
    MinReal(b.tokens + Earned(r, Since(now, b.updated)), r.burst)
  }

  /** One call against a bucket at `level`: a token is taken if there is one. */
  function Spend(level: real, now: real): Bucket { Bucket(if level < 1.0 then level else level - 1.0, now) }

  // ----- the table -----

  datatype Sources = Sources(buckets: map<Source, Bucket>, lastPrune: real)

  datatype Verdict = Admitted | RateLimited | Full

  predicate Kept(r: Rates, b: Bucket, now: real) {
    var idle := Since(now, b.updated);
    idle < SOURCE_TTL || b.tokens + Earned(r, idle) < r.burst
  }

  function Pruned(r: Rates, s: Sources, now: real): Sources {
    if Since(now, s.lastPrune) >= 1.0 then
      Sources(map p | p in s.buckets && Kept(r, s.buckets[p], now) :: s.buckets[p], now)
    else s
  }

  predicate NoRoom(s: Sources, p: Source) { p !in s.buckets && |s.buckets| >= SOURCE_CAPACITY }

  function LevelIn(r: Rates, buckets: map<Source, Bucket>, p: Source, now: real): real {
    if p in buckets then Level(r, buckets[p], now) else Level(r, Bucket(r.burst, now), now)
  }

  function Judge(level: real): Verdict { if level < 1.0 then RateLimited else Admitted }

  function Check(r: Rates, s: Sources, p: Source, now: real): (Sources, Verdict) {
    var s := Pruned(r, s, now);
    if NoRoom(s, p) then (s, Full)
    else
      var level := LevelIn(r, s.buckets, p, now);
      (s.(buckets := s.buckets[p := Spend(level, now)]), Judge(level))
  }

  // ----- the limiter it must look like: a bucket per source, never pruned, no limit on their number -----

  datatype Call = Call(source: Source, now: real)

  function RefCheck(r: Rates, ref: map<Source, Bucket>, call: Call): (map<Source, Bucket>, Verdict) {
    var level := LevelIn(r, ref, call.source, call.now);
    (ref[call.source := Spend(level, call.now)], Judge(level))
  }

  /** Both limiters side by side; the reference does not see calls refused for lack of room. */
  datatype Pair = Pair(
    real_: Sources, ref: map<Source, Bucket>, clock: real, verdicts: seq<Verdict>, refVerdicts: seq<Verdict>)

  function Apply(r: Rates, x: Pair, call: Call): Pair {
    var (s, v) := Check(r, x.real_, call.source, call.now);
    if v == Full then Pair(s, x.ref, call.now, x.verdicts + [Full], x.refVerdicts + [Full])
    else
      var (ref, w) := RefCheck(r, x.ref, call);
      Pair(s, ref, call.now, x.verdicts + [v], x.refVerdicts + [w])
  }

  function Replay(r: Rates, start: real, calls: seq<Call>): Pair {
    if calls == [] then Pair(Sources(map[], start), map[], start, [], [])
    else Apply(r, Replay(r, start, calls[..|calls| - 1]), calls[|calls| - 1])
  }

  ghost predicate Chronological(start: real, calls: seq<Call>) {
    && (forall i :: 0 <= i < |calls| ==> start <= calls[i].now)
    && (forall i, j :: 0 <= i <= j < |calls| ==> calls[i].now <= calls[j].now)
  }

  // ----- what every call keeps -----

  ghost predicate BucketOk(r: Rates, b: Bucket, clock: real) { 0.0 <= b.tokens <= r.burst && b.updated <= clock }

  /** `b` is full by `clock`, and so from then on. */
  ghost predicate FullBy(r: Rates, b: Bucket, clock: real) { Level(r, b, clock) == r.burst }

  ghost predicate SourceAgrees(
    r: Rates, buckets: map<Source, Bucket>, ref: map<Source, Bucket>, clock: real, p: Source) {
    if p in buckets then p in ref && buckets[p] == ref[p]
    else p in ref ==> FullBy(r, ref[p], clock)
  }

  ghost predicate Agree(r: Rates, x: Pair) {
    && (forall p :: SourceAgrees(r, x.real_.buckets, x.ref, x.clock, p))
    && (forall p :: p in x.ref ==> BucketOk(r, x.ref[p], x.clock))
    && x.real_.lastPrune <= x.clock && |x.real_.buckets| <= SOURCE_CAPACITY
  }

  lemma EarnsNothing(r: Rates)
    ensures Earned(r, 0.0) == 0.0
  {
  }

  lemma EarnedGrows(r: Rates, t: real, u: real)
    requires Sensible(r) && 0.0 <= t <= u
    ensures 0.0 <= Earned(r, t) <= Earned(r, u)
  {
    MulMonotone(t, u, r.rps);
    MulMonotone(0.0, t, r.rps);
  }

  lemma MulMonotone(a: real, b: real, k: real)
    requires a <= b && k >= 0.0
    ensures a * k <= b * k
  {
  }

  lemma EarnedAdds(r: Rates, t: real, u: real)
    ensures Earned(r, t + u) == Earned(r, t) + Earned(r, u)
  {
  }

  lemma LevelGrows(r: Rates, b: Bucket, t: real, u: real)
    requires Sensible(r) && BucketOk(r, b, t) && t <= u
    ensures Level(r, b, t) <= Level(r, b, u) <= r.burst && 0.0 <= Level(r, b, t)
  {
    hide Earned;
    EarnedGrows(r, t - b.updated, u - b.updated);
  }

  lemma FullStays(r: Rates, b: Bucket, t: real, u: real)
    requires Sensible(r) && BucketOk(r, b, t) && FullBy(r, b, t) && t <= u
    ensures FullBy(r, b, u)
  {
    LevelGrows(r, b, t, u);
  }

  /** What pruning drops was full. */
  lemma DroppedIsFull(r: Rates, b: Bucket, now: real)
    requires !Kept(r, b, now)
    ensures FullBy(r, b, now)
  {
  }

  lemma NewIsFull(r: Rates, now: real)
    ensures Level(r, Bucket(r.burst, now), now) == r.burst
  {
    hide Earned;
    EarnsNothing(r);
  }

  lemma PrunedAgrees(r: Rates, x: Pair, now: real)
    requires Sensible(r) && Agree(r, x) && x.clock <= now
    ensures forall p :: SourceAgrees(r, Pruned(r, x.real_, now).buckets, x.ref, now, p)
    ensures |Pruned(r, x.real_, now).buckets| <= |x.real_.buckets|
    ensures Pruned(r, x.real_, now).lastPrune <= now
  {
    hide Kept, FullBy, BucketOk;
    var s := Pruned(r, x.real_, now);
    forall p ensures SourceAgrees(r, s.buckets, x.ref, now, p) {
      assert SourceAgrees(r, x.real_.buckets, x.ref, x.clock, p);
      if p in x.ref {
        assert BucketOk(r, x.ref[p], x.clock);
        if p !in x.real_.buckets { FullStays(r, x.ref[p], x.clock, now); }
        else if p !in s.buckets { DroppedIsFull(r, x.ref[p], now); }
      }
    }
    PrunedShrinks(r, x.real_, now);
  }

  lemma PrunedShrinks(r: Rates, s: Sources, now: real)
    ensures Pruned(r, s, now).buckets.Keys <= s.buckets.Keys
    ensures |Pruned(r, s, now).buckets| <= |s.buckets|
  {
    SubsetSize(Pruned(r, s, now).buckets.Keys, s.buckets.Keys);
  }

  lemma {:induction false} SubsetSize(a: set<Source>, b: set<Source>)
    requires a <= b
    ensures |a| <= |b|
  {
    assert a + (b - a) == b;
  }

  /** The two limiters see the same level, whether or not the bucket had been pruned. */
  lemma SameLevel(r: Rates, buckets: map<Source, Bucket>, ref: map<Source, Bucket>, now: real, p: Source)
    requires SourceAgrees(r, buckets, ref, now, p)
    ensures LevelIn(r, buckets, p, now) == LevelIn(r, ref, p, now)
  {
    NewIsFull(r, now);
  }

  lemma LevelInRange(r: Rates, ref: map<Source, Bucket>, clock: real, now: real, p: Source)
    requires Sensible(r) && clock <= now && (p in ref ==> BucketOk(r, ref[p], clock))
    ensures 0.0 <= LevelIn(r, ref, p, now) <= r.burst
  {
    if p in ref {
      LevelGrows(r, ref[p], clock, now);
    } else {
      NewIsFull(r, now);
    }
  }

  lemma SpendOk(r: Rates, level: real, now: real)
    requires 0.0 <= level <= r.burst
    ensures BucketOk(r, Spend(level, now), now)
  {
  }

  lemma GrowsByOne(buckets: map<Source, Bucket>, p: Source, b: Bucket)
    ensures |buckets[p := b]| <= if p in buckets then |buckets| else |buckets| + 1
  {
    assert buckets[p := b].Keys == buckets.Keys + {p};
    if p in buckets { assert buckets.Keys + {p} == buckets.Keys; }
  }

  lemma ApplyAgrees(r: Rates, x: Pair, call: Call)
    requires Sensible(r) && Agree(r, x) && x.clock <= call.now
    ensures Agree(r, Apply(r, x, call))
    ensures var y := Apply(r, x, call);
      y.verdicts[|x.verdicts|..] == y.refVerdicts[|x.refVerdicts|..]
  {
    hide Pruned, BucketOk, FullBy, Level, Spend;
    var p, now := call.source, call.now;
    var s := Pruned(r, x.real_, now);
    PrunedAgrees(r, x, now);
    RefStaysOk(r, x, now);
    if !NoRoom(s, p) {
      assert SourceAgrees(r, s.buckets, x.ref, now, p);
      SameLevel(r, s.buckets, x.ref, now, p);
      LevelInRange(r, x.ref, x.clock, now, p);
      var b := Spend(LevelIn(r, x.ref, p, now), now);
      SpendOk(r, LevelIn(r, x.ref, p, now), now);
      GrowsByOne(s.buckets, p, b);
      UpdateAgrees(r, s.buckets, x.ref, now, p, b, s.buckets[p := b], x.ref[p := b]);
    }
  }

  lemma RefStaysOk(r: Rates, x: Pair, now: real)
    requires Agree(r, x) && x.clock <= now
    ensures forall p :: p in x.ref ==> BucketOk(r, x.ref[p], now)
  {
    forall p | p in x.ref ensures BucketOk(r, x.ref[p], now) { assert BucketOk(r, x.ref[p], x.clock); }
  }

  lemma UpdateAgrees(r: Rates, buckets: map<Source, Bucket>, ref: map<Source, Bucket>, now: real, p: Source, b: Bucket,
                     buckets': map<Source, Bucket>, ref': map<Source, Bucket>)
    requires forall q :: SourceAgrees(r, buckets, ref, now, q)
    requires buckets' == buckets[p := b] && ref' == ref[p := b]
    ensures forall q :: SourceAgrees(r, buckets', ref', now, q)
  {
    hide FullBy;
    forall q ensures SourceAgrees(r, buckets', ref', now, q) {
      assert SourceAgrees(r, buckets, ref, now, q);
    }
  }

  lemma {:induction false} ReplayAgrees(r: Rates, start: real, calls: seq<Call>)
    requires Sensible(r) && Chronological(start, calls)
    ensures var x := Replay(r, start, calls);
      Agree(r, x) && x.verdicts == x.refVerdicts && |x.verdicts| == |calls|
    ensures Replay(r, start, calls).clock == if calls == [] then start else calls[|calls| - 1].now
  {
    if calls != [] {
      hide Agree, Check, RefCheck;
      var init, call := calls[..|calls| - 1], calls[|calls| - 1];
      ReplayAgrees(r, start, init);
      var x := Replay(r, start, init);
      assert init != [] ==> init[|init| - 1] == calls[|calls| - 2];
      ApplyAgrees(r, x, call);
      var y := Apply(r, x, call);
      assert y.verdicts == x.verdicts + y.verdicts[|x.verdicts|..];
      assert y.refVerdicts == x.refVerdicts + y.refVerdicts[|x.refVerdicts|..];
    }
  }

  /**
   With a clock that does not run backwards, every call that finds room is decided exactly as by a limiter with one
   independent, never pruned bucket per source, and there are never more than 4096 buckets.
   */
  lemma PruningIsInvisible(r: Rates, start: real, calls: seq<Call>)
    requires Sensible(r) && Chronological(start, calls)
    ensures Replay(r, start, calls).verdicts == Replay(r, start, calls).refVerdicts
    ensures |Replay(r, start, calls).real_.buckets| <= SOURCE_CAPACITY
  {
    hide Replay;
    ReplayAgrees(r, start, calls);
  }

  /** A call refused for lack of room is from a new source, and removes nobody but buckets that were idle and full. */
  lemma RefusalEvictsNobody(r: Rates, s: Sources, p: Source, now: real, q: Source)
    requires Check(r, s, p, now).1 == Full && q in s.buckets
    ensures p !in Check(r, s, p, now).0.buckets
    ensures q in Check(r, s, p, now).0.buckets
        || (FullBy(r, s.buckets[q], now) && Since(now, s.buckets[q].updated) >= SOURCE_TTL)
    ensures q in Check(r, s, p, now).0.buckets ==> Check(r, s, p, now).0.buckets[q] == s.buckets[q]
  {
    hide Level, LevelIn, Spend;
    if !Kept(r, s.buckets[q], now) { DroppedIsFull(r, s.buckets[q], now); }
  }

  // ----- how much a source can be admitted in a window -----

  /** The admitted calls of `p` among calls `i` to `j`. */
  function AdmittedCalls(calls: seq<Call>, verdicts: seq<Verdict>, p: Source, i: nat, j: nat): nat
    requires i <= j <= |calls| && |calls| <= |verdicts|
  {
    if i == j then 0 else
      AdmittedCalls(calls, verdicts, p, i, j - 1)
          + (if calls[j - 1].source == p && verdicts[j - 1] == Admitted then 1 else 0)
  }

  lemma {:induction false} AdmittedPrefix(
    calls: seq<Call>, more: seq<Call>, v: seq<Verdict>, w: seq<Verdict>, p: Source, i: nat, j: nat)
    requires i <= j <= |calls| && |calls| <= |v| && calls <= more && v <= w && |more| <= |w|
    ensures AdmittedCalls(calls, v, p, i, j) == AdmittedCalls(more, w, p, i, j)
  {
    if i < j { AdmittedPrefix(calls, more, v, w, p, i, j - 1); }
  }

  lemma LevelAdds(r: Rates, ref: map<Source, Bucket>, p: Source, t: real, u: real)
    requires Sensible(r) && t <= u && (p in ref ==> BucketOk(r, ref[p], t))
    ensures LevelIn(r, ref, p, u) <= LevelIn(r, ref, p, t) + Earned(r, u - t)
  {
    hide Earned, Level;
    EarnedGrows(r, 0.0, u - t);
    if p in ref {
      BucketAdds(r, ref[p], t, u);
    } else {
      NewIsFull(r, t);
      NewIsFull(r, u);
    }
  }

  lemma BucketAdds(r: Rates, b: Bucket, t: real, u: real)
    requires Sensible(r) && BucketOk(r, b, t) && t <= u
    ensures Level(r, b, u) <= Level(r, b, t) + Earned(r, u - t)
  {
    hide Earned;
    EarnedGrows(r, 0.0, u - t);
    EarnedAdds(r, t - b.updated, u - t);
    assert (t - b.updated) + (u - t) == u - b.updated;
  }

  /** Right after a call the level is what was left. */
  lemma SpentLevel(r: Rates, level: real, now: real)
    requires 0.0 <= level <= r.burst
    ensures Level(r, Spend(level, now), now) == if level < 1.0 then level else level - 1.0
  {
    hide Earned;
    EarnsNothing(r);
  }

  /** One call: what was admitted plus what is left never exceeds what there was. */
  lemma CallSpends(r: Rates, x: Pair, call: Call, p: Source)
    requires Sensible(r) && Agree(r, x) && x.clock <= call.now
    ensures var y := Apply(r, x, call); var v := y.verdicts[|x.verdicts|];
      LevelIn(r, y.ref, p, call.now) + (if call.source == p && v == Admitted then 1.0 else 0.0)
        <= LevelIn(r, x.ref, p, call.now)
  {
    hide Pruned, BucketOk, FullBy, Level, Spend, SourceAgrees;
    var s := Pruned(r, x.real_, call.now);
    PrunedAgrees(r, x, call.now);
    assert SourceAgrees(r, s.buckets, x.ref, call.now, call.source);
    SameLevel(r, s.buckets, x.ref, call.now, call.source);
    LevelInRange(r, x.ref, x.clock, call.now, call.source);
    SpentLevel(r, LevelIn(r, x.ref, call.source, call.now), call.now);
  }

  lemma Before(r: Rates, start: real, calls: seq<Call>, k: nat)
    requires Sensible(r) && Chronological(start, calls) && k < |calls|
    ensures var x := Replay(r, start, calls[..k]);
      && Agree(r, x) && x.clock <= calls[k].now && |x.verdicts| == k
      && Replay(r, start, calls[..k + 1]) == Apply(r, x, calls[k])
  {
    hide Agree, Apply;
    ReplayAgrees(r, start, calls[..k]);
    assert calls[..k + 1][..k] == calls[..k] && calls[..k + 1][k] == calls[k];
  }

  /** The admitted calls of `p` from call `i` to before call `j`, plus what `p` has left then, against what it had. */
  lemma {:induction false} WindowSpends(r: Rates, start: real, calls: seq<Call>, p: Source, i: nat, j: nat)
    requires Sensible(r) && Chronological(start, calls) && i < j <= |calls|
    ensures var x, y := Replay(r, start, calls[..i]), Replay(r, start, calls[..j]);
      && |y.verdicts| == j
      && AdmittedCalls(calls[..j], y.verdicts, p, i, j) as real + LevelIn(r, y.ref, p, calls[j - 1].now)
         <= LevelIn(r, x.ref, p, calls[i].now) + Earned(r, calls[j - 1].now - calls[i].now)
    decreases j
  {
    hide Earned, LevelIn, Agree, Apply, Replay;
    var k := j - 1;
    Before(r, start, calls, k);
    var m := Replay(r, start, calls[..k]);
    var y := Replay(r, start, calls[..j]);
    VerdictsGrow(r, m, calls[k]);
    CallSpends(r, m, calls[k], p);
    if i == k {
      EarnsNothing(r);
      assert AdmittedCalls(calls[..j], y.verdicts, p, i, k) == 0;
    } else {
      WindowSpends(r, start, calls, p, i, k);
      ClockIsLast(r, start, calls, k);
      LaterLevel(r, m, p, calls[k - 1].now, calls[k].now);
      EarnedAdds(r, calls[k - 1].now - calls[i].now, calls[k].now - calls[k - 1].now);
      assert calls[..k] <= calls[..j];
      AdmittedPrefix(calls[..k], calls[..j], m.verdicts, y.verdicts, p, i, k);
    }
  }

  lemma ClockIsLast(r: Rates, start: real, calls: seq<Call>, k: nat)
    requires Sensible(r) && Chronological(start, calls) && 0 < k <= |calls|
    ensures Replay(r, start, calls[..k]).clock == calls[k - 1].now
  {
    ReplayAgrees(r, start, calls[..k]);
  }

  lemma VerdictsGrow(r: Rates, x: Pair, call: Call)
    ensures |Apply(r, x, call).verdicts| == |x.verdicts| + 1 && x.verdicts <= Apply(r, x, call).verdicts
  {
  }

  lemma LaterLevel(r: Rates, x: Pair, p: Source, t: real, u: real)
    requires Sensible(r) && Agree(r, x) && x.clock == t <= u
    ensures LevelIn(r, x.ref, p, u) <= LevelIn(r, x.ref, p, t) + Earned(r, u - t)
  {
    hide Earned, LevelIn, BucketOk;
    LevelAdds(r, x.ref, p, t, u);
  }

  /** Whatever was pruned meanwhile, a source is admitted at most burst + rps * d times by calls within d seconds. */
  lemma WindowIsBounded(r: Rates, start: real, calls: seq<Call>, p: Source, i: nat, j: nat, d: real)
    requires Sensible(r) && Chronological(start, calls) && i < j <= |calls| && calls[j - 1].now - calls[i].now <= d
    ensures |Replay(r, start, calls[..j]).verdicts| == j
    ensures AdmittedCalls(calls[..j], Replay(r, start, calls[..j]).verdicts, p, i, j) as real <= r.burst + r.rps * d
  {
    hide LevelIn, Replay, Earned, AdmittedCalls;
    WindowSpends(r, start, calls, p, i, j);
    LevelNow(r, start, calls, p, i, i);
    LevelNow(r, start, calls, p, j, j - 1);
    EarnedWithin(r, calls[j - 1].now - calls[i].now, d);
  }

  lemma EarnedWithin(r: Rates, t: real, d: real)
    requires Sensible(r) && t <= d
    ensures Earned(r, t) <= r.rps * d
  {
    MulMonotone(t, d, r.rps);
  }

  lemma LevelNow(r: Rates, start: real, calls: seq<Call>, p: Source, k: nat, m: nat)
    requires Sensible(r) && Chronological(start, calls) && m < |calls| && k <= |calls| && k <= m + 1
    ensures 0.0 <= LevelIn(r, Replay(r, start, calls[..k]).ref, p, calls[m].now) <= r.burst
  {
    hide LevelIn, BucketOk;
    ReplayAgrees(r, start, calls[..k]);
    var x := Replay(r, start, calls[..k]);
    assert x.clock <= calls[m].now;
    LevelInRange(r, x.ref, x.clock, calls[m].now, p);
  }

  // ----- what one call decides -----

  /** Peers share a bucket exactly if they are the same, or one is the IPv6 form ::ffff:a.b.c.d of the other. */
  lemma SharedBuckets(p: Option<IpAddr>, q: Option<IpAddr>)
    requires forall ip :: (ip == p || ip == q) && ip.Some? && ip.value.V4? ==> ip.value.bits < 0x1_0000_0000
    ensures Normalize(p) == Normalize(q) <==> p == q || IsMappedForm(p, q) || IsMappedForm(q, p)
  {
  }

  predicate IsMappedForm(p: Option<IpAddr>, q: Option<IpAddr>) {
    p.Some? && q.Some? && p.value.V6? && q.value.V4? && p.value.bits == 0xFFFF_0000_0000 + q.value.bits
  }

  /** The buckets left once a second has passed since the last pruning: those that are young or not full. */
  ghost predicate LeftAfterPruning(r: Rates, s: Sources, now: real, left: map<Source, Bucket>) {
    if now - s.lastPrune >= 1.0 then
      && left.Keys <= s.buckets.Keys
      && forall p :: p in s.buckets ==>
           && (p in left <==>
                 || now - s.buckets[p].updated < 60.0
                 || s.buckets[p].tokens + (now - s.buckets[p].updated) * r.rps < r.burst)
           && (p in left ==> left[p] == s.buckets[p])
    else left == s.buckets
  }

  /** A call at tokens `have`: it is admitted exactly if there is a whole token, which it then takes. */
  ghost predicate Decided(have: real, now: real, verdict: Verdict, after: Bucket) {
    && (verdict == Admitted <==> have >= 1.0) && (verdict == RateLimited <==> have < 1.0)
    && after == Bucket(if have >= 1.0 then have - 1.0 else have, now)
  }

  /** The tokens a source has: what it had plus what it earned, at most the burst, which a new one has at once. */
  ghost predicate Has(r: Rates, left: map<Source, Bucket>, p: Source, now: real, have: real) {
    if p !in left then have == r.burst
    else
      var earned := left[p].tokens + (now - left[p].updated) * r.rps;
      have == if earned <= r.burst then earned else r.burst
  }

  /** Refused for room exactly if the source is new and 4096 buckets are left; otherwise decided by its tokens. */
  ghost predicate Outcome(
    r: Rates, left: map<Source, Bucket>, p: Source, now: real, after: map<Source, Bucket>, verdict: Verdict) {
    if p !in left && |left| >= 4096 then verdict == Full && after == left
    else
      && p in after && after.Keys == left.Keys + {p} && (forall q :: q in left && q != p ==> after[q] == left[q])
      && exists have :: Has(r, left, p, now, have) && Decided(have, now, verdict, after[p])
  }

  /** One call, by its numbers alone. */
  lemma CallDecides(r: Rates, s: Sources, p: Source, now: real)
    requires s.lastPrune <= now && forall q :: q in s.buckets ==> s.buckets[q].updated <= now
    ensures exists left :: LeftAfterPruning(r, s, now, left) &&
              Outcome(r, left, p, now, Check(r, s, p, now).0.buckets, Check(r, s, p, now).1)
  {
    hide LeftAfterPruning, Pruned, Outcome;
    var left := Pruned(r, s, now).buckets;
    LeftIsPruned(r, s, now);
    if p in left { LeftIsSame(r, s, now, p); }
    TableDecides(r, left, p, now);
  }

  lemma TableDecides(r: Rates, left: map<Source, Bucket>, p: Source, now: real)
    requires p in left ==> left[p].updated <= now
    ensures
      if p !in left && |left| >= SOURCE_CAPACITY then Outcome(r, left, p, now, left, Full)
      else
        var level := LevelIn(r, left, p, now); Outcome(r, left, p, now, left[p := Spend(level, now)], Judge(level))
  {
    hide LevelIn, Has, Decided, Judge, Spend, Outcome;
    var level := LevelIn(r, left, p, now);
    LevelIsHad(r, left, p, now);
    LevelDecides(level, now);
    if p in left || |left| < SOURCE_CAPACITY {
      RoomDecides(r, left, p, now, level, Spend(level, now), Judge(level));
    } else {
      NoRoomDecides(r, left, p, now);
    }
  }

  lemma NoRoomDecides(r: Rates, left: map<Source, Bucket>, p: Source, now: real)
    requires p !in left && |left| >= SOURCE_CAPACITY
    ensures Outcome(r, left, p, now, left, Full)
  {
  }

  lemma RoomDecides(
    r: Rates, left: map<Source, Bucket>, p: Source, now: real, have: real, b: Bucket, verdict: Verdict)
    requires (p in left || |left| < SOURCE_CAPACITY) && Has(r, left, p, now, have) && Decided(have, now, verdict, b)
    ensures Outcome(r, left, p, now, left[p := b], verdict)
  {
    hide Has, Decided;
    var after := left[p := b];
    assert after.Keys == left.Keys + {p} && after[p] == b;
  }

  lemma LevelDecides(level: real, now: real)
    ensures Decided(level, now, Judge(level), Spend(level, now))
  {
  }

  lemma LevelIsHad(r: Rates, left: map<Source, Bucket>, p: Source, now: real)
    requires p in left ==> left[p].updated <= now
    ensures Has(r, left, p, now, LevelIn(r, left, p, now))
  {
    NewIsFull(r, now);
  }

  lemma LeftIsPruned(r: Rates, s: Sources, now: real)
    requires s.lastPrune <= now && forall q :: q in s.buckets ==> s.buckets[q].updated <= now
    ensures LeftAfterPruning(r, s, now, Pruned(r, s, now).buckets)
  {
  }

  lemma LeftIsSame(r: Rates, s: Sources, now: real, p: Source)
    requires p in Pruned(r, s, now).buckets
    ensures p in s.buckets && Pruned(r, s, now).buckets[p] == s.buckets[p]
  {
  }

  // ----- how much a source is admitted at least -----

  /** A call takes a token exactly if it is admitted, and it is admitted exactly if there is one. */
  lemma CallTakes(r: Rates, x: Pair, call: Call, p: Source)
    requires Sensible(r) && Agree(r, x) && x.clock <= call.now
    ensures var y := Apply(r, x, call); var v := y.verdicts[|x.verdicts|];
      && LevelIn(r, y.ref, p, call.now) ==
           LevelIn(r, x.ref, p, call.now) - (if call.source == p && v == Admitted then 1.0 else 0.0)
      && (v != Full ==> (v == Admitted <==> LevelIn(r, x.ref, call.source, call.now) >= 1.0))
  {
    hide Pruned, BucketOk, FullBy, Level, Spend, SourceAgrees;
    var s := Pruned(r, x.real_, call.now);
    PrunedAgrees(r, x, call.now);
    assert SourceAgrees(r, s.buckets, x.ref, call.now, call.source);
    SameLevel(r, s.buckets, x.ref, call.now, call.source);
    LevelInRange(r, x.ref, x.clock, call.now, call.source);
    SpentLevel(r, LevelIn(r, x.ref, call.source, call.now), call.now);
  }

  lemma LevelKeepsGrowing(r: Rates, x: Pair, p: Source, t: real, u: real)
    requires Sensible(r) && Agree(r, x) && x.clock <= t <= u
    ensures LevelIn(r, x.ref, p, t) <= LevelIn(r, x.ref, p, u)
  {
    hide Level;
    if p in x.ref {
      assert BucketOk(r, x.ref[p], x.clock);
      LevelGrows(r, x.ref[p], t, u);
    } else {
      NewIsFull(r, t);
      NewIsFull(r, u);
    }
  }

  /** What a source has left is at least the burst less what it was admitted so far. */
  lemma {:induction false} LevelFloor(r: Rates, start: real, calls: seq<Call>, p: Source, i: nat)
    requires Sensible(r) && Chronological(start, calls) && i < |calls|
    ensures var x := Replay(r, start, calls[..i]);
      && |x.verdicts| == i
      && LevelIn(r, x.ref, p, calls[i].now) >= r.burst - AdmittedCalls(calls[..i], x.verdicts, p, 0, i) as real
  {
    hide Agree, Apply, LevelIn, Level;
    Before(r, start, calls, i);
    if i == 0 {
      StartsFull(r, start, p, calls[0].now);
      assert calls[..0] == [];
    } else {
      var k := i - 1;
      LevelFloor(r, start, calls, p, k);
      Before(r, start, calls, k);
      var x, y := Replay(r, start, calls[..k]), Replay(r, start, calls[..i]);
      hide Replay;
      VerdictsGrow(r, x, calls[k]);
      CallTakes(r, x, calls[k], p);
      ClockIsLast(r, start, calls, i);
      LevelKeepsGrowing(r, y, p, calls[k].now, calls[i].now);
      AdmittedPrefix(calls[..k], calls[..i], x.verdicts, y.verdicts, p, 0, k);
    }
  }

  lemma StartsFull(r: Rates, start: real, p: Source, now: real)
    ensures LevelIn(r, Replay(r, start, []).ref, p, now) == r.burst
  {
    NewIsFull(r, now);
  }

  /** As long as a source was admitted at most burst - 1 times, its next call that finds room is admitted. */
  lemma BurstIsGranted(r: Rates, start: real, calls: seq<Call>, i: nat)
    requires Sensible(r) && Chronological(start, calls) && i < |calls|
    ensures |Replay(r, start, calls[..i]).verdicts| == i && |Replay(r, start, calls[..i + 1]).verdicts| == i + 1
    ensures var before := Replay(r, start, calls[..i]).verdicts;
      AdmittedCalls(calls[..i], before, calls[i].source, 0, i) as real + 1.0 <= r.burst ==>
        Replay(r, start, calls[..i + 1]).verdicts[i] != RateLimited
  {
    hide Agree, Apply, LevelIn, Replay, AdmittedCalls;
    LevelFloor(r, start, calls, calls[i].source, i);
    Before(r, start, calls, i);
    var x := Replay(r, start, calls[..i]);
    VerdictsGrow(r, x, calls[i]);
    CallTakes(r, x, calls[i], calls[i].source);
  }

  /** The bucket of a source was last touched by one of its calls. */
  lemma {:induction false} TouchedByACall(r: Rates, start: real, calls: seq<Call>, i: nat, p: Source) returns (j: nat)
    requires i <= |calls| && p in Replay(r, start, calls[..i]).ref
    ensures j < i && calls[j].source == p && Replay(r, start, calls[..i]).ref[p].updated == calls[j].now
  {
    hide Check, LevelIn;
    j := i - 1;
    assert calls[..i][..j] == calls[..j] && calls[..i][j] == calls[j];
    if calls[j].source != p || Check(r, Replay(r, start, calls[..j]).real_, p, calls[j].now).1 == Full {
      j := TouchedByACall(r, start, calls, j, p);
    }
  }

  /** A source that was silent for long enough to earn a token is not rate limited. */
  lemma SilenceIsRewarded(r: Rates, start: real, calls: seq<Call>, i: nat)
    requires Sensible(r) && Chronological(start, calls) && i < |calls|
    requires forall j :: 0 <= j < i && calls[j].source == calls[i].source ==>
      (calls[i].now - calls[j].now) * r.rps >= 1.0
    ensures |Replay(r, start, calls[..i + 1]).verdicts| == i + 1
    ensures Replay(r, start, calls[..i + 1]).verdicts[i] != RateLimited
  {
    hide Apply, Replay;
    Before(r, start, calls, i);
    var x, p, now := Replay(r, start, calls[..i]), calls[i].source, calls[i].now;
    if p in x.ref {
      var j := TouchedByACall(r, start, calls, i, p);
      assert BucketOk(r, x.ref[p], x.clock);
    } else {
      NewIsFull(r, now);
    }
    assert LevelIn(r, x.ref, p, now) >= 1.0;
    hide Agree, LevelIn;
    VerdictsGrow(r, x, calls[i]);
    CallTakes(r, x, calls[i], p);
  }

  // ----- the object -----

  class RequestAdmission {
    const rates: Rates
    var buckets: map<Source, Bucket>
    var lastPrune: real

    constructor (rps: nat, burst: nat, now: real)
      requires 1 <= rps <= 1_000_000 && 1 <= burst <= 1_000_000
      ensures rates == Rates(rps as real, burst as real) && Sensible(rates) && Now() == Sources(map[], now)
    {
      rates := Rates(rps as real, burst as real);
      buckets, lastPrune := map[], now;
    }

    /** Rates outside 1 to 1,000,000 are refused. */
    static method New(rps: nat, burst: nat, now: real) returns (admission: RequestAdmission?)
      ensures admission != null <==> 1 <= rps <= 1_000_000 && 1 <= burst <= 1_000_000
      ensures admission != null ==>
        && fresh(admission) && admission.rates == Rates(rps as real, burst as real)
        && admission.Now() == Sources(map[], now)
    {
      if !(1 <= rps <= 1_000_000) || !(1 <= burst <= 1_000_000) { return null; }
      admission := new RequestAdmission(rps, burst, now);
    }

    ghost function Now(): Sources
      reads this
    {
      Sources(buckets, lastPrune)
    }

    method CheckSource(peer: Option<IpAddr>, now: real) returns (verdict: Verdict)
      modifies this
      ensures (Now(), verdict) == Check(rates, old(Now()), Normalize(peer), now)
    {
      hide Earned;
      var source := Normalize(peer);
      if Since(now, lastPrune) >= 1.0 {
        buckets := map p | p in buckets && Kept(rates, buckets[p], now) :: buckets[p];
        lastPrune := now;
      }
      if source !in buckets && |buckets| >= SOURCE_CAPACITY { return Full; }
      var bucket := if source in buckets then buckets[source] else Bucket(rates.burst, now);
      bucket := Bucket(MinReal(bucket.tokens + Earned(rates, Since(now, bucket.updated)), rates.burst), now);
      if bucket.tokens < 1.0 {
        buckets := buckets[source := bucket];
        return RateLimited;
      }
      buckets := buckets[source := bucket.(tokens := bucket.tokens - 1.0)];
      return Admitted;
    }
  }
}
