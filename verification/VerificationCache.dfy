/**
 The cache of successful secret checks in verification_cache.rs: bounded, first in first out, with a fixed lifetime
 that hits do not extend. A proof stands for a key's identity, its stored hash and the presented secret; the keyed
 digest that the source uses for it is taken to be injective.
 */
module VerificationCache {

  datatype Proof = Proof(id: int, hash: string, secret: string)

  const CAPACITY := 1024
  const TTL: nat := 60_000_000_000  // nanoseconds

  datatype Entries = Entries(proofs: map<Proof, nat>, order: seq<Proof>)

  const EMPTY := Entries(map[], [])

  function Since(now: nat, then_: nat): nat { if now >= then_ then now - then_ else 0 }

  predicate Contains(e: Entries, p: Proof, now: nat) { p in e.proofs && Since(now, e.proofs[p]) < TTL }

  function RemoveOldest(e: Entries): Entries {
    if e.order == [] then e else Entries(e.proofs - {e.order[0]}, e.order[1..])
  }

  /** Removes the oldest proofs until there is room and the oldest left is live. */
  function Evict(e: Entries, now: nat): Entries
    decreases |e.order|
  {
    if e.order == [] || (|e.proofs| < CAPACITY && Contains(e, e.order[0], now)) then e else Evict(RemoveOldest(e), now)
  }

  function Purge(e: Entries, now: nat): Entries
    decreases |e.order|
  {
    if e.order == [] || Contains(e, e.order[0], now) then e else Purge(RemoveOldest(e), now)
  }

  function Insert(e: Entries, p: Proof, now: nat): Entries {
    if Contains(e, p, now) then e else
      var room := Evict(e, now);
      if p in room.proofs then room else Entries(room.proofs[p := now], room.order + [p])
  }

  // ----- the history of a cache -----

  datatype Insertion = Insertion(proof: Proof, at: nat)

  datatype Operation = Add(proof: Proof, now: nat) | Maintain(now: nat)

  /** The cache together with every insertion that took effect. */
  datatype History = History(entries: Entries, log: seq<Insertion>, clock: nat)

  const BEGINNING := History(EMPTY, [], 0)

  function Apply(h: History, op: Operation): History {
    match op
    case Add(p, now) =>
      History(Insert(h.entries, p, now),
              if Contains(h.entries, p, now) then h.log else h.log + [Insertion(p, now)], now)
    case Maintain(now) => History(Purge(h.entries, now), h.log, now)
  }

  function Replay(ops: seq<Operation>): History {
    if ops == [] then BEGINNING else Apply(Replay(ops[..|ops| - 1]), ops[|ops| - 1])
  }

  ghost predicate Sorted(log: seq<Insertion>) { forall i, j :: 0 <= i <= j < |log| ==> log[i].at <= log[j].at }

  ghost predicate Distinct(order: seq<Proof>) { forall i, j :: 0 <= i < j < |order| ==> order[i] != order[j] }

  /** Insertion `j` is the last one of its proof. */
  ghost predicate Latest(log: seq<Insertion>, j: nat)
    requires j < |log|
  {
    forall i :: j < i < |log| ==> log[i].proof != log[j].proof
  }

  predicate Young(log: seq<Insertion>, j: nat, now: nat)
    requires j < |log|
  {
    Since(now, log[j].at) < TTL
  }

  /** Queue and table hold exactly the insertions from `k` on, each proof once. */
  ghost predicate Tracks(e: Entries, log: seq<Insertion>, k: nat) {
    && k <= |log| && |e.order| == |log| - k
    && Distinct(e.order)
    && (forall i :: 0 <= i < |e.order| ==> e.order[i] == log[k + i].proof)
    && (forall p :: p in e.proofs <==> p in e.order)
    && (forall i :: 0 <= i < |e.order| ==> e.order[i] in e.proofs && e.proofs[e.order[i]] == log[k + i].at)
    && |e.proofs| == |e.order|
  }

  /** What was removed was too old or had too many successors, and stays so. */
  ghost predicate Gone(log: seq<Insertion>, k: nat, now: nat)
    requires k <= |log|
  {
    forall j :: 0 <= j < k ==> !Young(log, j, now) || |log| - 1 - j >= CAPACITY
  }

  ghost predicate Consistent(h: History, k: nat) {
    && Tracks(h.entries, h.log, k) && |h.entries.order| <= CAPACITY
    && Dated(h.log, h.clock)
    && Gone(h.log, k, h.clock)
  }

  lemma RemoveTracks(e: Entries, log: seq<Insertion>, k: nat)
    requires Tracks(e, log, k) && e.order != []
    ensures Tracks(RemoveOldest(e), log, k + 1)
  {
    var f := RemoveOldest(e);
    assert forall i :: 0 <= i < |f.order| ==> f.order[i] == e.order[i + 1];
    RemoveKeepsQueue(e, log, k);
    RemoveKeepsKeys(e, log, k);
    RemoveKeepsTimes(e, log, k);
  }

  lemma RemoveKeepsQueue(e: Entries, log: seq<Insertion>, k: nat)
    requires Tracks(e, log, k) && e.order != []
    ensures var f := RemoveOldest(e);
      Distinct(f.order) && forall i :: 0 <= i < |f.order| ==> f.order[i] == log[k + 1 + i].proof
  {
    var f := RemoveOldest(e);
    forall i | 0 <= i < |f.order| ensures f.order[i] == log[k + 1 + i].proof { assert f.order[i] == e.order[i + 1]; }
    forall i, j | 0 <= i < j < |f.order| ensures f.order[i] != f.order[j] {
      assert f.order[i] == e.order[i + 1] && f.order[j] == e.order[j + 1];
    }
  }

  lemma RemoveKeepsKeys(e: Entries, log: seq<Insertion>, k: nat)
    requires Tracks(e, log, k) && e.order != []
    ensures var f := RemoveOldest(e); (forall p :: p in f.proofs <==> p in f.order) && |f.proofs| == |f.order|
  {
    var f, oldest := RemoveOldest(e), e.order[0];
    assert e.order == [oldest] + f.order;
    assert f.proofs.Keys == e.proofs.Keys - {oldest};
    assert oldest !in f.order by {
      forall i | 0 <= i < |f.order| ensures f.order[i] != oldest { assert f.order[i] == e.order[i + 1]; }
    }
  }

  lemma RemoveKeepsTimes(e: Entries, log: seq<Insertion>, k: nat)
    requires Tracks(e, log, k) && e.order != []
    ensures var f := RemoveOldest(e);
      forall i :: 0 <= i < |f.order| ==> f.order[i] in f.proofs && f.proofs[f.order[i]] == log[k + 1 + i].at
  {
    var f := RemoveOldest(e);
    forall i | 0 <= i < |f.order| ensures f.order[i] in f.proofs && f.proofs[f.order[i]] == log[k + 1 + i].at {
      assert f.order[i] == e.order[i + 1] && e.order[i + 1] != e.order[0];
    }
  }

  lemma FrontAge(e: Entries, log: seq<Insertion>, k: nat, now: nat)
    requires Tracks(e, log, k) && e.order != []
    ensures k < |log| && (Contains(e, e.order[0], now) <==> Young(log, k, now))
  {
    assert e.order[0] == log[k + 0].proof;
  }

  /** Eviction before an insertion: what it removes is old, or will have 1024 successors after the insertion. */
  lemma {:induction false} EvictTracks(e: Entries, log: seq<Insertion>, k: nat, now: nat) returns (k': nat)
    requires Tracks(e, log, k)
    ensures k <= k' && Tracks(Evict(e, now), log, k')
    ensures forall j :: k <= j < k' ==> !Young(log, j, now) || |log| - j >= CAPACITY
    ensures var f := Evict(e, now); f.order != [] ==> |f.order| < CAPACITY && k' < |log| && Young(log, k', now)
    decreases |e.order|
  {
    hide Tracks, Young, Contains, RemoveOldest;
    if e.order == [] {
      k' := k;
    } else {
      FrontAge(e, log, k, now);
      TracksSize(e, log, k);
      RemovedSize(e);
      if |e.proofs| < CAPACITY && Contains(e, e.order[0], now) {
        k' := k;
      } else {
        RemoveTracks(e, log, k);
        k' := EvictTracks(RemoveOldest(e), log, k + 1, now);
      }
    }
  }

  lemma {:induction false} PurgeTracks(e: Entries, log: seq<Insertion>, k: nat, now: nat) returns (k': nat)
    requires Tracks(e, log, k)
    ensures k <= k' && Tracks(Purge(e, now), log, k')
    ensures forall j :: k <= j < k' ==> !Young(log, j, now)
    decreases |e.order|
  {
    hide Tracks, Young, Contains, RemoveOldest;
    if e.order == [] {
      k' := k;
    } else {
      FrontAge(e, log, k, now);
      TracksSize(e, log, k);
      RemovedSize(e);
      if Contains(e, e.order[0], now) {
        k' := k;
      } else {
        RemoveTracks(e, log, k);
        k' := PurgeTracks(RemoveOldest(e), log, k + 1, now);
      }
    }
  }

  lemma AgesOnly(log: seq<Insertion>, j: nat, now: nat, later: nat)
    requires j < |log| && now <= later && log[j].at <= now
    ensures Young(log, j, later) ==> Young(log, j, now)
  {
  }

  /** In a sorted log whatever follows a young insertion is young. */
  lemma YoungSuffix(log: seq<Insertion>, k: nat, j: nat, now: nat)
    requires Sorted(log) && k <= j < |log| && Young(log, k, now)
    ensures Young(log, j, now)
  {
  }

  /** After eviction the inserted proof is not there any more: it would be live, but it was not. */
  lemma EvictedIsVacant(e: Entries, log: seq<Insertion>, k: nat, p: Proof, now: nat)
    requires Tracks(e, log, k) && Sorted(log)
    requires e.order != [] ==> k < |log| && Young(log, k, now)
    requires forall i :: 0 <= i < |log| && Young(log, i, now) ==> (i >= k ==> log[i].proof != p)
    ensures p !in e.proofs
  {
    forall i | 0 <= i < |e.order| ensures e.order[i] != p {
      YoungSuffix(log, k, k + i, now);
    }
  }

  lemma NotContained(e: Entries, log: seq<Insertion>, k: nat, p: Proof, now: nat)
    requires Tracks(e, log, k) && !Contains(e, p, now)
    ensures forall i :: k <= i < |log| && Young(log, i, now) ==> log[i].proof != p
  {
    forall i | k <= i < |log| && Young(log, i, now) ensures log[i].proof != p {
      assert e.order[i - k] == log[k + (i - k)].proof;
      assert e.proofs[e.order[i - k]] == log[k + (i - k)].at;
    }
  }

  lemma PushDistinct(order: seq<Proof>, p: Proof)
    requires Distinct(order) && p !in order
    ensures Distinct(order + [p])
  {
  }

  lemma PushTracks(e: Entries, log: seq<Insertion>, k: nat, p: Proof, now: nat)
    requires Tracks(e, log, k) && p !in e.proofs
    ensures Tracks(Entries(e.proofs[p := now], e.order + [p]), log + [Insertion(p, now)], k)
  {
    hide Distinct;
    var f, log' := Entries(e.proofs[p := now], e.order + [p]), log + [Insertion(p, now)];
    assert f.proofs.Keys == e.proofs.Keys + {p};
    PushDistinct(e.order, p);
    forall i | 0 <= i < |f.order| ensures f.order[i] == log'[k + i].proof && f.order[i] in f.proofs
        && f.proofs[f.order[i]] == log'[k + i].at {
      if i < |e.order| { assert f.order[i] == e.order[i] && log'[k + i] == log[k + i]; }
    }
  }

  lemma GoneAfterAdd(log: seq<Insertion>, clock: nat, k: nat, k': nat, p: Proof, now: nat)
    requires k <= k' <= |log| && Gone(log, k, clock) && clock <= now && Dated(log, clock)
    requires forall j :: k <= j < k' ==> !Young(log, j, now) || |log| - j >= CAPACITY
    ensures Gone(log + [Insertion(p, now)], k', now)
  {
    var log' := log + [Insertion(p, now)];
    forall j | 0 <= j < k' ensures !Young(log', j, now) || |log'| - 1 - j >= CAPACITY {
      assert log'[j] == log[j];
      assert Young(log', j, now) == Young(log, j, now);
      if j < k {
        assert !Young(log, j, clock) || |log| - 1 - j >= CAPACITY;
        AgesOnly(log, j, clock, now);
      }
    }
  }

  /** Insertions are sorted and none lies in the future. */
  ghost predicate Dated(log: seq<Insertion>, clock: nat) {
    Sorted(log) && (forall i :: 0 <= i < |log| ==> log[i].at <= clock)
  }

  lemma DatedSnoc(log: seq<Insertion>, clock: nat, p: Proof, now: nat)
    requires Dated(log, clock) && clock <= now
    ensures Dated(log + [Insertion(p, now)], now) && Dated(log, now)
  {
  }

  lemma GoneLater(log: seq<Insertion>, k: nat, clock: nat, now: nat)
    requires k <= |log| && Dated(log, clock) && clock <= now && Gone(log, k, clock)
    ensures Gone(log, k, now)
  {
    hide Sorted;
    forall j | 0 <= j < k ensures !Young(log, j, now) || |log| - 1 - j >= CAPACITY {
      assert !Young(log, j, clock) || |log| - 1 - j >= CAPACITY;
      AgesOnly(log, j, clock, now);
    }
  }

  lemma AddEffective(h: History, k: nat, p: Proof, now: nat) returns (k': nat)
    requires Consistent(h, k) && h.clock <= now && !Contains(h.entries, p, now)
    ensures Consistent(Apply(h, Add(p, now)), k')
    ensures Contains(Apply(h, Add(p, now)).entries, p, now)
  {
    hide Evict, Tracks, Gone, Contains, Young, Sorted;
    NotContained(h.entries, h.log, k, p, now);
    k' := EvictTracks(h.entries, h.log, k, now);
    var room := Evict(h.entries, now);
    EvictedIsVacant(room, h.log, k', p, now);
    PushTracks(room, h.log, k', p, now);
    TracksSize(room, h.log, k');
    TracksSize(h.entries, h.log, k);
    GoneAfterAdd(h.log, h.clock, k, k', p, now);
    DatedSnoc(h.log, h.clock, p, now);
    FreshIsContained(room, p, now);
  }

  lemma AddKeeps(h: History, k: nat, p: Proof, now: nat) returns (k': nat)
    requires Consistent(h, k) && h.clock <= now
    ensures Consistent(Apply(h, Add(p, now)), k')
    ensures Contains(Apply(h, Add(p, now)).entries, p, now)
  {
    if Contains(h.entries, p, now) {
      hide Tracks, Gone, Young, Sorted, Contains;
      k' := k;
      TracksSize(h.entries, h.log, k);
      DatedSnoc(h.log, h.clock, p, now);
      GoneLater(h.log, k, h.clock, now);
    } else {
      k' := AddEffective(h, k, p, now);
    }
  }

  lemma RemovedSize(e: Entries)
    ensures e.order != [] ==> |RemoveOldest(e).order| == |e.order| - 1
  {
  }

  lemma TracksSize(e: Entries, log: seq<Insertion>, k: nat)
    requires Tracks(e, log, k)
    ensures k <= |log| && |e.order| == |log| - k == |e.proofs|
  {
  }

  lemma FreshIsContained(e: Entries, p: Proof, now: nat)
    ensures Contains(Entries(e.proofs[p := now], e.order + [p]), p, now)
  {
  }

  lemma MaintainKeeps(h: History, k: nat, now: nat) returns (k': nat)
    requires Consistent(h, k) && h.clock <= now
    ensures Consistent(Apply(h, Maintain(now)), k')
  {
    hide Tracks, Sorted, Purge;
    k' := PurgeTracks(h.entries, h.log, k, now);
    TracksSize(h.entries, h.log, k);
    TracksSize(Purge(h.entries, now), h.log, k');
    GoneLater(h.log, k, h.clock, now);
  }

  // ----- the promise, over every history with a clock that does not run backwards -----

  function TimeOf(op: Operation): nat { op.now }

  ghost predicate Chronological(ops: seq<Operation>) {
    forall i, j :: 0 <= i <= j < |ops| ==> TimeOf(ops[i]) <= TimeOf(ops[j])
  }

  lemma {:induction false} ReplayConsistent(ops: seq<Operation>) returns (k: nat)
    requires Chronological(ops)
    ensures Consistent(Replay(ops), k)
    ensures Replay(ops).clock == if ops == [] then 0 else TimeOf(ops[|ops| - 1])
  {
    if ops == [] {
      k := 0;
    } else {
      hide Consistent, Insert, Purge, Contains;
      var init, op := ops[..|ops| - 1], ops[|ops| - 1];
      k := ReplayConsistent(init);
      assert init != [] ==> init[|init| - 1] == ops[|ops| - 2];
      match op
      case Add(p, now) => k := AddKeeps(Replay(init), k, p, now);
      case Maintain(now) => k := MaintainKeeps(Replay(init), k, now);
    }
  }

  /** The last effective insertion of `p` is young and has fewer than 1024 successors. */
  ghost predicate Remembered(log: seq<Insertion>, p: Proof, now: nat) {
    exists j :: 0 <= j < |log| && log[j].proof == p && Latest(log, j) && Young(log, j, now) && |log| - 1 - j < 1024
  }

  lemma HeldIsRemembered(h: History, k: nat, p: Proof, now: nat)
    requires Consistent(h, k) && h.clock <= now && Contains(h.entries, p, now)
    ensures Remembered(h.log, p, now)
  {
    hide Gone, Dated;
    var e, log := h.entries, h.log;
    var i :| 0 <= i < |e.order| && e.order[i] == p;
    var j := k + i;
    forall m | j < m < |log| ensures log[m].proof != log[j].proof {
      assert e.order[m - k] == log[k + (m - k)].proof;
    }
    assert log[j].proof == p && Latest(log, j) && Young(log, j, now);
  }

  lemma RememberedIsHeld(h: History, k: nat, p: Proof, now: nat, j: nat)
    requires Consistent(h, k) && h.clock <= now
    requires j < |h.log| && h.log[j].proof == p && Young(h.log, j, now) && |h.log| - 1 - j < CAPACITY
    ensures Contains(h.entries, p, now)
  {
    hide Sorted;
    var e, log := h.entries, h.log;
    assert j >= k by {
      if j < k {
        assert !Young(log, j, h.clock) || |log| - 1 - j >= CAPACITY;
        AgesOnly(log, j, h.clock, now);
      }
    }
    assert e.order[j - k] == log[k + (j - k)].proof;
  }

  lemma RemembersExactly(h: History, k: nat, p: Proof, now: nat)
    requires Consistent(h, k) && h.clock <= now
    ensures Contains(h.entries, p, now) <==> Remembered(h.log, p, now)
  {
    hide Consistent, Contains, Latest, Young;
    if Contains(h.entries, p, now) { HeldIsRemembered(h, k, p, now); }
    forall j | 0 <= j < |h.log| && h.log[j].proof == p && Latest(h.log, j) && Young(h.log, j, now)
        && |h.log| - 1 - j < CAPACITY
      ensures Contains(h.entries, p, now)
    {
      RememberedIsHeld(h, k, p, now, j);
    }
  }

  /**
   At any time the cache holds exactly the proofs whose last effective insertion is under 60 s old and has fewer than
   1024 successors.
   */
  lemma HoldsExactlyTheRecent(ops: seq<Operation>, p: Proof, now: nat)
    requires Chronological(ops) && (ops != [] ==> TimeOf(ops[|ops| - 1]) <= now)
    ensures Contains(Replay(ops).entries, p, now) <==> Remembered(Replay(ops).log, p, now)
    ensures |Replay(ops).entries.proofs| == |Replay(ops).entries.order| <= 1024
  {
    hide Replay, Contains, Remembered;
    var k := ReplayConsistent(ops);
    RemembersExactly(Replay(ops), k, p, now);
  }

  // ----- the object -----

  class Cache {
    var proofs: map<Proof, nat>
    var order: seq<Proof>

    constructor ()
      ensures Now() == EMPTY
    {
      proofs, order := map[], [];
    }

    ghost function Now(): Entries
      reads this
    {
      Entries(proofs, order)
    }

    method RemoveFront()
      requires order != []
      modifies this
      ensures Now() == RemoveOldest(old(Now()))
    {
      var oldest := order[0];
      order := order[1..];
      proofs := proofs - {oldest};
    }

    function Holds(proof: Proof, now: nat): bool
      reads this
    {
      proof in proofs && Since(now, proofs[proof]) < TTL
    }

    method PurgeExpired(now: nat)
      modifies this
      ensures Now() == Purge(old(Now()), now)
    {
      while order != [] && !Holds(order[0], now)
        invariant Purge(Now(), now) == Purge(old(Now()), now)
        decreases |order|
      {
        RemoveFront();
      }
    }

    method InsertProof(proof: Proof, now: nat)
      modifies this
      ensures Now() == Insert(old(Now()), proof, now)
    {
      if Holds(proof, now) { return; }
      while order != []
        invariant Evict(Now(), now) == Evict(old(Now()), now)
        decreases |order|
      {
        if |proofs| < CAPACITY && Holds(order[0], now) { break; }
        RemoveFront();
      }
      if proof !in proofs {
        proofs := proofs[proof := now];
        order := order + [proof];
      }
    }
  }
}
