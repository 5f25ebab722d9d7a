/** The conditions under which the store's ceilings were proved are exact: where they
    fail, some policies and costs exceed the ceiling. */
module StoreExactness {
  import opened Options
  import opened Sums
  import opened LocalLimiter
  import opened ShardedStore
  import opened StoreCeilings

  // ---- runs that differ only in policies and costs ----

  /** The same readings, the same shards and the same calls sharing a key; policies,
      the policies that other keys belong to, and costs may differ. */
  ghost predicate SameShape(p: Policies, calls: seq<Request>, q: Policies, other: seq<Request>, key: PartitionKey) {
    && |other| == |calls| && q.shardOf(key) == p.shardOf(key)
    && (forall x :: 0 <= x < |calls| ==> SameCall(p, calls[x], q, other[x], key))
    && (forall x, y :: 0 <= x < y < |calls| ==> (other[x].key == other[y].key <==> calls[x].key == calls[y].key))
  }

  ghost predicate SameCall(p: Policies, call: Request, q: Policies, other: Request, key: PartitionKey) {
    other.now == call.now && q.shardOf(other.key) == p.shardOf(call.key) && (other.key == key <==> call.key == key)
  }

  lemma {:induction false} SameSeen(p: Policies, calls: seq<Request>, q: Policies, other: seq<Request>,
                                    key: PartitionKey, shard: nat, n: nat)
    requires SameShape(p, calls, q, other, key) && n <= |calls|
    ensures |KeysIn(p, calls, shard, n)| == |KeysIn(q, other, shard, n)|
  {
    assert |other| == |calls|;
    if n == 0 {
      assert KeysIn(p, calls, shard, 0) == {} == KeysIn(q, other, shard, 0);
    } else {
      assert SameCall(p, calls[n - 1], q, other[n - 1], key);
      hide KeysIn, SameShape;
      SameSeen(p, calls, q, other, key, shard, n - 1);
      SeenStep(p, calls, shard, n - 1);
      SeenStep(q, other, shard, n - 1);
      if p.shardOf(calls[n - 1].key) == shard {
        SeenBefore(p, calls, q, other, key, shard, n - 1);
      }
    }
  }

  lemma SeenStep(p: Policies, calls: seq<Request>, shard: nat, n: nat)
    requires n < |calls|
    ensures var seen, k := KeysIn(p, calls, shard, n), calls[n].key;
            |KeysIn(p, calls, shard, n + 1)| == |seen| + if p.shardOf(k) == shard && k !in seen then 1 else 0
  {
    var seen, k := KeysIn(p, calls, shard, n), calls[n].key;
    assert KeysIn(p, calls, shard, n + 1) == seen + if p.shardOf(k) == shard then {k} else {};
    if k in seen {
      assert seen + {k} == seen;
    }
  }

  lemma SeenBefore(p: Policies, calls: seq<Request>, q: Policies, other: seq<Request>, key: PartitionKey, shard: nat,
                   n: nat)
    requires SameShape(p, calls, q, other, key) && n < |calls| && p.shardOf(calls[n].key) == shard
    ensures calls[n].key in KeysIn(p, calls, shard, n) <==> other[n].key in KeysIn(q, other, shard, n)
  {
    if calls[n].key in KeysIn(p, calls, shard, n) {
      var x :| 0 <= x < n && calls[x].key == calls[n].key;
      assert other[x].key == other[n].key && SameCall(p, calls[x], q, other[x], key);
    }
    if other[n].key in KeysIn(q, other, shard, n) {
      var x :| 0 <= x < n && other[x].key == other[n].key;
      assert calls[x].key == calls[n].key && SameCall(p, calls[x], q, other[x], key);
    }
  }

  lemma SameTouches(p: Policies, calls: seq<Request>, q: Policies, other: seq<Request>, key: PartitionKey, x: nat)
    requires SameShape(p, calls, q, other, key) && x < |calls|
    ensures calls[x].now == other[x].now && (calls[x].key == key <==> other[x].key == key)
    ensures CanSweep(p, calls, key, x) <==> CanSweep(q, other, key, x)
  {
    assert SameCall(p, calls[x], q, other[x], key);
    SameSeen(p, calls, q, other, key, p.shardOf(key), x);
  }

  lemma SameWithin(p: Policies, calls: seq<Request>, q: Policies, other: seq<Request>, key: PartitionKey, i: nat,
                   n: nat, window: real)
    requires SameShape(p, calls, q, other, key) && i <= n <= |calls| && StoreWithin(p, calls, key, i, n, window)
    ensures StoreWithin(q, other, key, i, n, window)
  {
    assert |other| == |calls|;
    hide CanSweep, SameShape;
    forall m, e | i <= m < e < n && other[m].key == key && Frees(q, other, key, e, n)
      ensures other[e].now - other[m].now < window
    {
      SameTouches(p, calls, q, other, key, m);
      SameTouches(p, calls, q, other, key, e);
      if other[e].key != key {
        var k :| e < k < n && other[k].key == key;
        SameTouches(p, calls, q, other, key, k);
      }
      assert Frees(p, calls, key, e, n);
    }
  }

  lemma SameCalm(p: Policies, calls: seq<Request>, q: Policies, other: seq<Request>, key: PartitionKey, m: nat, n: nat)
    requires SameShape(p, calls, q, other, key) && n <= |calls| && CalmFrom(p, calls, key, m, n)
    ensures CalmFrom(q, other, key, m, n)
  {
    assert |other| == |calls|;
    hide CanSweep, SameShape;
    forall x, k | m <= x < k < n && Touches(q, other, key, x) && other[k].key == key
      ensures other[x].now <= other[k].now
    {
      SameTouches(p, calls, q, other, key, x);
      SameTouches(p, calls, q, other, key, k);
    }
  }

  // ---- twins: other keys are never evicted, so every sweep that can happen does ----

  /** Other keys move to policies of their own. */
  function Renamed(key: PartitionKey, k: PartitionKey): PartitionKey {
    if k == key then key else PartitionKey(key.policy + 1 + k.policy, k.partition)
  }

  function TwinShard(p: Policies, key: PartitionKey, k: PartitionKey): nat {
    p.shardOf(if k.policy <= key.policy then k else PartitionKey(k.policy - key.policy - 1, k.partition))
  }

  /** The key gets `kind`, all others a one-hit window that outlives the run. */
  function Twin(p: Policies, key: PartitionKey, kind: Kind, window: real): Policies {
    Policies(n => if n <= key.policy then kind else Sliding(1, window), k => TwinShard(p, key, k))
  }

  function TwinCalls(calls: seq<Request>, key: PartitionKey, costs: nat -> nat): (r: seq<Request>)
    ensures |r| == |calls|
    ensures forall x :: 0 <= x < |r| ==>
              r[x] == Request(Renamed(key, calls[x].key), calls[x].now, if calls[x].key == key then costs(x) else 1)
  {
    seq(|calls|, x requires 0 <= x < |calls| =>
      Request(Renamed(key, calls[x].key), calls[x].now, if calls[x].key == key then costs(x) else 1))
  }

  lemma TwinIsSame(p: Policies, calls: seq<Request>, key: PartitionKey, kind: Kind, window: real, costs: nat -> nat)
    requires ValidPolicies(p) && ValidKind(kind) && window > 0.0
    ensures ValidPolicies(Twin(p, key, kind, window)) && Twin(p, key, kind, window).kindOf(key.policy) == kind
    ensures SameShape(p, calls, Twin(p, key, kind, window), TwinCalls(calls, key, costs), key)
  {
    var q, other := Twin(p, key, kind, window), TwinCalls(calls, key, costs);
    forall x | 0 <= x < |calls| ensures SameCall(p, calls[x], q, other[x], key) {
      var k := calls[x].key;
      if k != key {
        assert PartitionKey(Renamed(key, k).policy - key.policy - 1, k.partition) == k;
      }
    }
  }

  /** All readings lie less than `window` apart. */
  ghost predicate Outlives(calls: seq<Request>, window: real) {
    window > 0.0 && forall x, y :: 0 <= x < |calls| && 0 <= y < |calls| ==> calls[x].now - calls[y].now < window
  }

  lemma {:induction false} LongWindow(calls: seq<Request>, n: nat) returns (low: Time, high: Time)
    requires n <= |calls|
    ensures low <= high && forall x :: 0 <= x < n ==> low <= calls[x].now <= high
  {
    low, high := 0.0, 0.0;
    if n > 0 {
      low, high := LongWindow(calls, n - 1);
      low, high := MinReal(low, calls[n - 1].now), MaxReal(high, calls[n - 1].now);
    }
  }

  lemma Outliving(calls: seq<Request>) returns (window: real)
    ensures Outlives(calls, window)
  {
    var low, high := LongWindow(calls, |calls|);
    window := high - low + 1.0;
  }

  lemma OneHitStays(kind: Kind, t: Time, now: Time)
    requires ValidKind(kind) && kind.Sliding? && kind.permit == 1 && now - t < kind.window
    ensures Retains(kind, Hits([t]), now) && Decide(kind, Hits([t]), now, 1).next == Hits([t])
    ensures Decide(kind, Fresh(kind, now), now, 1).next == Hits([now])
  {
    assert [] + Repeat(now, 1) == [now];
  }

  /** The key was not used yet, or its partition holds the one hit of call `y`. */
  ghost predicate HasOneHit(q: Policies, other: seq<Request>, k: PartitionKey, n: nat, y: nat)
    requires ValidPolicies(q) && n <= |other|
  {
    var e := EntryOf(q, other, k, n);
    if e.None? then forall x :: 0 <= x < n ==> other[x].key != k else y < n && e == Some(Hits([other[y].now]))
  }

  lemma OtherStep(q: Policies, other: seq<Request>, k: PartitionKey, n: nat, y: nat) returns (z: nat)
    requires ValidPolicies(q) && n < |other| && q.kindOf(k.policy).Sliding? && q.kindOf(k.policy).permit == 1
    requires Outlives(other, q.kindOf(k.policy).window) && (other[n].key == k ==> other[n].cost == 1)
    requires HasOneHit(q, other, k, n, y)
    ensures HasOneHit(q, other, k, n + 1, z)
  {
    var kind, now, e := q.kindOf(k.policy), other[n].now, EntryOf(q, other, k, n);
    z := if e.Some? then y else n;
    assert now - other[z].now < kind.window && ValidKind(kind);
    hide EntryOf, SweptEntry, CanSweep, ShardedVerdict, Decide, Retains, Outlives, ValidPolicies;
    EntryStep(q, other, k, n);
    SweepTakes(q, other, k, n);
    OneHitStays(kind, other[z].now, now);
  }

  /** A key with a one-hit window that outlives the run is never evicted. */
  lemma {:induction false} OtherStays(q: Policies, other: seq<Request>, k: PartitionKey, n: nat) returns (y: nat)
    requires ValidPolicies(q) && n <= |other| && q.kindOf(k.policy).Sliding? && q.kindOf(k.policy).permit == 1
    requires Outlives(other, q.kindOf(k.policy).window)
    requires forall x :: 0 <= x < |other| && other[x].key == k ==> other[x].cost == 1
    ensures HasOneHit(q, other, k, n, y)
  {
    y := 0;
    if n == 0 {
      NothingYet(q, other, k);
    } else {
      hide HasOneHit, ValidPolicies, Outlives;
      y := OtherStays(q, other, k, n - 1);
      y := OtherStep(q, other, k, n - 1, y);
    }
  }

  /** The run with a twin's policies, in which `key` is the only key that may be evicted. */
  ghost predicate IsTwin(q: Policies, other: seq<Request>, key: PartitionKey, window: real) {
    && ValidPolicies(q) && Outlives(other, window)
    && forall x :: 0 <= x < |other| && other[x].key != key ==>
         q.kindOf(other[x].key.policy) == Sliding(1, window) && other[x].cost == 1
  }

  lemma TwinsAre(p: Policies, calls: seq<Request>, key: PartitionKey, kind: Kind, window: real, costs: nat -> nat)
    requires ValidPolicies(p) && ValidKind(kind) && Outlives(calls, window)
    ensures IsTwin(Twin(p, key, kind, window), TwinCalls(calls, key, costs), key, window)
  {
    TwinIsSame(p, calls, key, kind, window, costs);
  }

  /** In such a run a sweep that can happen does. */
  lemma SweepHappens(q: Policies, other: seq<Request>, key: PartitionKey, window: real, s: nat)
    requires IsTwin(q, other, key, window) && s < |other| && CanSweep(q, other, key, s)
    requires var e := EntryOf(q, other, key, s); e.Some? ==> !Retains(q.kindOf(key.policy), e.value, other[s].now)
    ensures SweptEntry(q, other, key, s) == None
  {
    hide Retains, ShardsAfter;
    var shard := q.shardOf(key);
    var store, seen := ShardsAfter(q, other[..s])[shard], KeysIn(q, other, shard, s);
    if key in store {
      forall k | k in seen ensures k in store {
        if k != key {
          var x :| 0 <= x < s && other[x].key == k;
          var y := OtherStays(q, other, k, s);
        }
      }
      SubsetSize(seen, store.Keys);
    }
  }

  // ---- admitted calls add up ----

  ghost predicate Takes(q: Policies, other: seq<Request>, key: PartitionKey, x: nat, units: nat)
    requires ValidPolicies(q) && x < |other|
  {
    other[x].key == key && ShardedVerdict(q, other, x).Allowed? && UnitsOf(other[x].cost) == units
  }

  lemma {:induction false} TakesOne(q: Policies, other: seq<Request>, key: PartitionKey, i: nat, n: nat, m: nat,
                                    units: nat)
    requires ValidPolicies(q) && i <= m < n <= |other| && Takes(q, other, key, m, units)
    ensures StoreAdmitted(q, other, key, i, n) >= units
  {
    hide ShardedVerdict;
    if m < n - 1 {
      TakesOne(q, other, key, i, n - 1, m, units);
    }
  }

  lemma {:induction false} TakesBoth(q: Policies, other: seq<Request>, key: PartitionKey, i: nat, n: nat, m: nat,
                                     k: nat, units: nat)
    requires ValidPolicies(q) && i <= m < k < n <= |other| && Takes(q, other, key, m, units)
    requires Takes(q, other, key, k, units)
    ensures StoreAdmitted(q, other, key, i, n) >= 2 * units
  {
    hide ShardedVerdict;
    if k < n - 1 {
      TakesBoth(q, other, key, i, n - 1, m, k, units);
    } else {
      TakesOne(q, other, key, i, k, m, units);
    }
  }

  // ---- two full permits in one window ----

  /** The key's window after the first `n` calls; a missing one is empty. */
  ghost function WindowAt(q: Policies, other: seq<Request>, key: PartitionKey, n: nat): PartitionState
    requires ValidPolicies(q) && n <= |other|
  {
    OrFresh(EntryOf(q, other, key, n), q.kindOf(key.policy), 0.0)
  }

  lemma SweptBurst(q: Policies, other: seq<Request>, key: PartitionKey, n: nat, t: Time)
    requires ValidPolicies(q) && n < |other| && q.kindOf(key.policy).Sliding?
    requires OneBurst(WindowAt(q, other, key, n), t, q.kindOf(key.policy).permit)
    ensures var st := OrFresh(SweptEntry(q, other, key, n), q.kindOf(key.policy), other[n].now);
            && OneBurst(st, t, q.kindOf(key.policy).permit)
            && (WindowAt(q, other, key, n) == Hits([]) ==> st == Hits([]))
  {
    hide EntryOf, SweptEntry, CanSweep, Retains, Repeat;
    SweepTakes(q, other, key, n);
  }

  /** A call of another key, or one that asks for too much, can only clear a burst. */
  lemma QuietStep(q: Policies, other: seq<Request>, key: PartitionKey, n: nat, t: Time)
    requires ValidPolicies(q) && n < |other| && q.kindOf(key.policy).Sliding?
    requires other[n].key == key ==> other[n].cost == q.kindOf(key.policy).permit + 1
    requires OneBurst(WindowAt(q, other, key, n), t, q.kindOf(key.policy).permit)
    ensures OneBurst(WindowAt(q, other, key, n + 1), t, q.kindOf(key.policy).permit)
    ensures WindowAt(q, other, key, n) == Hits([]) ==> WindowAt(q, other, key, n + 1) == Hits([])
  {
    hide EntryOf, SweptEntry, Decide, ShardedVerdict, Repeat;
    var kind := q.kindOf(key.policy);
    SweptBurst(q, other, key, n, t);
    EntryStep(q, other, key, n);
    BarredKeeps(kind, OrFresh(SweptEntry(q, other, key, n), kind, other[n].now), t, other[n].now);
  }

  /** Calls `m` and `k` ask for the whole permit, all others of the key for too much. */
  ghost predicate TwoBursts(q: Policies, other: seq<Request>, key: PartitionKey, m: nat, k: nat)
    requires m < k < |other|
  {
    && ValidPolicies(q) && q.kindOf(key.policy).Sliding? && other[m].key == key == other[k].key
    && forall x :: 0 <= x < |other| && other[x].key == key ==>
         other[x].cost == if x == m || x == k then q.kindOf(key.policy).permit else q.kindOf(key.policy).permit + 1
  }

  /** The first of them is admitted, and what it left may have been cleared by `k`. */
  lemma {:induction false} BurstRun(q: Policies, other: seq<Request>, key: PartitionKey, m: nat, k: nat, n: nat)
    requires m < k < |other| && TwoBursts(q, other, key, m, k) && n <= k
    ensures OneBurst(WindowAt(q, other, key, n), other[m].now, q.kindOf(key.policy).permit)
    ensures n <= m ==> WindowAt(q, other, key, n) == Hits([])
    ensures n == m + 1 ==> Takes(q, other, key, m, q.kindOf(key.policy).permit)
  {
    if n == 0 {
      NothingYet(q, other, key);
    } else {
      hide EntryOf, SweptEntry, Decide, ShardedVerdict, Repeat;
      BurstRun(q, other, key, m, k, n - 1);
      if n - 1 == m {
        SweptBurst(q, other, key, m, other[m].now);
        EntryStep(q, other, key, m);
        BurstOpens(q.kindOf(key.policy), other[m].now);
      } else {
        QuietStep(q, other, key, n - 1, other[m].now);
      }
    }
  }

  lemma {:induction false} ClearStays(q: Policies, other: seq<Request>, key: PartitionKey, m: nat, k: nat, e: nat,
                                      n: nat)
    requires m < k < |other| && TwoBursts(q, other, key, m, k) && m < e <= n <= k
    requires WindowAt(q, other, key, e) == Hits([])
    ensures WindowAt(q, other, key, n) == Hits([])
  {
    if e < n {
      hide WindowAt, Repeat;
      ClearStays(q, other, key, m, k, e, n - 1);
      QuietStep(q, other, key, n - 1, 0.0);
    }
  }

  /** A sweep a window after the burst clears it. */
  lemma SweepClears(q: Policies, other: seq<Request>, key: PartitionKey, window: real, m: nat, k: nat, e: nat)
    requires m < e < k < |other| && TwoBursts(q, other, key, m, k) && IsTwin(q, other, key, window)
    requires other[e].key != key && CanSweep(q, other, key, e)
    requires other[e].now - other[m].now >= q.kindOf(key.policy).window
    ensures WindowAt(q, other, key, e + 1) == Hits([])
  {
    hide EntryOf, SweptEntry, CanSweep, Decide, ShardedVerdict;
    BurstRun(q, other, key, m, k, e);
    SweepHappens(q, other, key, window, e);
    EntryStep(q, other, key, e);
  }

  lemma SecondBurst(q: Policies, other: seq<Request>, key: PartitionKey, window: real, m: nat, k: nat, e: nat)
    requires m < e <= k < |other| && TwoBursts(q, other, key, m, k) && IsTwin(q, other, key, window)
    requires e == k || (other[e].key != key && CanSweep(q, other, key, e))
    requires other[e].now - other[m].now >= q.kindOf(key.policy).window
    ensures Takes(q, other, key, k, q.kindOf(key.policy).permit)
  {
    hide EntryOf, SweptEntry, CanSweep, Decide, ShardedVerdict, Repeat, WindowAt;
    var kind, now := q.kindOf(key.policy), other[k].now;
    BurstRun(q, other, key, m, k, k);
    SweptBurst(q, other, key, k, other[m].now);
    EntryStep(q, other, key, k);
    if e == k {
      BurstExpires(kind, OrFresh(SweptEntry(q, other, key, k), kind, now), other[m].now, now);
    } else {
      SweepClears(q, other, key, window, m, k, e);
      ClearStays(q, other, key, m, k, e + 1, k);
      BurstOpens(kind, now);
    }
  }

  /** A run of the same shape in which two full permits are admitted. */
  lemma DoubleWindow(p: Policies, calls: seq<Request>, key: PartitionKey, i: nat, n: nat, m: nat, k: nat, e: nat)
    returns (q: Policies, other: seq<Request>)
    requires ValidPolicies(p) && p.kindOf(key.policy).Sliding? && i <= m < e <= k < n <= |calls|
    requires calls[m].key == key == calls[k].key && (e == k || (calls[e].key != key && CanSweep(p, calls, key, e)))
    requires calls[e].now - calls[m].now >= p.kindOf(key.policy).window
    ensures ValidPolicies(q) && SameShape(p, calls, q, other, key) && q.kindOf(key.policy) == p.kindOf(key.policy)
    ensures StoreAdmitted(q, other, key, i, n) >= 2 * p.kindOf(key.policy).permit
  {
    var kind := p.kindOf(key.policy);
    var costs := (x: nat) => if x == m || x == k then kind.permit else kind.permit + 1;
    var window := Outliving(calls);
    q, other := Twin(p, key, kind, window), TwinCalls(calls, key, costs);
    TwinIsSame(p, calls, key, kind, window, costs);
    TwinsAre(p, calls, key, kind, window, costs);
    assert TwoBursts(q, other, key, m, k);
    hide Twin, TwinCalls, CanSweep, SameShape, ShardedVerdict, StoreAdmitted, IsTwin, TwoBursts;
    SameTouches(p, calls, q, other, key, e);
    SameTouches(p, calls, q, other, key, m);
    BurstRun(q, other, key, m, k, m + 1);
    SecondBurst(q, other, key, window, m, k, e);
    TakesBoth(q, other, key, i, n, m, k, kind.permit);
  }

  /** For given readings, shards and keys: over a span the store admits at most
      `permit` units, whatever is charged and whatever the other policies are, if and
      only if no call that can free slots for a later one reads a window or more after
      an earlier call for the key. */
  lemma SlidingStoreIff(p: Policies, calls: seq<Request>, key: PartitionKey, i: nat, n: nat)
    requires ValidPolicies(p) && p.kindOf(key.policy).Sliding? && i <= n <= |calls|
    ensures (forall q, other ::
               && ValidPolicies(q) && SameShape(p, calls, q, other, key)
               && q.kindOf(key.policy) == p.kindOf(key.policy) ==>
                 StoreAdmitted(q, other, key, i, n) <= p.kindOf(key.policy).permit) <==>
            StoreWithin(p, calls, key, i, n, p.kindOf(key.policy).window)
  {
    hide CanSweep, StoreAdmitted;
    var kind := p.kindOf(key.policy);
    if StoreWithin(p, calls, key, i, n, kind.window) {
      forall q, other |
        ValidPolicies(q) && SameShape(p, calls, q, other, key) && q.kindOf(key.policy) == p.kindOf(key.policy)
        ensures StoreAdmitted(q, other, key, i, n) <= kind.permit
      {
        SameWithin(p, calls, q, other, key, i, n, kind.window);
        RunSlidingCeiling(q, other, key, i, n);
      }
    } else {
      var m, e :| i <= m < e < n && calls[m].key == key && Frees(p, calls, key, e, n)
                  && calls[e].now - calls[m].now >= kind.window;
      var k := e;
      if calls[e].key != key {
        k :| e < k < n && calls[k].key == key;
      }
      var q, other := DoubleWindow(p, calls, key, i, n, m, k, e);
    }
  }

  // ---- an overdrawn bucket ----

  ghost predicate FullOrNone(e: Option<PartitionState>, capacity: nat) {
    e.Some? ==> e.value.Tokens? && e.value.tokens == capacity as real
  }

  /** Calls before `m` ask for more than the bucket holds, call `m` for all of it. */
  ghost predicate DrainsAt(q: Policies, other: seq<Request>, key: PartitionKey, m: nat, capacity: nat, refill: real)
    requires m < |other|
  {
    && ValidPolicies(q) && q.kindOf(key.policy) == Bucket(capacity as real, refill) && other[m].key == key
    && forall x :: 0 <= x <= m && other[x].key == key ==> other[x].cost == if x == m then capacity else capacity + 1
  }

  lemma FullStep(q: Policies, other: seq<Request>, key: PartitionKey, n: nat, capacity: nat, refill: real)
    requires ValidPolicies(q) && q.kindOf(key.policy) == Bucket(capacity as real, refill) && n < |other|
    requires other[n].key == key ==> other[n].cost == capacity + 1
    requires FullOrNone(EntryOf(q, other, key, n), capacity)
    ensures FullOrNone(EntryOf(q, other, key, n + 1), capacity)
  {
    assert ValidKind(q.kindOf(key.policy));
    hide EntryOf, SweptEntry, CanSweep, DecideBucket, ShardedVerdict, Retains, ValidPolicies;
    SweepTakes(q, other, key, n);
    EntryStep(q, other, key, n);
    var st := OrFresh(SweptEntry(q, other, key, n), q.kindOf(key.policy), other[n].now);
    FullStays(capacity, refill, st.last, other[n].now);
  }

  lemma {:induction false} StaysFull(q: Policies, other: seq<Request>, key: PartitionKey, m: nat, capacity: nat,
                                     refill: real, n: nat)
    requires m < |other| && n <= m && DrainsAt(q, other, key, m, capacity, refill)
    ensures FullOrNone(EntryOf(q, other, key, n), capacity)
  {
    if n == 0 {
      NothingYet(q, other, key);
    } else {
      hide EntryOf, FullOrNone, ValidPolicies;
      StaysFull(q, other, key, m, capacity, refill, n - 1);
      FullStep(q, other, key, n - 1, capacity, refill);
    }
  }

  /** A call for all of a full or missing bucket is admitted and empties it. */
  lemma TakesAll(q: Policies, other: seq<Request>, key: PartitionKey, n: nat, capacity: nat, refill: real)
    requires ValidPolicies(q) && q.kindOf(key.policy) == Bucket(capacity as real, refill) && n < |other|
    requires other[n].key == key && other[n].cost == capacity && FullOrNone(EntryOf(q, other, key, n), capacity)
    ensures Takes(q, other, key, n, capacity) && EntryOf(q, other, key, n + 1) == Some(Tokens(0.0, other[n].now))
  {
    hide EntryOf, SweptEntry, CanSweep, DecideBucket, ShardedVerdict, Retains;
    assert capacity >= 1;
    SweepTakes(q, other, key, n);
    EntryStep(q, other, key, n);
    var st := OrFresh(SweptEntry(q, other, key, n), q.kindOf(key.policy), other[n].now);
    FullStays(capacity, refill, st.last, other[n].now);
  }

  /** Without a call for the key its partition stays as it is or is evicted. */
  lemma {:induction false} LeftAlone(q: Policies, other: seq<Request>, key: PartitionKey, own: nat, n: nat)
    requires ValidPolicies(q) && own < n <= |other| && NoOwnAfter(other, key, own, n)
    ensures EntryOf(q, other, key, n).None? || EntryOf(q, other, key, n) == EntryOf(q, other, key, own + 1)
  {
    if own + 1 < n {
      hide EntryOf, SweptEntry, OwnDecision, CanSweep, Decide, ShardedVerdict, Retains, ValidPolicies;
      LeftAlone(q, other, key, own, n - 1);
      SweepTakes(q, other, key, n - 1);
      EntryStep(q, other, key, n - 1);
    }
  }

  /** Two readings out of order break the promise of a bucket of one token. */
  lemma OverdrawnBackwards(p: Policies, calls: seq<Request>, key: PartitionKey, m: nat, k: nat)
    returns (q: Policies, other: seq<Request>)
    requires ValidPolicies(p) && m < k < |calls| && calls[m].key == key == calls[k].key && calls[k].now < calls[m].now
    ensures ValidPolicies(q) && SameShape(p, calls, q, other, key) && q.kindOf(key.policy).Bucket?
    ensures !SpanKept(q, other, key, m, k)
  {
    var kind, costs := Bucket(1.0, 1.0), (x: nat) => if x < m then 2 else 1;
    var window := Outliving(calls);
    q, other := Twin(p, key, kind, window), TwinCalls(calls, key, costs);
    TwinIsSame(p, calls, key, kind, window, costs);
    assert DrainsAt(q, other, key, m, 1, 1.0);
    hide Twin, TwinCalls, EntryOf, ShardedVerdict, StoreAdmitted;
    StaysFull(q, other, key, m, 1, 1.0, m);
    TakesAll(q, other, key, m, 1, 1.0);
    TakesOne(q, other, key, m, k + 1, m, 1);
  }

  /** A rate and a capacity for which a bucket emptied at `past` is full at `swept`,
      but has less than its capacity refilled at `now`. */
  lemma FullOnlyWhenSwept(past: Time, now: Time, swept: Time) returns (capacity: nat, refill: real)
    requires past <= now < swept
    ensures capacity >= 1 && refill > 0.0
    ensures !Retains(Bucket(capacity as real, refill), Tokens(0.0, past), swept)
    ensures Allowance(capacity as real, refill, now - past) < 2.0 * capacity as real
  {
    refill := 1.0 / (swept - now);
    var gained := refill * (now - past);
    assert refill * (swept - now) == 1.0;
    assert (swept - past) * refill == gained + refill * (swept - now);
    assert gained >= 0.0;
    capacity := gained.Floor + 1;
  }

  lemma SweptAway(q: Policies, other: seq<Request>, key: PartitionKey, window: real, m: nat, x: nat, k: nat)
    requires IsTwin(q, other, key, window) && m < x < k < |other| && NoOwnAfter(other, key, m, k)
    requires CanSweep(q, other, key, x)
    requires var e := EntryOf(q, other, key, m + 1); e.Some? ==> !Retains(q.kindOf(key.policy), e.value, other[x].now)
    ensures EntryOf(q, other, key, k).None?
  {
    hide EntryOf, SweptEntry, CanSweep, Retains, Decide, ShardedVerdict;
    LeftAlone(q, other, key, m, x);
    SweepHappens(q, other, key, window, x);
    EntryStep(q, other, key, x);
    LeftAlone(q, other, key, x, k);
  }

  /** A bucket drained at `m`, swept full and drained again at `k`. */
  lemma DrainedTwice(q: Policies, other: seq<Request>, key: PartitionKey, window: real, m: nat, x: nat, k: nat,
                     capacity: nat, refill: real)
    requires m < x < k < |other| && IsTwin(q, other, key, window) && DrainsAt(q, other, key, m, capacity, refill)
    requires NoOwnAfter(other, key, m, k) && CanSweep(q, other, key, x) && other[k].key == key
    requires other[k].cost == capacity
    requires !Retains(Bucket(capacity as real, refill), Tokens(0.0, other[m].now), other[x].now)
    ensures StoreAdmitted(q, other, key, m, k + 1) >= 2 * capacity
  {
    hide EntryOf, ShardedVerdict, StoreAdmitted, CanSweep, Retains, IsTwin;
    StaysFull(q, other, key, m, capacity, refill, m);
    TakesAll(q, other, key, m, capacity, refill);
    SweptAway(q, other, key, window, m, x, k);
    TakesAll(q, other, key, k, capacity, refill);
    TakesBoth(q, other, key, m, k + 1, m, k, capacity);
  }

  /** A sweep that reads later than the next call for the key does, too. */
  lemma OverdrawnBySweep(p: Policies, calls: seq<Request>, key: PartitionKey, m: nat, x: nat, k: nat)
    returns (q: Policies, other: seq<Request>)
    requires ValidPolicies(p) && m < x < k < |calls| && calls[m].key == key == calls[k].key
    requires NoOwnAfter(calls, key, m, k) && CanSweep(p, calls, key, x)
    requires calls[m].now <= calls[k].now < calls[x].now
    ensures ValidPolicies(q) && SameShape(p, calls, q, other, key) && q.kindOf(key.policy).Bucket?
    ensures !SpanKept(q, other, key, m, k)
  {
    hide StoreAdmitted, CanSweep, Retains, Allowance, SameShape, IsTwin, Twin;
    var capacity, refill := FullOnlyWhenSwept(calls[m].now, calls[k].now, calls[x].now);
    var kind, costs := Bucket(capacity as real, refill), (y: nat) => if y < m then capacity + 1 else capacity;
    var window := Outliving(calls);
    q, other := Twin(p, key, kind, window), TwinCalls(calls, key, costs);
    TwinIsSame(p, calls, key, kind, window, costs);
    TwinsAre(p, calls, key, kind, window, costs);
    SameTouches(p, calls, q, other, key, x);
    DrainedTwice(q, other, key, window, m, x, k, capacity, refill);
  }

  /** Every span between two calls for the key keeps the bucket's promise. */
  ghost predicate BucketKept(q: Policies, other: seq<Request>, key: PartitionKey, a: nat, n: nat)
    requires ValidPolicies(q) && q.kindOf(key.policy).Bucket? && n <= |other|
  {
    forall i, j :: a <= i <= j < n && other[i].key == key == other[j].key ==> SpanKept(q, other, key, i, j)
  }

  /** The key's own readings are in order, and no call between two of them that can
      sweep reads later than the second. */
  ghost predicate Calm(p: Policies, calls: seq<Request>, key: PartitionKey, a: nat, n: nat)
    requires n <= |calls|
  {
    forall m :: a <= m < n && calls[m].key == key ==> CalmFrom(p, calls, key, m, n)
  }

  lemma {:induction false} LastBefore(calls: seq<Request>, key: PartitionKey, m: nat, x: nat) returns (own: nat)
    requires m < x <= |calls| && calls[m].key == key
    ensures m <= own < x && calls[own].key == key && NoOwnAfter(calls, key, own, x)
  {
    if calls[x - 1].key == key {
      own := x - 1;
    } else {
      own := LastBefore(calls, key, m, x - 1);
    }
  }

  lemma {:induction false} FirstAfter(calls: seq<Request>, key: PartitionKey, x: nat, k: nat) returns (own: nat)
    requires x < k < |calls| && calls[k].key == key
    ensures x < own <= k && calls[own].key == key && NoOwnAfter(calls, key, x, own)
    decreases k - x
  {
    if calls[x + 1].key == key {
      own := x + 1;
    } else {
      own := FirstAfter(calls, key, x + 1, k);
    }
  }

  /** A run of the same shape that breaks some span's promise. */
  lemma Overdrawn(p: Policies, calls: seq<Request>, key: PartitionKey, m: nat, x: nat, k: nat)
    returns (q: Policies, other: seq<Request>, i: nat, j: nat)
    requires ValidPolicies(p) && m <= x < k < |calls| && calls[m].key == key == calls[k].key
    requires Touches(p, calls, key, x) && calls[k].now < calls[x].now
    ensures m <= i < j <= k && calls[i].key == key == calls[j].key
    ensures ValidPolicies(q) && SameShape(p, calls, q, other, key) && q.kindOf(key.policy).Bucket?
    ensures !SpanKept(q, other, key, i, j)
  {
    hide CanSweep, SpanKept, SameShape;
    if calls[x].key == key {
      i, j := x, k;
      q, other := OverdrawnBackwards(p, calls, key, i, j);
    } else {
      i := LastBefore(calls, key, m, x);
      j := FirstAfter(calls, key, x, k);
      if calls[j].now < calls[i].now {
        q, other := OverdrawnBackwards(p, calls, key, i, j);
      } else if calls[j].now < calls[x].now {
        q, other := OverdrawnBySweep(p, calls, key, i, x, j);
      } else {
        i, j := j, k;
        q, other := OverdrawnBackwards(p, calls, key, i, j);
      }
    }
  }

  /** For given readings, shards and keys: every bucket keeps its promise over every
      span, whatever is charged and whatever the other policies are, if and only if the
      calls are calm. */
  lemma BucketStoreIff(p: Policies, calls: seq<Request>, key: PartitionKey, a: nat, n: nat)
    requires ValidPolicies(p) && n <= |calls|
    ensures (forall q, other ::
               ValidPolicies(q) && SameShape(p, calls, q, other, key) && q.kindOf(key.policy).Bucket? ==>
                 BucketKept(q, other, key, a, n)) <==>
            Calm(p, calls, key, a, n)
  {
    hide CanSweep, SpanKept;
    if Calm(p, calls, key, a, n) {
      forall q, other | ValidPolicies(q) && SameShape(p, calls, q, other, key) && q.kindOf(key.policy).Bucket?
        ensures BucketKept(q, other, key, a, n)
      {
        CalmIsKept(p, calls, q, other, key, a, n);
      }
    } else {
      var m :| a <= m < n && calls[m].key == key && !CalmFrom(p, calls, key, m, n);
      var x, k :| m <= x < k < n && Touches(p, calls, key, x) && calls[k].key == key && calls[k].now < calls[x].now;
      var q, other, i, j := Overdrawn(p, calls, key, m, x, k);
      SameTouches(p, calls, q, other, key, i);
      SameTouches(p, calls, q, other, key, j);
    }
  }

  lemma CalmIsKept(p: Policies, calls: seq<Request>, q: Policies, other: seq<Request>, key: PartitionKey, a: nat,
                   n: nat)
    requires ValidPolicies(q) && SameShape(p, calls, q, other, key) && q.kindOf(key.policy).Bucket?
    requires n <= |calls| && Calm(p, calls, key, a, n)
    ensures BucketKept(q, other, key, a, n)
  {
    assert |other| == |calls|;
    hide CanSweep, SpanKept, SameShape;
    forall i, j | a <= i <= j < n && other[i].key == key == other[j].key ensures SpanKept(q, other, key, i, j) {
      SameTouches(p, calls, q, other, key, i);
      assert CalmFrom(p, calls, key, i, j + 1);
      SameCalm(p, calls, q, other, key, i, j + 1);
      RunBucketCeiling(q, other, key, i, j);
    }
  }

  // ---- one such run ----

  function CrowdKey(x: nat): PartitionKey { PartitionKey(0, seq(x, _ => 'x')) }

  /** Enough keys to be swept are charged at 10 s, another key sweeps them at 11 s, and
      the first one comes back at 10 s. */
  function Crowd(): (r: seq<Request>)
    ensures |r| == SWEEP_THRESHOLD + 2
    ensures forall x :: 0 <= x < SWEEP_THRESHOLD ==> r[x] == Request(CrowdKey(x), 10.0, 1)
    ensures r[SWEEP_THRESHOLD] == Request(CrowdKey(SWEEP_THRESHOLD), 11.0, 1)
    ensures r[SWEEP_THRESHOLD + 1] == Request(CrowdKey(0), 10.0, 1)
  {
    seq(SWEEP_THRESHOLD, (x: nat) => Request(CrowdKey(x), 10.0, 1))
    + [Request(CrowdKey(SWEEP_THRESHOLD), 11.0, 1), Request(CrowdKey(0), 10.0, 1)]
  }

  /** One policy and one shard for all. */
  function Shared(kind: Kind): Policies { Policies(_ => kind, _ => 0) }

  /** A policy of one unit that is `spent` by a charge at 10 s and idle at 11 s. */
  ghost predicate OneUnit(kind: Kind, spent: PartitionState) {
    && ValidKind(kind) && Decide(kind, Fresh(kind, 10.0), 10.0, 1) == Decision(Allowed, spent)
    && !Retains(kind, spent, 11.0)
  }

  /** The first `n` keys of the crowd, all spent. */
  ghost predicate IsCrowd(store: Store, spent: PartitionState, n: nat) {
    && |store| == n && (forall x :: 0 <= x < n ==> CrowdKey(x) in store)
    && forall k :: k in store ==> store[k] == spent && |k.partition| < n
  }

  lemma OneMore(store: Store, spent: PartitionState, n: nat)
    requires IsCrowd(store, spent, n)
    ensures CrowdKey(n) !in store && IsCrowd(store[CrowdKey(n) := spent], spent, n + 1)
  {
    assert |CrowdKey(n).partition| == n;
  }

  lemma SmallShard(p: Policies, calls: seq<Request>, n: nat)
    requires ValidPolicies(p) && n < |calls|
    requires |ShardsAfter(p, calls[..n])[p.shardOf(calls[n].key)]| < SWEEP_THRESHOLD
    ensures var store := ShardsAfter(p, calls[..n])[p.shardOf(calls[n].key)];
            ShardsAfter(p, calls[..n + 1])[p.shardOf(calls[n].key)] ==
            store[calls[n].key := DecideIn(p, store, calls[n]).next]
  {
    hide DecideIn;
    assert calls[..n + 1][..n] == calls[..n];
  }

  lemma CrowdStep(kind: Kind, spent: PartitionState, n: nat)
    requires OneUnit(kind, spent) && n < SWEEP_THRESHOLD
    requires IsCrowd(ShardsAfter(Shared(kind), Crowd()[..n])[0], spent, n)
    ensures ShardsAfter(Shared(kind), Crowd()[..n + 1])[0] ==
            ShardsAfter(Shared(kind), Crowd()[..n])[0][CrowdKey(n) := spent]
  {
    hide Decide, Retains, Crowd, CrowdKey, Fresh, ShardsAfter;
    OneMore(ShardsAfter(Shared(kind), Crowd()[..n])[0], spent, n);
    SmallShard(Shared(kind), Crowd(), n);
  }

  lemma {:induction false} Crowded(kind: Kind, spent: PartitionState, n: nat)
    requires OneUnit(kind, spent) && n <= SWEEP_THRESHOLD
    ensures IsCrowd(ShardsAfter(Shared(kind), Crowd()[..n])[0], spent, n)
  {
    if n > 0 {
      hide IsCrowd, OneUnit, Crowd, ShardsAfter;
      Crowded(kind, spent, n - 1);
      CrowdStep(kind, spent, n - 1);
      OneMore(ShardsAfter(Shared(kind), Crowd()[..n - 1])[0], spent, n - 1);
    }
  }

  lemma CrowdIsSwept(kind: Kind, spent: PartitionState)
    requires OneUnit(kind, spent)
    ensures SweptEntry(Shared(kind), Crowd(), CrowdKey(0), SWEEP_THRESHOLD) == None
  {
    hide Decide, Retains, Crowd, ShardsAfter;
    Crowded(kind, spent, SWEEP_THRESHOLD);
  }

  lemma TwiceAtOneInstant(kind: Kind, spent: PartitionState)
    requires OneUnit(kind, spent)
    ensures StoreAdmitted(Shared(kind), Crowd(), CrowdKey(0), 0, SWEEP_THRESHOLD + 2) >= 2
  {
    hide Decide, Retains, Crowd, EntryOf, SweptEntry, ShardedVerdict, CanSweep, StoreAdmitted;
    var p, key, last := Shared(kind), CrowdKey(0), SWEEP_THRESHOLD + 1;
    NothingYet(p, Crowd(), key);
    SweepTakes(p, Crowd(), key, 0);
    EntryStep(p, Crowd(), key, 0);
    CrowdIsSwept(kind, spent);
    assert |CrowdKey(SWEEP_THRESHOLD).partition| != |key.partition|;
    EntryStep(p, Crowd(), key, SWEEP_THRESHOLD);
    SweepTakes(p, Crowd(), key, last);
    EntryStep(p, Crowd(), key, last);
    TakesBoth(p, Crowd(), key, 0, last + 1, 0, last, 1);
  }

  lemma UnitBucket()
    ensures OneUnit(Bucket(1.0, 1.0), Tokens(0.0, 10.0))
  {
  }

  lemma UnitWindow()
    ensures OneUnit(Sliding(1, 1.0), Hits([10.0]))
  {
    BurstOpens(Sliding(1, 1.0), 10.0);
    assert Repeat(10.0, 1) == [10.0];
  }

  /** A key whose own readings never go back is admitted two units at one instant by a
      bucket of one, and by a window of one. */
  lemma SweptOverAdmits()
    ensures var key, calls := CrowdKey(0), Crowd();
            && calls[0].key == key == calls[SWEEP_THRESHOLD + 1].key && calls[0].now == calls[SWEEP_THRESHOLD + 1].now
            && ValidPolicies(Shared(Bucket(1.0, 1.0))) && ValidPolicies(Shared(Sliding(1, 1.0)))
            && !SpanKept(Shared(Bucket(1.0, 1.0)), calls, key, 0, SWEEP_THRESHOLD + 1)
            && StoreAdmitted(Shared(Sliding(1, 1.0)), calls, key, 0, SWEEP_THRESHOLD + 2) > 1
  {
    UnitBucket();
    UnitWindow();
    hide Crowd, StoreAdmitted, OneUnit;
    assert Allowance(1.0, 1.0, 0.0) == 1.0;
    TwiceAtOneInstant(Bucket(1.0, 1.0), Tokens(0.0, 10.0));
    TwiceAtOneInstant(Sliding(1, 1.0), Hits([10.0]));
  }
}
