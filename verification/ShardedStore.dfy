/** The sharded, evicting store behind the in-process limiter, and its refinement
    of one unbounded map. */
module ShardedStore {
  import opened Options
  import opened Sums
  import opened LocalLimiter

  datatype PartitionKey = PartitionKey(policy: nat, partition: string)

  type Store = map<PartitionKey, PartitionState>

  /** The policy table and the hash that assigns each key to a shard. */
  datatype Policies = Policies(kindOf: nat -> Kind, shardOf: PartitionKey -> nat)

  ghost predicate ValidPolicies(p: Policies) {
    (forall i :: ValidKind(p.kindOf(i))) && forall k :: p.shardOf(k) < SHARDS
  }

  function MaybeSweep(p: Policies, store: Store, now: Time): Store {
    if |store| < SWEEP_THRESHOLD then store
    else map k | k in store && Retains(p.kindOf(k.policy), store[k], now) :: store[k]
  }

  function Entry(p: Policies, store: Store, key: PartitionKey, now: Time): PartitionState {
    if key in store then store[key] else Fresh(p.kindOf(key.policy), now)
  }

  datatype Request = Request(key: PartitionKey, now: Time, cost: nat)

  function DecideIn(p: Policies, store: Store, r: Request): Decision
    requires ValidPolicies(p)
  {
    Decide(p.kindOf(r.key.policy), Entry(p, store, r.key, r.now), r.now, r.cost)
  }

  // ---- runs ----

  /** The store after a sequence of requests. */
  ghost function ShardsAfter(p: Policies, calls: seq<Request>): (r: seq<Store>)
    requires ValidPolicies(p)
    ensures |r| == SHARDS
  {
    if calls == [] then seq(SHARDS, _ => map[])
    else
      var before, call := ShardsAfter(p, calls[..|calls| - 1]), calls[|calls| - 1];
      var i := p.shardOf(call.key);
      var swept := MaybeSweep(p, before[i], call.now);
      before[i := swept[call.key := DecideIn(p, swept, call).next]]
  }

  ghost function ShardedVerdict(p: Policies, calls: seq<Request>, n: nat): Verdict
    requires ValidPolicies(p) && n < |calls|
  {
    var store := ShardsAfter(p, calls[..n])[p.shardOf(calls[n].key)];
    DecideIn(p, MaybeSweep(p, store, calls[n].now), calls[n]).verdict
  }

  /** One check, as the code runs it: pop expired hits or refill tokens, then
      charge or refuse. */
  method DecideInPlace(kind: Kind, before: PartitionState, now: Time, cost: nat)
    returns (v: Verdict, st: PartitionState)
    requires ValidKind(kind)
    ensures Decision(v, st) == Decide(kind, before, now, cost)
  {
    match kind {
      case Sliding(permit, window) =>
        if before.Hits? {
          var hits := before.times;
          while hits != [] && Since(now, hits[0]) >= window
            invariant DropExpired(hits, now, window) == DropExpired(before.times, now, window)
          {
            hits := hits[1..];
          }
          var units := UnitsOf(cost);
          if units > permit {
            v := RetryAfter(CeilSecs(window));
          } else if |hits| > permit - units {
            v := RetryAfter(CeilSecs(Since(hits[0] + window, now)));
          } else {
            hits := hits + Repeat(now, units);
            v := Allowed;
          }
          st := Hits(hits);
        } else {
          v, st := Allowed, before;
        }
      case Bucket(capacity, refill) =>
        if before.Tokens? {
          var tokens := MinReal(before.tokens + Since(now, before.last) * refill, capacity);
          var units := UnitsOf(cost) as real;
          if units <= capacity && tokens >= units {
            tokens := tokens - units;
            v := Allowed;
          } else {
            v := RetryAfter(CeilSecs(MaxReal(units - tokens, 1.0) / refill));
          }
          st := Tokens(tokens, now);
        } else {
          v, st := Allowed, before;
        }
    }
  }

  class Limiter {
    const policies: Policies
    var shards: seq<Store>  // one lock each
    ghost var calls: seq<Request>

    ghost predicate Valid()
      reads this
    {
      ValidPolicies(policies) && shards == ShardsAfter(policies, calls)
    }

    constructor (policies: Policies)
      requires ValidPolicies(policies)
      ensures Valid() && this.policies == policies && calls == []
    {
      this.policies := policies;
      shards := seq(SHARDS, _ => map[]);
      calls := [];
    }

    /** Locks the key's shard, sweeps it when it is large, and decides. The clock
        reading may be out of order. */
    method CheckWeighted(key: PartitionKey, cost: nat, now: Time) returns (v: Verdict)
      requires Valid()
      modifies this`shards, this`calls
      ensures Valid() && calls == old(calls) + [Request(key, now, cost)]
      ensures v == ShardedVerdict(policies, calls, |old(calls)|)
    {
      hide Decide, MaybeSweep;
      var i := policies.shardOf(key);
      var store := MaybeSweep(policies, shards[i], now);
      var st: PartitionState;
      v, st := DecideInPlace(policies.kindOf(key.policy), Entry(policies, store, key, now), now, cost);
      shards := shards[i := store[key := st]];
      calls := calls + [Request(key, now, cost)];
      assert calls[..|calls| - 1] == old(calls);
    }
  }

  /** The reference: one map that keeps every partition for ever. */
  ghost function UnboundedAfter(p: Policies, calls: seq<Request>): Store
    requires ValidPolicies(p)
  {
    if calls == [] then map[]
    else
      var before, call := UnboundedAfter(p, calls[..|calls| - 1]), calls[|calls| - 1];
      before[call.key := DecideIn(p, before, call).next]
  }

  ghost function UnboundedVerdict(p: Policies, calls: seq<Request>, n: nat): Verdict
    requires ValidPolicies(p) && n < |calls|
  {
    DecideIn(p, UnboundedAfter(p, calls[..n]), calls[n]).verdict
  }

  // ---- one key's entry, call by call ----

  ghost function Lookup(store: Store, key: PartitionKey): Option<PartitionState> {
    if key in store then Some(store[key]) else None
  }

  /** The key's partition after the first `n` calls. */
  ghost function EntryOf(p: Policies, calls: seq<Request>, key: PartitionKey, n: nat): Option<PartitionState>
    requires ValidPolicies(p) && n <= |calls|
  {
    Lookup(ShardsAfter(p, calls[..n])[p.shardOf(key)], key)
  }

  /** The keys of a shard that the first `n` calls used. */
  ghost function KeysIn(p: Policies, calls: seq<Request>, shard: nat, n: nat): set<PartitionKey>
    requires n <= |calls|
  {
    set x | 0 <= x < n && p.shardOf(calls[x].key) == shard :: calls[x].key
  }

  /** Call `s` is in the key's shard, which has seen enough keys to be swept. */
  ghost predicate CanSweep(p: Policies, calls: seq<Request>, key: PartitionKey, s: nat)
    requires s < |calls|
  {
    p.shardOf(calls[s].key) == p.shardOf(key) && |KeysIn(p, calls, p.shardOf(key), s)| >= SWEEP_THRESHOLD
  }

  /** The key's partition once call `n` has swept its shard. */
  ghost function SweptEntry(p: Policies, calls: seq<Request>, key: PartitionKey, n: nat): Option<PartitionState>
    requires ValidPolicies(p) && n < |calls|
  {
    var store := ShardsAfter(p, calls[..n])[p.shardOf(key)];
    Lookup(if p.shardOf(calls[n].key) == p.shardOf(key) then MaybeSweep(p, store, calls[n].now) else store, key)
  }

  ghost function OrFresh(e: Option<PartitionState>, kind: Kind, now: Time): PartitionState {
    if e.Some? then e.value else Fresh(kind, now)
  }

  /** What call `n` decides, if it is for the key. */
  ghost function OwnDecision(p: Policies, calls: seq<Request>, key: PartitionKey, n: nat): Decision
    requires ValidPolicies(p) && n < |calls|
  {
    var kind, call := p.kindOf(key.policy), calls[n];
    Decide(kind, OrFresh(SweptEntry(p, calls, key, n), kind, call.now), call.now, call.cost)
  }

  lemma {:induction false} StoreHoldsSeen(p: Policies, calls: seq<Request>, shard: nat, n: nat)
    requires ValidPolicies(p) && n <= |calls| && shard < SHARDS
    ensures ShardsAfter(p, calls[..n])[shard].Keys <= KeysIn(p, calls, shard, n)
  {
    if n > 0 {
      hide Decide;
      StoreHoldsSeen(p, calls, shard, n - 1);
      assert calls[..n][..n - 1] == calls[..n - 1];
      assert p.shardOf(calls[n - 1].key) == shard ==> calls[n - 1].key in KeysIn(p, calls, shard, n);
      assert KeysIn(p, calls, shard, n - 1) <= KeysIn(p, calls, shard, n);
    }
  }

  /** A sweep only takes partitions that it does not retain, and only if it can. */
  lemma SweepTakes(p: Policies, calls: seq<Request>, key: PartitionKey, n: nat)
    requires ValidPolicies(p) && n < |calls|
    ensures var e, swept := EntryOf(p, calls, key, n), SweptEntry(p, calls, key, n);
            || swept == e
            || (&& swept.None? && e.Some? && CanSweep(p, calls, key, n)
                && !Retains(p.kindOf(key.policy), e.value, calls[n].now))
  {
    hide Retains, ShardsAfter;
    var shard := p.shardOf(key);
    StoreHoldsSeen(p, calls, shard, n);
    SubsetSize(ShardsAfter(p, calls[..n])[shard].Keys, KeysIn(p, calls, shard, n));
  }

  /** A call changes only its own shard. There a full sweep takes exactly the other
      keys' idle partitions once 2,048 are held; the rest stay as they are. */
  lemma CallSweeps(p: Policies, calls: seq<Request>, n: nat, key: PartitionKey, t: Time)
    requires ValidPolicies(p) && n < |calls| && calls[n].key != key
    ensures var call, shard := calls[n], p.shardOf(key);
            var before, after := ShardsAfter(p, calls[..n])[shard], ShardsAfter(p, calls[..n + 1])[shard];
            && (p.shardOf(call.key) != shard ==> after == before)
            && (p.shardOf(call.key) == shard ==> call.key in after)
            && (key in after ==> key in before && after[key] == before[key])
            && (p.shardOf(call.key) == shard && |before| < 2_048 && key in before ==> key in after)
            && (&& p.shardOf(call.key) == shard && |before| >= 2_048 && key in before
                && Ordered(p.kindOf(key.policy), before[key], t) ==>
                  (key in after <==> !Idle(p.kindOf(key.policy), before[key], call.now)))
  {
    hide Decide, Retains, Idle, Ordered;
    assert calls[..n + 1][..n] == calls[..n];
    var before := ShardsAfter(p, calls[..n])[p.shardOf(key)];
    if key in before && Ordered(p.kindOf(key.policy), before[key], t) {
      SweptIsIdle(p.kindOf(key.policy), before[key], calls[n].now, t);
    }
  }

  /** One call, seen from one key. */
  lemma EntryStep(p: Policies, calls: seq<Request>, key: PartitionKey, n: nat)
    requires ValidPolicies(p) && n < |calls|
    ensures calls[n].key != key ==> EntryOf(p, calls, key, n + 1) == SweptEntry(p, calls, key, n)
    ensures calls[n].key == key ==>
              && EntryOf(p, calls, key, n + 1) == Some(OwnDecision(p, calls, key, n).next)
              && ShardedVerdict(p, calls, n) == OwnDecision(p, calls, key, n).verdict
  {
    hide Decide, MaybeSweep;
    assert calls[..n + 1][..n] == calls[..n];
  }

  // ---- refinement of the unbounded map ----

  /** Call `x` can change the key's partition: it is for the key, or it can sweep. */
  ghost predicate Touches(p: Policies, calls: seq<Request>, key: PartitionKey, x: nat)
    requires x < |calls|
  {
    calls[x].key == key || CanSweep(p, calls, key, x)
  }

  /** From call `m` on, no call that touches the key reads later than a following
      call for the key. */
  ghost predicate CalmFrom(p: Policies, calls: seq<Request>, key: PartitionKey, m: nat, n: nat)
    requires n <= |calls|
  {
    forall x, k :: m <= x < k < n && Touches(p, calls, key, x) && calls[k].key == key ==> calls[x].now <= calls[k].now
  }

  ghost predicate NoSweeps(p: Policies, calls: seq<Request>, key: PartitionKey, n: nat)
    requires n <= |calls|
  {
    forall s :: 0 <= s < n ==> !CanSweep(p, calls, key, s)
  }

  /** The first `n` calls never sweep the key's shard, or they touch the key in clock
      order from its first call on. */
  ghost predicate Undisturbed(p: Policies, calls: seq<Request>, key: PartitionKey, n: nat)
    requires n <= |calls|
  {
    NoSweeps(p, calls, key, n) || forall m :: 0 <= m < n && calls[m].key == key ==> CalmFrom(p, calls, key, m, n)
  }

  /** Requests that reach a shard in clock order disturb no key of it. */
  lemma InOrderIsUndisturbed(p: Policies, calls: seq<Request>, key: PartitionKey, n: nat)
    requires n <= |calls|
    requires forall i, j ::
               0 <= i < j < n && p.shardOf(calls[i].key) == p.shardOf(calls[j].key) == p.shardOf(key) ==>
                 calls[i].now <= calls[j].now
    ensures Undisturbed(p, calls, key, n)
  {
  }

  ghost function UnboundedEntry(p: Policies, calls: seq<Request>, key: PartitionKey, n: nat): Option<PartitionState>
    requires ValidPolicies(p) && n <= |calls|
  {
    Lookup(UnboundedAfter(p, calls[..n]), key)
  }

  lemma UnboundedStep(p: Policies, calls: seq<Request>, key: PartitionKey, n: nat)
    requires ValidPolicies(p) && n < |calls|
    ensures calls[n].key != key ==> UnboundedEntry(p, calls, key, n + 1) == UnboundedEntry(p, calls, key, n)
    ensures calls[n].key == key ==>
              var kind, call := p.kindOf(key.policy), calls[n];
              var d := Decide(kind, OrFresh(UnboundedEntry(p, calls, key, n), kind, call.now), call.now, call.cost);
              UnboundedEntry(p, calls, key, n + 1) == Some(d.next) && UnboundedVerdict(p, calls, n) == d.verdict
  {
    hide Decide;
    assert calls[..n + 1][..n] == calls[..n];
  }

  lemma {:induction false} UnboundedSeen(p: Policies, calls: seq<Request>, key: PartitionKey, n: nat) returns (m: nat)
    requires ValidPolicies(p) && n <= |calls| && UnboundedEntry(p, calls, key, n).Some?
    ensures m < n && calls[m].key == key
  {
    UnboundedStep(p, calls, key, n - 1);
    if calls[n - 1].key == key {
      m := n - 1;
    } else {
      m := UnboundedSeen(p, calls, key, n - 1);
    }
  }

  /** `t` is not before any call that touched the key from its first call on. */
  ghost predicate NotBefore(p: Policies, calls: seq<Request>, key: PartitionKey, n: nat, t: Time)
    requires n <= |calls|
  {
    forall m, x :: 0 <= m <= x < n && calls[m].key == key && Touches(p, calls, key, x) ==> calls[x].now <= t
  }

  /** The partitions are the same, or the sharded store has none and the other one
      is idle at `t`. */
  ghost predicate Related(kind: Kind, sharded: Option<PartitionState>, all: Option<PartitionState>, t: Time) {
    && (all.Some? ==> Ordered(kind, all.value, t))
    && (sharded.Some? ==> sharded == all)
    && (all.Some? && sharded.None? ==> Idle(kind, all.value, t))
  }

  lemma SameDecision(kind: Kind, sharded: Option<PartitionState>, all: Option<PartitionState>, now: Time, cost: nat)
    requires ValidKind(kind) && Related(kind, sharded, all, now)
    ensures Decide(kind, OrFresh(sharded, kind, now), now, cost) == Decide(kind, OrFresh(all, kind, now), now, cost)
    ensures Ordered(kind, Decide(kind, OrFresh(all, kind, now), now, cost).next, now)
  {
    if all.Some? && sharded.None? {
      IdleIsFresh(kind, all.value, now, cost);
    }
    DecideKeepsOrder(kind, OrFresh(all, kind, now), now, cost);
  }

  lemma SweepKeepsRelated(kind: Kind, sharded: Option<PartitionState>, all: Option<PartitionState>, now: Time, t: Time)
    requires ValidKind(kind) && Related(kind, sharded, all, t) && now <= t
    requires sharded.Some? && !Retains(kind, sharded.value, now)
    ensures Related(kind, None, all, t)
  {
    SweptIsIdle(kind, all.value, now, t);
    IdleStays(kind, all.value, now, t);
  }

  /** Whatever a call's sweep did, the partitions are still related. */
  lemma SweptRelated(p: Policies, calls: seq<Request>, key: PartitionKey, n: nat, t: Time)
    requires ValidPolicies(p) && n < |calls|
    requires CanSweep(p, calls, key, n) && UnboundedEntry(p, calls, key, n).Some? ==> calls[n].now <= t
    requires Related(p.kindOf(key.policy), EntryOf(p, calls, key, n), UnboundedEntry(p, calls, key, n), t)
    ensures Related(p.kindOf(key.policy), SweptEntry(p, calls, key, n), UnboundedEntry(p, calls, key, n), t)
  {
    hide EntryOf, SweptEntry, UnboundedEntry, CanSweep, Retains, Ordered, Idle;
    SweepTakes(p, calls, key, n);
    var e := EntryOf(p, calls, key, n);
    if SweptEntry(p, calls, key, n) != e {
      SweepKeepsRelated(p.kindOf(key.policy), e, UnboundedEntry(p, calls, key, n), calls[n].now, t);
    }
  }

  lemma OwnRelated(p: Policies, calls: seq<Request>, key: PartitionKey, n: nat, t: Time)
    requires ValidPolicies(p) && n < |calls| && calls[n].key == key && calls[n].now <= t
    requires Related(p.kindOf(key.policy), EntryOf(p, calls, key, n), UnboundedEntry(p, calls, key, n), calls[n].now)
    ensures Related(p.kindOf(key.policy), EntryOf(p, calls, key, n + 1), UnboundedEntry(p, calls, key, n + 1), t)
  {
    hide EntryOf, SweptEntry, UnboundedEntry, CanSweep, Decide, Ordered, Idle, ShardedVerdict, UnboundedVerdict;
    var call, kind := calls[n], p.kindOf(key.policy);
    EntryStep(p, calls, key, n);
    UnboundedStep(p, calls, key, n);
    SweptRelated(p, calls, key, n, call.now);
    SameDecision(kind, SweptEntry(p, calls, key, n), UnboundedEntry(p, calls, key, n), call.now, call.cost);
    OrderedLater(kind, OwnDecision(p, calls, key, n).next, call.now, t);
  }

  lemma OtherRelated(p: Policies, calls: seq<Request>, key: PartitionKey, n: nat, t: Time)
    requires ValidPolicies(p) && n < |calls| && calls[n].key != key && NotBefore(p, calls, key, n + 1, t)
    requires Related(p.kindOf(key.policy), EntryOf(p, calls, key, n), UnboundedEntry(p, calls, key, n), t)
    ensures Related(p.kindOf(key.policy), EntryOf(p, calls, key, n + 1), UnboundedEntry(p, calls, key, n + 1), t)
  {
    hide EntryOf, SweptEntry, UnboundedEntry, CanSweep, Decide, Related, ShardedVerdict, UnboundedVerdict;
    EntryStep(p, calls, key, n);
    UnboundedStep(p, calls, key, n);
    if UnboundedEntry(p, calls, key, n).Some? {
      var m := UnboundedSeen(p, calls, key, n);
    }
    SweptRelated(p, calls, key, n, t);
  }

  lemma {:induction false} RunRelated(p: Policies, calls: seq<Request>, key: PartitionKey, n: nat, t: Time)
    requires ValidPolicies(p) && n <= |calls| && NotBefore(p, calls, key, n, t)
    requires forall m :: 0 <= m < n && calls[m].key == key ==> CalmFrom(p, calls, key, m, n)
    ensures Related(p.kindOf(key.policy), EntryOf(p, calls, key, n), UnboundedEntry(p, calls, key, n), t)
  {
    if n == 0 {
      NothingYet(p, calls, key);
    } else {
      hide EntryOf, UnboundedEntry, CanSweep, Related, ValidPolicies;
      if calls[n - 1].key == key {
        RunRelated(p, calls, key, n - 1, calls[n - 1].now);
        OwnRelated(p, calls, key, n - 1, t);
      } else {
        RunRelated(p, calls, key, n - 1, t);
        OtherRelated(p, calls, key, n - 1, t);
      }
    }
  }

  lemma {:induction false} NoSweepsSame(p: Policies, calls: seq<Request>, key: PartitionKey, n: nat)
    requires ValidPolicies(p) && n <= |calls| && NoSweeps(p, calls, key, n)
    ensures EntryOf(p, calls, key, n) == UnboundedEntry(p, calls, key, n)
  {
    if n == 0 {
      NothingYet(p, calls, key);
    } else {
      hide EntryOf, SweptEntry, UnboundedEntry, CanSweep, Decide, ShardedVerdict, UnboundedVerdict, Retains;
      NoSweepsSame(p, calls, key, n - 1);
      EntryStep(p, calls, key, n - 1);
      UnboundedStep(p, calls, key, n - 1);
      SweepTakes(p, calls, key, n - 1);
    }
  }

  lemma NothingYet(p: Policies, calls: seq<Request>, key: PartitionKey)
    requires ValidPolicies(p)
    ensures EntryOf(p, calls, key, 0) == None && UnboundedEntry(p, calls, key, 0) == None
  {
    assert calls[..0] == [];
  }

  /** Sharding and eviction are unobservable to a key that is not disturbed, whatever
      policies, keys and costs are mixed: its verdict and its retry value are those
      of the unbounded map. */
  lemma ShardedRefinesUnbounded(p: Policies, calls: seq<Request>, n: nat)
    requires ValidPolicies(p) && n < |calls| && Undisturbed(p, calls, calls[n].key, n + 1)
    ensures ShardedVerdict(p, calls, n) == UnboundedVerdict(p, calls, n)
  {
    hide EntryOf, SweptEntry, UnboundedEntry, CanSweep, Decide, Ordered, Idle, ShardedVerdict, UnboundedVerdict,
         Retains;
    var call, key := calls[n], calls[n].key;
    EntryStep(p, calls, key, n);
    UnboundedStep(p, calls, key, n);
    if NoSweeps(p, calls, key, n + 1) {
      NoSweepsSame(p, calls, key, n);
      SweepTakes(p, calls, key, n);
    } else {
      RunRelated(p, calls, key, n, call.now);
      SweptRelated(p, calls, key, n, call.now);
      SameDecision(p.kindOf(key.policy), SweptEntry(p, calls, key, n), UnboundedEntry(p, calls, key, n), call.now,
                   call.cost);
    }
  }

  // ---- one key's share of a run ----

  /** The requests for one key, in order. */
  ghost function Project(calls: seq<Request>, key: PartitionKey): seq<Hit> {
    if calls == [] then []
    else
      var call := calls[|calls| - 1];
      Project(calls[..|calls| - 1], key) + (if call.key == key then [Hit(call.now, call.cost)] else [])
  }

  /** In the unbounded map a partition depends on its own requests only. */
  lemma {:induction false} ProjectionState(p: Policies, calls: seq<Request>, key: PartitionKey, now: Time)
    requires ValidPolicies(p)
    ensures Entry(p, UnboundedAfter(p, calls), key, now) == StateBefore(p.kindOf(key.policy), Project(calls, key), now)
  {
    if calls != [] {
      var before, call := calls[..|calls| - 1], calls[|calls| - 1];
      if call.key == key {
        var own := Project(calls, key);
        assert own[..|own| - 1] == Project(before, key);
        ProjectionState(p, before, key, call.now);
      } else {
        assert Project(calls, key) == Project(before, key);
        ProjectionState(p, before, key, now);
      }
    }
  }

  /** So the sharded store treats such a key as if it were alone: its verdict is that
      of the key's own requests replayed against one partition. */
  lemma EachKeyIsIndependent(p: Policies, calls: seq<Request>, n: nat)
    requires ValidPolicies(p) && n < |calls| && Undisturbed(p, calls, calls[n].key, n + 1)
    ensures var own := Project(calls[..n + 1], calls[n].key);
            && own != [] && own[|own| - 1] == Hit(calls[n].now, calls[n].cost)
            && ShardedVerdict(p, calls, n) == VerdictOf(p.kindOf(calls[n].key.policy), own, |own| - 1)
  {
    assert calls[..n + 1][..n] == calls[..n];
    ShardedRefinesUnbounded(p, calls, n);
    ProjectionState(p, calls[..n], calls[n].key, calls[n].now);
    var own := Project(calls[..n + 1], calls[n].key);
    assert own[..|own| - 1] == Project(calls[..n], calls[n].key);
  }

  // ---- what the store admits ----

  /** Units that the sharded store admits for one key over calls `a` to `n - 1`. */
  ghost function StoreAdmitted(p: Policies, calls: seq<Request>, key: PartitionKey, a: nat, n: nat): nat
    requires ValidPolicies(p) && a <= n <= |calls|
  {
    if a == n then 0
    else
      StoreAdmitted(p, calls, key, a, n - 1)
      + if calls[n - 1].key == key && ShardedVerdict(p, calls, n - 1).Allowed? then UnitsOf(calls[n - 1].cost) else 0
  }

  /** How many of the first `n` calls were for the key. */
  ghost function Own(calls: seq<Request>, key: PartitionKey, n: nat): nat
    requires n <= |calls|
  {
    |Project(calls[..n], key)|
  }

  lemma ProjectStep(calls: seq<Request>, key: PartitionKey, n: nat)
    requires 1 <= n <= |calls|
    ensures Project(calls[..n], key) ==
            Project(calls[..n - 1], key)
            + if calls[n - 1].key == key then [Hit(calls[n - 1].now, calls[n - 1].cost)] else []
  {
    assert calls[..n][..n - 1] == calls[..n - 1];
  }

  /** One more own request adds what the store says to it ... */
  lemma OwnRequest(p: Policies, calls: seq<Request>, key: PartitionKey, a: nat, n: nat)
    requires ValidPolicies(p) && a <= n < |calls| && Undisturbed(p, calls, key, n + 1) && calls[n].key == key
    requires AdmitsAlone(p, calls, key, a, n)
    ensures AdmitsAlone(p, calls, key, a, n + 1)
  {
    hide ShardedVerdict, Project, VerdictOf, Undisturbed;
    var own, before := Project(calls[..n + 1], key), Project(calls[..n], key);
    ProjectStep(calls, key, n + 1);
    EachKeyIsIndependent(p, calls, n);
    assert own[..|before|] == before == before[..|before|];
    AdmittedPrefix(p.kindOf(key.policy), own, before, Own(calls, key, a), |before|);
  }

  /** ... and a request of another key adds nothing. */
  lemma OtherRequest(p: Policies, calls: seq<Request>, key: PartitionKey, a: nat, n: nat)
    requires ValidPolicies(p) && a <= n < |calls| && calls[n].key != key && AdmitsAlone(p, calls, key, a, n)
    ensures AdmitsAlone(p, calls, key, a, n + 1)
  {
    hide ShardedVerdict, Project, Admitted;
    ProjectStep(calls, key, n + 1);
    assert Project(calls[..n + 1], key) == Project(calls[..n], key);
  }

  /** Over calls `a` to `n - 1` the store admits the key exactly what its own requests,
      replayed alone, admit. */
  ghost predicate AdmitsAlone(p: Policies, calls: seq<Request>, key: PartitionKey, a: nat, n: nat)
    requires ValidPolicies(p) && a <= n <= |calls|
  {
    && Own(calls, key, a) <= Own(calls, key, n)
    && StoreAdmitted(p, calls, key, a, n) ==
       Admitted(p.kindOf(key.policy), Project(calls[..n], key), Own(calls, key, a), Own(calls, key, n))
  }

  lemma UndisturbedPrefix(p: Policies, calls: seq<Request>, key: PartitionKey, n: nat)
    requires 0 < n <= |calls| && Undisturbed(p, calls, key, n)
    ensures Undisturbed(p, calls, key, n - 1)
  {
    hide CanSweep;
    if !NoSweeps(p, calls, key, n - 1) {
      forall m | 0 <= m < n - 1 && calls[m].key == key ensures CalmFrom(p, calls, key, m, n - 1) {
        assert CalmFrom(p, calls, key, m, n);
      }
    }
  }

  lemma AloneAtFirst(p: Policies, calls: seq<Request>, key: PartitionKey, a: nat)
    requires ValidPolicies(p) && a <= |calls|
    ensures AdmitsAlone(p, calls, key, a, a)
  {
    hide ShardedVerdict, Project;
  }

  lemma {:induction false} StoreAdmitsAlone(p: Policies, calls: seq<Request>, key: PartitionKey, a: nat, n: nat)
    requires ValidPolicies(p) && a <= n <= |calls| && Undisturbed(p, calls, key, n)
    ensures AdmitsAlone(p, calls, key, a, n)
  {
    hide AdmitsAlone, Undisturbed, ValidPolicies;
    if a == n {
      AloneAtFirst(p, calls, key, a);
    } else {
      UndisturbedPrefix(p, calls, key, n);
      StoreAdmitsAlone(p, calls, key, a, n - 1);
      if calls[n - 1].key == key {
        OwnRequest(p, calls, key, a, n - 1);
      } else {
        OtherRequest(p, calls, key, a, n - 1);
      }
    }
  }
}
