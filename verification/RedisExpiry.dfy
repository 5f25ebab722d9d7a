/** Key expiry is unobservable: a keyspace whose keys may vanish once their
    deadline has passed answers exactly like one that keeps every key for ever. */
module RedisExpiry {
  import opened Options
  import opened Sums
  import opened RedisBucket
  import opened RedisStore

  /** What reaches Redis: either script, or the eviction of a key whose deadline
      has passed (actively or on access, in any order). */
  datatype Op =
    | Charge(key: Key, cost: nat, now: Millis)
    | LeaseAll(keys: seq<Key>, costs: seq<nat>, now: Millis)
    | Expire(key: Key, now: Millis)

  /** Every lease names one cost for each of its keys. */
  ghost predicate WellFormed(ops: seq<Op>) {
    forall i :: 0 <= i < |ops| && ops[i].LeaseAll? ==> |ops[i].keys| == |ops[i].costs|
  }

  ghost predicate ClockOrdered(ops: seq<Op>) { forall i, j :: 0 <= i < j < |ops| ==> ops[i].now <= ops[j].now }

  /** One operation. Eviction answers nothing; the keeping server ignores it. */
  ghost function Run1(rates: Rates, db: Db, op: Op, expiring: bool): Outcome
    requires ValidRates(rates) && (op.LeaseAll? ==> |op.keys| == |op.costs|)
  {
    match op
    case Charge(key, cost, now) => Check(rates, db, key, cost, now)
    case LeaseAll(keys, costs, now) => Lease(rates, db, keys, costs, now)
    case Expire(key, now) =>
      Outcome(0, if expiring && key in db && db[key].deadline <= now then db - {key} else db)
  }

  ghost function Exec(rates: Rates, ops: seq<Op>, expiring: bool): Db
    requires ValidRates(rates) && WellFormed(ops)
  {
    if ops == [] then map[] else Run1(rates, Exec(rates, ops[..|ops| - 1], expiring), ops[|ops| - 1], expiring).db
  }

  ghost function ReplyTo(rates: Rates, ops: seq<Op>, n: nat, expiring: bool): int
    requires ValidRates(rates) && WellFormed(ops) && n < |ops|
  {
    Run1(rates, Exec(rates, ops[..n], expiring), ops[n], expiring).retryMs
  }

  /** A stored bucket whose deadline is late enough to be full by then. */
  ghost predicate Sound(rate: Rate, b: Bucket, t: Millis)
    requires ValidRate(rate)
  {
    && 0.0 <= b.tokens <= rate.capacity && b.lastMs <= t
    && b.deadline >= b.lastMs + Max(1, WaitMs(rate, rate.capacity - b.tokens))
  }

  ghost predicate Related(rate: Rate, expiring: Option<Bucket>, keeping: Option<Bucket>, t: Millis)
    requires ValidRate(rate)
  {
    && (keeping.Some? ==> Sound(rate, keeping.value, t))
    && (expiring.Some? ==> keeping == expiring)
    && (expiring.None? && keeping.Some? ==> keeping.value.deadline <= t)
  }

  ghost predicate RelatedDbs(rates: Rates, a: Db, b: Db, t: Millis)
    requires ValidRates(rates)
  {
    forall k :: Related(rates(k), Entry(a, k), Entry(b, k), t)
  }

  lemma RelatedLater(rates: Rates, a: Db, b: Db, t: Millis, later: Millis)
    requires ValidRates(rates) && RelatedDbs(rates, a, b, t) && t <= later
    ensures RelatedDbs(rates, a, b, later)
  {
    forall k ensures Related(rates(k), Entry(a, k), Entry(b, k), later) {
      assert Related(rates(k), Entry(a, k), Entry(b, k), t);
    }
  }

  /** A bucket past its deadline loads like a missing one. */
  lemma SameLoad(rate: Rate, expiring: Option<Bucket>, keeping: Option<Bucket>, now: Millis)
    requires ValidRate(rate) && Related(rate, expiring, keeping, now)
    ensures Load(rate, expiring, now) == Load(rate, keeping, now)
    ensures Load(rate, keeping, now).lastMs == now && 0.0 <= Load(rate, keeping, now).tokens <= rate.capacity
  {
    if keeping.Some? {
      var b := keeping.value;
      GainMonotone(rate, 0, now - b.lastMs);
      if expiring.None? {
        WaitIsExact(rate, rate.capacity - b.tokens, now - b.lastMs);
      }
    }
  }

  lemma StoreIsSound(rate: Rate, level: Level, now: Millis)
    requires ValidRate(rate) && level.lastMs == now && 0.0 <= level.tokens <= rate.capacity
    ensures Sound(rate, Store(rate, level, now), now)
  {
  }

  lemma ChargeStep(rates: Rates, a: Db, b: Db, key: Key, cost: nat, now: Millis)
    requires ValidRates(rates) && RelatedDbs(rates, a, b, now)
    ensures Check(rates, a, key, cost, now).retryMs == Check(rates, b, key, cost, now).retryMs
    ensures RelatedDbs(rates, Check(rates, a, key, cost, now).db, Check(rates, b, key, cost, now).db, now)
  {
    assert Related(rates(key), Entry(a, key), Entry(b, key), now);
    SameLoad(rates(key), Entry(a, key), Entry(b, key), now);
    var level := Load(rates(key), Entry(b, key), now);
    StoreIsSound(rates(key), level, now);
    if cost as real <= level.tokens {
      StoreIsSound(rates(key), Level(level.tokens - cost as real, level.lastMs), now);
    }
    var a', b' := Check(rates, a, key, cost, now).db, Check(rates, b, key, cost, now).db;
    forall k ensures Related(rates(k), Entry(a', k), Entry(b', k), now) {
      assert Related(rates(k), Entry(a, k), Entry(b, k), now);
    }
  }

  lemma {:induction false} SameShortage(rates: Rates, a: Db, b: Db, keys: seq<Key>, costs: seq<nat>, now: Millis,
                                        n: nat)
    requires ValidRates(rates) && RelatedDbs(rates, a, b, now) && n <= |keys| == |costs|
    ensures LongestShortage(rates, a, keys, costs, now, n) == LongestShortage(rates, b, keys, costs, now, n)
  {
    if n > 0 {
      SameShortage(rates, a, b, keys, costs, now, n - 1);
      assert Related(rates(keys[n - 1]), Entry(a, keys[n - 1]), Entry(b, keys[n - 1]), now);
      SameLoad(rates(keys[n - 1]), Entry(a, keys[n - 1]), Entry(b, keys[n - 1]), now);
    }
  }

  lemma RelatedUpdate(rates: Rates, a: Db, b: Db, key: Key, stored: Bucket, now: Millis)
    requires ValidRates(rates) && RelatedDbs(rates, a, b, now) && Sound(rates(key), stored, now)
    ensures RelatedDbs(rates, a[key := stored], b[key := stored], now)
  {
    hide Sound;
    forall k ensures Related(rates(k), Entry(a[key := stored], k), Entry(b[key := stored], k), now) {
      assert Related(rates(k), Entry(a, k), Entry(b, k), now);
    }
  }

  lemma SameCharge(rates: Rates, a: Db, b: Db, key: Key, cost: nat, now: Millis)
    requires ValidRates(rates) && RelatedDbs(rates, a, b, now) && cost as real <= LoadKey(rates, b, key, now).tokens
    ensures Charged(rates, a, key, cost, now) == Charged(rates, b, key, cost, now)
    ensures Sound(rates(key), Charged(rates, b, key, cost, now), now)
  {
    hide Load, Store, Sound;
    assert Related(rates(key), Entry(a, key), Entry(b, key), now);
    SameLoad(rates(key), Entry(a, key), Entry(b, key), now);
    var level := LoadKey(rates, b, key, now);
    StoreIsSound(rates(key), Level(level.tokens - cost as real, level.lastMs), now);
  }

  lemma {:induction false} CommitStep(rates: Rates, a: Db, b: Db, keys: seq<Key>, costs: seq<nat>, now: Millis, n: nat)
    requires ValidRates(rates) && RelatedDbs(rates, a, b, now) && n <= |keys| == |costs|
    requires CoversAll(rates, b, keys, costs, now, n)
    ensures RelatedDbs(rates, Commit(rates, a, keys, costs, now, n), Commit(rates, b, keys, costs, now, n), now)
  {
    if n > 0 {
      hide RelatedDbs, Charged, LoadKey;
      var key := keys[n - 1];
      CommitStep(rates, a, b, keys, costs, now, n - 1);
      SameCharge(rates, a, b, key, costs[n - 1], now);
      RelatedUpdate(rates, Commit(rates, a, keys, costs, now, n - 1), Commit(rates, b, keys, costs, now, n - 1), key,
                    Charged(rates, b, key, costs[n - 1], now), now);
    }
  }

  lemma LeaseStep(rates: Rates, a: Db, b: Db, keys: seq<Key>, costs: seq<nat>, now: Millis)
    requires ValidRates(rates) && RelatedDbs(rates, a, b, now) && |keys| == |costs|
    ensures Lease(rates, a, keys, costs, now).retryMs == Lease(rates, b, keys, costs, now).retryMs
    ensures RelatedDbs(rates, Lease(rates, a, keys, costs, now).db, Lease(rates, b, keys, costs, now).db, now)
  {
    SameShortage(rates, a, b, keys, costs, now, |keys|);
    ShortageIffUncovered(rates, b, keys, costs, now, |keys|);
    if LongestShortage(rates, b, keys, costs, now, |keys|) == 0 {
      CommitStep(rates, a, b, keys, costs, now, |keys|);
    }
  }

  lemma OneOp(rates: Rates, a: Db, b: Db, op: Op)
    requires ValidRates(rates) && RelatedDbs(rates, a, b, op.now) && (op.LeaseAll? ==> |op.keys| == |op.costs|)
    ensures Run1(rates, a, op, true).retryMs == Run1(rates, b, op, false).retryMs
    ensures RelatedDbs(rates, Run1(rates, a, op, true).db, Run1(rates, b, op, false).db, op.now)
  {
    match op
    case Charge(key, cost, now) => ChargeStep(rates, a, b, key, cost, now);
    case LeaseAll(keys, costs, now) => LeaseStep(rates, a, b, keys, costs, now);
    case Expire(key, now) =>
      forall k ensures Related(rates(k), Entry(Run1(rates, a, op, true).db, k), Entry(b, k), now) {
        assert Related(rates(k), Entry(a, k), Entry(b, k), now);
      }
  }

  lemma {:induction false} RunRelated(rates: Rates, ops: seq<Op>, t: Millis)
    requires ValidRates(rates) && WellFormed(ops) && ClockOrdered(ops) && forall i :: 0 <= i < |ops| ==> ops[i].now <= t
    ensures RelatedDbs(rates, Exec(rates, ops, true), Exec(rates, ops, false), t)
  {
    if ops != [] {
      var before, op := ops[..|ops| - 1], ops[|ops| - 1];
      RunRelated(rates, before, op.now);
      OneOp(rates, Exec(rates, before, true), Exec(rates, before, false), op);
      RelatedLater(rates, Exec(rates, ops, true), Exec(rates, ops, false), op.now, t);
    }
  }

  /** For every run with a nondecreasing clock, any mix of keys and of both scripts,
      and any evictions at or after the keys' deadlines: every verdict and every
      wait is the one that a server without expiry would give. */
  lemma ExpiryIsUnobservable(rates: Rates, ops: seq<Op>, n: nat)
    requires ValidRates(rates) && WellFormed(ops) && ClockOrdered(ops) && n < |ops|
    ensures ReplyTo(rates, ops, n, true) == ReplyTo(rates, ops, n, false)
  {
    RunRelated(rates, ops[..n], ops[n].now);
    OneOp(rates, Exec(rates, ops[..n], true), Exec(rates, ops[..n], false), ops[n]);
  }
}
