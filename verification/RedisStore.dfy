/** The shared Redis keyspace: single-key charges, the all-or-nothing byte lease
    over several keys, and key expiry. */
module RedisStore {
  import opened Options
  import opened Sums
  import opened RedisBucket

  type Key = string
  type Db = map<Key, Bucket>
  type Rates = Key -> Rate

  ghost predicate ValidRates(rates: Rates) { forall k :: ValidRate(rates(k)) }

  function Entry(db: Db, key: Key): Option<Bucket> { if key in db then Some(db[key]) else None }

  function LoadKey(rates: Rates, db: Db, key: Key, now: Millis): Level { Load(rates(key), Entry(db, key), now) }

  /** The longest wait among the first `n` dimensions of a lease. */
  function LongestShortage(rates: Rates, db: Db, keys: seq<Key>, costs: seq<nat>, now: Millis, n: nat): int
    requires ValidRates(rates) && n <= |keys| == |costs|
  {
    if n == 0 then 0
    else Max(LongestShortage(rates, db, keys, costs, now, n - 1),
             Shortage(rates(keys[n - 1]), LoadKey(rates, db, keys[n - 1], now), costs[n - 1]))
  }

  function Charged(rates: Rates, db: Db, key: Key, cost: nat, now: Millis): Bucket
    requires ValidRates(rates)
  {
    var level := LoadKey(rates, db, key, now);
    Store(rates(key), Level(level.tokens - cost as real, level.lastMs), now)
  }

  /** The keyspace after the first `n` dimensions were charged, each from its level
      before the lease. */
  function Commit(rates: Rates, db: Db, keys: seq<Key>, costs: seq<nat>, now: Millis, n: nat): Db
    requires ValidRates(rates) && n <= |keys| == |costs|
  {
    if n == 0 then db
    else Commit(rates, db, keys, costs, now, n - 1)[keys[n - 1] := Charged(rates, db, keys[n - 1], costs[n - 1], now)]
  }

  datatype Outcome = Outcome(retryMs: int, db: Db)

  function Lease(rates: Rates, db: Db, keys: seq<Key>, costs: seq<nat>, now: Millis): Outcome
    requires ValidRates(rates) && |keys| == |costs|
  {
    var retry := LongestShortage(rates, db, keys, costs, now, |keys|);
    if retry > 0 then Outcome(Max(1, retry), db) else Outcome(0, Commit(rates, db, keys, costs, now, |keys|))
  }

  function Check(rates: Rates, db: Db, key: Key, cost: nat, now: Millis): Outcome
    requires ValidRates(rates)
  {
    var r := BucketScript(rates(key), Entry(db, key), now, cost);
    Outcome(r.retryMs, db[key := r.next])
  }

  class Server {
    const rates: Rates
    var db: Db

    constructor (rates: Rates)
      ensures this.rates == rates && db == map[]
    {
      this.rates := rates;
      db := map[];
    }

    /** The single-key script: load, decide, store and set the expiry. */
    method CheckWeighted(key: Key, cost: nat, now: Millis) returns (retryMs: int)
      requires ValidRates(rates)
      modifies this`db
      ensures Outcome(retryMs, db) == Check(rates, old(db), key, cost, now)
    {
      var rate := rates(key);
      var level := Load(rate, Entry(db, key), now);
      var allowed := cost as real <= rate.capacity && level.tokens >= cost as real;
      var tokens := if allowed then level.tokens - cost as real else level.tokens;
      db := db[key := Bucket(tokens, level.lastMs, now + Max(1, WaitMs(rate, rate.capacity - tokens)))];
      if allowed {
        return 0;
      }
      retryMs := if cost as real > rate.capacity then Max(1, WaitMs(rate, rate.capacity))
                 else Max(1, WaitMs(rate, cost as real - level.tokens));
    }

    /** The lease script: a first pass reads every dimension, a second one writes
        them only if none is short. */
    method CheckProxyTraffic(keys: seq<Key>, costs: seq<nat>, now: Millis) returns (retryMs: int)
      requires ValidRates(rates) && |keys| == |costs|
      modifies this`db
      ensures Outcome(retryMs, db) == Lease(rates, old(db), keys, costs, now)
    {
      var levels: seq<Level> := [];
      retryMs := 0;
      for i := 0 to |keys|
        invariant |levels| == i && forall j :: 0 <= j < i ==> levels[j] == LoadKey(rates, db, keys[j], now)
        invariant retryMs == LongestShortage(rates, db, keys, costs, now, i)
      {
        var level := Load(rates(keys[i]), Entry(db, keys[i]), now);
        levels := levels + [level];
        retryMs := Max(retryMs, Shortage(rates(keys[i]), level, costs[i]));
      }
      if retryMs > 0 {
        return Max(1, retryMs);
      }
      retryMs := 0;
      for i := 0 to |keys|
        invariant db == Commit(rates, old(db), keys, costs, now, i)
      {
        db := db[keys[i] := Store(rates(keys[i]), Level(levels[i].tokens - costs[i] as real, levels[i].lastMs), now)];
      }
    }
  }

  // ---- all or nothing ----

  ghost predicate DistinctKeys(keys: seq<Key>) { forall i, j :: 0 <= i < j < |keys| ==> keys[i] != keys[j] }

  ghost predicate CoversAll(rates: Rates, db: Db, keys: seq<Key>, costs: seq<nat>, now: Millis, n: nat)
    requires n <= |keys| == |costs|
  {
    forall i :: 0 <= i < n ==> costs[i] as real <= LoadKey(rates, db, keys[i], now).tokens
  }

  lemma {:induction false} ShortageIffUncovered(rates: Rates, db: Db, keys: seq<Key>, costs: seq<nat>, now: Millis,
                                                n: nat)
    requires ValidRates(rates) && n <= |keys| == |costs|
    ensures LongestShortage(rates, db, keys, costs, now, n) >= 0
    ensures LongestShortage(rates, db, keys, costs, now, n) == 0 <==> CoversAll(rates, db, keys, costs, now, n)
  {
    if n > 0 {
      ShortageIffUncovered(rates, db, keys, costs, now, n - 1);
      AdmitsIffCovered(rates(keys[n - 1]), Entry(db, keys[n - 1]), now, costs[n - 1]);
    }
  }

  lemma {:induction false} CommitElsewhere(rates: Rates, db: Db, keys: seq<Key>, costs: seq<nat>, now: Millis, n: nat,
                                           k: Key)
    requires ValidRates(rates) && n <= |keys| == |costs| && k !in keys[..n]
    ensures Entry(Commit(rates, db, keys, costs, now, n), k) == Entry(db, k)
  {
    if n > 0 {
      hide Charged, ValidRates;
      assert keys[..n] == keys[..n - 1] + [keys[n - 1]];
      CommitElsewhere(rates, db, keys, costs, now, n - 1, k);
    }
  }

  lemma {:induction false} CommitAt(rates: Rates, db: Db, keys: seq<Key>, costs: seq<nat>, now: Millis, n: nat, i: nat)
    requires ValidRates(rates) && i < n <= |keys| == |costs| && DistinctKeys(keys)
    ensures Entry(Commit(rates, db, keys, costs, now, n), keys[i]) == Some(Charged(rates, db, keys[i], costs[i], now))
  {
    hide Charged, ValidRates;
    if i < n - 1 {
      assert keys[i] != keys[n - 1];
      CommitAt(rates, db, keys, costs, now, n - 1, i);
    }
  }

  lemma CommitChargesEach(rates: Rates, db: Db, keys: seq<Key>, costs: seq<nat>, now: Millis, n: nat)
    requires ValidRates(rates) && n <= |keys| == |costs| && DistinctKeys(keys)
    ensures var after := Commit(rates, db, keys, costs, now, n);
            && (forall i :: 0 <= i < n ==>
                  keys[i] in after && after[keys[i]] == Charged(rates, db, keys[i], costs[i], now))
            && (forall k :: k !in keys[..n] ==> Entry(after, k) == Entry(db, k))
  {
    hide Charged, ValidRates, Commit;
    forall i | 0 <= i < n
      ensures Entry(Commit(rates, db, keys, costs, now, n), keys[i]) ==
              Some(Charged(rates, db, keys[i], costs[i], now))
    {
      CommitAt(rates, db, keys, costs, now, n, i);
    }
    forall k | k !in keys[..n] ensures Entry(Commit(rates, db, keys, costs, now, n), k) == Entry(db, k) {
      CommitElsewhere(rates, db, keys, costs, now, n, k);
    }
  }

  /** A lease is admitted exactly when every dimension covers its cost. Denial
      changes no key; admission charges each dimension exactly its cost and touches
      nothing else. */
  lemma LeaseAllOrNothing(rates: Rates, db: Db, keys: seq<Key>, costs: seq<nat>, now: Millis)
    requires ValidRates(rates) && |keys| == |costs| && DistinctKeys(keys)
    ensures var r := Lease(rates, db, keys, costs, now);
            && (r.retryMs == 0 <==> CoversAll(rates, db, keys, costs, now, |keys|))
            && (r.retryMs != 0 ==> r.retryMs >= 1 && r.db == db)
            && (r.retryMs == 0 ==>
                  && (forall i :: 0 <= i < |keys| ==>
                        && keys[i] in r.db
                        && r.db[keys[i]].tokens == LoadKey(rates, db, keys[i], now).tokens - costs[i] as real
                        && r.db[keys[i]].tokens >= 0.0)
                  && (forall k :: k !in keys ==> Entry(r.db, k) == Entry(db, k)))
  {
    ShortageIffUncovered(rates, db, keys, costs, now, |keys|);
    CommitChargesEach(rates, db, keys, costs, now, |keys|);
    assert keys[..|keys|] == keys;
  }

  // ---- the wait is exact ----

  /** When a stored bucket, seen again at `later`, covers a cost that fits it. */
  lemma CoveredLater(rate: Rate, entry: Option<Bucket>, now: Millis, cost: nat, later: Millis)
    requires ValidRate(rate) && now <= later && cost as real <= rate.capacity
    requires entry.Some? ==> entry.value.lastMs <= now
    ensures cost as real <= Load(rate, entry, later).tokens <==>
            later - now >= Shortage(rate, Load(rate, entry, now), cost)
  {
    if entry.Some? {
      var last := entry.value.lastMs;
      GainAdds(rate, now - last, later - now);
      GainMonotone(rate, 0, now - last);
      GainMonotone(rate, 0, later - now);
      WaitIsExact(rate, cost as real - Load(rate, entry, now).tokens, later - now);
    }
  }

  lemma {:induction false} LeaseCoveredLater(rates: Rates, db: Db, keys: seq<Key>, costs: seq<nat>, now: Millis,
                                             later: Millis, n: nat)
    requires ValidRates(rates) && n <= |keys| == |costs| && now <= later
    requires forall i :: 0 <= i < |keys| ==> costs[i] as real <= rates(keys[i]).capacity
    requires forall k :: k in db ==> db[k].lastMs <= now
    ensures CoversAll(rates, db, keys, costs, later, n) <==>
            later - now >= LongestShortage(rates, db, keys, costs, now, n)
  {
    if n > 0 {
      LeaseCoveredLater(rates, db, keys, costs, now, later, n - 1);
      CoveredLater(rates(keys[n - 1]), Entry(db, keys[n - 1]), now, costs[n - 1], later);
    }
  }

  /** With a clock that does not run backwards, no competing charge and every cost
      within capacity, a denied lease succeeds from the returned number of
      milliseconds on and at no earlier time. */
  lemma LeaseWaitIsExact(rates: Rates, db: Db, keys: seq<Key>, costs: seq<nat>, now: Millis, later: Millis)
    requires ValidRates(rates) && |keys| == |costs| && now <= later
    requires forall i :: 0 <= i < |keys| ==> costs[i] as real <= rates(keys[i]).capacity
    requires forall k :: k in db ==> db[k].lastMs <= now
    requires Lease(rates, db, keys, costs, now).retryMs != 0
    ensures var denied := Lease(rates, db, keys, costs, now);
            Lease(rates, denied.db, keys, costs, later).retryMs == 0 <==> later >= now + denied.retryMs
  {
    ShortageIffUncovered(rates, db, keys, costs, now, |keys|);
    ShortageIffUncovered(rates, db, keys, costs, later, |keys|);
    LeaseCoveredLater(rates, db, keys, costs, now, later, |keys|);
  }

  /** The same for a single-key charge: after a denial it succeeds from the returned
      number of milliseconds on and at no earlier time. */
  lemma CheckWaitIsExact(rates: Rates, db: Db, key: Key, cost: nat, now: Millis, later: Millis)
    requires ValidRates(rates) && now <= later && cost as real <= rates(key).capacity
    requires key in db ==> db[key].lastMs <= now
    requires Check(rates, db, key, cost, now).retryMs != 0
    ensures var denied := Check(rates, db, key, cost, now);
            Check(rates, denied.db, key, cost, later).retryMs == 0 <==> later >= now + denied.retryMs
  {
    var rate, denied := rates(key), Check(rates, db, key, cost, now);
    var level := Load(rate, Entry(db, key), now);
    AdmitsIffCovered(rate, Entry(db, key), now, cost);
    AdmitsIffCovered(rate, Entry(denied.db, key), later, cost);
    DeniedKeepsLevel(rate, Entry(db, key), now, cost);
    CoveredLater(rate, Entry(denied.db, key), now, cost, later);
  }

  /** A denied charge stores the refilled level. */
  lemma DeniedKeepsLevel(rate: Rate, entry: Option<Bucket>, now: Millis, cost: nat)
    requires ValidRate(rate) && (entry.Some? ==> entry.value.lastMs <= now)
    requires BucketScript(rate, entry, now, cost).retryMs != 0
    ensures var next := BucketScript(rate, entry, now, cost).next;
            next.lastMs == now && Load(rate, Some(next), now) == Load(rate, entry, now)
  {
    if entry.Some? {
      GainMonotone(rate, 0, now - entry.value.lastMs);
    }
  }

  /** A charge above the capacity is refused in every keyspace, and told to wait until
      an empty bucket would be full: that long and no longer. */
  lemma OversizedCheckNeverSucceeds(rates: Rates, db: Db, key: Key, cost: nat, now: Millis, ms: Millis)
    requires ValidRates(rates) && cost as real > rates(key).capacity
    ensures var wait := Check(rates, db, key, cost, now).retryMs;
            wait >= 1 && (ms >= wait <==> Gain(rates(key), ms) >= rates(key).capacity)
  {
    AdmitsIffCovered(rates(key), Entry(db, key), now, cost);
    WaitIsExact(rates(key), rates(key).capacity, ms);
  }

  lemma {:induction false} LongestIsLongest(rates: Rates, db: Db, keys: seq<Key>, costs: seq<nat>, now: Millis, n: nat)
    requires ValidRates(rates) && n <= |keys| == |costs|
    ensures var longest := LongestShortage(rates, db, keys, costs, now, n);
            && longest >= 0
            && (forall i :: 0 <= i < n ==>
                  Shortage(rates(keys[i]), LoadKey(rates, db, keys[i], now), costs[i]) <= longest)
            && (longest > 0 ==>
                  exists i ::
                    0 <= i < n && Shortage(rates(keys[i]), LoadKey(rates, db, keys[i], now), costs[i]) == longest)
  {
    if n > 0 {
      LongestIsLongest(rates, db, keys, costs, now, n - 1);
    }
  }

  /** A dimension charged above its capacity makes the lease fail for ever, and the
      lease is told to wait at least until that dimension's empty bucket would be full. */
  lemma OversizedLeaseNeverSucceeds(rates: Rates, db: Db, keys: seq<Key>, costs: seq<nat>, now: Millis, i: nat)
    requires ValidRates(rates) && |keys| == |costs| && i < |keys| && costs[i] as real > rates(keys[i]).capacity
    ensures Lease(rates, db, keys, costs, now).retryMs != 0
    ensures Gain(rates(keys[i]), Lease(rates, db, keys, costs, now).retryMs) >= rates(keys[i]).capacity
  {
    ShortageIffUncovered(rates, db, keys, costs, now, |keys|);
    AdmitsIffCovered(rates(keys[i]), Entry(db, keys[i]), now, costs[i]);
    LongestIsLongest(rates, db, keys, costs, now, |keys|);
    WaitIsExact(rates(keys[i]), rates(keys[i]).capacity, Lease(rates, db, keys, costs, now).retryMs);
  }

  datatype Verdict = Allowed | RetryAfter(seconds: nat)

  /** The public answer: whole seconds, or the in-process limiter's verdict when
      Redis failed. */
  function RedisOrLocal(result: Option<int>, local: Verdict): Verdict {
    match result
    case None => local
    case Some(ttl) => if ttl > 0 then RetryAfter(Max(1, (ttl + 999) / 1000)) else Allowed
  }

  /** The rounded answer is never too short, and too long by less than a second; without
      an answer from Redis it is the local one. */
  lemma SecondsCoverMillis(ms: int, local: Verdict)
    ensures var v := RedisOrLocal(Some(ms), local);
            && (v == Allowed <==> ms <= 0)
            && (ms > 0 ==> ms <= v.seconds * 1000 < ms + 1000)
    ensures RedisOrLocal(None, local) == local
  {
  }
}
