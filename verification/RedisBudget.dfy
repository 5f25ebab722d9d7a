/** What a shared key admits under any mix of single-key charges and leases. */
module RedisBudget {
  import opened Options
  import opened Sums
  import opened RedisBucket
  import opened RedisStore
  import opened RedisExpiry

  /** A lease names each of its keys once. */
  ghost predicate DistinctLeases(ops: seq<Op>) {
    forall i :: 0 <= i < |ops| && ops[i].LeaseAll? ==> DistinctKeys(ops[i].keys)
  }

  ghost predicate ValidOps(rates: Rates, ops: seq<Op>) { ValidRates(rates) && WellFormed(ops) && DistinctLeases(ops) }

  /** What the first `n` dimensions of a lease charge to the key. */
  ghost function CostFor(keys: seq<Key>, costs: seq<nat>, key: Key, n: nat): nat
    requires n <= |keys| == |costs|
  {
    if n == 0 then 0 else CostFor(keys, costs, key, n - 1) + if keys[n - 1] == key then costs[n - 1] else 0
  }

  /** What an operation charges to the key if it is admitted. */
  ghost function KeyCost(op: Op, key: Key): nat
    requires op.LeaseAll? ==> |op.keys| == |op.costs|
  {
    match op
    case Charge(k, cost, _) => if k == key then cost else 0
    case LeaseAll(keys, costs, _) => CostFor(keys, costs, key, |keys|)
    case Expire(_, _) => 0
  }

  /** Units that operation `n` admits for the key, on a server that expires keys or on
      one that keeps them. */
  ghost function KeyUnits(rates: Rates, ops: seq<Op>, key: Key, n: nat, expiring: bool): nat
    requires ValidOps(rates, ops) && n < |ops|
  {
    if ReplyTo(rates, ops, n, expiring) == 0 then KeyCost(ops[n], key) else 0
  }

  /** Units that operations `i` to `n - 1` admit for the key. */
  ghost function KeyAdmitted(rates: Rates, ops: seq<Op>, key: Key, i: nat, n: nat, expiring: bool): nat
    requires ValidOps(rates, ops) && i <= n <= |ops|
    decreases n
  {
    if i == n then 0
    else KeyAdmitted(rates, ops, key, i, n - 1, expiring) + KeyUnits(rates, ops, key, n - 1, expiring)
  }

  /** The key's bucket after the first `n` operations, on a server that keeps every key. */
  ghost function KeyEntry(rates: Rates, ops: seq<Op>, key: Key, n: nat): Option<Bucket>
    requires ValidOps(rates, ops) && n <= |ops|
  {
    Entry(Exec(rates, ops[..n], false), key)
  }

  /** Operation `n` stores the key's bucket: it is a charge of the key, or an admitted
      lease that includes it. */
  ghost predicate Writes(rates: Rates, ops: seq<Op>, key: Key, n: nat)
    requires ValidOps(rates, ops) && n < |ops|
  {
    match ops[n]
    case Charge(k, _, _) => k == key
    case LeaseAll(keys, _, _) => key in keys && ReplyTo(rates, ops, n, false) == 0
    case Expire(_, _) => false
  }

  /** The highest reading among the operations that stored the key. */
  ghost function Stamp(rates: Rates, ops: seq<Op>, key: Key, n: nat): Option<Millis>
    requires ValidOps(rates, ops) && n <= |ops|
    decreases n
  {
    if n == 0 then None
    else
      var before, now := Stamp(rates, ops, key, n - 1), ops[n - 1].now;
      if !Writes(rates, ops, key, n - 1) then before else Some(if before.None? then now else Max(before.value, now))
  }

  lemma {:induction false} CostIsZero(keys: seq<Key>, costs: seq<nat>, key: Key, n: nat)
    requires n <= |keys| == |costs| && key !in keys[..n]
    ensures CostFor(keys, costs, key, n) == 0
  {
    if n > 0 {
      assert keys[n - 1] in keys[..n] && keys[..n - 1] <= keys[..n];
      CostIsZero(keys, costs, key, n - 1);
    }
  }

  lemma {:induction false} CostIsOne(keys: seq<Key>, costs: seq<nat>, d: nat, n: nat)
    requires d < n <= |keys| == |costs| && DistinctKeys(keys)
    ensures CostFor(keys, costs, keys[d], n) == costs[d]
  {
    if d == n - 1 {
      CostIsZero(keys, costs, keys[d], d);
    } else {
      CostIsOne(keys, costs, d, n - 1);
    }
  }

  /** An admitted lease does to each of its keys what the single-key script does. */
  lemma LeaseChargesLikeScript(rates: Rates, db: Db, keys: seq<Key>, costs: seq<nat>, now: Millis, key: Key)
    requires ValidRates(rates) && |keys| == |costs| && DistinctKeys(keys) && key in keys
    requires Lease(rates, db, keys, costs, now).retryMs == 0
    ensures var r := BucketScript(rates(key), Entry(db, key), now, CostFor(keys, costs, key, |keys|));
            r.retryMs == 0 && Entry(Lease(rates, db, keys, costs, now).db, key) == Some(r.next)
  {
    hide Commit, LongestShortage, CostFor, Load, Store;
    var d :| 0 <= d < |keys| && keys[d] == key;
    CostIsOne(keys, costs, d, |keys|);
    ShortageIffUncovered(rates, db, keys, costs, now, |keys|);
    CommitAt(rates, db, keys, costs, now, |keys|, d);
    AdmitsIffCovered(rates(key), Entry(db, key), now, costs[d]);
  }

  lemma LeaseElsewhere(rates: Rates, db: Db, keys: seq<Key>, costs: seq<nat>, now: Millis, key: Key)
    requires ValidRates(rates) && |keys| == |costs|
    requires key !in keys || Lease(rates, db, keys, costs, now).retryMs != 0
    ensures Entry(Lease(rates, db, keys, costs, now).db, key) == Entry(db, key)
    ensures key !in keys ==> CostFor(keys, costs, key, |keys|) == 0
  {
    hide Commit, LongestShortage, CostFor;
    assert keys[..|keys|] == keys;
    if key !in keys {
      CostIsZero(keys, costs, key, |keys|);
      CommitElsewhere(rates, db, keys, costs, now, |keys|, key);
    }
  }

  /** One operation, seen from one key of a server that keeps every key. */
  lemma OpOnKey(rates: Rates, ops: seq<Op>, key: Key, n: nat)
    requires ValidOps(rates, ops) && n < |ops|
    ensures var before, after := KeyEntry(rates, ops, key, n), KeyEntry(rates, ops, key, n + 1);
            var r, units := BucketScript(rates(key), before, ops[n].now, KeyCost(ops[n], key)),
                            KeyUnits(rates, ops, key, n, false);
            if Writes(rates, ops, key, n)
            then after == Some(r.next) && units == if r.retryMs == 0 then KeyCost(ops[n], key) else 0
            else after == before && units == 0
  {
    hide BucketScript, Lease, CostFor;
    var db := Exec(rates, ops[..n], false);
    assert ops[..n + 1][..n] == ops[..n];
    match ops[n]
    case Charge(_, _, _) =>
    case LeaseAll(keys, costs, now) =>
      if Writes(rates, ops, key, n) {
        LeaseChargesLikeScript(rates, db, keys, costs, now, key);
      } else {
        LeaseElsewhere(rates, db, keys, costs, now, key);
      }
    case Expire(_, _) =>
  }

  // ---- the budget ----

  /** The stored bucket carries the stamp and lies within its capacity. */
  ghost predicate Stamped(rate: Rate, e: Option<Bucket>, stamp: Option<Millis>) {
    if e.None? then stamp.None? else stamp == Some(e.value.lastMs) && 0.0 <= e.value.tokens <= rate.capacity
  }

  lemma ScriptStamps(rate: Rate, e: Option<Bucket>, stamp: Option<Millis>, now: Millis, cost: nat)
    requires ValidRate(rate) && Stamped(rate, e, stamp)
    ensures Stamped(rate, Some(BucketScript(rate, e, now, cost).next),
                    Some(if stamp.None? then now else Max(stamp.value, now)))
  {
    if e.None? {
      FirstCharge(rate, now, cost);
    } else {
      ChargeKeepsCover(rate, e.value, now, cost, Max(e.value.lastMs, now), 0);
    }
  }

  lemma NoOpsYet(rates: Rates, ops: seq<Op>, key: Key)
    requires ValidOps(rates, ops)
    ensures KeyEntry(rates, ops, key, 0) == None && Stamp(rates, ops, key, 0) == None
  {
    assert ops[..0] == [];
  }

  lemma StampStep(rates: Rates, ops: seq<Op>, key: Key, n: nat)
    requires ValidOps(rates, ops) && n < |ops|
    ensures var before, now := Stamp(rates, ops, key, n), ops[n].now;
            Stamp(rates, ops, key, n + 1) ==
            if !Writes(rates, ops, key, n) then before else Some(if before.None? then now else Max(before.value, now))
  {
    hide Writes;
  }

  lemma {:induction false} RunStamped(rates: Rates, ops: seq<Op>, key: Key, n: nat)
    requires ValidOps(rates, ops) && n <= |ops|
    ensures Stamped(rates(key), KeyEntry(rates, ops, key, n), Stamp(rates, ops, key, n))
  {
    hide BucketScript, KeyEntry, Writes, KeyCost, KeyUnits, Stamp;
    if n == 0 {
      NoOpsYet(rates, ops, key);
    } else {
      RunStamped(rates, ops, key, n - 1);
      OpOnKey(rates, ops, key, n - 1);
      StampStep(rates, ops, key, n - 1);
      ScriptStamps(rates(key), KeyEntry(rates, ops, key, n - 1), Stamp(rates, ops, key, n - 1),
                   ops[n - 1].now, KeyCost(ops[n - 1], key));
    }
  }

  /** The key's books since operation `i` stored it. */
  ghost predicate Booked(rates: Rates, ops: seq<Op>, key: Key, i: nat, n: nat)
    requires ValidOps(rates, ops) && i < n <= |ops|
  {
    var e, start := KeyEntry(rates, ops, key, n), Stamp(rates, ops, key, i + 1);
    && e.Some? && start.Some?
    && Covered(rates(key), e.value.tokens, KeyAdmitted(rates, ops, key, i, n, false), e.value.lastMs - start.value)
  }

  lemma OpensBooks(rates: Rates, ops: seq<Op>, key: Key, i: nat)
    requires ValidOps(rates, ops) && i < |ops| && Writes(rates, ops, key, i)
    ensures Booked(rates, ops, key, i, i + 1)
  {
    hide BucketScript, KeyEntry, Writes, KeyCost, Covered, KeyUnits, Stamp;
    var e, now, cost := KeyEntry(rates, ops, key, i), ops[i].now, KeyCost(ops[i], key);
    RunStamped(rates, ops, key, i);
    OpOnKey(rates, ops, key, i);
    StampStep(rates, ops, key, i);
    assert KeyAdmitted(rates, ops, key, i, i, false) == 0;
    if e.None? {
      FirstCharge(rates(key), now, cost);
    } else {
      ChargeKeepsCover(rates(key), e.value, now, cost, Max(e.value.lastMs, now), 0);
    }
  }

  lemma KeepsBooks(rates: Rates, ops: seq<Op>, key: Key, i: nat, n: nat)
    requires ValidOps(rates, ops) && i < n < |ops| && Booked(rates, ops, key, i, n)
    ensures Booked(rates, ops, key, i, n + 1)
  {
    hide BucketScript, KeyEntry, Writes, KeyCost, Covered, KeyUnits, Stamp;
    var e, now, cost := KeyEntry(rates, ops, key, n), ops[n].now, KeyCost(ops[n], key);
    OpOnKey(rates, ops, key, n);
    if Writes(rates, ops, key, n) {
      var start, admitted := Stamp(rates, ops, key, i + 1).value, KeyAdmitted(rates, ops, key, i, n, false);
      CoverIsBounded(rates(key), e.value.tokens, admitted, e.value.lastMs - start);
      ChargeKeepsCover(rates(key), e.value, now, cost, start, admitted);
    }
  }

  lemma {:induction false} RunBooked(rates: Rates, ops: seq<Op>, key: Key, i: nat, n: nat)
    requires ValidOps(rates, ops) && i < n <= |ops| && Writes(rates, ops, key, i)
    ensures Booked(rates, ops, key, i, n)
  {
    hide Booked, Writes, ValidOps;
    if n == i + 1 {
      OpensBooks(rates, ops, key, i);
    } else {
      RunBooked(rates, ops, key, i, n - 1);
      KeepsBooks(rates, ops, key, i, n - 1);
    }
  }

  /** For every mix of charges and leases and every sequence of clock readings,
      backward jumps included: from an operation that stored the key on, it admits at
      most its capacity plus the refill between the highest readings that it was stored
      at, and its tokens stay within the bucket. */
  lemma KeyBudget(rates: Rates, ops: seq<Op>, key: Key, i: nat, n: nat)
    requires ValidOps(rates, ops) && i < n <= |ops| && Writes(rates, ops, key, i)
    ensures var from, to := Stamp(rates, ops, key, i + 1), Stamp(rates, ops, key, n);
            && from.Some? && to.Some? && from.value >= ops[i].now
            && KeyAdmitted(rates, ops, key, i, n, false) as real <= Allowance(rates(key), to.value - from.value)
    ensures var e := KeyEntry(rates, ops, key, n); e.Some? && 0.0 <= e.value.tokens <= rates(key).capacity
  {
    hide KeyEntry, Writes, KeyAdmitted, Covered, Allowance, ValidOps, ValidRate, Stamp;
    RunBooked(rates, ops, key, i, n);
    RunStamped(rates, ops, key, n);
    StampStep(rates, ops, key, i);
    var e := KeyEntry(rates, ops, key, n).value;
    CoverIsBounded(rates(key), e.tokens, KeyAdmitted(rates, ops, key, i, n, false),
                   e.lastMs - Stamp(rates, ops, key, i + 1).value);
  }

  // ---- with a clock that does not run backwards ----

  lemma {:induction false} SameAdmitted(rates: Rates, ops: seq<Op>, key: Key, i: nat, n: nat)
    requires ValidOps(rates, ops) && ClockOrdered(ops) && i <= n <= |ops|
    ensures KeyAdmitted(rates, ops, key, i, n, true) == KeyAdmitted(rates, ops, key, i, n, false)
  {
    hide ReplyTo, KeyCost, ClockOrdered, WellFormed, DistinctLeases, ValidRates;
    if i < n {
      SameAdmitted(rates, ops, key, i, n - 1);
      ExpiryIsUnobservable(rates, ops, n - 1);
    }
  }

  lemma {:induction false} StampWithin(rates: Rates, ops: seq<Op>, key: Key, n: nat)
    requires ValidOps(rates, ops) && ClockOrdered(ops) && 0 < n <= |ops|
    ensures var stamp := Stamp(rates, ops, key, n); stamp.Some? ==> stamp.value <= ops[n - 1].now
  {
    hide Writes;
    if n > 1 {
      StampWithin(rates, ops, key, n - 1);
    }
  }

  /** The first operation of a span that stores the key; none before it admits anything
      for the key. */
  lemma {:induction false} FirstWrite(rates: Rates, ops: seq<Op>, key: Key, i: nat, n: nat) returns (w: nat)
    requires ValidOps(rates, ops) && i <= n <= |ops|
    ensures i <= w <= n && KeyAdmitted(rates, ops, key, i, w, false) == 0
    ensures w < n ==> Writes(rates, ops, key, w)
  {
    hide Writes, KeyUnits, KeyCost, BucketScript, KeyEntry;
    w := n;
    if i < n {
      w := FirstWrite(rates, ops, key, i, n - 1);
      if w == n - 1 && !Writes(rates, ops, key, n - 1) {
        OpOnKey(rates, ops, key, n - 1);
        w := n;
      }
    }
  }

  lemma {:induction false} AdmittedSplits(rates: Rates, ops: seq<Op>, key: Key, i: nat, w: nat, n: nat)
    requires ValidOps(rates, ops) && i <= w <= n <= |ops|
    ensures KeyAdmitted(rates, ops, key, i, n, false) ==
            KeyAdmitted(rates, ops, key, i, w, false) + KeyAdmitted(rates, ops, key, w, n, false)
  {
    hide KeyUnits, ValidOps;
    if w < n {
      AdmittedSplits(rates, ops, key, i, w, n - 1);
    }
  }

  /** Then, on a server that evicts keys at or after their deadlines, every key, lease
      dimensions included, admits over any span of operations at most its capacity plus
      the refill of the time between the first and the last of them. */
  lemma EveryKeyWithinBudget(rates: Rates, ops: seq<Op>, key: Key, i: nat, j: nat)
    requires ValidOps(rates, ops) && ClockOrdered(ops) && i <= j < |ops|
    ensures KeyAdmitted(rates, ops, key, i, j + 1, true) as real <= Allowance(rates(key), ops[j].now - ops[i].now)
  {
    hide KeyAdmitted, Writes, Stamp, KeyEntry;
    var w := FirstWrite(rates, ops, key, i, j + 1);
    SameAdmitted(rates, ops, key, i, j + 1);
    AdmittedSplits(rates, ops, key, i, w, j + 1);
    GainMonotone(rates(key), 0, ops[j].now - ops[i].now);
    if w <= j {
      KeyBudget(rates, ops, key, w, j + 1);
      StampWithin(rates, ops, key, j + 1);
      var from, to := Stamp(rates, ops, key, w + 1).value, Stamp(rates, ops, key, j + 1).value;
      GainMonotone(rates(key), to - from, ops[j].now - ops[i].now);
    } else {
      AdmittedSplits(rates, ops, key, j + 1, j + 1, j + 1);
    }
  }
}
