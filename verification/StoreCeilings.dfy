/** What the sharded store admits, in whatever order requests arrive and whatever is
    swept in between, and exactly when its ceilings hold. */
module StoreCeilings {
  import opened Options
  import opened Sums
  import opened LocalLimiter
  import opened ShardedStore

  lemma {:induction false} EntryBounded(p: Policies, calls: seq<Request>, key: PartitionKey, n: nat)
    requires ValidPolicies(p) && n <= |calls|
    ensures var e := EntryOf(p, calls, key, n); e.Some? ==> Bounded(p.kindOf(key.policy), e.value)
  {
    if n == 0 {
      NothingYet(p, calls, key);
    } else {
      hide EntryOf, SweptEntry, CanSweep, Decide, ShardedVerdict, Retains, Bounded;
      EntryBounded(p, calls, key, n - 1);
      EntryStep(p, calls, key, n - 1);
      SweepTakes(p, calls, key, n - 1);
      if calls[n - 1].key == key {
        var kind := p.kindOf(key.policy);
        FreshBounded(kind, calls[n - 1].now);
        DecideKeepsBounds(kind, OrFresh(SweptEntry(p, calls, key, n - 1), kind, calls[n - 1].now), calls[n - 1].now,
                          calls[n - 1].cost);
      }
    }
  }

  lemma FreshBounded(kind: Kind, now: Time)
    requires ValidKind(kind)
    ensures Bounded(kind, Fresh(kind, now))
  {
  }

  lemma SweptBounded(p: Policies, calls: seq<Request>, key: PartitionKey, n: nat)
    requires ValidPolicies(p) && n < |calls|
    ensures Bounded(p.kindOf(key.policy), OrFresh(SweptEntry(p, calls, key, n), p.kindOf(key.policy), calls[n].now))
  {
    hide EntryOf, SweptEntry, CanSweep, Retains, Bounded;
    EntryBounded(p, calls, key, n);
    SweepTakes(p, calls, key, n);
    FreshBounded(p.kindOf(key.policy), calls[n].now);
  }

  // ---- the sliding window ----

  /** Call `e` can free slots that a call before `n` may use: it is for the key, or
      it can sweep and a call for the key follows. */
  ghost predicate Frees(p: Policies, calls: seq<Request>, key: PartitionKey, e: nat, n: nat)
    requires e < n <= |calls|
  {
    calls[e].key == key || (CanSweep(p, calls, key, e) && exists k :: e < k < n && calls[k].key == key)
  }

  /** None of them reads a window or more after an earlier call for the key. */
  ghost predicate StoreWithin(p: Policies, calls: seq<Request>, key: PartitionKey, i: nat, n: nat, window: real)
    requires i <= n <= |calls|
  {
    forall m, e :: i <= m < e < n && calls[m].key == key && Frees(p, calls, key, e, n) ==>
      calls[e].now - calls[m].now < window
  }

  ghost function OwnReadings(calls: seq<Request>, key: PartitionKey, i: nat, n: nat): set<Time>
    requires i <= n <= |calls|
  {
    set m | i <= m < n && calls[m].key == key :: calls[m].now
  }

  /** The hits admitted since call `i` are all retained, newest last. */
  ghost predicate Retained(e: Option<PartitionState>, admitted: nat, readings: set<Time>) {
    admitted == 0 || (e.Some? && e.value.Hits? && Holds(e.value.times, admitted, readings))
  }

  lemma SweepRetains(kind: Kind, e: Option<PartitionState>, admitted: nat, readings: set<Time>, now: Time)
    requires ValidKind(kind) && kind.Sliding? && Retained(e, admitted, readings) && admitted > 0
    requires forall t :: t in readings ==> now - t < kind.window
    ensures e.Some? && Retains(kind, e.value, now)
  {
    var times := e.value.times;
    assert times[|times| - 1] in readings;
  }

  lemma OwnSlidingStep(p: Policies, calls: seq<Request>, key: PartitionKey, i: nat, n: nat)
    requires ValidPolicies(p) && i <= n < |calls| && p.kindOf(key.policy).Sliding? && calls[n].key == key
    requires Retained(SweptEntry(p, calls, key, n), StoreAdmitted(p, calls, key, i, n), OwnReadings(calls, key, i, n))
    requires forall t :: t in OwnReadings(calls, key, i, n) ==> calls[n].now - t < p.kindOf(key.policy).window
    ensures Retained(EntryOf(p, calls, key, n + 1), StoreAdmitted(p, calls, key, i, n + 1),
                     OwnReadings(calls, key, i, n + 1))
    ensures StoreAdmitted(p, calls, key, i, n + 1) <= p.kindOf(key.policy).permit
  {
    hide EntryOf, SweptEntry, ShardedVerdict, DecideSliding, OwnReadings, Holds;
    var kind, call, admitted := p.kindOf(key.policy), calls[n], StoreAdmitted(p, calls, key, i, n);
    var st := OrFresh(SweptEntry(p, calls, key, n), kind, call.now);
    SweptBounded(p, calls, key, n);
    HoldsNothing(st.times, OwnReadings(calls, key, i, n));
    SlidingHolds(kind.permit, kind.window, st.times, OwnReadings(calls, key, i, n), call.now, call.cost, admitted);
    DecideKeepsBounds(kind, st, call.now, call.cost);
    EntryStep(p, calls, key, n);
    OwnReadingsGrow(calls, key, i, n);
    HoldsBounds(OwnDecision(p, calls, key, n).next.times, StoreAdmitted(p, calls, key, i, n + 1),
                OwnReadings(calls, key, i, n + 1));
  }

  lemma HoldsNothing(times: seq<Time>, readings: set<Time>)
    ensures Holds(times, 0, readings)
  {
  }

  lemma HoldsBounds(times: seq<Time>, admitted: nat, readings: set<Time>)
    ensures Holds(times, admitted, readings) ==> admitted <= |times|
  {
  }

  lemma OwnReadingsGrow(calls: seq<Request>, key: PartitionKey, i: nat, n: nat)
    requires i <= n < |calls|
    ensures calls[n].key == key ==> OwnReadings(calls, key, i, n + 1) == OwnReadings(calls, key, i, n) + {calls[n].now}
    ensures calls[n].key != key ==> OwnReadings(calls, key, i, n + 1) == OwnReadings(calls, key, i, n)
  {
  }

  /** As long as a call for the key follows, none of its hits has been lost. */
  lemma {:induction false} SlidingSpan(p: Policies, calls: seq<Request>, key: PartitionKey, i: nat, n: nat, last: nat)
    requires ValidPolicies(p) && i <= n <= last < |calls| && p.kindOf(key.policy).Sliding? && calls[last].key == key
    requires StoreWithin(p, calls, key, i, last + 1, p.kindOf(key.policy).window)
    ensures Retained(EntryOf(p, calls, key, n), StoreAdmitted(p, calls, key, i, n), OwnReadings(calls, key, i, n))
  {
    if i < n {
      hide EntryOf, SweptEntry, CanSweep, Retains, OwnReadings, Holds, ShardedVerdict;
      SlidingSpan(p, calls, key, i, n - 1, last);
      SlidingSwept(p, calls, key, i, n - 1, last);
      OwnReadingsGrow(calls, key, i, n - 1);
      EntryStep(p, calls, key, n - 1);
      if calls[n - 1].key == key {
        RecentReadings(p, calls, key, i, n - 1, last, p.kindOf(key.policy).window);
        OwnSlidingStep(p, calls, key, i, n - 1);
      }
    }
  }

  lemma RecentReadings(p: Policies, calls: seq<Request>, key: PartitionKey, i: nat, e: nat, last: nat, window: real)
    requires i <= e <= last < |calls| && calls[last].key == key && StoreWithin(p, calls, key, i, last + 1, window)
    requires calls[e].key == key || (CanSweep(p, calls, key, e) && e < last)
    ensures forall t :: t in OwnReadings(calls, key, i, e) ==> calls[e].now - t < window
  {
    hide CanSweep;
    assert Frees(p, calls, key, e, last + 1);
  }

  lemma SlidingSwept(p: Policies, calls: seq<Request>, key: PartitionKey, i: nat, e: nat, last: nat)
    requires ValidPolicies(p) && i <= e <= last < |calls| && p.kindOf(key.policy).Sliding? && calls[last].key == key
    requires StoreWithin(p, calls, key, i, last + 1, p.kindOf(key.policy).window)
    requires Retained(EntryOf(p, calls, key, e), StoreAdmitted(p, calls, key, i, e), OwnReadings(calls, key, i, e))
    ensures Retained(SweptEntry(p, calls, key, e), StoreAdmitted(p, calls, key, i, e), OwnReadings(calls, key, i, e))
  {
    hide EntryOf, SweptEntry, CanSweep, Retains, OwnReadings, Holds, StoreAdmitted;
    SweepTakes(p, calls, key, e);
    var admitted := StoreAdmitted(p, calls, key, i, e);
    if SweptEntry(p, calls, key, e) != EntryOf(p, calls, key, e) && admitted > 0 {
      RecentReadings(p, calls, key, i, e, last, p.kindOf(key.policy).window);
      SweepRetains(p.kindOf(key.policy), EntryOf(p, calls, key, e), admitted, OwnReadings(calls, key, i, e),
                   calls[e].now);
    }
  }

  /** In whatever order requests arrive and whatever is swept: calls of which none that
      frees slots reads a window or more after an earlier one for the key are admitted
      at most `permit` units. */
  lemma {:induction false} RunSlidingCeiling(p: Policies, calls: seq<Request>, key: PartitionKey, i: nat, n: nat)
    requires ValidPolicies(p) && i <= n <= |calls| && p.kindOf(key.policy).Sliding?
    requires StoreWithin(p, calls, key, i, n, p.kindOf(key.policy).window)
    ensures StoreAdmitted(p, calls, key, i, n) <= p.kindOf(key.policy).permit
  {
    if i < n {
      hide EntryOf, SweptEntry, CanSweep, OwnReadings, Retained;
      if calls[n - 1].key == key {
        SlidingSpan(p, calls, key, i, n - 1, n - 1);
        SlidingSwept(p, calls, key, i, n - 1, n - 1);
        RecentReadings(p, calls, key, i, n - 1, n - 1, p.kindOf(key.policy).window);
        OwnSlidingStep(p, calls, key, i, n - 1);
      } else {
        WithinShrinks(p, calls, key, i, n, p.kindOf(key.policy).window);
        RunSlidingCeiling(p, calls, key, i, n - 1);
      }
    }
  }

  lemma WithinShrinks(p: Policies, calls: seq<Request>, key: PartitionKey, i: nat, n: nat, window: real)
    requires i < n <= |calls| && StoreWithin(p, calls, key, i, n, window)
    ensures StoreWithin(p, calls, key, i, n - 1, window)
  {
    hide CanSweep;
    forall m, e | i <= m < e < n - 1 && calls[m].key == key && Frees(p, calls, key, e, n - 1)
      ensures calls[e].now - calls[m].now < window
    {
      assert Frees(p, calls, key, e, n);
    }
  }

  // ---- the token bucket ----

  /** The reading of the last call for the key. */
  ghost function LastOwn(calls: seq<Request>, key: PartitionKey, i: nat, n: nat): Time
    requires i < n <= |calls|
  {
    if n == i + 1 || calls[n - 1].key == key then calls[n - 1].now else LastOwn(calls, key, i, n - 1)
  }

  /** The latest reading of the last call for the key and of those that could sweep
      since. */
  ghost function Peak(p: Policies, calls: seq<Request>, key: PartitionKey, i: nat, n: nat): Time
    requires i < n <= |calls|
  {
    if n == i + 1 || calls[n - 1].key == key then calls[n - 1].now
    else if CanSweep(p, calls, key, n - 1) then MaxReal(Peak(p, calls, key, i, n - 1), calls[n - 1].now)
    else Peak(p, calls, key, i, n - 1)
  }

  /** For how long the bucket can have been refilled over calls `i` to `n - 1`: from
      each call for the key to the next one, or to a later reading that could sweep it
      in between. */
  ghost function StoreForward(p: Policies, calls: seq<Request>, key: PartitionKey, i: nat, n: nat): real
    requires i < n <= |calls|
  {
    if n == i + 1 then 0.0
    else if calls[n - 1].key == key then
      StoreForward(p, calls, key, i, n - 1)
      + Since(MaxReal(calls[n - 1].now, Peak(p, calls, key, i, n - 1)), LastOwn(calls, key, i, n - 1))
    else StoreForward(p, calls, key, i, n - 1)
  }

  /** The bucket's books after `n` calls. An evicted bucket is full at the next call,
      but only because it could be full at the peak. */
  ghost predicate Budgeted(p: Policies, calls: seq<Request>, key: PartitionKey, i: nat, n: nat)
    requires ValidPolicies(p) && i < n <= |calls| && p.kindOf(key.policy).Bucket?
  {
    BooksHold(p.kindOf(key.policy), EntryOf(p, calls, key, n), LastOwn(calls, key, i, n), Peak(p, calls, key, i, n),
              StoreForward(p, calls, key, i, n), StoreAdmitted(p, calls, key, i, n))
  }

  ghost predicate BooksHold(kind: Kind, e: Option<PartitionState>, last: Time, peak: Time, forward: real, admitted: nat)
    requires kind.Bucket?
  {
    if e.Some? then
      && e.value.Tokens? && e.value.last == last && e.value.tokens >= 0.0
      && Covered(kind.capacity, kind.refillPerSec, e.value.tokens, forward, admitted)
    else Covered(kind.capacity, kind.refillPerSec, kind.capacity, forward + Since(peak, last), admitted)
  }

  lemma CoveredGrows(capacity: real, refill: real, tokens: real, forward: real, more: real, admitted: nat)
    requires refill > 0.0 && forward <= more && Covered(capacity, refill, tokens, forward, admitted)
    ensures Covered(capacity, refill, tokens, more, admitted)
  {
    AllowanceAdds(capacity, refill, forward, more - forward);
  }

  /** A bucket that a sweep does not retain would be full at the sweep's reading. */
  lemma EvictedCovers(kind: Kind, st: PartitionState, now: Time, forward: real, admitted: nat)
    requires ValidKind(kind) && kind.Bucket? && st.Tokens? && !Retains(kind, st, now)
    requires Covered(kind.capacity, kind.refillPerSec, st.tokens, forward, admitted)
    ensures Covered(kind.capacity, kind.refillPerSec, kind.capacity, forward + Since(now, st.last), admitted)
  {
    AllowanceAdds(kind.capacity, kind.refillPerSec, forward, Since(now, st.last));
  }

  /** The books survive a sweep, if its reading is part of the peak. */
  lemma SweepKeepsBooks(kind: Kind, e: Option<PartitionState>, now: Time, last: Time, peak: Time, forward: real,
                        admitted: nat)
    requires ValidKind(kind) && kind.Bucket? && BooksHold(kind, e, last, peak, forward, admitted)
    requires e.Some? && !Retains(kind, e.value, now) && now <= peak
    ensures BooksHold(kind, None, last, peak, forward, admitted)
  {
    hide Covered, Retains;
    EvictedCovers(kind, e.value, now, forward, admitted);
    CoveredGrows(kind.capacity, kind.refillPerSec, kind.capacity, forward + Since(now, last),
                 forward + Since(peak, last), admitted);
  }

  lemma BooksLater(kind: Kind, e: Option<PartitionState>, last: Time, peak: Time, later: Time, forward: real,
                   admitted: nat)
    requires ValidKind(kind) && kind.Bucket? && BooksHold(kind, e, last, peak, forward, admitted) && peak <= later
    ensures BooksHold(kind, e, last, later, forward, admitted)
  {
    hide Covered;
    if e.None? {
      CoveredGrows(kind.capacity, kind.refillPerSec, kind.capacity, forward + Since(peak, last),
                   forward + Since(later, last), admitted);
    }
  }

  /** A call for the key, from books whose peak is not before its reading. */
  lemma OwnKeepsBooks(kind: Kind, e: Option<PartitionState>, now: Time, cost: nat, last: Time, peak: Time,
                      forward: real, admitted: nat)
    requires ValidKind(kind) && kind.Bucket? && BooksHold(kind, e, last, peak, forward, admitted) && now <= peak
    requires e.Some? ==> Bounded(kind, e.value)
    ensures var d := Decide(kind, OrFresh(e, kind, now), now, cost);
            BooksHold(kind, Some(d.next), now, now, forward + Since(peak, last),
                      admitted + if d.verdict.Allowed? then UnitsOf(cost) else 0)
  {
    hide Covered, DecideBucket;
    var st, units := OrFresh(e, kind, now), UnitsOf(cost);
    var d := Decide(kind, st, now, cost);
    var after := admitted + if d.verdict.Allowed? then units else 0;
    DecideKeepsBounds(kind, st, now, cost);
    if e.Some? {
      BucketSpends(kind.capacity, kind.refillPerSec, st.tokens, st.last, now, cost, forward, admitted);
      CoveredGrows(kind.capacity, kind.refillPerSec, d.next.tokens, forward + Since(now, last),
                   forward + Since(peak, last), after);
    } else {
      BucketSpends(kind.capacity, kind.refillPerSec, kind.capacity, now, now, cost,
                   forward + Since(peak, last), admitted);
      assert forward + Since(peak, last) + Since(now, now) == forward + Since(peak, last);
    }
  }

  lemma SpanOpens(p: Policies, calls: seq<Request>, key: PartitionKey, i: nat)
    requires ValidPolicies(p) && i < |calls| && p.kindOf(key.policy).Bucket? && calls[i].key == key
    ensures Budgeted(p, calls, key, i, i + 1)
  {
    hide EntryOf, SweptEntry, Covered, DecideBucket, ShardedVerdict;
    var kind, call := p.kindOf(key.policy), calls[i];
    var st := OrFresh(SweptEntry(p, calls, key, i), kind, call.now);
    SweptBounded(p, calls, key, i);
    EntryStep(p, calls, key, i);
    DecideKeepsBounds(kind, st, call.now, call.cost);
    BucketOpens(kind.capacity, kind.refillPerSec, st.tokens, st.last, call.now, call.cost);
    assert StoreAdmitted(p, calls, key, i, i) == 0;
  }

  /** The swept books for the peak that includes call `n`. */
  lemma SweptBooks(p: Policies, calls: seq<Request>, key: PartitionKey, i: nat, n: nat, peak: Time)
    requires ValidPolicies(p) && i < n < |calls| && p.kindOf(key.policy).Bucket? && Budgeted(p, calls, key, i, n)
    requires Peak(p, calls, key, i, n) <= peak && (CanSweep(p, calls, key, n) ==> calls[n].now <= peak)
    ensures BooksHold(p.kindOf(key.policy), SweptEntry(p, calls, key, n), LastOwn(calls, key, i, n), peak,
                      StoreForward(p, calls, key, i, n), StoreAdmitted(p, calls, key, i, n))
  {
    hide EntryOf, SweptEntry, CanSweep, Retains, BooksHold, StoreForward, StoreAdmitted, Peak, LastOwn;
    var kind, e := p.kindOf(key.policy), EntryOf(p, calls, key, n);
    var last, forward, admitted := LastOwn(calls, key, i, n), StoreForward(p, calls, key, i, n),
                                   StoreAdmitted(p, calls, key, i, n);
    SweepTakes(p, calls, key, n);
    BooksLater(kind, e, last, Peak(p, calls, key, i, n), peak, forward, admitted);
    if SweptEntry(p, calls, key, n) != e {
      SweepKeepsBooks(kind, e, calls[n].now, last, peak, forward, admitted);
    }
  }

  lemma OwnBudget(p: Policies, calls: seq<Request>, key: PartitionKey, i: nat, n: nat)
    requires ValidPolicies(p) && i < n < |calls| && p.kindOf(key.policy).Bucket? && calls[n].key == key
    requires Budgeted(p, calls, key, i, n)
    ensures Budgeted(p, calls, key, i, n + 1)
  {
    hide EntryOf, SweptEntry, CanSweep, Decide, BooksHold, ShardedVerdict, Bounded;
    var call, peak := calls[n], MaxReal(calls[n].now, Peak(p, calls, key, i, n));
    EntryStep(p, calls, key, n);
    SweptBooks(p, calls, key, i, n, peak);
    SweptBounded(p, calls, key, n);
    OwnKeepsBooks(p.kindOf(key.policy), SweptEntry(p, calls, key, n), call.now, call.cost, LastOwn(calls, key, i, n),
                  peak, StoreForward(p, calls, key, i, n), StoreAdmitted(p, calls, key, i, n));
  }

  lemma OtherBudget(p: Policies, calls: seq<Request>, key: PartitionKey, i: nat, n: nat)
    requires ValidPolicies(p) && i < n < |calls| && p.kindOf(key.policy).Bucket? && calls[n].key != key
    requires Budgeted(p, calls, key, i, n)
    ensures Budgeted(p, calls, key, i, n + 1)
  {
    hide EntryOf, SweptEntry, CanSweep, BooksHold, ShardedVerdict, Decide;
    EntryStep(p, calls, key, n);
    SweptBooks(p, calls, key, i, n, Peak(p, calls, key, i, n + 1));
  }

  lemma {:induction false} BudgetRun(p: Policies, calls: seq<Request>, key: PartitionKey, i: nat, n: nat)
    requires ValidPolicies(p) && i < n <= |calls| && p.kindOf(key.policy).Bucket? && calls[i].key == key
    ensures Budgeted(p, calls, key, i, n)
  {
    hide Budgeted;
    if n == i + 1 {
      SpanOpens(p, calls, key, i);
    } else {
      BudgetRun(p, calls, key, i, n - 1);
      if calls[n - 1].key == key {
        OwnBudget(p, calls, key, i, n - 1);
      } else {
        OtherBudget(p, calls, key, i, n - 1);
      }
    }
  }

  /** In whatever order requests arrive and whatever is swept: a span from one call for
      the key to another admits at most the capacity plus the refill of `StoreForward`. */
  lemma StoreBudget(p: Policies, calls: seq<Request>, key: PartitionKey, i: nat, j: nat)
    requires ValidPolicies(p) && i <= j < |calls| && p.kindOf(key.policy).Bucket? && calls[i].key == key == calls[j].key
    ensures var kind := p.kindOf(key.policy);
            StoreAdmitted(p, calls, key, i, j + 1) as real <=
            Allowance(kind.capacity, kind.refillPerSec, StoreForward(p, calls, key, i, j + 1))
  {
    hide EntryOf, SweptEntry, ShardedVerdict, Decide, StoreForward, StoreAdmitted, Peak, LastOwn, Allowance, Covered;
    var kind := p.kindOf(key.policy);
    BudgetRun(p, calls, key, i, j + 1);
    EntryStep(p, calls, key, j);
    CoveredBounds(kind.capacity, kind.refillPerSec, EntryOf(p, calls, key, j + 1).value.tokens,
                  StoreForward(p, calls, key, i, j + 1), StoreAdmitted(p, calls, key, i, j + 1));
  }

  // ---- the budget is the elapsed time exactly in a calm span ----

  /** No call for the key between `x` and `n`. */
  ghost predicate NoOwnAfter(calls: seq<Request>, key: PartitionKey, x: nat, n: nat)
    requires n <= |calls|
  {
    forall k :: x < k < n ==> calls[k].key != key
  }

  lemma {:induction false} PeakIs(p: Policies, calls: seq<Request>, key: PartitionKey, i: nat, n: nat)
    returns (top: nat, own: nat)
    requires i < n <= |calls| && calls[i].key == key
    ensures i <= own <= top < n && calls[own].key == key && NoOwnAfter(calls, key, own, n)
    ensures calls[own].now == LastOwn(calls, key, i, n)
    ensures Touches(p, calls, key, top) && calls[top].now == Peak(p, calls, key, i, n) >= LastOwn(calls, key, i, n)
    ensures forall x :: own <= x < n && Touches(p, calls, key, x) ==> calls[x].now <= Peak(p, calls, key, i, n)
  {
    hide CanSweep;
    if n == i + 1 || calls[n - 1].key == key {
      top, own := n - 1, n - 1;
    } else {
      top, own := PeakIs(p, calls, key, i, n - 1);
      if CanSweep(p, calls, key, n - 1) && calls[n - 1].now > Peak(p, calls, key, i, n - 1) {
        top := n - 1;
      }
    }
  }

  /** A further call for the key keeps the span calm exactly if it reads no earlier
      than the peak. */
  lemma CalmStep(p: Policies, calls: seq<Request>, key: PartitionKey, i: nat, n: nat)
    requires i < n < |calls| && calls[i].key == key && calls[n].key == key
    ensures CalmFrom(p, calls, key, i, n + 1) <==>
            CalmFrom(p, calls, key, i, n) && Peak(p, calls, key, i, n) <= calls[n].now
  {
    hide CanSweep, Peak, LastOwn;
    var top, own := PeakIs(p, calls, key, i, n);
    if CalmFrom(p, calls, key, i, n) && Peak(p, calls, key, i, n) <= calls[n].now {
      forall x | i <= x < n && Touches(p, calls, key, x) ensures calls[x].now <= calls[n].now {
        assert x < own ==> calls[x].now <= calls[own].now;
      }
    }
    if CalmFrom(p, calls, key, i, n + 1) {
      assert calls[top].now <= calls[n].now;
    }
  }

  /** The budget is that of the elapsed time if and only if the span is calm. */
  lemma {:induction false} StoreForwardIsElapsed(p: Policies, calls: seq<Request>, key: PartitionKey, i: nat, n: nat)
    requires i < n <= |calls| && calls[i].key == key
    ensures StoreForward(p, calls, key, i, n) >= LastOwn(calls, key, i, n) - calls[i].now
    ensures StoreForward(p, calls, key, i, n) == LastOwn(calls, key, i, n) - calls[i].now <==>
            CalmFrom(p, calls, key, i, n)
  {
    if n > i + 1 {
      hide CanSweep;
      StoreForwardIsElapsed(p, calls, key, i, n - 1);
      var top, own := PeakIs(p, calls, key, i, n - 1);
      if calls[n - 1].key == key {
        CalmStep(p, calls, key, i, n - 1);
      } else {
        assert CalmFrom(p, calls, key, i, n) <==> CalmFrom(p, calls, key, i, n - 1);
      }
    }
  }

  /** The promise over the span between two calls for the key. */
  ghost predicate SpanKept(p: Policies, calls: seq<Request>, key: PartitionKey, i: nat, j: nat)
    requires ValidPolicies(p) && i <= j < |calls| && p.kindOf(key.policy).Bucket?
  {
    var kind := p.kindOf(key.policy);
    StoreAdmitted(p, calls, key, i, j + 1) as real <=
    Allowance(kind.capacity, kind.refillPerSec, calls[j].now - calls[i].now)
  }

  /** A calm span admits at most the capacity plus the refill of the elapsed time. */
  lemma RunBucketCeiling(p: Policies, calls: seq<Request>, key: PartitionKey, i: nat, j: nat)
    requires ValidPolicies(p) && i <= j < |calls| && p.kindOf(key.policy).Bucket? && calls[i].key == key == calls[j].key
    requires CalmFrom(p, calls, key, i, j + 1)
    ensures SpanKept(p, calls, key, i, j)
  {
    hide StoreAdmitted, Allowance, StoreForward, CanSweep;
    StoreBudget(p, calls, key, i, j);
    StoreForwardIsElapsed(p, calls, key, i, j + 1);
  }

  // ---- shards that are never swept ----

  /** As long as the key's shard has not seen enough keys to be swept, the bounds for
      one partition are those of the store, in whatever order requests arrive. */
  lemma UnsweptStore(p: Policies, calls: seq<Request>, key: PartitionKey, a: nat, n: nat)
    requires ValidPolicies(p) && a <= n <= |calls| && NoSweeps(p, calls, key, n)
    requires Own(calls, key, a) < Own(calls, key, n)
    ensures var kind, own := p.kindOf(key.policy), Project(calls[..n], key);
            var i, j := Own(calls, key, a), Own(calls, key, n);
            && (kind.Sliding? && WithinWindow(own, i, j, kind.window) ==>
                  StoreAdmitted(p, calls, key, a, n) <= kind.permit)
            && (kind.Bucket? ==>
                  StoreAdmitted(p, calls, key, a, n) as real <=
                  Allowance(kind.capacity, kind.refillPerSec, Forward(own, i, j)))
  {
    hide StoreAdmitted, Admitted, NoSweeps, Project, Allowance, Forward, WithinWindow;
    var kind, own, i, j := p.kindOf(key.policy), Project(calls[..n], key), Own(calls, key, a), Own(calls, key, n);
    StoreAdmitsAlone(p, calls, key, a, n);
    if kind.Bucket? {
      BucketBudget(kind, own, i, j - 1);
    } else if WithinWindow(own, i, j, kind.window) {
      SlidingCeiling(kind, own, i, j - 1);
    }
  }
}
