/** The fixed-window counter that replicas share through Redis: one INCRBY per
    call, with an expiry set when the key is created. */
module RedisFixedWindow {
  import opened Options
  import opened Sums

  type Millis = int

  /** The policy: at most `permit` units per `window` milliseconds. */
  datatype Limit = Limit(permit: nat, window: Millis)

  ghost predicate ValidLimit(l: Limit) { l.permit >= 1 && l.window > 0 }

  /** The stored counter, its expiry deadline and, for the proofs, its creation. */
  datatype Counter = Counter(count: nat, deadline: Millis, born: Millis)

  datatype Reply = Reply(ttl: int, next: Counter)

  /** The script, given the key as Redis shows it to the script. */
  function FixedWindowScript(limit: Limit, entry: Option<Counter>, now: Millis, cost: nat): Reply {
    var c := match entry
             case None => Counter(cost, now + limit.window, now)
             case Some(stored) => stored.(count := stored.count + cost);
    Reply(if c.count > limit.permit then c.deadline - now else 0, c)
  }

  /** Zero means admitted. That is exactly a count within the permit, except that a
      key which Redis still shows in the very millisecond of its deadline admits
      whatever its count. */
  lemma AdmitsIff(limit: Limit, entry: Option<Counter>, now: Millis, cost: nat)
    requires ValidLimit(limit) && (entry.Some? ==> now <= entry.value.deadline)
    ensures var r := FixedWindowScript(limit, entry, now, cost);
            r.ttl <= 0 <==> r.next.count <= limit.permit || r.next.deadline == now
  {
  }

  /** Redis shows a key through the millisecond of its deadline. */
  function Visible(entry: Option<Counter>, now: Millis): Option<Counter> {
    if entry.Some? && now <= entry.value.deadline then entry else None
  }

  datatype Call = Call(now: Millis, cost: nat)

  ghost predicate ClockOrder(calls: seq<Call>) {
    forall i, j :: 0 <= i < j < |calls| ==> calls[i].now <= calls[j].now
  }

  ghost function After(limit: Limit, calls: seq<Call>): Option<Counter>
    decreases calls, 0
  {
    if calls == [] then None else Some(ReplyTo(limit, calls[..|calls| - 1], calls[|calls| - 1]).next)
  }

  ghost function ReplyTo(limit: Limit, before: seq<Call>, call: Call): Reply
    decreases before, 1
  {
    FixedWindowScript(limit, Visible(After(limit, before), call.now), call.now, call.cost)
  }

  /** The creation time of the key that call `n` counts against. It depends on the
      clock alone. */
  ghost function Born(limit: Limit, calls: seq<Call>, n: nat): Millis
    requires n < |calls|
  {
    if n == 0 then calls[0].now
    else
      var b := Born(limit, calls, n - 1);
      if calls[n].now <= b + limit.window then b else calls[n].now
  }

  /** Call `n` reads the clock in the millisecond of its key's deadline. */
  ghost predicate AtDeadline(limit: Limit, calls: seq<Call>, n: nat)
    requires n < |calls|
  {
    calls[n].now == Born(limit, calls, n) + limit.window
  }

  /** Units that call `n` is admitted with; if `early`, only before the deadline. */
  ghost function UnitsAt(limit: Limit, calls: seq<Call>, n: nat, early: bool): nat
    requires n < |calls|
  {
    var admitted := ReplyTo(limit, calls[..n], calls[n]).ttl == 0;
    if admitted && !(early && AtDeadline(limit, calls, n)) then calls[n].cost else 0
  }

  /** Units admitted by the first `n` calls against the key born at `b`. */
  ghost function AdmittedIn(limit: Limit, calls: seq<Call>, b: Millis, n: nat, early: bool): nat
    requires n <= |calls|
  {
    if n == 0 then 0
    else AdmittedIn(limit, calls, b, n - 1, early)
         + (if Born(limit, calls, n - 1) == b then UnitsAt(limit, calls, n - 1, early) else 0)
  }

  /** Units admitted by calls `i` to `n - 1`. */
  ghost function Admitted(limit: Limit, calls: seq<Call>, i: nat, n: nat, early: bool): nat
    requires i <= n <= |calls|
  {
    if i == n then 0 else Admitted(limit, calls, i, n - 1, early) + UnitsAt(limit, calls, n - 1, early)
  }

  // ---- one key's life ----

  /** After `n` calls: the counter bounds what its key admitted before its deadline,
      a key that has admitted nothing never will, later keys have admitted nothing
      yet, and no key admitted more than the permit. */
  ghost predicate LifeInv(limit: Limit, calls: seq<Call>, n: nat)
    requires n <= |calls|
  {
    var key := After(limit, calls[..n]);
    && (n == 0 <==> key.None?)
    && (key.Some? ==> KeyInv(limit, calls, n, key.value))
    && (forall b :: key.Some? ==> b <= key.value.born || AdmittedIn(limit, calls, b, n, true) == 0)
    && (forall b :: AdmittedIn(limit, calls, b, n, true) <= limit.permit)
  }

  ghost predicate KeyInv(limit: Limit, calls: seq<Call>, n: nat, key: Counter)
    requires 1 <= n <= |calls|
  {
    && key.deadline == key.born + limit.window && key.born <= calls[n - 1].now <= key.deadline
    && key.born == Born(limit, calls, n - 1)
    && AdmittedIn(limit, calls, key.born, n, true) <= Min(limit.permit, key.count)
    && (AdmittedIn(limit, calls, key.born, n, true) >= 1 || key.count > limit.permit)
  }

  /** The callers charge at least one unit. */
  ghost predicate Costly(calls: seq<Call>) { forall i :: 0 <= i < |calls| ==> calls[i].cost >= 1 }

  /** What call `n - 1` makes of the key. */
  lemma AfterStep(limit: Limit, calls: seq<Call>, n: nat)
    requires 1 <= n <= |calls|
    ensures ReplyTo(limit, calls[..n - 1], calls[n - 1]) ==
            FixedWindowScript(limit, Visible(After(limit, calls[..n - 1]), calls[n - 1].now), calls[n - 1].now,
                              calls[n - 1].cost)
    ensures After(limit, calls[..n]) == Some(ReplyTo(limit, calls[..n - 1], calls[n - 1]).next)
  {
    assert calls[..n][..n - 1] == calls[..n - 1];
  }

  lemma KeyStep(limit: Limit, calls: seq<Call>, n: nat)
    requires ValidLimit(limit) && ClockOrder(calls) && Costly(calls) && 1 <= n <= |calls|
    requires LifeInv(limit, calls, n - 1)
    ensures After(limit, calls[..n]).Some? && KeyInv(limit, calls, n, After(limit, calls[..n]).value)
    ensures n > 1 ==> After(limit, calls[..n - 1]).value.born <= After(limit, calls[..n]).value.born
  {
    hide After;
    AfterStep(limit, calls, n);
    var key := After(limit, calls[..n]).value;
    assert AdmittedIn(limit, calls, key.born, n - 1, true) <= limit.permit;
    if n > 1 {
      BornOrder(limit, calls, n - 2, n - 1);
    }
  }

  lemma {:induction false} LifeRun(limit: Limit, calls: seq<Call>, n: nat)
    requires ValidLimit(limit) && ClockOrder(calls) && Costly(calls) && n <= |calls|
    ensures LifeInv(limit, calls, n)
  {
    if n > 0 {
      hide UnitsAt, FixedWindowScript, Visible, ReplyTo, After;
      LifeRun(limit, calls, n - 1);
      KeyStep(limit, calls, n);
      var key := After(limit, calls[..n]).value;
      forall b
        ensures AdmittedIn(limit, calls, b, n, true) <= limit.permit
        ensures b <= key.born || AdmittedIn(limit, calls, b, n, true) == 0
      {
        assert AdmittedIn(limit, calls, b, n - 1, true) <= limit.permit;
      }
    }
  }

  /** Although denied calls also increment the counter, one key never admits more
      than the permit before its deadline. */
  lemma LifetimeCeiling(limit: Limit, calls: seq<Call>, b: Millis, n: nat)
    requires ValidLimit(limit) && ClockOrder(calls) && Costly(calls) && n <= |calls|
    ensures AdmittedIn(limit, calls, b, n, true) <= limit.permit
  {
    LifeRun(limit, calls, n);
  }

  /** At the deadline the promise is broken by any amount: the key is still there,
      its remaining time is zero, and zero means admitted. */
  lemma DeadlineAdmitsAnything(permit: nat, extra: nat)
    requires permit >= 1 && extra >= 1
    ensures var limit, calls := Limit(permit, 10), [Call(0, 1), Call(10, extra)];
            && ValidLimit(limit) && ClockOrder(calls) && Costly(calls)
            && AdmittedIn(limit, calls, 0, 2, false) == 1 + extra
  {
    var limit, calls := Limit(permit, 10), [Call(0, 1), Call(10, extra)];
    assert calls[..0] == [] && calls[..1] == [Call(0, 1)] && calls[..1][..0] == [];
    assert ReplyTo(limit, [], calls[0]) == Reply(0, Counter(1, 10, 0));
    assert After(limit, calls[..1]) == Some(Counter(1, 10, 0));
    assert Born(limit, calls, 0) == 0 == Born(limit, calls, 1);
    assert AdmittedIn(limit, calls, 0, 1, false) == 1;
  }

  // ---- exactly when a ceiling holds whatever is charged ----

  /** The same clock readings with other charges. */
  ghost predicate SameClock(calls: seq<Call>, other: seq<Call>) {
    |other| == |calls| && forall i :: 0 <= i < |calls| ==> other[i].now == calls[i].now
  }

  lemma {:induction false} SameBorn(limit: Limit, calls: seq<Call>, other: seq<Call>, n: nat)
    requires SameClock(calls, other) && n < |calls|
    ensures Born(limit, calls, n) == Born(limit, other, n)
    ensures AtDeadline(limit, calls, n) <==> AtDeadline(limit, other, n)
  {
    if n > 0 {
      SameBorn(limit, calls, other, n - 1);
    }
  }

  /** Everybody charges one unit, except call `k`. */
  ghost function Charging(calls: seq<Call>, k: nat, cost: nat): (r: seq<Call>)
    ensures SameClock(calls, r)
  {
    seq(|calls|, i requires 0 <= i < |calls| => Call(calls[i].now, if i == k then cost else 1))
  }

  /** A call at its key's deadline is admitted with any cost. */
  lemma DeadlineUnits(limit: Limit, calls: seq<Call>, k: nat)
    requires ValidLimit(limit) && ClockOrder(calls) && Costly(calls) && k < |calls| && AtDeadline(limit, calls, k)
    ensures UnitsAt(limit, calls, k, false) == calls[k].cost
  {
    LifeRun(limit, calls, k + 1);
    assert calls[..k + 1][..k] == calls[..k];
  }

  lemma {:induction false} CountsOwnCall(limit: Limit, calls: seq<Call>, k: nat, i: nat, n: nat)
    requires i <= k < n <= |calls|
    ensures AdmittedIn(limit, calls, Born(limit, calls, k), n, false) >= UnitsAt(limit, calls, k, false)
    ensures Admitted(limit, calls, i, n, false) >= UnitsAt(limit, calls, k, false)
    decreases n
  {
    if k < n - 1 {
      CountsOwnCall(limit, calls, k, i, n - 1);
    }
  }

  lemma {:induction false} AllEarly(limit: Limit, calls: seq<Call>, b: Millis, n: nat)
    requires n <= |calls| && forall k :: 0 <= k < n && Born(limit, calls, k) == b ==> !AtDeadline(limit, calls, k)
    ensures AdmittedIn(limit, calls, b, n, false) == AdmittedIn(limit, calls, b, n, true)
  {
    if n > 0 {
      AllEarly(limit, calls, b, n - 1);
    }
  }

  ghost predicate LifeBounded(limit: Limit, calls: seq<Call>, b: Millis) {
    AdmittedIn(limit, calls, b, |calls|, false) <= limit.permit
  }

  /** A key admits at most the permit in its whole life, whatever the calls charge,
      if and only if none of them reads the clock at the key's deadline. */
  lemma LifetimeCeilingIff(limit: Limit, calls: seq<Call>, b: Millis)
    requires ValidLimit(limit) && ClockOrder(calls)
    ensures (forall other :: SameClock(calls, other) && Costly(other) ==> LifeBounded(limit, other, b)) <==>
            (forall k :: 0 <= k < |calls| && Born(limit, calls, k) == b ==> !AtDeadline(limit, calls, k))
  {
    if k :| 0 <= k < |calls| && Born(limit, calls, k) == b && AtDeadline(limit, calls, k) {
      var other := Charging(calls, k, limit.permit + 1);
      SameBorn(limit, calls, other, k);
      DeadlineUnits(limit, other, k);
      CountsOwnCall(limit, other, k, 0, |calls|);
      assert Costly(other) && !LifeBounded(limit, other, b);
    } else {
      forall other | SameClock(calls, other) && Costly(other) ensures LifeBounded(limit, other, b) {
        forall k | 0 <= k < |calls| && Born(limit, other, k) == b ensures !AtDeadline(limit, other, k) {
          SameBorn(limit, calls, other, k);
        }
        AllEarly(limit, other, b, |calls|);
        LifetimeCeiling(limit, other, b, |calls|);
      }
    }
  }

  // ---- any window-long interval ----

  /** Keys are born in order, each after the previous one's deadline. */
  lemma {:induction false} BornOrder(limit: Limit, calls: seq<Call>, i: nat, j: nat)
    requires ValidLimit(limit) && ClockOrder(calls) && i <= j < |calls|
    ensures Born(limit, calls, j) == Born(limit, calls, i)
         || (Born(limit, calls, j) > Born(limit, calls, i) + limit.window && Born(limit, calls, j) >= calls[i].now)
    ensures Born(limit, calls, j) <= calls[j].now <= Born(limit, calls, j) + limit.window
  {
    if i < j {
      BornOrder(limit, calls, i, j - 1);
    } else if j > 0 {
      BornOrder(limit, calls, j - 1, j - 1);
    }
  }

  /** Calls less than a window apart count against at most two keys. */
  lemma TwoKeys(limit: Limit, calls: seq<Call>, i: nat, k: nat, j: nat)
    requires ValidLimit(limit) && ClockOrder(calls) && i <= k <= j < |calls|
    requires calls[j].now - calls[i].now < limit.window
    ensures Born(limit, calls, k) == Born(limit, calls, i) || Born(limit, calls, k) == Born(limit, calls, j)
  {
    BornOrder(limit, calls, i, k);
    BornOrder(limit, calls, k, j);
  }

  lemma {:induction false} SplitByKey(limit: Limit, calls: seq<Call>, i: nat, n: nat, a: Millis, b: Millis)
    requires i <= n <= |calls| && a != b
    requires forall k :: i <= k < n ==> Born(limit, calls, k) == a || Born(limit, calls, k) == b
    ensures AdmittedIn(limit, calls, a, i, true) + Admitted(limit, calls, i, n, true)
         <= AdmittedIn(limit, calls, a, n, true) + AdmittedIn(limit, calls, b, n, true)
  {
    if i < n {
      SplitByKey(limit, calls, i, n - 1, a, b);
    }
  }

  lemma {:induction false} OneKey(limit: Limit, calls: seq<Call>, i: nat, n: nat, a: Millis)
    requires i <= n <= |calls|
    requires forall k :: i <= k < n ==> Born(limit, calls, k) == a
    ensures Admitted(limit, calls, i, n, true) <= AdmittedIn(limit, calls, a, n, true)
  {
    if i < n {
      OneKey(limit, calls, i, n - 1, a);
    }
  }

  /** The key born at `born` is spent, or another one has taken its place. */
  ghost predicate Spent(limit: Limit, key: Counter, born: Millis) {
    key.born >= born && (key.born == born ==> key.count > limit.permit)
  }

  lemma SpentStep(limit: Limit, calls: seq<Call>, born: Millis, n: nat)
    requires ValidLimit(limit) && ClockOrder(calls) && Costly(calls) && 1 < n <= |calls| && LifeInv(limit, calls, n - 1)
    requires Spent(limit, After(limit, calls[..n - 1]).value, born)
    ensures After(limit, calls[..n]).Some? && Spent(limit, After(limit, calls[..n]).value, born)
    ensures AdmittedIn(limit, calls, born, n, true) == AdmittedIn(limit, calls, born, n - 1, true)
  {
    hide After;
    KeyStep(limit, calls, n);
    AfterStep(limit, calls, n);
  }

  /** A key whose count is over the permit admits nothing more before its deadline. */
  lemma {:induction false} SpentKeyAdmitsNothing(limit: Limit, calls: seq<Call>, i: nat, n: nat)
    requires ValidLimit(limit) && ClockOrder(calls) && Costly(calls) && 1 <= i <= n <= |calls|
    requires After(limit, calls[..i]).value.count > limit.permit
    ensures After(limit, calls[..n]).Some?
    ensures var key, now := After(limit, calls[..i]).value, After(limit, calls[..n]).value;
            && AdmittedIn(limit, calls, key.born, n, true) == AdmittedIn(limit, calls, key.born, i, true)
            && Spent(limit, now, key.born)
  {
    hide AdmittedIn;
    if i < n {
      hide Spent, After;
      SpentKeyAdmitsNothing(limit, calls, i, n - 1);
      LifeRun(limit, calls, n - 1);
      SpentStep(limit, calls, After(limit, calls[..i]).value.born, n);
    }
  }

  /** If calls less than a window apart count against two keys, the first key is
      older than both: part of its permit is spent already, or all of it is. */
  lemma OldKeyUsed(limit: Limit, calls: seq<Call>, i: nat, j: nat)
    requires ValidLimit(limit) && ClockOrder(calls) && Costly(calls) && i <= j < |calls|
    requires calls[j].now - calls[i].now < limit.window && Born(limit, calls, i) != Born(limit, calls, j)
    ensures var a := Born(limit, calls, i);
            || AdmittedIn(limit, calls, a, i, true) >= 1
            || AdmittedIn(limit, calls, a, j + 1, true) == AdmittedIn(limit, calls, a, i, true)
  {
    hide AdmittedIn;
    BornOrder(limit, calls, i, j);
    LifeRun(limit, calls, i);
    var key := After(limit, calls[..i]);
    assert key.Some? && key.value.born == Born(limit, calls, i);
    if key.value.count > limit.permit {
      SpentKeyAdmitsNothing(limit, calls, i, j + 1);
    }
  }

  /** With a nondecreasing Redis clock, any half-open interval one window long
      admits less than twice the permit, apart from calls at a deadline. */
  lemma IntervalCeiling(limit: Limit, calls: seq<Call>, i: nat, j: nat)
    requires ValidLimit(limit) && ClockOrder(calls) && Costly(calls) && i <= j < |calls|
    requires calls[j].now - calls[i].now < limit.window
    ensures Admitted(limit, calls, i, j + 1, true) <= 2 * limit.permit - 1
  {
    hide AdmittedIn, Admitted, Born;
    var a, b := Born(limit, calls, i), Born(limit, calls, j);
    forall k | i <= k < j + 1 ensures Born(limit, calls, k) == a || Born(limit, calls, k) == b {
      TwoKeys(limit, calls, i, k, j);
    }
    LifetimeCeiling(limit, calls, a, j + 1);
    LifetimeCeiling(limit, calls, b, j + 1);
    if a == b {
      OneKey(limit, calls, i, j + 1, a);
    } else {
      SplitByKey(limit, calls, i, j + 1, a, b);
      OldKeyUsed(limit, calls, i, j);
    }
  }

  lemma {:induction false} SpanAllEarly(limit: Limit, calls: seq<Call>, i: nat, n: nat)
    requires i <= n <= |calls| && forall k :: i <= k < n ==> !AtDeadline(limit, calls, k)
    ensures Admitted(limit, calls, i, n, false) == Admitted(limit, calls, i, n, true)
  {
    if i < n {
      SpanAllEarly(limit, calls, i, n - 1);
    }
  }

  ghost predicate SpanBounded(limit: Limit, calls: seq<Call>, i: nat, j: nat)
    requires i <= j < |calls|
  {
    Admitted(limit, calls, i, j + 1, false) <= 2 * limit.permit - 1
  }

  /** That interval admits less than twice the permit, whatever the calls charge, if
      and only if none of them reads the clock at its key's deadline. */
  lemma IntervalCeilingIff(limit: Limit, calls: seq<Call>, i: nat, j: nat)
    requires ValidLimit(limit) && ClockOrder(calls) && i <= j < |calls|
    requires calls[j].now - calls[i].now < limit.window
    ensures (forall other :: SameClock(calls, other) && Costly(other) ==> SpanBounded(limit, other, i, j)) <==>
            (forall k :: i <= k <= j ==> !AtDeadline(limit, calls, k))
  {
    if k :| i <= k <= j && AtDeadline(limit, calls, k) {
      var other := Charging(calls, k, 2 * limit.permit);
      SameBorn(limit, calls, other, k);
      DeadlineUnits(limit, other, k);
      CountsOwnCall(limit, other, k, i, j + 1);
      assert Costly(other) && !SpanBounded(limit, other, i, j);
    } else {
      forall other | SameClock(calls, other) && Costly(other) ensures SpanBounded(limit, other, i, j) {
        forall k | i <= k <= j ensures !AtDeadline(limit, other, k) {
          SameBorn(limit, calls, other, k);
        }
        SpanAllEarly(limit, other, i, j + 1);
        IntervalCeiling(limit, other, i, j);
      }
    }
  }

  /** Without a call at a deadline the bound is reached: one unit opens a key, the
      rest of its permit is spent in its last millisecond, and a full permit right
      after. */
  lemma CeilingIsReached(permit: nat)
    requires permit >= 2
    ensures var limit, calls := Limit(permit, 10), [Call(0, 1), Call(9, permit - 1), Call(11, permit)];
            && ValidLimit(limit) && ClockOrder(calls) && Costly(calls) && calls[2].now - calls[1].now < limit.window
            && (forall k :: 0 <= k < 3 ==> !AtDeadline(limit, calls, k))
            && Admitted(limit, calls, 1, 3, false) == 2 * permit - 1
  {
    var limit, calls := Limit(permit, 10), [Call(0, 1), Call(9, permit - 1), Call(11, permit)];
    assert calls[..0] == [] && calls[..1] == [Call(0, 1)] && calls[..2] == [Call(0, 1), Call(9, permit - 1)];
    assert calls[..1][..0] == [] && calls[..2][..1] == calls[..1];
    assert After(limit, []) == None;
    assert ReplyTo(limit, [], calls[0]) == Reply(0, Counter(1, 10, 0));
    assert After(limit, calls[..1]) == Some(Counter(1, 10, 0));
    assert After(limit, calls[..2]) == Some(Counter(permit, 10, 0));
    assert Born(limit, calls, 0) == 0 && Born(limit, calls, 1) == 0 && Born(limit, calls, 2) == 11;
    assert UnitsAt(limit, calls, 1, false) == permit - 1 && UnitsAt(limit, calls, 2, false) == permit;
    assert Admitted(limit, calls, 1, 2, false) == permit - 1;
  }

  /** A denied call whose cost fits the permit, repeated when nobody else has called since,
      succeeds from the returned number of milliseconds on and at no earlier time. */
  lemma RetryIff(limit: Limit, calls: seq<Call>, call: Call, later: Millis)
    requires ValidLimit(limit) && call.cost <= limit.permit && later >= call.now
    requires ReplyTo(limit, calls, call).ttl > 0
    ensures ReplyTo(limit, calls + [call], Call(later, call.cost)).ttl <= 0 <==>
            later >= call.now + ReplyTo(limit, calls, call).ttl
  {
    assert (calls + [call])[..|calls|] == calls;
  }
}
