/** The in-process rate limiter: sliding windows and token buckets in a sharded
    store that evicts idle partitions. Times and tokens are exact reals. */
module LocalLimiter {
  import opened Sums

  const SHARDS: nat := 256
  const SWEEP_THRESHOLD: nat := 2_048

  /** Seconds on the monotonic clock. */
  type Time = real

  datatype Kind =
    | Sliding(permit: nat, window: real)
    | Bucket(capacity: real, refillPerSec: real)

  ghost predicate ValidKind(k: Kind) {
    match k
    case Sliding(permit, window) => permit >= 1 && window > 0.0
    case Bucket(capacity, refill) => capacity >= 1.0 && refill > 0.0
  }

  datatype PartitionState = Hits(times: seq<Time>) | Tokens(tokens: real, last: Time)

  datatype Verdict = Allowed | RetryAfter(seconds: nat)

  datatype Decision = Decision(verdict: Verdict, next: PartitionState)

  /** Whole seconds, rounded up, at least one. */
  function CeilSecs(secs: real): (r: nat)
    ensures r >= 1 && r as real >= secs && (r > 1 ==> (r - 1) as real < secs)
  {
    var up := -((-secs).Floor);
    if up >= 1 then up else 1
  }

  /** Elapsed time, zero when the clock readings are out of order. */
  function Since(now: Time, past: Time): real { if now >= past then now - past else 0.0 }

  function UnitsOf(cost: nat): nat { if cost == 0 then 1 else cost }

  /** The hits left once the expired ones are popped off the front. */
  function DropExpired(times: seq<Time>, now: Time, window: real): seq<Time> {
    if times != [] && Since(now, times[0]) >= window then DropExpired(times[1..], now, window) else times
  }

  function Fresh(kind: Kind, now: Time): PartitionState {
    match kind
    case Sliding(_, _) => Hits([])
    case Bucket(capacity, _) => Tokens(capacity, now)
  }

  function Repeat(t: Time, n: nat): seq<Time> { seq(n, _ => t) }

  function DecideSliding(permit: nat, window: real, times: seq<Time>, now: Time, cost: nat): Decision {
    var hits := DropExpired(times, now, window);
    var units := UnitsOf(cost);
    if units > permit then Decision(RetryAfter(CeilSecs(window)), Hits(hits))
    else if |hits| > permit - units then Decision(RetryAfter(CeilSecs(Since(hits[0] + window, now))), Hits(hits))
    else Decision(Allowed, Hits(hits + Repeat(now, units)))
  }

  function Refilled(capacity: real, refill: real, tokens: real, last: Time, now: Time): real {
    MinReal(tokens + Since(now, last) * refill, capacity)
  }

  function DecideBucket(capacity: real, refill: real, tokens: real, last: Time, now: Time, cost: nat): Decision
    requires refill > 0.0
  {
    var filled := Refilled(capacity, refill, tokens, last, now);
    var units := UnitsOf(cost) as real;
    if units <= capacity && filled >= units then Decision(Allowed, Tokens(filled - units, now))
    else Decision(RetryAfter(CeilSecs(MaxReal(units - filled, 1.0) / refill)), Tokens(filled, now))
  }

  /** One check against one partition. A state of the wrong shape fails open. */
  function Decide(kind: Kind, st: PartitionState, now: Time, cost: nat): Decision
    requires ValidKind(kind)
  {
    match (kind, st)
    case (Sliding(permit, window), Hits(times)) => DecideSliding(permit, window, times, now, cost)
    case (Bucket(capacity, refill), Tokens(tokens, last)) => DecideBucket(capacity, refill, tokens, last, now, cost)
    case _ => Decision(Allowed, st)
  }

  // ---- well-formed partitions ----

  ghost predicate SortedUpTo(times: seq<Time>, now: Time) {
    && (forall i :: 0 <= i < |times| ==> times[i] <= now)
    && forall i, j :: 0 <= i < j < |times| ==> times[i] <= times[j]
  }

  /** What every partition looks like when calls reach it in clock order. */
  ghost predicate Ordered(kind: Kind, st: PartitionState, now: Time) {
    match (kind, st)
    case (Sliding(permit, _), Hits(times)) => SortedUpTo(times, now) && |times| <= permit
    case (Bucket(capacity, _), Tokens(tokens, last)) => 0.0 <= tokens <= capacity && last <= now
    case _ => false
  }

  /** Popping stops exactly at the first hit still inside the window. */
  lemma {:induction false} DropExpiredIsSuffix(times: seq<Time>, now: Time, window: real) returns (p: nat)
    requires SortedUpTo(times, now)
    ensures p <= |times| && DropExpired(times, now, window) == times[p..]
    ensures forall i :: 0 <= i < p ==> now - times[i] >= window
    ensures forall i :: p <= i < |times| ==> now - times[i] < window
  {
    if times != [] && Since(now, times[0]) >= window {
      var q := DropExpiredIsSuffix(times[1..], now, window);
      p := q + 1;
      assert times[1..][q..] == times[p..];
      assert forall i :: 0 < i < |times| ==> times[i] == times[1..][i - 1];
    } else {
      p := 0;
    }
  }

  lemma DecideKeepsOrder(kind: Kind, st: PartitionState, now: Time, cost: nat)
    requires ValidKind(kind) && Ordered(kind, st, now)
    ensures Ordered(kind, Decide(kind, st, now, cost).next, now)
  {
    match (kind, st)
    case (Sliding(permit, window), Hits(times)) =>
      var p := DropExpiredIsSuffix(times, now, window);
    case (Bucket(capacity, refill), Tokens(tokens, last)) =>
      assert Since(now, last) * refill >= 0.0;
    case _ =>
  }

  /** In clock order a window admits a request exactly if its hits of the last window's
      length leave room for it, and then holds those and one more for each unit. */
  lemma SlidingAdmitsIff(kind: Kind, st: PartitionState, now: Time, cost: nat) returns (p: nat)
    requires ValidKind(kind) && kind.Sliding? && Ordered(kind, st, now)
    ensures p <= |st.times| && forall i :: 0 <= i < |st.times| ==> (i < p <==> now - st.times[i] >= kind.window)
    ensures var d, live, units := Decide(kind, st, now, cost), st.times[p..], Max(1, cost);
            && (d.verdict == Allowed <==> |live| + units <= kind.permit)
            && d.next.Hits? && live <= d.next.times
            && (d.verdict == Allowed ==>
                  |d.next.times| == |live| + units
                  && forall i :: |live| <= i < |d.next.times| ==> d.next.times[i] == now)
            && (d.verdict != Allowed ==> d.next.times == live)
  {
    p := DropExpiredIsSuffix(st.times, now, kind.window);
  }

  /** A bucket admits a request exactly if its tokens and what the time since its last
      request refilled, up to the capacity, suffice, and is left with the rest. */
  lemma BucketAdmitsIff(kind: Kind, st: PartitionState, now: Time, cost: nat)
    requires ValidKind(kind) && kind.Bucket? && Ordered(kind, st, now)
    ensures var d, units := Decide(kind, st, now, cost), Max(1, cost) as real;
            var filled := st.tokens + (now - st.last) * kind.refillPerSec;
            && (d.verdict == Allowed <==> units <= kind.capacity && units <= filled)
            && d.next.Tokens? && d.next.last == now
            && (var spent := if d.verdict == Allowed then units else 0.0;
                && d.next.tokens + spent <= filled && d.next.tokens + spent <= kind.capacity
                && (d.next.tokens + spent == filled || d.next.tokens + spent == kind.capacity))
  {
  }

  // ---- eviction ----

  /** A partition that a fresh one would replace unnoticed. */
  ghost predicate Idle(kind: Kind, st: PartitionState, now: Time) {
    match (kind, st)
    case (Sliding(_, window), Hits(times)) => forall i :: 0 <= i < |times| ==> now - times[i] >= window
    case (Bucket(capacity, refill), Tokens(tokens, last)) => tokens + Since(now, last) * refill >= capacity
    case _ => false
  }

  lemma IdleStays(kind: Kind, st: PartitionState, now: Time, later: Time)
    requires ValidKind(kind) && Idle(kind, st, now) && now <= later
    ensures Idle(kind, st, later)
  {
    if kind.Bucket? {
      assert Since(now, st.last) * kind.refillPerSec <= Since(later, st.last) * kind.refillPerSec;
    }
  }

  lemma {:induction false} IdleDropsAll(times: seq<Time>, now: Time, window: real)
    requires forall i :: 0 <= i < |times| ==> now - times[i] >= window
    requires window > 0.0
    ensures DropExpired(times, now, window) == []
  {
    if times != [] {
      IdleDropsAll(times[1..], now, window);
    }
  }

  lemma IdleIsFresh(kind: Kind, st: PartitionState, now: Time, cost: nat)
    requires ValidKind(kind) && Idle(kind, st, now)
    ensures Decide(kind, st, now, cost) == Decide(kind, Fresh(kind, now), now, cost)
  {
    if kind.Sliding? {
      IdleDropsAll(st.times, now, kind.window);
    } else {
      assert Refilled(kind.capacity, kind.refillPerSec, st.tokens, st.last, now) == kind.capacity;
      assert Since(now, now) * kind.refillPerSec == 0.0;
    }
  }

  /** What a sweep keeps: the last hit is inside the window, or the bucket is not
      full yet. */
  predicate Retains(kind: Kind, st: PartitionState, now: Time) {
    match (kind, st)
    case (Sliding(_, window), Hits(times)) => times != [] && Since(now, times[|times| - 1]) < window
    case (Bucket(capacity, refill), Tokens(tokens, last)) => Refilled(capacity, refill, tokens, last, now) < capacity
    case _ => true
  }

  /** A sweep evicts the idle partitions and no others, whatever its own reading is. */
  lemma SweptIsIdle(kind: Kind, st: PartitionState, now: Time, t: Time)
    requires ValidKind(kind) && Ordered(kind, st, t)
    ensures !Retains(kind, st, now) <==> Idle(kind, st, now)
  {
    if kind.Sliding? && st.times != [] {
      assert st.times[|st.times| - 1] in st.times;
    }
  }

  lemma OrderedLater(kind: Kind, st: PartitionState, t: Time, later: Time)
    requires Ordered(kind, st, t) && t <= later
    ensures Ordered(kind, st, later)
  {
  }

  // ---- one partition over time ----

  // What follows is about a partition that nothing evicts between two of its requests.

  datatype Hit = Hit(now: Time, cost: nat)

  /** The partition that a request at `now` finds after `reqs`. */
  ghost function StateBefore(kind: Kind, reqs: seq<Hit>, now: Time): PartitionState
    requires ValidKind(kind)
    decreases reqs, 0
  {
    if reqs == [] then Fresh(kind, now) else Last(kind, reqs[..|reqs| - 1], reqs[|reqs| - 1]).next
  }

  ghost function Last(kind: Kind, before: seq<Hit>, r: Hit): Decision
    requires ValidKind(kind)
    decreases before, 1
  {
    Decide(kind, StateBefore(kind, before, r.now), r.now, r.cost)
  }

  ghost function VerdictOf(kind: Kind, reqs: seq<Hit>, n: nat): Verdict
    requires ValidKind(kind) && n < |reqs|
  {
    Last(kind, reqs[..n], reqs[n]).verdict
  }

  ghost function UnitsAt(kind: Kind, reqs: seq<Hit>, n: nat): nat
    requires ValidKind(kind) && n < |reqs|
  {
    if VerdictOf(kind, reqs, n).Allowed? then UnitsOf(reqs[n].cost) else 0
  }

  /** Units admitted by requests `i` to `n - 1`. */
  ghost function Admitted(kind: Kind, reqs: seq<Hit>, i: nat, n: nat): nat
    requires ValidKind(kind) && i <= n <= |reqs|
  {
    if i == n then 0 else Admitted(kind, reqs, i, n - 1) + UnitsAt(kind, reqs, n - 1)
  }

  /** What holds of a partition in whatever order its requests arrive. */
  ghost predicate Bounded(kind: Kind, st: PartitionState) {
    match (kind, st)
    case (Sliding(permit, _), Hits(times)) => |times| <= permit
    case (Bucket(capacity, _), Tokens(tokens, _)) => 0.0 <= tokens <= capacity
    case _ => false
  }

  /** Popping removes a prefix of expired hits. */
  lemma {:induction false} DropExpiredDropsPrefix(times: seq<Time>, now: Time, window: real) returns (p: nat)
    ensures p <= |times| && DropExpired(times, now, window) == times[p..]
    ensures forall i :: 0 <= i < p ==> Since(now, times[i]) >= window
  {
    if times != [] && Since(now, times[0]) >= window {
      var q := DropExpiredDropsPrefix(times[1..], now, window);
      p := q + 1;
      assert times[1..][q..] == times[p..];
      assert forall i :: 0 < i < |times| ==> times[i] == times[1..][i - 1];
    } else {
      p := 0;
    }
  }

  lemma DecideKeepsBounds(kind: Kind, st: PartitionState, now: Time, cost: nat)
    requires ValidKind(kind) && Bounded(kind, st)
    ensures Bounded(kind, Decide(kind, st, now, cost).next)
  {
    match (kind, st)
    case (Sliding(permit, window), Hits(times)) =>
      var p := DropExpiredDropsPrefix(times, now, window);
    case (Bucket(capacity, refill), Tokens(tokens, last)) =>
      assert Since(now, last) * refill >= 0.0;
    case _ =>
  }

  lemma {:induction false} RunBounded(kind: Kind, reqs: seq<Hit>, now: Time)
    requires ValidKind(kind)
    ensures Bounded(kind, StateBefore(kind, reqs, now))
  {
    if reqs != [] {
      hide Decide, Bounded;
      var before, r := reqs[..|reqs| - 1], reqs[|reqs| - 1];
      RunBounded(kind, before, r.now);
      DecideKeepsBounds(kind, StateBefore(kind, before, r.now), r.now, r.cost);
    }
  }

  /** Request `n - 1` of a run as one decision. */
  lemma OneStep(kind: Kind, reqs: seq<Hit>, i: nat, n: nat)
    requires ValidKind(kind) && i < n <= |reqs|
    ensures var r := reqs[n - 1];
            var st := StateBefore(kind, reqs[..n - 1], r.now);
            var d := Decide(kind, st, r.now, r.cost);
            && Bounded(kind, st) && Bounded(kind, d.next)
            && StateBefore(kind, reqs[..n], r.now) == d.next
            && (n > 1 ==> st == StateBefore(kind, reqs[..n - 1], reqs[n - 2].now))
            && Admitted(kind, reqs, i, n) ==
               Admitted(kind, reqs, i, n - 1) + if d.verdict.Allowed? then UnitsOf(r.cost) else 0
  {
    var r, before := reqs[n - 1], reqs[..n - 1];
    assert reqs[..n][..n - 1] == before && reqs[..n][n - 1] == r;
    RunBounded(kind, before, r.now);
    DecideKeepsBounds(kind, StateBefore(kind, before, r.now), r.now, r.cost);
  }

  /** The same clock readings with other costs. */
  ghost predicate SameClock(reqs: seq<Hit>, other: seq<Hit>) {
    |other| == |reqs| && forall i :: 0 <= i < |reqs| ==> other[i].now == reqs[i].now
  }

  /** Readings `i` to `j` are in order. */
  ghost predicate SpanInOrder(reqs: seq<Hit>, i: nat, j: nat)
    requires i <= j < |reqs|
  {
    forall m :: i < m <= j ==> reqs[m - 1].now <= reqs[m].now
  }

  // ---- the sliding window ----

  /** No reading of the span is a window or more after an earlier one. */
  ghost predicate WithinWindow(reqs: seq<Hit>, i: nat, n: nat, window: real)
    requires i <= n <= |reqs|
  {
    forall m, k :: i <= m <= k < n ==> reqs[k].now - reqs[m].now < window
  }

  /** The newest `admitted` retained hits carry some of these readings. */
  ghost predicate Holds(times: seq<Time>, admitted: nat, readings: set<Time>) {
    admitted <= |times| && forall k :: |times| - admitted <= k < |times| ==> times[k] in readings
  }

  /** A decision drops none of them if none of the readings is a window old. */
  lemma SlidingHolds(permit: nat, window: real, times: seq<Time>, readings: set<Time>, now: Time, cost: nat,
                     admitted: nat)
    requires window > 0.0 && Holds(times, admitted, readings) && forall t :: t in readings ==> now - t < window
    ensures var d := DecideSliding(permit, window, times, now, cost);
            && d.next.Hits?
            && Holds(d.next.times, admitted + (if d.verdict.Allowed? then UnitsOf(cost) else 0), readings + {now})
  {
    var q := DropExpiredDropsPrefix(times, now, window);
    if admitted > 0 {
      var oldest := |times| - admitted;
      assert times[oldest] in readings;
      assert q <= oldest;
    }
  }

  ghost function Readings(reqs: seq<Hit>, i: nat, n: nat): set<Time>
    requires i <= n <= |reqs|
  {
    set m | i <= m < n :: reqs[m].now
  }

  lemma {:induction false} WindowRun(kind: Kind, reqs: seq<Hit>, i: nat, n: nat)
    requires ValidKind(kind) && kind.Sliding? && i <= n <= |reqs| && n > 0 && WithinWindow(reqs, i, n, kind.window)
    ensures var st := StateBefore(kind, reqs[..n], reqs[n - 1].now);
            st.Hits? && |st.times| <= kind.permit && Holds(st.times, Admitted(kind, reqs, i, n), Readings(reqs, i, n))
  {
    hide DecideSliding, StateBefore;
    if i == n {
      RunBounded(kind, reqs[..n], reqs[n - 1].now);
    } else {
      OneStep(kind, reqs, i, n);
      var st := StateBefore(kind, reqs[..n - 1], reqs[n - 1].now);
      if n > 1 {
        WindowRun(kind, reqs, i, n - 1);
      }
      assert Readings(reqs, i, n) == Readings(reqs, i, n - 1) + {reqs[n - 1].now};
      SlidingHolds(kind.permit, kind.window, st.times, Readings(reqs, i, n - 1), reqs[n - 1].now, reqs[n - 1].cost,
                   Admitted(kind, reqs, i, n - 1));
    }
  }

  /** In whatever order requests arrive: a span in which no reading is a window or
      more after an earlier one admits at most `permit` units. */
  lemma SlidingCeiling(kind: Kind, reqs: seq<Hit>, i: nat, j: nat)
    requires ValidKind(kind) && kind.Sliding? && i <= j < |reqs| && WithinWindow(reqs, i, j + 1, kind.window)
    ensures Admitted(kind, reqs, i, j + 1) <= kind.permit
  {
    WindowRun(kind, reqs, i, j + 1);
  }

  /** In clock order that is every span shorter than the window. */
  lemma {:induction false} OrderedSpan(reqs: seq<Hit>, i: nat, j: nat, window: real)
    requires i <= j < |reqs| && SpanInOrder(reqs, i, j) && reqs[j].now - reqs[i].now < window
    ensures WithinWindow(reqs, i, j + 1, window)
  {
    forall m, k | i <= m <= k < j + 1 ensures reqs[k].now - reqs[m].now < window {
      OrderedReadings(reqs, i, m);
      OrderedReadings(reqs, m, k);
      OrderedReadings(reqs, k, j);
    }
  }

  lemma {:induction false} OrderedReadings(reqs: seq<Hit>, i: nat, j: nat)
    requires i <= j < |reqs| && SpanInOrder(reqs, i, j)
    ensures reqs[i].now <= reqs[j].now
  {
    if i < j {
      OrderedReadings(reqs, i, j - 1);
    }
  }

  // Exactly then: otherwise two full permits fit into the span.

  /** Requests `m` and `k` ask for the whole permit, all others for too much. */
  ghost function TwoFull(reqs: seq<Hit>, permit: nat, m: nat, k: nat): (r: seq<Hit>)
    ensures SameClock(reqs, r)
  {
    seq(|reqs|, i requires 0 <= i < |reqs| => Hit(reqs[i].now, if i == m || i == k then permit else permit + 1))
  }

  lemma {:induction false} PopEqual(t: Time, n: nat, now: Time, window: real)
    ensures DropExpired(Repeat(t, n), now, window) == if Since(now, t) >= window then [] else Repeat(t, n)
  {
    if n > 0 && Since(now, t) >= window {
      PopEqual(t, n - 1, now, window);
      assert Repeat(t, n)[1..] == Repeat(t, n - 1);
    }
  }

  /** No hit, or the whole permit spent at once. */
  ghost predicate OneBurst(st: PartitionState, t: Time, permit: nat) { st == Hits([]) || st == Hits(Repeat(t, permit)) }

  /** A request for too much admits nothing and can only clear a burst. */
  lemma BarredKeeps(kind: Kind, st: PartitionState, t: Time, now: Time)
    requires ValidKind(kind) && kind.Sliding? && OneBurst(st, t, kind.permit)
    ensures var d := Decide(kind, st, now, kind.permit + 1);
            OneBurst(d.next, t, kind.permit) && (st == Hits([]) ==> d.next == Hits([]))
  {
    PopEqual(t, kind.permit, now, kind.window);
  }

  lemma BurstOpens(kind: Kind, now: Time)
    requires ValidKind(kind) && kind.Sliding?
    ensures Decide(kind, Hits([]), now, kind.permit) == Decision(Allowed, Hits(Repeat(now, kind.permit)))
  {
    assert [] + Repeat(now, kind.permit) == Repeat(now, kind.permit);
  }

  /** Once a burst is a window old, the whole permit is free again. */
  lemma BurstExpires(kind: Kind, st: PartitionState, t: Time, now: Time)
    requires ValidKind(kind) && kind.Sliding? && OneBurst(st, t, kind.permit) && now - t >= kind.window
    ensures Decide(kind, st, now, kind.permit).verdict == Allowed
  {
    PopEqual(t, kind.permit, now, kind.window);
  }

  lemma {:induction false} TwoFullRun(kind: Kind, reqs: seq<Hit>, m: nat, k: nat, n: nat, now: Time)
    requires ValidKind(kind) && kind.Sliding? && m < k < |reqs| && n <= k
    ensures var st := StateBefore(kind, TwoFull(reqs, kind.permit, m, k)[..n], now);
            OneBurst(st, reqs[m].now, kind.permit) && (n <= m ==> st == Hits([]))
    ensures n == m + 1 ==> VerdictOf(kind, TwoFull(reqs, kind.permit, m, k), m) == Allowed
  {
    var other := TwoFull(reqs, kind.permit, m, k);
    if n > 0 {
      hide Decide, Repeat;
      var r := other[n - 1];
      assert other[..n][..n - 1] == other[..n - 1];
      TwoFullRun(kind, reqs, m, k, n - 1, r.now);
      BarredKeeps(kind, StateBefore(kind, other[..n - 1], r.now), reqs[m].now, r.now);
      BurstOpens(kind, r.now);
    }
  }

  lemma {:induction false} AdmitsBoth(kind: Kind, reqs: seq<Hit>, i: nat, n: nat, m: nat, k: nat)
    requires ValidKind(kind) && i <= m < k < n <= |reqs|
    ensures Admitted(kind, reqs, i, n) >= UnitsAt(kind, reqs, m) + UnitsAt(kind, reqs, k)
  {
    if k < n - 1 {
      AdmitsBoth(kind, reqs, i, n - 1, m, k);
    } else {
      AdmitsOne(kind, reqs, i, k, m);
    }
  }

  lemma {:induction false} AdmitsOne(kind: Kind, reqs: seq<Hit>, i: nat, n: nat, m: nat)
    requires ValidKind(kind) && i <= m < n <= |reqs|
    ensures Admitted(kind, reqs, i, n) >= UnitsAt(kind, reqs, m)
  {
    if m < n - 1 {
      AdmitsOne(kind, reqs, i, n - 1, m);
    }
  }

  lemma TwoFullPermits(kind: Kind, reqs: seq<Hit>, i: nat, j: nat, m: nat, k: nat)
    requires ValidKind(kind) && kind.Sliding? && i <= m < k <= j < |reqs| && reqs[k].now - reqs[m].now >= kind.window
    ensures Admitted(kind, TwoFull(reqs, kind.permit, m, k), i, j + 1) >= 2 * kind.permit
  {
    var other := TwoFull(reqs, kind.permit, m, k);
    TwoFullRun(kind, reqs, m, k, m + 1, reqs[k].now);
    TwoFullRun(kind, reqs, m, k, k, reqs[k].now);
    BurstExpires(kind, StateBefore(kind, other[..k], reqs[k].now), reqs[m].now, reqs[k].now);
    assert VerdictOf(kind, other, k) == Allowed;
    AdmitsBoth(kind, other, i, j + 1, m, k);
  }

  /** For requests in any order: a span admits at most `permit` units, whatever they
      ask for, if and only if no reading in it is a window or more after an earlier
      one. */
  lemma SlidingCeilingIff(kind: Kind, reqs: seq<Hit>, i: nat, j: nat)
    requires ValidKind(kind) && kind.Sliding? && i <= j < |reqs|
    ensures (forall other :: SameClock(reqs, other) ==> Admitted(kind, other, i, j + 1) <= kind.permit) <==>
            WithinWindow(reqs, i, j + 1, kind.window)
  {
    if WithinWindow(reqs, i, j + 1, kind.window) {
      forall other | SameClock(reqs, other) ensures Admitted(kind, other, i, j + 1) <= kind.permit {
        SlidingCeiling(kind, other, i, j);
      }
    } else {
      var m, k :| i <= m <= k < j + 1 && reqs[k].now - reqs[m].now >= kind.window;
      TwoFullPermits(kind, reqs, i, j, m, k);
    }
  }

  /** So requests that reach the window out of clock order can exceed it although
      their readings lie close together: three units at 10 s and 19 s in a
      ten-second window of two. */
  lemma SlidingOutOfOrderOverAdmits()
    ensures var kind, reqs := Sliding(2, 10.0), [Hit(10.0, 2), Hit(20.0, 1), Hit(19.0, 1)];
            && VerdictOf(kind, reqs, 0) == Allowed && VerdictOf(kind, reqs, 2) == Allowed
            && reqs[0].cost + reqs[2].cost > kind.permit && reqs[2].now - reqs[0].now < kind.window
  {
    var kind, reqs := Sliding(2, 10.0), [Hit(10.0, 2), Hit(20.0, 1), Hit(19.0, 1)];
    assert reqs[..0] == [] && reqs[..1] == [Hit(10.0, 2)] && reqs[..2] == [Hit(10.0, 2), Hit(20.0, 1)];
    assert reqs[..1][..0] == [] && reqs[..2][..1] == reqs[..1];
    PopEqual(10.0, 2, 20.0, 10.0);
    PopEqual(20.0, 1, 19.0, 10.0);
    assert [] + Repeat(10.0, 2) == Repeat(10.0, 2) && [] + Repeat(20.0, 1) == Repeat(20.0, 1);
    assert Last(kind, reqs[..0], reqs[0]) == Decision(Allowed, Hits(Repeat(10.0, 2)));
    assert StateBefore(kind, reqs[..1], 20.0) == Hits(Repeat(10.0, 2));
    assert Last(kind, reqs[..1], reqs[1]) == Decision(Allowed, Hits(Repeat(20.0, 1)));
    assert StateBefore(kind, reqs[..2], 19.0) == Hits(Repeat(20.0, 1));
  }

  // ---- the token bucket ----

  ghost function Allowance(capacity: real, refill: real, elapsed: real): real { capacity + refill * elapsed }

  /** How far the clock moved forward over requests `i` to `n - 1`, reading by
      reading; steps back count nothing. */
  ghost function Forward(reqs: seq<Hit>, i: nat, n: nat): real
    requires i < n <= |reqs|
  {
    if i + 1 == n then 0.0 else Forward(reqs, i, n - 1) + Since(reqs[n - 1].now, reqs[n - 2].now)
  }

  /** That is at least the time between the first and the last reading, and exactly
      that if and only if the readings are in order. */
  lemma {:induction false} ForwardIsElapsed(reqs: seq<Hit>, i: nat, j: nat)
    requires i <= j < |reqs|
    ensures Forward(reqs, i, j + 1) >= reqs[j].now - reqs[i].now && Forward(reqs, i, j + 1) >= 0.0
    ensures Forward(reqs, i, j + 1) == reqs[j].now - reqs[i].now <==> SpanInOrder(reqs, i, j)
  {
    if i < j {
      ForwardIsElapsed(reqs, i, j - 1);
      assert SpanInOrder(reqs, i, j) <==> SpanInOrder(reqs, i, j - 1) && reqs[j - 1].now <= reqs[j].now;
    }
  }

  /** Tokens left plus units admitted are covered by the capacity plus the refill. */
  ghost predicate Covered(capacity: real, refill: real, tokens: real, forward: real, admitted: nat) {
    tokens + admitted as real <= Allowance(capacity, refill, forward)
  }

  lemma CoveredBounds(capacity: real, refill: real, tokens: real, forward: real, admitted: nat)
    requires Covered(capacity, refill, tokens, forward, admitted) && tokens >= 0.0
    ensures admitted as real <= Allowance(capacity, refill, forward)
  {
  }

  /** One decision, from covered books or, as the first of a span, from any. */
  lemma BucketSpends(capacity: real, refill: real, tokens: real, last: Time, now: Time, cost: nat, forward: real,
                     admitted: nat)
    requires refill > 0.0
    requires Covered(capacity, refill, tokens, forward, admitted)
    ensures var d := DecideBucket(capacity, refill, tokens, last, now, cost);
            && d.next.Tokens? && d.next.last == now
            && Covered(capacity, refill, d.next.tokens, forward + Since(now, last),
                       admitted + if d.verdict.Allowed? then UnitsOf(cost) else 0)
  {
    assert refill * (forward + Since(now, last)) == refill * forward + Since(now, last) * refill;
  }

  lemma BucketOpens(capacity: real, refill: real, tokens: real, last: Time, now: Time, cost: nat)
    requires refill > 0.0
    ensures var d := DecideBucket(capacity, refill, tokens, last, now, cost);
            && d.next.Tokens? && d.next.last == now
            && Covered(capacity, refill, d.next.tokens, 0.0, if d.verdict.Allowed? then UnitsOf(cost) else 0)
  {
  }

  lemma {:induction false} BucketRun(kind: Kind, reqs: seq<Hit>, i: nat, n: nat)
    requires ValidKind(kind) && kind.Bucket? && i < n <= |reqs|
    ensures var st := StateBefore(kind, reqs[..n], reqs[n - 1].now);
            && st.Tokens? && st.last == reqs[n - 1].now && st.tokens >= 0.0
            && Covered(kind.capacity, kind.refillPerSec, st.tokens, Forward(reqs, i, n), Admitted(kind, reqs, i, n))
  {
    hide DecideBucket, StateBefore, Covered;
    OneStep(kind, reqs, i, n);
    var r := reqs[n - 1];
    var st := StateBefore(kind, reqs[..n - 1], r.now);
    if i < n - 1 {
      BucketRun(kind, reqs, i, n - 1);
      BucketSpends(kind.capacity, kind.refillPerSec, st.tokens, st.last, r.now, r.cost, Forward(reqs, i, n - 1),
                   Admitted(kind, reqs, i, n - 1));
    } else {
      BucketOpens(kind.capacity, kind.refillPerSec, st.tokens, st.last, r.now, r.cost);
    }
  }

  /** In whatever order requests arrive, a span admits at most the capacity plus the
      refill of all the time by which the clock moved forward in it. */
  lemma BucketBudget(kind: Kind, reqs: seq<Hit>, i: nat, j: nat)
    requires ValidKind(kind) && kind.Bucket? && i <= j < |reqs|
    ensures Admitted(kind, reqs, i, j + 1) as real <=
            Allowance(kind.capacity, kind.refillPerSec, Forward(reqs, i, j + 1))
  {
    hide Decide, StateBefore, Covered, Allowance, Admitted, Forward;
    BucketRun(kind, reqs, i, j + 1);
    var st := StateBefore(kind, reqs[..j + 1], reqs[j].now);
    CoveredBounds(kind.capacity, kind.refillPerSec, st.tokens, Forward(reqs, i, j + 1), Admitted(kind, reqs, i, j + 1));
  }

  /** The promise: the capacity plus the refill of the time between two readings. */
  ghost predicate WithinCeiling(kind: Kind, reqs: seq<Hit>, i: nat, j: nat)
    requires ValidKind(kind) && kind.Bucket? && i <= j < |reqs|
  {
    Admitted(kind, reqs, i, j + 1) as real <= Allowance(kind.capacity, kind.refillPerSec, reqs[j].now - reqs[i].now)
  }

  /** It is kept when the readings of the span are in order. */
  lemma BucketCeiling(kind: Kind, reqs: seq<Hit>, i: nat, j: nat)
    requires ValidKind(kind) && kind.Bucket? && i <= j < |reqs| && SpanInOrder(reqs, i, j)
    ensures WithinCeiling(kind, reqs, i, j)
  {
    hide Allowance, Admitted, Forward;
    BucketBudget(kind, reqs, i, j);
    ForwardIsElapsed(reqs, i, j);
  }

  // Exactly then: otherwise some bucket, drained at every request, admits more.

  lemma {:induction false} AdmittedPrefix(kind: Kind, a: seq<Hit>, b: seq<Hit>, i: nat, n: nat)
    requires ValidKind(kind) && i <= n <= |a| && n <= |b| && a[..n] == b[..n]
    ensures Admitted(kind, a, i, n) == Admitted(kind, b, i, n)
  {
    if i < n {
      assert a[..n - 1] == a[..n][..n - 1] == b[..n - 1];
      assert a[n - 1] == a[..n][n - 1] == b[n - 1];
      AdmittedPrefix(kind, a, b, i, n - 1);
    }
  }

  /** What a request asks for to leave less than one token. */
  ghost function Draining(capacity: nat, filled: real): nat {
    if 1.0 <= filled <= capacity as real then filled.Floor else capacity + 1
  }

  lemma DrainStep(capacity: nat, refill: real, tokens: real, last: Time, now: Time, filled: real)
    requires refill > 0.0 && 0.0 <= tokens < 1.0
    requires filled == tokens + Since(now, last) * refill && filled <= capacity as real
    ensures var d := DecideBucket(capacity as real, refill, tokens, last, now, Draining(capacity, filled));
            var units := if d.verdict.Allowed? then UnitsOf(Draining(capacity, filled)) else 0;
            && d.next.Tokens? && d.next.last == now && 0.0 <= d.next.tokens < 1.0
            && units as real + d.next.tokens == filled
  {
    assert Since(now, last) * refill >= 0.0;
  }

  lemma FullStays(capacity: nat, refill: real, last: Time, now: Time)
    requires capacity >= 1 && refill > 0.0
    ensures DecideBucket(capacity as real, refill, capacity as real, last, now, capacity + 1).next ==
            Tokens(capacity as real, now)
    ensures DecideBucket(capacity as real, refill, capacity as real, last, now, capacity) ==
            Decision(Allowed, Tokens(0.0, now))
  {
    assert Since(now, last) * refill >= 0.0;
  }

  lemma AllowanceAdds(capacity: real, refill: real, forward: real, more: real)
    requires refill > 0.0 && more >= 0.0
    ensures Allowance(capacity, refill, forward + more) == Allowance(capacity, refill, forward) + more * refill
    ensures Allowance(capacity, refill, forward) <= Allowance(capacity, refill, forward + more)
    ensures Allowance(capacity, refill, 0.0) == capacity
  {
    assert more * refill >= 0.0;
  }

  lemma AllowanceShifts(capacity: real, other: real, refill: real, forward: real)
    ensures Allowance(capacity, refill, forward) - capacity == Allowance(other, refill, forward) - other
  {
  }

  /** Requests that ask for too much leave a bucket full. */
  lemma {:induction false} FullRun(capacity: nat, refill: real, reqs: seq<Hit>, n: nat, at: Time)
    returns (other: seq<Hit>)
    requires capacity >= 1 && refill > 0.0 && n <= |reqs|
    ensures |other| == n && forall k :: 0 <= k < n ==> other[k].now == reqs[k].now
    ensures var st := StateBefore(Bucket(capacity as real, refill), other, at);
            st.Tokens? && st.tokens == capacity as real
  {
    other := [];
    if n > 0 {
      hide DecideBucket;
      var kind, now := Bucket(capacity as real, refill), reqs[n - 1].now;
      var before := FullRun(capacity, refill, reqs, n - 1, now);
      other := before + [Hit(now, capacity + 1)];
      assert other[..n - 1] == before;
      FullStays(capacity, refill, StateBefore(kind, before, now).last, now);
    }
  }

  /** Request `i` emptied the bucket and every later one took all whole tokens. */
  ghost predicate IsDrained(kind: Kind, reqs: seq<Hit>, other: seq<Hit>, i: nat, n: nat)
    requires ValidKind(kind) && kind.Bucket? && i < n <= |reqs|
  {
    && |other| == n && (forall k :: 0 <= k < n ==> other[k].now == reqs[k].now)
    && var st := StateBefore(kind, other, reqs[n - 1].now);
       && st.Tokens? && st.last == reqs[n - 1].now && 0.0 <= st.tokens < 1.0
       && Admitted(kind, other, i, n) as real + st.tokens ==
          Allowance(kind.capacity, kind.refillPerSec, Forward(reqs, i, n))
  }

  lemma DrainFirst(capacity: nat, refill: real, reqs: seq<Hit>, i: nat) returns (other: seq<Hit>)
    requires capacity >= 1 && refill > 0.0 && i < |reqs|
    ensures IsDrained(Bucket(capacity as real, refill), reqs, other, i, i + 1)
  {
    hide DecideBucket, Allowance;
    var kind, now := Bucket(capacity as real, refill), reqs[i].now;
    var before := FullRun(capacity, refill, reqs, i, now);
    other := before + [Hit(now, capacity)];
    assert other[..i] == before && other[..i + 1] == other;
    FullStays(capacity, refill, StateBefore(kind, before, now).last, now);
    OneStep(kind, other, i, i + 1);
    AllowanceAdds(kind.capacity, refill, 0.0, 0.0);
  }

  lemma DrainNext(capacity: nat, refill: real, reqs: seq<Hit>, i: nat, n: nat, before: seq<Hit>)
    returns (other: seq<Hit>)
    requires capacity >= 1 && refill > 0.0 && i + 1 < n <= |reqs|
    requires Allowance(1.0, refill, Forward(reqs, i, n)) <= capacity as real
    requires IsDrained(Bucket(capacity as real, refill), reqs, before, i, n - 1)
    ensures IsDrained(Bucket(capacity as real, refill), reqs, other, i, n)
  {
    hide DecideBucket, Allowance, Draining, Forward, StateBefore, Admitted, IsDrained;
    var kind, now := Bucket(capacity as real, refill), reqs[n - 1].now;
    var st, forward := StateBefore(kind, before, now), Forward(reqs, i, n - 1);
    DrainedState(kind, reqs, before, i, n - 1, now);
    var more := Since(now, st.last);
    ForwardStep(reqs, i, n);
    AllowanceAdds(1.0, refill, forward, more);
    AllowanceAdds(kind.capacity, refill, forward, more);
    AtLeastBase(1.0, refill, forward, reqs, i, n - 1);
    var filled := st.tokens + more * refill;
    DrainStep(capacity, refill, st.tokens, st.last, now, filled);
    other := before + [Hit(now, Draining(capacity, filled))];
    assert other[..n - 1] == before && other[..n] == other && other[..n - 1] == before[..n - 1];
    OneStep(kind, other, i, n);
    AdmittedPrefix(kind, other, before, i, n - 1);
    IsDrainedIf(kind, reqs, other, i, n);
  }

  lemma ForwardStep(reqs: seq<Hit>, i: nat, n: nat)
    requires i + 1 < n <= |reqs|
    ensures Forward(reqs, i, n) == Forward(reqs, i, n - 1) + Since(reqs[n - 1].now, reqs[n - 2].now)
  {
  }

  lemma DrainedState(kind: Kind, reqs: seq<Hit>, other: seq<Hit>, i: nat, n: nat, now: Time)
    requires ValidKind(kind) && kind.Bucket? && i < n <= |reqs| && IsDrained(kind, reqs, other, i, n)
    ensures |other| == n && forall k :: 0 <= k < n ==> other[k].now == reqs[k].now
    ensures var st := StateBefore(kind, other, now);
            && st.Tokens? && st.last == reqs[n - 1].now && 0.0 <= st.tokens < 1.0
            && Admitted(kind, other, i, n) as real + st.tokens ==
               Allowance(kind.capacity, kind.refillPerSec, Forward(reqs, i, n))
  {
    hide Allowance, Forward, Admitted;
    assert StateBefore(kind, other, now) == StateBefore(kind, other, reqs[n - 1].now);
  }

  lemma IsDrainedIf(kind: Kind, reqs: seq<Hit>, other: seq<Hit>, i: nat, n: nat)
    requires ValidKind(kind) && kind.Bucket? && i < n <= |reqs|
    requires |other| == n && forall k :: 0 <= k < n ==> other[k].now == reqs[k].now
    requires var st := StateBefore(kind, other, reqs[n - 1].now);
             && st.Tokens? && st.last == reqs[n - 1].now && 0.0 <= st.tokens < 1.0
             && Admitted(kind, other, i, n) as real + st.tokens ==
                Allowance(kind.capacity, kind.refillPerSec, Forward(reqs, i, n))
    ensures IsDrained(kind, reqs, other, i, n)
  {
  }

  lemma AtLeastBase(base: real, refill: real, forward: real, reqs: seq<Hit>, i: nat, n: nat)
    requires refill > 0.0 && i < n <= |reqs| && forward == Forward(reqs, i, n)
    ensures Allowance(base, refill, forward) >= base
  {
    ForwardIsElapsed(reqs, i, n - 1);
    assert refill * forward >= 0.0;
  }

  lemma {:induction false} DrainAll(capacity: nat, refill: real, reqs: seq<Hit>, i: nat, n: nat)
    returns (other: seq<Hit>)
    requires capacity >= 1 && refill > 0.0 && i < n <= |reqs|
    requires Allowance(1.0, refill, Forward(reqs, i, n)) <= capacity as real
    ensures IsDrained(Bucket(capacity as real, refill), reqs, other, i, n)
  {
    hide IsDrained, Allowance;
    if n == i + 1 {
      other := DrainFirst(capacity, refill, reqs, i);
    } else {
      AllowanceAdds(1.0, refill, Forward(reqs, i, n - 1), Since(reqs[n - 1].now, reqs[n - 2].now));
      var before := DrainAll(capacity, refill, reqs, i, n - 1);
      other := DrainNext(capacity, refill, reqs, i, n, before);
    }
  }

  /** For given readings, every bucket keeps its promise over a span, whatever is
      charged, if and only if the readings of the span are in order. */
  lemma BucketCeilingIff(reqs: seq<Hit>, i: nat, j: nat)
    requires i <= j < |reqs|
    ensures (forall kind: Kind, other ::
               ValidKind(kind) && kind.Bucket? && SameClock(reqs, other) ==> WithinCeiling(kind, other, i, j)) <==>
            SpanInOrder(reqs, i, j)
  {
    if SpanInOrder(reqs, i, j) {
      forall kind: Kind, other | ValidKind(kind) && kind.Bucket? && SameClock(reqs, other)
        ensures WithinCeiling(kind, other, i, j)
      {
        BucketCeiling(kind, other, i, j);
      }
    } else {
      var kind, other := OverdrawnBucket(reqs, i, j);
      assert SameClock(reqs, other) && !WithinCeiling(kind, other, i, j);
    }
  }

  /** A rate that refills one token in the time by which `more` exceeds `less`. */
  lemma OneTokenApart(capacity: real, less: real, more: real) returns (refill: real)
    requires less < more
    ensures refill > 0.0 && Allowance(capacity, refill, more) == Allowance(capacity, refill, less) + 1.0
  {
    refill := 1.0 / (more - less);
    assert refill * (more - less) == 1.0;
    assert refill * more == refill * less + refill * (more - less);
  }

  lemma OverdrawnBucket(reqs: seq<Hit>, i: nat, j: nat) returns (kind: Kind, other: seq<Hit>)
    requires i <= j < |reqs| && !SpanInOrder(reqs, i, j)
    ensures ValidKind(kind) && kind.Bucket? && SameClock(reqs, other) && !WithinCeiling(kind, other, i, j)
  {
    hide Allowance, SpanInOrder, StateBefore, Admitted;
    ForwardIsElapsed(reqs, i, j);
    var forward, elapsed := Forward(reqs, i, j + 1), reqs[j].now - reqs[i].now;
    var refill := OneTokenApart(0.0, elapsed, forward);
    AtLeastBase(0.0, refill, forward, reqs, i, j + 1);
    var capacity: nat := Allowance(0.0, refill, forward).Floor + 2;
    AllowanceShifts(1.0, 0.0, refill, forward);
    AllowanceShifts(capacity as real, 0.0, refill, forward);
    AllowanceShifts(capacity as real, 0.0, refill, elapsed);
    kind := Bucket(capacity as real, refill);
    var drained := DrainAll(capacity, refill, reqs, i, j + 1);
    other := drained + reqs[j + 1..];
    assert other[..j + 1] == drained[..j + 1];
    AdmittedPrefix(kind, other, drained, i, j + 1);
    assert other[i].now == reqs[i].now && other[j].now == reqs[j].now;
  }

  /** A request that sampled the clock earlier but reached the bucket later moves
      `last` back, and the same second is refilled twice: two units at one instant
      from a bucket of one. */
  lemma OutOfOrderOverAdmits()
    ensures var kind, reqs := Bucket(1.0, 1.0), [Hit(10.0, 1), Hit(9.0, 1), Hit(10.0, 1)];
            && VerdictOf(kind, reqs, 0) == Allowed && VerdictOf(kind, reqs, 2) == Allowed
            && !WithinCeiling(kind, reqs, 0, 2)
  {
    var kind, reqs := Bucket(1.0, 1.0), [Hit(10.0, 1), Hit(9.0, 1), Hit(10.0, 1)];
    assert reqs[..0] == [] && reqs[..1] == [Hit(10.0, 1)] && reqs[..2] == [Hit(10.0, 1), Hit(9.0, 1)];
    assert reqs[..1][..0] == [] && reqs[..2][..1] == reqs[..1];
    assert Last(kind, reqs[..0], reqs[0]) == Decision(Allowed, Tokens(0.0, 10.0));
    assert StateBefore(kind, reqs[..1], 9.0) == Tokens(0.0, 10.0);
    assert Last(kind, reqs[..1], reqs[1]).next == Tokens(0.0, 9.0);
    assert StateBefore(kind, reqs[..2], 10.0) == Tokens(0.0, 9.0);
    assert Last(kind, reqs[..2], reqs[2]) == Decision(Allowed, Tokens(0.0, 10.0));
    assert Admitted(kind, reqs, 0, 1) == 1;
    assert Admitted(kind, reqs, 0, 3) >= 2;
  }

  // ---- the retry hint ----

  lemma WaitRefills(need: real, refill: real, waited: real)
    requires refill > 0.0 && waited >= need / refill
    ensures waited * refill >= need
  {
    var exact := need / refill;
    assert exact * refill == need;
    assert (waited - exact) * refill >= 0.0;
    assert (waited - exact) * refill == waited * refill - exact * refill;
  }

  /** A bucket that denies a cost within its capacity admits it after the returned
      number of seconds, if nobody else draws on it. */
  lemma BucketRetrySucceeds(kind: Kind, st: PartitionState, now: Time, cost: nat, later: Time)
    requires ValidKind(kind) && kind.Bucket? && Ordered(kind, st, now)
    requires UnitsOf(cost) as real <= kind.capacity
    requires var d := Decide(kind, st, now, cost); d.verdict.RetryAfter? && later >= now + d.verdict.seconds as real
    ensures Decide(kind, Decide(kind, st, now, cost).next, later, cost).verdict == Allowed
  {
    var d := Decide(kind, st, now, cost);
    var need := MaxReal(UnitsOf(cost) as real - d.next.tokens, 1.0);
    WaitRefills(need, kind.refillPerSec, later - now);
  }

  /** The hint of a bucket is the least number of whole seconds, at least one, in which
      the tokens that the request is short of, and at least one token, are refilled. */
  lemma BucketHintIsLeast(kind: Kind, st: PartitionState, now: Time, cost: nat, seconds: nat)
    requires ValidKind(kind) && kind.Bucket? && st.Tokens? && seconds >= 1
    requires Decide(kind, st, now, cost).verdict.RetryAfter?
    ensures var d, gained := Decide(kind, st, now, cost), seconds as real * kind.refillPerSec;
            d.next.Tokens? && d.verdict.seconds >= 1
            && (seconds >= d.verdict.seconds <==> gained >= UnitsOf(cost) as real - d.next.tokens && gained >= 1.0)
  {
    var d := Decide(kind, st, now, cost);
    var need := MaxReal(UnitsOf(cost) as real - d.next.tokens, 1.0);
    LeastSeconds(need, kind.refillPerSec, seconds);
  }

  lemma LeastSeconds(need: real, refill: real, seconds: nat)
    requires refill > 0.0 && seconds >= 1
    ensures seconds >= CeilSecs(need / refill) <==> seconds as real * refill >= need
  {
    var exact := need / refill;
    assert exact * refill == need;
    assert (seconds as real - exact) * refill == seconds as real * refill - exact * refill;
    assert seconds as real >= exact <==> (seconds as real - exact) * refill >= 0.0;
    CeilSecsIsLeast(exact, seconds);
  }

  lemma CeilSecsIsLeast(secs: real, seconds: nat)
    requires seconds >= 1
    ensures seconds >= CeilSecs(secs) <==> seconds as real >= secs
  {
  }

  /** The hint of a window is the least number of whole seconds, at least one, after which
      the oldest hit is out of it; for a request beyond the permit it is the window. */
  lemma SlidingHintIsLeast(kind: Kind, st: PartitionState, now: Time, cost: nat, seconds: nat)
    requires ValidKind(kind) && kind.Sliding? && Ordered(kind, st, now) && seconds >= 1
    requires Decide(kind, st, now, cost).verdict.RetryAfter?
    ensures var d := Decide(kind, st, now, cost);
            && d.next.Hits?
            && (UnitsOf(cost) > kind.permit ==>
                  (seconds >= d.verdict.seconds <==> seconds as real >= kind.window))
            && (UnitsOf(cost) <= kind.permit ==>
                  d.next.times != []
                  && (seconds >= d.verdict.seconds <==> now + seconds as real >= d.next.times[0] + kind.window))
  {
    var p := DropExpiredIsSuffix(st.times, now, kind.window);
    var hits := Decide(kind, st, now, cost).next.times;
    CeilSecsIsLeast(kind.window, seconds);
    if UnitsOf(cost) <= kind.permit {
      CeilSecsIsLeast(Since(hits[0] + kind.window, now), seconds);
    }
  }

  /** A request that asks for more than there ever is is refused whatever came before. */
  lemma OversizedNeverSucceeds(kind: Kind, st: PartitionState, now: Time, cost: nat)
    requires ValidKind(kind) && Bounded(kind, st)
    requires match kind case Sliding(permit, _) => cost > permit case Bucket(capacity, _) => cost as real > capacity
    ensures Decide(kind, st, now, cost).verdict.RetryAfter?
  {
  }

  /** When an uncontended retry of a denied sliding-window request succeeds: as
      many hits as the request is short of must have left the window by then. The
      hint waits for the oldest hit only. */
  lemma SlidingRetryIff(kind: Kind, st: PartitionState, now: Time, cost: nat, later: Time)
    requires ValidKind(kind) && kind.Sliding? && Ordered(kind, st, now) && UnitsOf(cost) <= kind.permit && now <= later
    requires Decide(kind, st, now, cost).verdict.RetryAfter?
    ensures var hits := Decide(kind, st, now, cost).next.times;
            var short := |hits| + UnitsOf(cost) - kind.permit;
            && 1 <= short <= |hits|
            && (Decide(kind, Hits(hits), later, cost).verdict == Allowed <==> later >= hits[short - 1] + kind.window)
  {
    var q := DropExpiredIsSuffix(st.times, now, kind.window);
    var hits := Decide(kind, st, now, cost).next.times;
    DecideKeepsOrder(kind, st, now, cost);
    var p := DropExpiredIsSuffix(hits, later, kind.window);
  }

  /** For a single unit the hint is therefore enough. */
  lemma SlidingRetrySucceeds(kind: Kind, st: PartitionState, now: Time, cost: nat, later: Time)
    requires ValidKind(kind) && kind.Sliding? && Ordered(kind, st, now) && UnitsOf(cost) == 1
    requires var d := Decide(kind, st, now, cost); d.verdict.RetryAfter? && later >= now + d.verdict.seconds as real
    ensures Decide(kind, Decide(kind, st, now, cost).next, later, cost).verdict == Allowed
  {
    SlidingRetryIff(kind, st, now, cost, later);
    DecideKeepsOrder(kind, st, now, cost);
  }

  /** For more than one unit it is not: with hits at 0 s and 5 s in a ten-second
      window of two, a request for both slots is told to come back when only the
      first of them is free. */
  lemma SlidingRetryCanFail()
    ensures var kind, st := Sliding(2, 10.0), Hits([0.0, 5.0]);
            && Ordered(kind, st, 5.0)
            && Decide(kind, st, 5.0, 2).verdict == RetryAfter(5)
            && Decide(kind, Decide(kind, st, 5.0, 2).next, 10.0, 2).verdict.RetryAfter?
  {
    var kind, st := Sliding(2, 10.0), Hits([0.0, 5.0]);
    var q := DropExpiredIsSuffix(st.times, 5.0, kind.window);
    assert st.times[0..] == st.times;
    SlidingRetryIff(kind, st, 5.0, 2, 10.0);
  }
}
