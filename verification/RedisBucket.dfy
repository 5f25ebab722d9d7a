/** The token bucket that replicas share through Redis. Each Lua script is one
    atomic step driven by Redis's clock, in milliseconds. */
module RedisBucket {
  import opened Options
  import opened Sums

  type Millis = int

  /** A policy's bucket parameters. */
  datatype Rate = Rate(capacity: real, refillPerSec: real)

  ghost predicate ValidRate(r: Rate) { r.capacity >= 1.0 && r.refillPerSec > 0.0 }

  /** The stored hash and its expiry deadline. */
  datatype Bucket = Bucket(tokens: real, lastMs: Millis, deadline: Millis)

  function Ceil(x: real): int { -((-x).Floor) }

  /** Tokens refilled in `ms` milliseconds. */
  function Gain(rate: Rate, ms: Millis): real { ms as real * rate.refillPerSec / 1000.0 }

  /** Milliseconds until `tokens` more tokens are there. */
  function WaitMs(rate: Rate, tokens: real): int
    requires rate.refillPerSec > 0.0
  {
    Ceil(tokens * 1000.0 / rate.refillPerSec)
  }

  // ---- the arithmetic of refilling ----

  lemma GainAdds(rate: Rate, a: Millis, b: Millis)
    ensures Gain(rate, a + b) == Gain(rate, a) + Gain(rate, b)
  {
    assert (a + b) as real * rate.refillPerSec == a as real * rate.refillPerSec + b as real * rate.refillPerSec;
  }

  lemma GainMonotone(rate: Rate, a: Millis, b: Millis)
    requires ValidRate(rate) && a <= b
    ensures Gain(rate, a) <= Gain(rate, b)
    ensures 0 <= a ==> 0.0 <= Gain(rate, a)
  {
    assert (b - a) as real * rate.refillPerSec >= 0.0;
    GainAdds(rate, a, b - a);
  }

  /** The wait is exact to the millisecond: it suffices, and one less does not. */
  lemma WaitIsExact(rate: Rate, tokens: real, ms: Millis)
    requires ValidRate(rate)
    ensures Gain(rate, ms) >= tokens <==> ms >= WaitMs(rate, tokens)
    ensures tokens > 0.0 ==> WaitMs(rate, tokens) >= 1
  {
    var exact := tokens * 1000.0 / rate.refillPerSec;
    assert exact * rate.refillPerSec == tokens * 1000.0;
    CeilIsLeast(exact, ms);
    var d := ms as real - exact;
    assert d * rate.refillPerSec == ms as real * rate.refillPerSec - exact * rate.refillPerSec;
    assert d >= 0.0 <==> d * rate.refillPerSec >= 0.0;
    assert Gain(rate, ms) * 1000.0 == ms as real * rate.refillPerSec;
    if tokens > 0.0 {
      assert exact > 0.0;
    }
  }

  lemma CeilIsLeast(x: real, n: int)
    ensures n as real >= x <==> n >= Ceil(x)
  {
  }

  // ---- the scripts ----

  datatype Level = Level(tokens: real, lastMs: Millis)

  /** What a script sees after loading and refilling: a missing key is a full
      bucket, and a clock behind the stored stamp refills nothing. */
  function Load(rate: Rate, entry: Option<Bucket>, now: Millis): Level {
    match entry
    case None => Level(rate.capacity, now)
    case Some(b) =>
      var tokens := MaxReal(0.0, MinReal(rate.capacity, b.tokens));
      if now > b.lastMs then Level(MinReal(rate.capacity, tokens + Gain(rate, now - b.lastMs)), now)
      else Level(tokens, b.lastMs)
  }

  function Store(rate: Rate, level: Level, now: Millis): Bucket
    requires rate.refillPerSec > 0.0
  {
    Bucket(level.tokens, level.lastMs, now + Max(1, WaitMs(rate, rate.capacity - level.tokens)))
  }

  /** Milliseconds a cost has to wait at this level; zero if it is covered. */
  function Shortage(rate: Rate, level: Level, cost: nat): int
    requires rate.refillPerSec > 0.0
  {
    if cost as real > rate.capacity then WaitMs(rate, rate.capacity)
    else if level.tokens < cost as real then WaitMs(rate, cost as real - level.tokens)
    else 0
  }

  datatype Reply = Reply(retryMs: int, next: Bucket)

  /** The single-key script. The caller charges at least one unit. */
  function BucketScript(rate: Rate, entry: Option<Bucket>, now: Millis, cost: nat): Reply
    requires rate.refillPerSec > 0.0
  {
    var level := Load(rate, entry, now);
    var allowed := cost as real <= rate.capacity && level.tokens >= cost as real;
    var after := if allowed then Level(level.tokens - cost as real, level.lastMs) else level;
    Reply(if allowed then 0 else Max(1, Shortage(rate, level, cost)), Store(rate, after, now))
  }

  /** The script admits (returns zero) exactly when the cost is covered, and otherwise
      returns the least number of milliseconds that refill what is missing. */
  lemma AdmitsIffCovered(rate: Rate, entry: Option<Bucket>, now: Millis, cost: nat)
    requires ValidRate(rate)
    ensures var level, retry := Load(rate, entry, now), BucketScript(rate, entry, now, cost).retryMs;
            && (Shortage(rate, level, cost) <= 0 <==> cost as real <= level.tokens)
            && (retry == 0 <==> cost as real <= level.tokens) && level.tokens <= rate.capacity
            && (retry != 0 && cost as real <= rate.capacity ==>
                  && Gain(rate, retry) >= cost as real - level.tokens
                  && Gain(rate, retry - 1) < cost as real - level.tokens)
  {
    var level, retry := Load(rate, entry, now), BucketScript(rate, entry, now, cost).retryMs;
    WaitIsExact(rate, rate.capacity, 0);
    WaitIsExact(rate, cost as real - level.tokens, 0);
    WaitIsExact(rate, cost as real - level.tokens, retry);
    WaitIsExact(rate, cost as real - level.tokens, retry - 1);
  }

  /** A stored bucket expires in the first millisecond in which it is full again, but
      not before the next one. */
  lemma ExpiresWhenFull(rate: Rate, level: Level, now: Millis, t: Millis)
    requires ValidRate(rate)
    ensures var b := Store(rate, level, now);
            && b.tokens == level.tokens && b.lastMs == level.lastMs && b.deadline > now
            && (t > now ==> (t >= b.deadline <==> level.tokens + Gain(rate, t - now) >= rate.capacity))
  {
    WaitIsExact(rate, rate.capacity - level.tokens, t - now);
  }

  // ---- any clock: the budget of a retained key ----

  datatype Charge = Charge(now: Millis, cost: nat)

  /** The key after a run of charges with arbitrary clock readings. */
  ghost function After(rate: Rate, run: seq<Charge>): Option<Bucket>
    requires ValidRate(rate)
  {
    if run == [] then None
    else Some(BucketScript(rate, After(rate, run[..|run| - 1]), run[|run| - 1].now, run[|run| - 1].cost).next)
  }

  /** Units admitted by charges `i` to `n - 1`. */
  ghost function Admitted(rate: Rate, run: seq<Charge>, i: nat, n: nat): nat
    requires ValidRate(rate) && i <= n <= |run|
  {
    if i == n then 0
    else Admitted(rate, run, i, n - 1)
         + (if BucketScript(rate, After(rate, run[..n - 1]), run[n - 1].now, run[n - 1].cost).retryMs == 0
            then run[n - 1].cost else 0)
  }

  /** The highest clock reading so far. */
  ghost function High(run: seq<Charge>, n: nat): Millis
    requires 1 <= n <= |run|
  {
    if n == 1 then run[0].now else Max(High(run, n - 1), run[n - 1].now)
  }

  ghost function Allowance(rate: Rate, ms: Millis): real { rate.capacity + Gain(rate, ms) }

  ghost predicate Covered(rate: Rate, tokens: real, admitted: nat, ms: Millis) {
    0.0 <= tokens <= rate.capacity && tokens + admitted as real <= Allowance(rate, ms)
  }

  /** One charge against a bucket whose books since reading `start` are in order. */
  lemma ChargeKeepsCover(rate: Rate, b: Bucket, now: Millis, cost: nat, start: Millis, admitted: nat)
    requires ValidRate(rate) && 0.0 <= b.tokens <= rate.capacity
    requires (start == Max(b.lastMs, now) && admitted == 0) || Covered(rate, b.tokens, admitted, b.lastMs - start)
    ensures var r := BucketScript(rate, Some(b), now, cost);
            && r.next.lastMs == Max(b.lastMs, now)
            && Covered(rate, r.next.tokens, admitted + (if r.retryMs == 0 then cost else 0), r.next.lastMs - start)
  {
  }

  lemma FirstCharge(rate: Rate, now: Millis, cost: nat)
    requires ValidRate(rate)
    ensures var r := BucketScript(rate, None, now, cost);
            r.next.lastMs == now && Covered(rate, r.next.tokens, if r.retryMs == 0 then cost else 0, 0)
  {
  }

  lemma {:induction false} BudgetRun(rate: Rate, run: seq<Charge>, i: nat, n: nat)
    requires ValidRate(rate) && i < n <= |run|
    ensures After(rate, run[..n]).Some?
    ensures var b := After(rate, run[..n]).value;
            b.lastMs == High(run, n) && Covered(rate, b.tokens, Admitted(rate, run, i, n), b.lastMs - High(run, i + 1))
    decreases n
  {
    hide BucketScript, Covered;
    var charge, before := run[n - 1], After(rate, run[..n - 1]);
    assert run[..n][..n - 1] == run[..n - 1];
    if n == 1 {
      FirstCharge(rate, charge.now, charge.cost);
    } else {
      BudgetRun(rate, run, Min(i, n - 2), n - 1);
      CoverIsBounded(rate, before.value.tokens, Admitted(rate, run, Min(i, n - 2), n - 1),
                     before.value.lastMs - High(run, Min(i, n - 2) + 1));
      ChargeKeepsCover(rate, before.value, charge.now, charge.cost, High(run, i + 1), Admitted(rate, run, i, n - 1));
    }
  }

  lemma CoverIsBounded(rate: Rate, tokens: real, admitted: nat, ms: Millis)
    requires Covered(rate, tokens, admitted, ms)
    ensures 0.0 <= tokens <= rate.capacity && admitted as real <= Allowance(rate, ms)
  {
  }

  /** While the key is retained, for every interleaving of replicas and every
      sequence of clock readings, backward jumps included: tokens stay within the
      bucket, and charges `i` to `j` admit at most the capacity plus the refill
      between the highest readings. From the first charge on that is the highest
      reading minus the first. */
  lemma SharedBudget(rate: Rate, run: seq<Charge>, i: nat, j: nat)
    requires ValidRate(rate) && i <= j < |run|
    ensures Admitted(rate, run, i, j + 1) as real <= Allowance(rate, High(run, j + 1) - High(run, i + 1))
    ensures i == 0 ==> Admitted(rate, run, i, j + 1) as real <= Allowance(rate, High(run, j + 1) - run[0].now)
    ensures After(rate, run[..j + 1]).Some? && 0.0 <= After(rate, run[..j + 1]).value.tokens <= rate.capacity
  {
    hide Covered;
    BudgetRun(rate, run, i, j + 1);
    var b := After(rate, run[..j + 1]).value;
    CoverIsBounded(rate, b.tokens, Admitted(rate, run, i, j + 1), b.lastMs - High(run, i + 1));
  }
}
