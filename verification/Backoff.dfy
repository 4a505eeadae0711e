/** The relay loop's retry delays (workers/internal/outboxrelay/relay.go). Durations are int64 nanoseconds. */
module Backoff {
  import opened Common

  const MILLISECOND := 1_000_000

  /** 2^62: doubling anything from here on overflows. */
  const LIMIT := 0x4000_0000_0000_0000

  const DEFAULT_MIN := 200 * MILLISECOND
  const DEFAULT_MAX := 30_000 * MILLISECOND

  /** jitterDuration with the random draw made explicit. rand.Int63n panics unless its bound is positive. */
  datatype Sleep = Panic | For(duration: int)

  predicate Draws(d: int, draw: int) {
    0 < d ==> 0 <= draw && (d / 4 > 0 ==> draw < d / 4)
  }

  function Jitter(d: int, draw: int): Sleep {
    if d <= 0 then For(d)
    else if d / 4 <= 0 then Panic
    else For(Wrap64(d + draw))
  }

  /** backoff *= 2, capped. */
  function Next(backoff: int, maxB: int): int {
    var doubled := Wrap64(backoff * 2);
    if doubled > maxB then maxB else doubled
  }

  /** The backoff after `k` failures in a row. */
  function After(minB: int, maxB: int, k: nat): int {
    if k == 0 then minB else Next(After(minB, maxB, k - 1), maxB)
  }

  function Pow2(k: nat): (p: nat)
    ensures p >= 1
  {
    if k == 0 then 1 else 2 * Pow2(k - 1)
  }

  function Min(a: int, b: int): int {
    if a < b then a else b
  }

  // ---- Bounds --------------------------------------------------------------------------------------

  lemma DoublePow(minB: int, k: nat)
    requires k > 0
    ensures minB * Pow2(k) == 2 * (minB * Pow2(k - 1))
  {
    assert minB * (2 * Pow2(k - 1)) == 2 * (minB * Pow2(k - 1));
  }

  lemma {:induction false} CappedDoubling(minB: int, maxB: int, k: nat)
    requires 0 < minB <= maxB < LIMIT
    ensures After(minB, maxB, k) == Min(minB * Pow2(k), maxB)
    ensures minB <= After(minB, maxB, k) <= maxB
  {
    if k == 0 {
    } else {
      CappedDoubling(minB, maxB, k - 1);
      DoublePow(minB, k);
    }
  }

  lemma {:induction false} PowUnbounded(bound: nat) returns (k: nat)
    ensures Pow2(k) > bound
  {
    if bound == 0 {
      k := 0;
    } else {
      var j := PowUnbounded(bound - 1);
      k := j + 1;
    }
  }

  lemma NextOverflows(b: int, maxB: int)
    requires LIMIT <= b <= MAX_INT64 && maxB > 0
    ensures Next(b, maxB) < 0
  {
  }

  lemma Scaled(a: int, b: nat)
    requires a >= 1
    ensures a * b >= b
  {
    if a > 1 {
      Scaled(a - 1, b);
      assert a * b == (a - 1) * b + b;
    }
  }

  /** The first time the exact value reaches 2^62. */
  lemma {:induction false} FirstReach(minB: int, far: nat) returns (k: nat)
    requires 0 < minB <= MAX_INT64 && minB * Pow2(far) >= LIMIT
    ensures LIMIT <= minB * Pow2(k) <= MAX_INT64
  {
    if minB * Pow2(far) <= MAX_INT64 {
      k := far;
    } else {
      assert far > 0 by { assert minB * Pow2(0) == minB; }
      DoublePow(minB, far);
      k := FirstReach(minB, far - 1);
    }
  }

  /** With a cap of 2^62 ns or more the doubling overflows at some point and the delay turns negative. */
  lemma OverflowHappens(minB: int, maxB: int) returns (k: nat)
    requires 0 < minB <= maxB && LIMIT <= maxB <= MAX_INT64
    ensures After(minB, maxB, k) != Min(minB * Pow2(k), maxB)
  {
    var far := PowUnbounded(LIMIT);
    Scaled(minB, Pow2(far));
    k := FirstReach(minB, far);
    if After(minB, maxB, k) == Min(minB * Pow2(k), maxB) {
      NextOverflows(After(minB, maxB, k), maxB);
      k := k + 1;
      Scaled(minB, Pow2(k));
    }
  }

  /** For every configuration: after k failures in a row the backoff is min(minB * 2^k, maxB), for every k, exactly when
      the minimum is at most the cap and the cap is below 2^62 ns. */
  lemma BackoffBound(minB: int, maxB: int)
    requires 0 < minB <= MAX_INT64 && 0 < maxB <= MAX_INT64
    ensures (forall k: nat :: After(minB, maxB, k) == Min(minB * Pow2(k), maxB)) <==> minB <= maxB < LIMIT
  {
    if minB > maxB {
      assert After(minB, maxB, 0) == minB && minB * Pow2(0) == minB;
    } else if maxB < LIMIT {
      forall k: nat
        ensures After(minB, maxB, k) == Min(minB * Pow2(k), maxB)
      {
        CappedDoubling(minB, maxB, k);
      }
    } else {
      var k := OverflowHappens(minB, maxB);
    }
  }

  /** Without overflow every delay lies between the smaller and the larger of the two settings. */
  lemma {:induction false} DelayInRange(minB: int, maxB: int, k: nat)
    requires 0 < minB < LIMIT && 0 < maxB < LIMIT
    ensures Min(minB, maxB) <= After(minB, maxB, k) && (After(minB, maxB, k) <= maxB || After(minB, maxB, k) == minB)
  {
    if k == 0 {
    } else {
      DelayInRange(minB, maxB, k - 1);
    }
  }

  /** Some delay is negative when either setting is 2^62 ns or more. */
  lemma NegativeDelay(minB: int, maxB: int) returns (k: nat)
    requires 0 < minB <= MAX_INT64 && 0 < maxB <= MAX_INT64 && (minB >= LIMIT || maxB >= LIMIT)
    ensures After(minB, maxB, k) < 0
  {
    if minB >= LIMIT {
      assert After(minB, maxB, 0) == minB;
      NextOverflows(minB, maxB);
      k := 1;
    } else {
      var j := OverflowHappens(minB, maxB);
      k := FirstLarge(minB, maxB, j);
      NextOverflows(After(minB, maxB, k), maxB);
      k := k + 1;
    }
  }

  /** As long as no delay has reached 2^62 the doubling is exact. */
  lemma {:induction false} FirstLarge(minB: int, maxB: int, j: nat) returns (k: nat)
    requires 0 < minB <= maxB <= MAX_INT64 && After(minB, maxB, j) != Min(minB * Pow2(j), maxB)
    ensures LIMIT <= After(minB, maxB, k) <= MAX_INT64
  {
    assert minB * Pow2(0) == minB && After(minB, maxB, 0) == minB;
    if After(minB, maxB, j - 1) != Min(minB * Pow2(j - 1), maxB) {
      k := FirstLarge(minB, maxB, j - 1);
    } else {
      DoublePow(minB, j);
      Scaled(minB, Pow2(j - 1));
      k := j - 1;
    }
  }

  /** For every configuration: each sleep is the backoff plus its draw, less than 1.25 times the backoff, and none
      panics, for every number of failures and every draw, exactly when both settings are at least 4 ns and below
      2^62 ns. */
  lemma JitterBound(minB: int, maxB: int)
    requires 0 < minB <= MAX_INT64 && 0 < maxB <= MAX_INT64
    ensures (forall k: nat, draw :: Draws(After(minB, maxB, k), draw) ==> SleepOk(After(minB, maxB, k), draw))
            <==> 4 <= minB < LIMIT && 4 <= maxB < LIMIT
  {
    if minB >= LIMIT || maxB >= LIMIT {
      var k := NegativeDelay(minB, maxB);
      assert Draws(After(minB, maxB, k), 0) && !SleepOk(After(minB, maxB, k), 0);
    } else if minB < 4 {
      assert After(minB, maxB, 0) == minB;
      assert Draws(After(minB, maxB, 0), 0) && !SleepOk(After(minB, maxB, 0), 0);
    } else if maxB < 4 {
      assert After(minB, maxB, 1) == Next(After(minB, maxB, 0), maxB) == maxB;
      assert Draws(After(minB, maxB, 1), 0) && !SleepOk(After(minB, maxB, 1), 0);
    } else {
      forall k: nat, draw | Draws(After(minB, maxB, k), draw)
        ensures SleepOk(After(minB, maxB, k), draw)
      {
        DelayInRange(minB, maxB, k);
      }
    }
  }

  predicate SleepOk(d: int, draw: int) {
    match Jitter(d, draw)
    case Panic => false
    case For(t) => t == d + draw && d <= t && 4 * t < 5 * d
  }

  // ---- The loop ------------------------------------------------------------------------------------------

  /** One iteration of Run: what RelayPublishBatch returned and the draw used if it failed. */
  datatype Iteration = Failed(draw: int) | Relayed(n: nat)

  /** How many failures in a row precede iteration `i`. */
  function FailuresBefore(script: seq<Iteration>, i: nat): nat
    requires i <= |script|
  {
    if i == 0 || script[i - 1].Relayed? then 0 else FailuresBefore(script, i - 1) + 1
  }

  /** Exactly the last `k` iterations before `i` failed. */
  ghost predicate StreakBefore(script: seq<Iteration>, i: nat, k: nat) {
    && k <= i <= |script| && (forall j :: i - k <= j < i ==> script[j].Failed?)
    && (k < i ==> script[i - k - 1].Relayed?)
  }

  lemma {:induction false} StreakIsCounted(script: seq<Iteration>, i: nat, k: nat)
    requires StreakBefore(script, i, k)
    ensures FailuresBefore(script, i) == k
    decreases i
  {
    if k > 0 {
      assert script[i - 1].Failed?;
      StreakIsCounted(script, i - 1, k - 1);
    }
  }

  /** The delay of each iteration: a jittered backoff after an error, the poll interval after an empty batch,
      none otherwise. */
  function Delay(script: seq<Iteration>, i: nat, poll: int, minB: int, maxB: int): Sleep
    requires i < |script|
  {
    match script[i]
    case Failed(draw) => Jitter(After(minB, maxB, FailuresBefore(script, i)), draw)
    case Relayed(n) => if n == 0 then For(poll) else For(0)
  }

  /** After an empty batch the loop sleeps the poll interval, after another one not at all, and after an error the
      jittered backoff of so many failures as there were since the last success. */
  ghost predicate Sleeps(script: seq<Iteration>, sleeps: seq<Sleep>, poll: int, minB: int, maxB: int)
    requires |sleeps| <= |script|
  {
    forall i: nat :: i < |sleeps| ==>
      match script[i]
      case Relayed(n) => sleeps[i] == if n == 0 then For(poll) else For(0)
      case Failed(draw) =>
        forall k :: StreakBefore(script, i, k) ==> sleeps[i] == Jitter(After(minB, maxB, k), draw)
  }

  lemma DelaysAreSleeps(script: seq<Iteration>, sleeps: seq<Sleep>, poll: int, minB: int, maxB: int)
    requires |sleeps| <= |script|
    requires forall i :: 0 <= i < |sleeps| ==> sleeps[i] == Delay(script, i, poll, minB, maxB)
    ensures Sleeps(script, sleeps, poll, minB, maxB)
  {
    forall i: nat, k | i < |sleeps| && StreakBefore(script, i, k)
      ensures FailuresBefore(script, i) == k
    {
      StreakIsCounted(script, i, k);
    }
  }

  /** Run until its context is cancelled after the iterations of `script`, or until a jitter panics. */
  method Run(script: seq<Iteration>, pollInterval: int, minBackoff: int, maxBackoff: int) returns (sleeps: seq<Sleep>)
    ensures var poll := if pollInterval <= 0 then 500 * MILLISECOND else pollInterval;
            var minB := if minBackoff <= 0 then DEFAULT_MIN else minBackoff;
            var maxB := if maxBackoff <= 0 then DEFAULT_MAX else maxBackoff;
            && |sleeps| <= |script|
            && (forall i :: 0 <= i < |sleeps| ==> sleeps[i] == Delay(script, i, poll, minB, maxB))
            && (|sleeps| < |script| ==> sleeps != [] && sleeps[|sleeps| - 1] == Panic)
            && Sleeps(script, sleeps, poll, minB, maxB)
  {
    var poll := if pollInterval <= 0 then 500 * MILLISECOND else pollInterval;
    var minB := if minBackoff <= 0 then DEFAULT_MIN else minBackoff;
    var maxB := if maxBackoff <= 0 then DEFAULT_MAX else maxBackoff;
    var backoff := minB;
    sleeps := [];
    for i := 0 to |script|
      invariant |sleeps| == i
      invariant backoff == After(minB, maxB, FailuresBefore(script, i))
      invariant forall j :: 0 <= j < i ==> sleeps[j] == Delay(script, j, poll, minB, maxB)
    {
      match script[i]
      case Failed(draw) =>
        var s := Jitter(backoff, draw);
        sleeps := sleeps + [s];
        if s == Panic {
          DelaysAreSleeps(script, sleeps, poll, minB, maxB);
          return;
        }
        backoff := Wrap64(backoff * 2);
        if backoff > maxB {
          backoff := maxB;
        }
      case Relayed(n) =>
        backoff := minB;
        sleeps := sleeps + [if n == 0 then For(poll) else For(0)];
    }
    DelaysAreSleeps(script, sleeps, poll, minB, maxB);
  }
}
