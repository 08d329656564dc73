/** Retry and backoff policies (ic-task-scheduler/src/retry.rs).  Counters are unbounded except where
    the source saturates. */
module Retry {
  import opened Arithmetic

  const MAX_U32: nat := 0xFFFF_FFFF

  datatype RetryPolicy = NoRetry | MaxRetries(retries: nat) | Infinite | Timeout(timeoutTs: nat)

  datatype BackoffPolicy =
    | NoBackoff
    | Fixed(secs: nat)
    | Variable(delays: seq<nat>)
    | Exponential(period: nat, multiplier: nat)

  /** `nowNanos` is `ic::time()`. */
  predicate ShouldRetry(p: RetryPolicy, failedAttempts: nat, nowNanos: nat) {
    failedAttempts == 0 ||
    match p
    case NoRetry => false
    case Infinite => true
    case MaxRetries(retries) => retries >= failedAttempts
    case Timeout(ts) => nowNanos <= ts
  }

  function Saturate(n: nat): nat {
    if n > MAX_U32 then MAX_U32 else n
  }

  function ShouldWait(p: BackoffPolicy, failedAttempts: nat): nat {
    if failedAttempts == 0 then 0 else
      match p
      case NoBackoff => 0
      case Fixed(secs) => secs
      case Variable(delays) =>
        if failedAttempts - 1 < |delays| then delays[failedAttempts - 1]
        else if delays != [] then delays[|delays| - 1] else 0
      case Exponential(period, multiplier) =>
        if period > 0 then Saturate(period * Saturate(Pow(multiplier, failedAttempts - 1))) else 0
  }

  /** Saturating twice is saturating once: the delay is the closed form cut at 2^32 - 1. */
  lemma ExponentialDelay(period: nat, multiplier: nat, f: nat)
    requires f >= 1
    ensures ShouldWait(Exponential(period, multiplier), f) == Saturate(period * Pow(multiplier, f - 1))
  {
    var p := Pow(multiplier, f - 1);
    if period > 0 && p > MAX_U32 {
      MulAtLeast(period, p);
      MulAtLeast(period, MAX_U32);
    }
  }

  /** Exponential delays never shrink exactly when the multiplier is positive (or nothing is waited). */
  lemma ExponentialMonotoneIff(period: nat, multiplier: nat)
    ensures (forall f: nat, g: nat :: f <= g ==>
               ShouldWait(Exponential(period, multiplier), f) <= ShouldWait(Exponential(period, multiplier), g))
            <==> multiplier >= 1 || period == 0
  {
    var p := Exponential(period, multiplier);
    if multiplier >= 1 && period > 0 {
      forall f: nat, g: nat | f <= g ensures ShouldWait(p, f) <= ShouldWait(p, g) {
        if f >= 1 {
          LaterWaitsLonger(period, multiplier, f, g);
        }
      }
    } else if period > 0 {
      ExponentialDelay(period, multiplier, 1);
      ExponentialDelay(period, multiplier, 2);
      assert Pow(multiplier, 0) == 1 && Pow(multiplier, 1) == 0;
      assert ShouldWait(p, 1) > ShouldWait(p, 2);
    }
  }

  lemma LaterWaitsLonger(period: nat, multiplier: nat, f: nat, g: nat)
    requires 1 <= f <= g && multiplier >= 1
    ensures ShouldWait(Exponential(period, multiplier), f) <= ShouldWait(Exponential(period, multiplier), g)
  {
    ExponentialDelay(period, multiplier, f);
    ExponentialDelay(period, multiplier, g);
    PowMonotone(multiplier, f - 1, g - 1);
    MulMonotone(Pow(multiplier, f - 1), Pow(multiplier, g - 1), period);
  }

  /** Nothing has failed: the task may run, at once. */
  lemma NoFailures(policy: RetryPolicy, backoff: BackoffPolicy, nowNanos: nat)
    ensures ShouldRetry(policy, 0, nowNanos) && ShouldWait(backoff, 0) == 0
  {
  }

  /** How long each policy waits after the f-th failure: a variable schedule its f-th entry, and its last one ever
      after; an exponential one the first period times the multiplier to the f - 1, at most 2^32 - 1. */
  lemma Delays(secs: nat, delays: seq<nat>, multiplier: nat, f: nat)
    requires f >= 1
    ensures ShouldWait(NoBackoff, f) == 0 && ShouldWait(Fixed(secs), f) == secs
    ensures ShouldWait(Variable(delays), f) ==
            if delays == [] then 0 else if f <= |delays| then delays[f - 1] else delays[|delays| - 1]
    ensures var delay := secs * Pow(multiplier, f - 1);
            ShouldWait(Exponential(secs, multiplier), f) == if delay > 0xFFFF_FFFF then 0xFFFF_FFFF else delay
  {
    ExponentialDelay(secs, multiplier, f);
  }
}
