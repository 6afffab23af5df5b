/** The bounded retry loop with exponential delays (jitter apart). */
module Retry {
  import opened Powers

  /** How one attempt ends: it succeeds, fails in a way worth retrying, or fails for good. */
  datatype Attempt = Succeeded | Retryable | Fatal

  function Delay(base: real, max: real, attempt: nat): real
    requires attempt >= 1
  {
    var d := base * Pow2(attempt - 1) as real;
    if max < d then max else d
  }

  predicate Stops(a: Attempt, attempts: nat, maxRetries: int) {
    !a.Retryable? || attempts > maxRetries
  }

  /** Calls `script(0)`, `script(1)`, ... until one succeeds, fails for good, or the retries are used
      up; the outcome returned is that of the last call, and it slept between any two calls. */
  method RetryWithBackoff(script: nat -> Attempt, maxRetries: int, base: real, max: real)
    returns (outcome: Attempt, calls: nat, delays: seq<real>)
    ensures calls >= 1 && outcome == script(calls - 1) && Stops(outcome, calls, maxRetries)
    ensures forall i :: 0 <= i < calls - 1 ==> script(i).Retryable?
    ensures outcome.Retryable? ==> calls == if maxRetries < 0 then 1 else maxRetries + 1
    ensures forall i :: 0 <= i < calls - 1 ==> !Stops(script(i), i + 1, maxRetries)
    ensures calls <= if maxRetries < 0 then 1 else maxRetries + 1
    ensures |delays| == calls - 1 && forall i :: 0 <= i < |delays| ==> delays[i] == Delay(base, max, i + 1)
  {
    var attempt := 0;
    delays := [];
    while true
      invariant |delays| == attempt && (attempt > 0 ==> attempt <= maxRetries)
      invariant forall i :: 0 <= i < attempt ==> !Stops(script(i), i + 1, maxRetries)
      invariant forall i :: 0 <= i < attempt ==> delays[i] == Delay(base, max, i + 1)
      decreases maxRetries - attempt
    {
      outcome := script(attempt);
      calls := attempt + 1;
      if outcome.Succeeded? || outcome.Fatal? {
        return;
      }
      attempt := attempt + 1;
      if attempt > maxRetries {
        return;
      }
      delays := delays + [Delay(base, max, attempt)];
    }
  }

  function Capped(delay: real, max: real): real { if max < delay then max else delay }

  /** The first delay is the base, and each further one twice the one before, up to the cap. */
  lemma DelayDoubles(base: real, max: real, attempt: nat)
    requires base >= 0.0 && max >= 0.0 && attempt >= 1
    ensures Delay(base, max, 1) == Capped(base, max)
    ensures Delay(base, max, attempt + 1) == Capped(2.0 * Delay(base, max, attempt), max)
  {
    assert Pow2(0) == 1;
    var d := base * Pow2(attempt - 1) as real;
    DoublesOnce(base, attempt);
  }

  lemma DoublesOnce(base: real, attempt: nat)
    requires attempt >= 1
    ensures base * Pow2(attempt) as real == 2.0 * (base * Pow2(attempt - 1) as real)
  {
    assert Pow2(attempt) as real == 2.0 * Pow2(attempt - 1) as real;
  }
}
