/** Retry with exponential backoff (crates/workflow_engine/src/retry.rs).
    The retried closure is an oracle of the attempt it is given; errors are classified
    by a caller-supplied function. */
module Retry {
  import opened Common

  datatype ErrorClass = Transient | PromptTooLong | MaxOutputTokens | ProviderOverloaded | Fatal

  datatype RetryContext = RetryContext(attempt: nat, lastErrorClass: Option<ErrorClass>)

  /** Delays are in milliseconds; `maxAttempts` is a 32-bit count. */
  datatype RetryPolicy<!E> = RetryPolicy(
    maxAttempts: nat, baseDelay: nat, maxDelay: nat, backoffFactor: real, classify: E -> ErrorClass)
  {
    /** Every policy makes at least one attempt. */
    function Attempts(): nat { Max(1, maxAttempts) }
  }

  type Attempt<!T, !E> = RetryContext -> Result<T, E>

  function Pow(b: real, n: nat): real {
    if n == 0 then 1.0 else b * Pow(b, n - 1)
  }

  /** Cast of a float to a 64-bit count: truncating and saturating. */
  function ToU64(x: real): nat {
    if x < 0.0 then 0 else if x >= (U64 - 1) as real then U64 - 1 else x.Floor
  }

  /** The attempt number as the signed 32-bit exponent the code raises the factor to. */
  function ToI32(attempt: nat): int {
    var low := attempt % U32;
    if low < U32 / 2 then low else low - U32
  }

  function Scaled(baseDelay: nat, power: real): nat {
    ToU64(baseDelay as real * power)
  }

  /** A negative power divides, and dividing by zero saturates. */
  function Divided(baseDelay: nat, power: real): nat {
    if power != 0.0 then ToU64(baseDelay as real / power) else if baseDelay == 0 then 0 else U64 - 1
  }

  function Backoff(baseDelay: nat, factor: real, exponent: int): nat {
    if exponent >= 0 then Scaled(baseDelay, Pow(factor, exponent)) else Divided(baseDelay, Pow(factor, -exponent))
  }

  /** The pause after a failed attempt, in milliseconds. */
  function Delay<E>(policy: RetryPolicy<E>, attempt: nat): (ms: nat)
    ensures ms <= policy.maxDelay
  {
    Min(Backoff(policy.baseDelay, policy.backoffFactor, ToI32(attempt)), policy.maxDelay % U64)
  }

  /** What one run of the retry loop did: the contexts its closure was called with,
      the pauses between calls, and the result it returned. */
  datatype Trace<T, E> = Trace(calls: seq<RetryContext>, sleeps: seq<nat>, result: Result<T, E>)

  /** The loop gives up on this failure of this attempt. */
  predicate Stops<T, E>(policy: RetryPolicy<E>, ctx: RetryContext, outcome: Result<T, E>) {
    outcome.Ok? || policy.classify(outcome.error) == Fatal || ctx.attempt + 1 >= policy.maxAttempts
  }

  /** The rules a retry trace obeys, as properties of the whole trace. */
  ghost predicate IsRetryTrace<T, E>(policy: RetryPolicy<E>, f: Attempt<T, E>, t: Trace<T, E>) {
    && 0 < |t.calls| <= policy.Attempts()
    && |t.sleeps| == |t.calls| - 1
    && t.calls[0] == RetryContext(0, None)
    && t.result == f(t.calls[|t.calls| - 1])
    && Stops(policy, t.calls[|t.calls| - 1], t.result)
    && forall i :: 0 <= i < |t.sleeps| ==> Handover(policy, f, t, i)
  }

  /** Attempt `i` failed, was retried with its own number plus one and its own error
      class, after the delay of attempt `i`. */
  ghost predicate Handover<T, E>(policy: RetryPolicy<E>, f: Attempt<T, E>, t: Trace<T, E>, i: nat)
    requires i + 1 < |t.calls| && i < |t.sleeps|
  {
    var outcome := f(t.calls[i]);
    && !Stops(policy, t.calls[i], outcome)
    && t.calls[i + 1] == RetryContext(i + 1, Some(policy.classify(outcome.error)))
    && t.sleeps[i] == Delay(policy, i)
  }

  method WithRetry<T, E>(policy: RetryPolicy<E>, f: Attempt<T, E>) returns (t: Trace<T, E>)
    ensures IsRetryTrace(policy, f, t)
  {
    var attempt := 0;
    var lastClass: Option<ErrorClass> := None;
    var calls: seq<RetryContext> := [];
    var sleeps: seq<nat> := [];
    while true
      invariant 0 <= attempt < policy.Attempts()
      invariant |calls| == |sleeps| == attempt
      invariant attempt == 0 <==> lastClass == None
      invariant forall i :: 0 <= i < attempt - 1 ==> calls[i + 1] == RetryContext(i + 1, Some(ClassOf(policy, f, calls[i])))
      invariant attempt > 0 ==> calls[0] == RetryContext(0, None) && lastClass == Some(ClassOf(policy, f, calls[attempt - 1]))
      invariant forall i :: 0 <= i < attempt ==> !Stops(policy, calls[i], f(calls[i])) && sleeps[i] == Delay(policy, i)
      decreases policy.Attempts() - attempt
    {
      var ctx := RetryContext(attempt, lastClass);
      calls := calls + [ctx];
      var outcome := f(ctx);
      if outcome.Ok? {
        t := Trace(calls, sleeps, outcome);
        assert forall i :: 0 <= i < |t.sleeps| ==> Handover(policy, f, t, i);
        return;
      }
      var errorClass := policy.classify(outcome.error);
      if errorClass == Fatal || attempt + 1 >= policy.maxAttempts {
        t := Trace(calls, sleeps, outcome);
        assert forall i :: 0 <= i < |t.sleeps| ==> Handover(policy, f, t, i);
        return;
      }
      sleeps := sleeps + [Delay(policy, attempt)];
      lastClass := Some(errorClass);
      attempt := attempt + 1;
    }
  }

  ghost function ClassOf<T, E>(policy: RetryPolicy<E>, f: Attempt<T, E>, ctx: RetryContext): ErrorClass {
    var outcome := f(ctx);
    if outcome.Err? then policy.classify(outcome.error) else Fatal
  }

  /** Policy and closure fix the trace. */
  lemma {:induction false} TraceIsUnique<T, E>(policy: RetryPolicy<E>, f: Attempt<T, E>, t: Trace<T, E>, u: Trace<T, E>)
    requires IsRetryTrace(policy, f, t) && IsRetryTrace(policy, f, u)
    ensures t == u
  {
    var n := Min(|t.calls|, |u.calls|);
    CallsAgree(policy, f, t, u, n);
    assert t.calls[n - 1] == u.calls[n - 1];
    assert |t.calls| > n ==> Handover(policy, f, t, n - 1);
    assert |u.calls| > n ==> Handover(policy, f, u, n - 1);
    forall i | 0 <= i < |t.sleeps| ensures t.sleeps[i] == u.sleeps[i] {
      assert Handover(policy, f, t, i) && Handover(policy, f, u, i);
    }
  }

  lemma {:induction false} CallsAgree<T, E>(
      policy: RetryPolicy<E>, f: Attempt<T, E>, t: Trace<T, E>, u: Trace<T, E>, n: nat)
    requires IsRetryTrace(policy, f, t) && IsRetryTrace(policy, f, u)
    requires 0 < n <= |t.calls| && n <= |u.calls|
    ensures t.calls[..n] == u.calls[..n]
  {
    if n > 1 {
      CallsAgree(policy, f, t, u, n - 1);
      assert t.calls[n - 2] == t.calls[..n - 1][n - 2] == u.calls[n - 2];
      assert Handover(policy, f, t, n - 2) && Handover(policy, f, u, n - 2);
      assert t.calls[..n] == t.calls[..n - 1] + [t.calls[n - 1]];
      assert u.calls[..n] == u.calls[..n - 1] + [u.calls[n - 1]];
    }
  }

  /** Attempts are numbered from zero without gaps; only the last may end the loop. */
  lemma AttemptsAreConsecutive<T, E>(policy: RetryPolicy<E>, f: Attempt<T, E>, t: Trace<T, E>, i: nat)
    requires IsRetryTrace(policy, f, t) && i < |t.calls|
    ensures t.calls[i].attempt == i
    ensures t.calls[i].lastErrorClass != Some(Fatal)
  {
    if i > 0 {
      assert Handover(policy, f, t, i - 1);
    }
  }

  /** A failed run either met a fatal error or used up every attempt. */
  lemma FailureIsFinal<T, E>(policy: RetryPolicy<E>, f: Attempt<T, E>, t: Trace<T, E>)
    requires IsRetryTrace(policy, f, t)
    ensures t.result.Err? && policy.classify(t.result.error) != Fatal ==> |t.calls| == policy.Attempts()
  {
    AttemptsAreConsecutive(policy, f, t, |t.calls| - 1);
  }

  lemma {:induction false} PowGrows(b: real, n: nat)
    requires b >= 1.0
    ensures 1.0 <= Pow(b, n) <= Pow(b, n + 1)
  {
    if n > 0 {
      PowGrows(b, n - 1);
      assert Pow(b, n + 1) == b * Pow(b, n);
    }
  }

  lemma CastMonotone(x: real, y: real)
    requires x <= y
    ensures ToU64(x) <= ToU64(y)
  {
  }

  lemma ScaledMonotone(baseDelay: nat, x: real, y: real)
    requires x <= y
    ensures Scaled(baseDelay, x) <= Scaled(baseDelay, y)
  {
    var base := baseDelay as real;
    assert base * x <= base * y;
    CastMonotone(base * x, base * y);
  }

  lemma BackoffGrows(baseDelay: nat, factor: real, n: nat)
    requires factor >= 1.0
    ensures Scaled(baseDelay, Pow(factor, n)) <= Scaled(baseDelay, Pow(factor, n + 1))
  {
    PowGrows(factor, n);
    ScaledMonotone(baseDelay, Pow(factor, n), Pow(factor, n + 1));
  }

  lemma QuotientShrinks(base: real, p: real, q: real)
    requires base >= 0.0 && 0.0 < p <= q
    ensures 0.0 <= base / q <= base / p
    ensures base > 0.0 && p < q ==> base / q < base / p
  {
    var x, y := base / q, base / p;
    assert x * q == base && y * p == base;
    assert x >= 0.0 && y >= 0.0;
    assert (y - x) * q == y * (q - p);
    if base > 0.0 && p < q {
      SameSign(y, q - p, y - x, q);
    }
  }

  lemma SameSign(a: real, b: real, c: real, d: real)
    requires a >= 0.0 && a != 0.0 && b > 0.0 && d > 0.0 && c * d == a * b
    ensures c > 0.0
  {
    assert a * b > 0.0;
  }

  /** Behind the overflow the exponent climbs towards zero and the pauses grow again. */
  lemma DividedGrows(baseDelay: nat, factor: real, n: nat)
    requires factor >= 1.0
    ensures Divided(baseDelay, Pow(factor, n + 1)) <= Divided(baseDelay, Pow(factor, n))
  {
    PowGrows(factor, n);
    QuotientShrinks(baseDelay as real, Pow(factor, n), Pow(factor, n + 1));
    CastMonotone(baseDelay as real / Pow(factor, n + 1), baseDelay as real / Pow(factor, n));
  }

  /** The cap is so low that it holds on both sides of the exponent's overflow. */
  predicate CapHidesOverflow<E>(policy: RetryPolicy<E>) {
    policy.maxDelay % U64 <= Divided(policy.baseDelay, Pow(policy.backoffFactor, U32 / 2))
  }

  /** With a factor of at least one the pauses of a run never shrink, except at attempt
      2^31: there the signed exponent overflows and the pause shrinks exactly unless the
      base is zero, the factor is one, or the cap hides it. */
  lemma DelaysGrowIff<T, E>(policy: RetryPolicy<E>, f: Attempt<T, E>, t: Trace<T, E>, i: nat)
    requires IsRetryTrace(policy, f, t) && policy.maxAttempts < U32 && policy.backoffFactor >= 1.0
    requires i + 1 < |t.sleeps|
    ensures t.sleeps[i + 1] <= policy.maxDelay
    ensures t.sleeps[i] <= t.sleeps[i + 1] <==>
            i + 1 != U32 / 2 || policy.baseDelay == 0 || policy.backoffFactor == 1.0 || CapHidesOverflow(policy)
  {
    assert Handover(policy, f, t, i) && Handover(policy, f, t, i + 1);
    DelayIs(policy, i);
    DelayIs(policy, i + 1);
    hide Delay, Backoff, Scaled, Divided, Pow;
    var base, factor := policy.baseDelay, policy.backoffFactor;
    if i + 1 < U32 / 2 {
      BackoffGrows(base, factor, i);
    } else if i + 1 == U32 / 2 {
      OverflowShrinksIff(policy);
    } else {
      DividedGrows(base, factor, U32 - i - 1);
    }
  }

  lemma DelayIs<E>(policy: RetryPolicy<E>, attempt: nat)
    requires attempt < U32
    ensures Delay(policy, attempt) ==
            Min(if attempt < U32 / 2 then Scaled(policy.baseDelay, Pow(policy.backoffFactor, attempt))
                else Divided(policy.baseDelay, Pow(policy.backoffFactor, U32 - attempt)),
                policy.maxDelay % U64)
  {
  }

  lemma OverflowShrinksIff<E>(policy: RetryPolicy<E>)
    requires policy.backoffFactor >= 1.0
    ensures Delay(policy, U32 / 2 - 1) <= Delay(policy, U32 / 2) <==>
            policy.baseDelay == 0 || policy.backoffFactor == 1.0 || CapHidesOverflow(policy)
  {
    var n: nat := U32 / 2;
    var factor, before, after := policy.backoffFactor, Pow(policy.backoffFactor, n - 1), Pow(policy.backoffFactor, n);
    DelayIs(policy, n - 1);
    DelayIs(policy, n);
    PowGrows(factor, n - 1);
    assert after == factor * before;
    hide Delay, Backoff, Pow, Scaled, Divided;
    if policy.baseDelay == 0 || factor == 1.0 {
      PowOfOne(n - 1);
      PowOfOne(n);
      NothingToShrink(policy.baseDelay, before, after);
    } else {
      assert after > 1.0;
      PauseDrops(policy.baseDelay, before, after);
    }
  }

  lemma NothingToShrink(baseDelay: nat, before: real, after: real)
    requires after > 0.0 && (baseDelay == 0 || before == after == 1.0)
    ensures Scaled(baseDelay, before) == Divided(baseDelay, after)
  {
  }

  lemma PauseDrops(baseDelay: nat, before: real, after: real)
    requires baseDelay > 0 && before >= 1.0 && after > 1.0
    ensures Divided(baseDelay, after) < Scaled(baseDelay, before) || Divided(baseDelay, after) == U64 - 1
  {
    var base := baseDelay as real;
    QuotientShrinks(base, 1.0, after);
    ScaledMonotone(baseDelay, 1.0, before);
    assert base * 1.0 == base / 1.0 == base;
  }

  lemma {:induction false} PowOfOne(n: nat)
    ensures Pow(1.0, n) == 1.0
  {
    if n > 0 {
      PowOfOne(n - 1);
    }
  }

  /** Terms of a geometric sequence that starts at the base delay. */
  ghost predicate Geometric(xs: seq<real>, baseDelay: nat, factor: real) {
    xs != [] && xs[0] == baseDelay as real && forall i :: 0 < i < |xs| ==> xs[i] == factor * xs[i - 1]
  }

  lemma {:induction false} GeometricIsScaled(xs: seq<real>, baseDelay: nat, factor: real, n: nat)
    requires Geometric(xs, baseDelay, factor) && n < |xs|
    ensures xs[n] == baseDelay as real * Pow(factor, n)
  {
    if n > 0 {
      GeometricIsScaled(xs, baseDelay, factor, n - 1);
      var base, power := baseDelay as real, Pow(factor, n - 1);
      assert xs[n] == factor * (base * power);
      Regrouped(factor, base, power);
    }
  }

  lemma Regrouped(a: real, b: real, c: real)
    ensures a * (b * c) == b * (a * c)
  {
  }

  /** The pause after attempt `n` is the base delay multiplied `n` times by the factor, in
      whole milliseconds, or the maximum if that is less; after the first attempt it is the
      base delay itself. */
  lemma DelayIsGeometric<E>(policy: RetryPolicy<E>, xs: seq<real>, n: nat)
    requires Geometric(xs, policy.baseDelay, policy.backoffFactor) && n < |xs| && n < U32 / 2
    requires policy.maxDelay < U64
    ensures Delay(policy, n) ==
            if xs[n] < 0.0 then 0 else if xs[n].Floor <= policy.maxDelay then xs[n].Floor else policy.maxDelay
    ensures n == 0 ==> Delay(policy, n) == if policy.baseDelay <= policy.maxDelay then policy.baseDelay else policy.maxDelay
  {
    hide Delay, Backoff, Pow, Scaled, Divided;
    var base, power := policy.baseDelay, Pow(policy.backoffFactor, n);
    GeometricIsScaled(xs, base, policy.backoffFactor, n);
    DelayIs(policy, n);
    ScaledIsFloor(base, power, xs[n]);
    if n == 0 {
      FloorOfWhole(base, xs[0]);
    }
  }

  lemma ScaledIsFloor(baseDelay: nat, power: real, x: real)
    requires x == baseDelay as real * power
    ensures Scaled(baseDelay, power) == if x < 0.0 then 0 else Min(x.Floor, U64 - 1)
  {
  }

  lemma FloorOfWhole(n: nat, x: real)
    requires x == n as real
    ensures x.Floor == n
  {
  }

  /** At attempt 2^31 the exponent turns negative and a growing backoff collapses: with
      the factor 2 and a base of one second the pause drops from the cap to zero. */
  lemma DelayCollapsesAtSignedOverflow<E>(policy: RetryPolicy<E>)
    requires policy.baseDelay == 1000 && policy.maxDelay == 2000 && policy.backoffFactor == 2.0
    ensures Delay(policy, U32 / 2 - 1) == 2000 && Delay(policy, U32 / 2) == 0
  {
    PowOfTwoLarge(U32 / 2 - 1);
    PowOfTwoLarge(U32 / 2);
    var big := Pow(2.0, U32 / 2);
    assert 1000.0 / big < 1.0 by {
      assert 1000.0 / big * big == 1000.0;
    }
  }

  lemma {:induction false} PowOfTwoLarge(n: nat)
    ensures Pow(2.0, n) >= 1.0
    ensures n >= 11 ==> Pow(2.0, n) >= 2048.0
  {
    if n > 0 {
      PowOfTwoLarge(n - 1);
      if n == 11 {
        assert Pow(2.0, 1) == 2.0;
        assert Pow(2.0, 3) == 8.0;
        assert Pow(2.0, 5) == 32.0;
        assert Pow(2.0, 7) == 128.0;
        assert Pow(2.0, 9) == 512.0;
      }
    }
  }
}
