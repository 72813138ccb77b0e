/** Retries, fallback providers and token escalation around a language-model call
    (crates/workflow_engine/src/llm_resilient.rs). Providers are one oracle of who is
    asked, what is asked and how many calls came before. */
module Resilient {
  import opened Common
  import opened Retry

  datatype Who = Primary | Fallback(index: nat)

  datatype Request = Request(payload: string, maxTokens: Option<nat>)

  type World<!T, !E> = (Who, Request, nat) -> Result<T, E>

  datatype Provider<!E> = Provider(fallbacks: nat, policy: RetryPolicy<E>, onPromptTooLong: Option<Request -> Request>)
  {
    /** Fallbacks the code takes as already tried when the retry loop is over. */
    function TriedInLoop(): nat { Max(policy.maxAttempts - 1, 0) }
  }

  const DEFAULT_MAX_TOKENS: nat := 4_096
  const MAX_TOKENS_CEILING: nat := 128_000

  /** Doubling of a 32-bit token limit (wrapping, as in an optimised build), capped. */
  function Escalate(maxTokens: Option<nat>): nat {
    var current := if maxTokens.Some? then maxTokens.value else DEFAULT_MAX_TOKENS;
    Min(current * 2 % U32, MAX_TOKENS_CEILING)
  }

  /** Escalation raises the limit exactly below the ceiling: a larger limit is cut down
      to it, and zero stays zero. */
  lemma EscalationRaisesIff(current: nat)
    requires current < U32
    ensures Escalate(Some(current)) > current <==> 0 < current < MAX_TOKENS_CEILING
  {
  }

  /** What escalation asks for: twice the limit up to 128000 tokens, from 64000 on 128000, as
      long as doubling fits 32 bits; beyond that what is left of the doubled limit, if that
      is less; and 8192 if there was no limit. */
  lemma EscalatesTo(m: nat)
    requires m < 0x1_0000_0000
    ensures m < 0x8000_0000 ==> Escalate(Some(m)) == if 2 * m <= 128000 then 2 * m else 128000
    ensures 64000 <= m < 0x8000_0000 ==> Escalate(Some(m)) == 128000
    ensures m >= 0x8000_0000 ==>
              Escalate(Some(m)) == if 2 * m - 0x1_0000_0000 <= 128000 then 2 * m - 0x1_0000_0000 else 128000
    ensures Escalate(None) == 8192 == Escalate(Some(4096))
  {
  }

  /** Whom one attempt of the retry loop asks. */
  function Pick(fallbacks: nat, ctx: RetryContext): Who {
    var index := Max(ctx.attempt - 1, 0);
    if ctx.lastErrorClass == Some(ProviderOverloaded) && index < fallbacks then Fallback(index) else Primary
  }

  function LoopBody<T, E>(p: Provider<E>, world: World<T, E>, request: Request): Attempt<T, E> {
    (ctx: RetryContext) => world(Pick(p.fallbacks, ctx), request, ctx.attempt)
  }

  /** One run of `complete`: its retry loop, the number of fallbacks its sweep asked,
      the request of its last-chance call if there was one, and its result. */
  datatype Completion<T, E> = Completion(
    loop: Trace<T, E>, sweep: nat, lastChance: Option<Request>, result: Result<T, E>)
  {
    function Total(): nat { |loop.calls| + sweep + (if lastChance.Some? then 1 else 0) }

    /** Whom call `i` of the whole run asked. */
    function WhoAt(p: Provider<E>, i: nat): Who {
      if i < |loop.calls| then Pick(p.fallbacks, loop.calls[i])
      else if i < |loop.calls| + sweep then Fallback(p.TriedInLoop() + i - |loop.calls|)
      else Primary
    }

    function Outcome(p: Provider<E>, world: World<T, E>, request: Request, i: nat): Result<T, E> {
      world(WhoAt(p, i), if i >= |loop.calls| + sweep && lastChance.Some? then lastChance.value else request, i)
    }

    function Log(p: Provider<E>): seq<Who> { seq(Total(), i requires 0 <= i => WhoAt(p, i)) }
  }

  predicate FailedAs<T, E>(p: Provider<E>, outcome: Result<T, E>, errorClass: ErrorClass) {
    outcome.Err? && p.policy.classify(outcome.error) == errorClass
  }

  /** The request of the last-chance primary call that follows a failed loop. */
  function LastChance<T, E>(p: Provider<E>, request: Request, outcome: Result<T, E>): Option<Request> {
    if FailedAs(p, outcome, MaxOutputTokens) then Some(request.(maxTokens := Some(Escalate(request.maxTokens))))
    else if FailedAs(p, outcome, PromptTooLong) && p.onPromptTooLong.Some? then Some(p.onPromptTooLong.value(request))
    else None
  }

  /** The rules a run of `complete` obeys. */
  ghost predicate IsCompletion<T, E>(p: Provider<E>, world: World<T, E>, request: Request, c: Completion<T, E>) {
    && IsRetryTrace(p.policy, LoopBody(p, world, request), c.loop)
    && c.lastChance == LastChance(p, request, c.loop.result)
    && (c.lastChance.Some? ==> c.result == c.Outcome(p, world, request, |c.loop.calls|))
    && IsSweep(p, world, request, c)
  }

  /** The sweep starts after the fallbacks the loop is taken to have tried and stops at
      the first success; without a success the loop's own error is returned. */
  ghost predicate IsSweep<T, E>(p: Provider<E>, world: World<T, E>, request: Request, c: Completion<T, E>) {
    var n := |c.loop.calls|;
    if FailedAs(p, c.loop.result, ProviderOverloaded) then
      && c.sweep <= Max(p.fallbacks - p.TriedInLoop(), 0)
      && (forall i :: n <= i < n + c.sweep - 1 ==> c.Outcome(p, world, request, i).Err?)
      && if c.sweep > 0 && c.Outcome(p, world, request, n + c.sweep - 1).Ok?
         then c.result == c.Outcome(p, world, request, n + c.sweep - 1)
         else c.result == c.loop.result && c.sweep == Max(p.fallbacks - p.TriedInLoop(), 0)
    else
      c.sweep == 0 && (c.lastChance.None? ==> c.result == c.loop.result)
  }

  method Complete<T, E>(p: Provider<E>, world: World<T, E>, request: Request)
    returns (c: Completion<T, E>, log: seq<Who>)
    ensures IsCompletion(p, world, request, c)
    ensures log == c.Log(p)
  {
    var loop := WithRetry(p.policy, LoopBody(p, world, request));
    var n := |loop.calls|;
    log := seq(n, i requires 0 <= i < n => Pick(p.fallbacks, loop.calls[i]));
    c := Completion(loop, 0, None, loop.result);
    if FailedAs(p, loop.result, ProviderOverloaded) {
      c, log := Sweep(p, world, request, c, log);
    } else if FailedAs(p, loop.result, MaxOutputTokens) {
      var escalated := request.(maxTokens := Some(Escalate(request.maxTokens)));
      c := c.(lastChance := Some(escalated), result := world(Primary, escalated, n));
      log := log + [Primary];
    } else if FailedAs(p, loop.result, PromptTooLong) && p.onPromptTooLong.Some? {
      var shortened := p.onPromptTooLong.value(request);
      c := c.(lastChance := Some(shortened), result := world(Primary, shortened, n));
      log := log + [Primary];
    }
  }

  /** The pass over the fallbacks left when the loop ended overloaded. */
  method Sweep<T, E>(p: Provider<E>, world: World<T, E>, request: Request, afterLoop: Completion<T, E>, loopLog: seq<Who>)
    returns (c: Completion<T, E>, log: seq<Who>)
    requires FailedAs(p, afterLoop.loop.result, ProviderOverloaded)
    requires afterLoop == Completion(afterLoop.loop, 0, None, afterLoop.loop.result)
    requires loopLog == afterLoop.Log(p)
    ensures c.loop == afterLoop.loop && c.lastChance == None
    ensures IsSweep(p, world, request, c)
    ensures log == c.Log(p)
  {
    c, log := afterLoop, loopLog;
    var n := |c.loop.calls|;
    var next := p.TriedInLoop();
    while next < p.fallbacks
      invariant p.TriedInLoop() <= next <= Max(p.fallbacks, p.TriedInLoop())
      invariant c == afterLoop.(sweep := next - p.TriedInLoop())
      invariant log == c.Log(p)
      invariant forall i :: n <= i < n + c.sweep ==> c.Outcome(p, world, request, i).Err?
    {
      var outcome := world(Fallback(next), request, n + c.sweep);
      ghost var before := c;
      log := log + [Fallback(next)];
      c := c.(sweep := c.sweep + 1);
      assert forall i :: 0 <= i < before.Total() ==> c.WhoAt(p, i) == before.WhoAt(p, i);
      assert c.Outcome(p, world, request, n + before.sweep) == outcome;
      assert forall i :: n <= i < n + before.sweep ==> c.Outcome(p, world, request, i) == before.Outcome(p, world, request, i);
      next := next + 1;
      if outcome.Ok? {
        c := c.(result := outcome);
        assert forall i :: n <= i < n + before.sweep ==> c.Outcome(p, world, request, i) == before.Outcome(p, world, request, i);
        return;
      }
    }
  }

  /** A fallback asked in the loop has a smaller index than any fallback of the sweep,
      and the loop asks fallback `k` at attempt `k + 1` only. */
  lemma LoopFallback<T, E>(p: Provider<E>, world: World<T, E>, request: Request, c: Completion<T, E>, i: nat)
    requires IsCompletion(p, world, request, c) && i < |c.loop.calls|
    ensures var who := c.WhoAt(p, i);
            && (i == 0 ==> who == Primary)
            && (who.Fallback? ==> who.index == i - 1 < p.TriedInLoop())
            && (i > 0 ==> (who == Fallback(i - 1)) ==
                          (i - 1 < p.fallbacks && FailedAs(p, c.Outcome(p, world, request, i - 1), ProviderOverloaded)))
  {
    var f := LoopBody(p, world, request);
    AttemptsAreConsecutive(p.policy, f, c.loop, i);
    if i > 0 {
      AttemptsAreConsecutive(p.policy, f, c.loop, i - 1);
      assert Handover(p.policy, f, c.loop, i - 1);
    }
  }

  /** No fallback is asked twice across the loop and the sweep. */
  lemma FallbackAtMostOnce<T, E>(
      p: Provider<E>, world: World<T, E>, request: Request, c: Completion<T, E>, i: nat, j: nat)
    requires IsCompletion(p, world, request, c) && i < j < c.Total()
    requires c.WhoAt(p, i).Fallback?
    ensures c.WhoAt(p, i) != c.WhoAt(p, j) && c.WhoAt(p, i).index < p.fallbacks
  {
    if i < |c.loop.calls| {
      LoopFallback(p, world, request, c, i);
    }
    if j < |c.loop.calls| {
      LoopFallback(p, world, request, c, j);
    }
  }

  /** The call after a failed loop: exactly after an error of too many output tokens, with the
      same payload and the raised limit, and after a prompt that is too long if there is a
      handler, with the request as the handler leaves it. It goes to the primary, it is the
      only one after the loop, and its answer is the answer of the run. */
  lemma LastChanceIs<T, E>(p: Provider<E>, world: World<T, E>, request: Request, c: Completion<T, E>)
    requires IsCompletion(p, world, request, c)
    ensures var n, failed := |c.loop.calls|, c.loop.result;
            var errorClass := if failed.Err? then Some(p.policy.classify(failed.error)) else None;
            && (c.lastChance.Some? <==>
                  errorClass == Some(MaxOutputTokens) || (errorClass == Some(PromptTooLong) && p.onPromptTooLong.Some?))
            && (errorClass == Some(MaxOutputTokens) ==>
                  c.lastChance == Some(Request(request.payload, Some(Escalate(request.maxTokens)))))
            && (errorClass == Some(PromptTooLong) && p.onPromptTooLong.Some? ==>
                  c.lastChance == Some(p.onPromptTooLong.value(request)))
            && (c.lastChance.Some? ==>
                  && c.Total() == n + 1 && c.WhoAt(p, n) == Primary
                  && c.result == world(Primary, c.lastChance.value, n))
            && (c.lastChance.None? && errorClass != Some(ProviderOverloaded) ==> c.Total() == n && c.result == failed)
  {
  }

  /** Every call of the loop and of the sweep is made with the request as it came. */
  lemma CallsCarryRequest<T, E>(p: Provider<E>, world: World<T, E>, request: Request, c: Completion<T, E>, i: nat)
    requires IsCompletion(p, world, request, c) && i < |c.loop.calls| + c.sweep
    ensures c.Outcome(p, world, request, i) == world(c.WhoAt(p, i), request, i)
    ensures i == |c.loop.calls| - 1 ==> c.loop.result == world(c.WhoAt(p, i), request, i)
  {
    var f := LoopBody(p, world, request);
    AttemptsAreConsecutive(p.policy, f, c.loop, |c.loop.calls| - 1);
  }

  lemma TotalBound<T, E>(p: Provider<E>, world: World<T, E>, request: Request, c: Completion<T, E>)
    requires IsCompletion(p, world, request, c)
    ensures 1 <= c.Total() <= Max(p.policy.Attempts() + 1, p.fallbacks + 1)
  {
  }

  /** The first success is the answer and no call follows it. */
  lemma FirstSuccessWins<T, E>(p: Provider<E>, world: World<T, E>, request: Request, c: Completion<T, E>, i: nat)
    requires IsCompletion(p, world, request, c) && i < c.Total()
    ensures c.Outcome(p, world, request, i).Ok? ==> i == c.Total() - 1 && c.result == c.Outcome(p, world, request, i)
  {
    if i < |c.loop.calls| {
      var f := LoopBody(p, world, request);
      AttemptsAreConsecutive(p.policy, f, c.loop, i);
      assert i < |c.loop.sleeps| ==> Handover(p.policy, f, c.loop, i);
    }
  }

  /** When every call made fails as overloaded, the order of providers is fixed: the
      primary, every fallback once in order, then the primary for the attempts left. */
  lemma AllOverloadedSchedule<T, E>(p: Provider<E>, world: World<T, E>, request: Request, c: Completion<T, E>)
    requires IsCompletion(p, world, request, c)
    requires forall i :: 0 <= i < c.Total() ==> FailedAs(p, c.Outcome(p, world, request, i), ProviderOverloaded)
    ensures c.Log(p) == [Primary] + seq(p.fallbacks, i requires 0 <= i => Fallback(i))
                        + seq(Max(0, p.policy.Attempts() - 1 - p.fallbacks), _ => Primary)
    ensures c.Total() == Max(p.policy.Attempts(), p.fallbacks + 1)
    ensures c.result.Err?
  {
    var f := LoopBody(p, world, request);
    var n := |c.loop.calls|;
    AttemptsAreConsecutive(p.policy, f, c.loop, n - 1);
    assert c.loop.result == c.Outcome(p, world, request, n - 1);
    FailureIsFinal(p.policy, f, c.loop);
    if c.sweep > 0 {
      assert FailedAs(p, c.Outcome(p, world, request, n + c.sweep - 1), ProviderOverloaded);
    }
    forall i | 0 <= i < c.Total()
      ensures c.Log(p)[i] == if i == 0 then Primary else if i <= p.fallbacks then Fallback(i - 1) else Primary
    {
      if i < n {
        AttemptsAreConsecutive(p.policy, f, c.loop, i);
        LoopFallback(p, world, request, c, i);
        assert i > 0 ==> FailedAs(p, c.Outcome(p, world, request, i - 1), ProviderOverloaded);
      }
    }
  }

  /** Fallback `k` is asked at some point of the run. */
  ghost predicate Tried<T, E>(p: Provider<E>, c: Completion<T, E>, k: nat) {
    exists i :: 0 <= i < c.Total() && c.WhoAt(p, i) == Fallback(k)
  }

  /** The run gave up: the loop ended overloaded and no sweep call helped. */
  predicate GaveUp<T, E>(p: Provider<E>, c: Completion<T, E>) {
    FailedAs(p, c.loop.result, ProviderOverloaded) && c.result.Err?
  }

  /** The sweep promises to ask every fallback the loop has not tried. A run that gave up
      asked fallback `k` exactly when the sweep covers it or attempt `k` itself failed as
      overloaded: the sweep counts attempts, not fallbacks. */
  lemma TriedIff<T, E>(p: Provider<E>, world: World<T, E>, request: Request, c: Completion<T, E>, k: nat)
    requires IsCompletion(p, world, request, c) && GaveUp(p, c) && k < p.fallbacks
    ensures Tried(p, c, k) <==>
            k >= p.TriedInLoop() || FailedAs(p, c.Outcome(p, world, request, k), ProviderOverloaded)
  {
    var f := LoopBody(p, world, request);
    var n := |c.loop.calls|;
    FailureIsFinal(p.policy, f, c.loop);
    if k >= p.TriedInLoop() {
      assert c.WhoAt(p, n + k - p.TriedInLoop()) == Fallback(k);
    } else {
      LoopFallback(p, world, request, c, k + 1);
      forall i | 0 <= i < c.Total() && c.WhoAt(p, i) == Fallback(k) ensures i == k + 1 {
        if i < n {
          LoopFallback(p, world, request, c, i);
        }
      }
    }
  }

  ghost predicate TriesAll<T(!new), E(!new)>(p: Provider<E>) {
    forall world: World<T, E>, request, c: Completion<T, E>, k: nat ::
      IsCompletion(p, world, request, c) && GaveUp(p, c) && k < p.fallbacks ==> Tried(p, c, k)
  }

  /** A configuration never leaves a fallback untried when giving up exactly if it has
      no fallback or makes a single attempt, provided some error is overloaded and some
      other error is retried. */
  lemma TriesAllIff<T(!new), E(!new)>(p: Provider<E>, busy: E, other: E)
    requires p.policy.classify(busy) == ProviderOverloaded
    requires p.policy.classify(other) !in {ProviderOverloaded, Fatal}
    ensures TriesAll<T, E>(p) <==> p.fallbacks == 0 || p.policy.maxAttempts <= 1
  {
    if p.fallbacks == 0 || p.policy.maxAttempts <= 1 {
      forall world: World<T, E>, request, c: Completion<T, E>, k: nat
        | IsCompletion(p, world, request, c) && GaveUp(p, c) && k < p.fallbacks ensures Tried(p, c, k)
      {
        TriedIff(p, world, request, c, k);
      }
    } else {
      var world, request, c := SkippedFallback<T, E>(p, busy, other);
      TriedIff(p, world, request, c, 0);
      assert !Tried(p, c, 0);
    }
  }

  /** The first attempt fails with the other error, all later calls are overloaded:
      the second attempt asks the primary again and fallback zero is never asked. */
  lemma SkippedFallback<T(!new), E(!new)>(p: Provider<E>, busy: E, other: E)
    returns (world: World<T, E>, request: Request, c: Completion<T, E>)
    requires p.policy.classify(busy) == ProviderOverloaded
    requires p.policy.classify(other) !in {ProviderOverloaded, Fatal}
    requires p.fallbacks > 0 && p.policy.maxAttempts > 1
    ensures IsCompletion(p, world, request, c) && GaveUp(p, c)
    ensures !FailedAs(p, c.Outcome(p, world, request, 0), ProviderOverloaded)
  {
    world := (who: Who, r: Request, n: nat) => Err(if n == 0 then other else busy);
    request := Request("", None);
    var attempts := p.policy.maxAttempts;
    var calls := seq(attempts, i requires 0 <= i => RetryContext(i,
      if i == 0 then None else Some(if i == 1 then p.policy.classify(other) else ProviderOverloaded)));
    var sleeps := seq(attempts - 1, i requires 0 <= i => Delay(p.policy, i));
    c := Completion(Trace(calls, sleeps, Err(busy)), Max(p.fallbacks - p.TriedInLoop(), 0), None, Err(busy));
    forall i | 0 <= i < |sleeps| ensures Handover(p.policy, LoopBody(p, world, request), c.loop, i) {
    }
  }
}
