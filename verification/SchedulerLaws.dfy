/** What whole runs of scheduler ticks keep, whatever the workflows, fetches and callers do. */
module SchedulerLaws {
  import opened Common
  import opened Cases
  import opened Scheduler

  /** What can happen to the dictionary: a tick, a tick that a panic ends, after which the
      caller goes on with what it left, or a caller changing a lifecycle state. */
  datatype Move =
    | Ticked(input: TickInput)
    | Unwound(input: TickInput, done: set<string>)
    | SetLifecycle(key: string, lifecycle: string)

  ghost function Step(d: Dict, move: Move): Dict {
    match move
    case Ticked(input) => AfterTick(input, d)
    case Unwound(input, done) => Unwinding(input, d, done)
    case SetLifecycle(k, lifecycle) =>
      if k in d then d[k := d[k].(current := d[k].current.(lifecycleState := lifecycle))] else d
  }

  ghost function Play(d: Dict, moves: seq<Move>): Dict {
    if moves == [] then d else Step(Play(d, moves[..|moves| - 1]), moves[|moves| - 1])
  }

  /** What identifies a case; no tick and no caller changes it. */
  predicate SameIdentity(a: Case, b: Case) {
    && a.caseKey == b.caseKey && a.sessionId == b.sessionId && a.workflowCode == b.workflowCode
    && a.parentKey == b.parentKey && a.childKeys == b.childKeys && a.resourceData == b.resourceData
  }

  lemma EntryKeepsIdentity(input: TickInput, e: Entry)
    ensures SameIdentity(e.AfterProbe(input).current, e.current)
    ensures SameIdentity(e.AfterPolls(input).current, e.current)
    ensures SameIdentity(e.AfterRun(input).current, e.current)
  {
  }

  lemma {:induction false} StepKeepsIdentity(d: Dict, move: Move, k: string)
    requires k in d
    ensures k in Step(d, move) && SameIdentity(Step(d, move)[k].current, d[k].current)
  {
    hide Entry.AfterRun, Entry.AfterProbe, Entry.AfterPolls;
    if !move.SetLifecycle? {
      EntryKeepsIdentity(move.input, d[k]);
    }
  }

  /** No run adds or drops a case, or changes what identifies it. */
  lemma {:induction false} KeysPreserved(d: Dict, moves: seq<Move>)
    ensures Play(d, moves).Keys == d.Keys
    ensures forall k :: k in d ==> SameIdentity(Play(d, moves)[k].current, d[k].current)
    decreases |moves|
  {
    if moves != [] {
      var before := Play(d, moves[..|moves| - 1]);
      KeysPreserved(d, moves[..|moves| - 1]);
      forall k | k in d ensures SameIdentity(Play(d, moves)[k].current, d[k].current) {
        StepKeepsIdentity(before, moves[|moves| - 1], k);
      }
    }
  }

  lemma InactiveIsIdle(input: TickInput, e: Entry)
    requires !e.current.IsActive()
    ensures e.AfterProbe(input) == e && e.AfterPolls(input) == e && e.AfterRun(input) == e
    ensures !e.IsProbed(input) && !e.IsExecuted(input)
  {
  }

  /** A finished case stays finished as it was, whatever follows, and no later tick probes
      or executes it. */
  lemma {:induction false} FinishedForever(d: Dict, moves: seq<Move>, input: TickInput, k: string)
    requires k in d && d[k].current.state == Finished
    ensures k in Play(d, moves)
    ensures var now := Play(d, moves)[k];
            && now.current == d[k].current.(lifecycleState := now.current.lifecycleState)
            && now.locals == d[k].locals
            && !now.IsProbed(input) && !now.IsExecuted(input)
    decreases |moves|
  {
    hide Entry.AfterProbe, Entry.AfterPolls, Entry.AfterRun, Entry.IsProbed, Entry.IsExecuted;
    if moves != [] {
      var last := moves[|moves| - 1];
      FinishedForever(d, moves[..|moves| - 1], input, k);
      if !last.SetLifecycle? {
        InactiveIsIdle(last.input, Play(d, moves[..|moves| - 1])[k]);
      }
    }
    InactiveIsIdle(input, Play(d, moves)[k]);
  }

  /** A paused or stopped case is left exactly as it is, dictionary and store, for as long
      as no caller changes its lifecycle state. */
  lemma {:induction false} InactiveUntouched(d: Dict, moves: seq<Move>, k: string)
    requires k in d && (d[k].current.IsPaused() || d[k].current.IsStopped())
    requires forall i :: 0 <= i < |moves| ==> moves[i].SetLifecycle? ==> moves[i].key != k
    ensures k in Play(d, moves) && Play(d, moves)[k] == d[k]
    decreases |moves|
  {
    hide Entry.AfterProbe, Entry.AfterPolls, Entry.AfterRun;
    if moves != [] {
      InactiveUntouched(d, moves[..|moves| - 1], k);
      if !moves[|moves| - 1].SetLifecycle? {
        InactiveIsIdle(moves[|moves| - 1].input, d[k]);
      }
    }
  }

  /** A case becomes finished only in a tick that probes or executes it, with the type and
      description its workflow returned. */
  lemma FinishesOnlyByOutcome(input: TickInput, e: Entry)
    requires e.current.state != Finished && e.AfterRun(input).current.state == Finished
    ensures var c := e.AfterRun(input).current;
            || (e.IsProbed(input) && c.finishedType.Some? && c.finishedDescription.Some?
                && e.Probe(input).0 == Finish(c.finishedType.value, c.finishedDescription.value))
            || (e.IsExecuted(input) && c.finishedType.Some? && c.finishedDescription.Some?
                && e.Execute(input).0 == Finish(c.finishedType.value, c.finishedDescription.value))
  {
  }

  /** Exact wake-up: a waiting case with a registered workflow is Running after the polls
      exactly if its probe continued, or still waits and some fetch for its polls gave a
      payload; every woken case is executed in the same tick. */
  lemma WakesIff(input: TickInput, e: Entry)
    requires e.IsProbed(input)
    ensures e.AfterPolls(input).current.state == Running <==>
            e.Probe(input).0.Continue?
            || (e.Probe(input).0.WaitFor? && input.fetcher.Some?
                && Matches(input.fetcher.value, e.Probe(input).0.polls) != [])
    ensures e.Wakes(input) <==> e.IsExecuted(input)
  {
    if input.fetcher.Some? && e.Probe(input).0.WaitFor? {
      MatchesIff(input.fetcher.value, e.Probe(input).0.polls);
    }
  }

  /** A tick on a larger dictionary does to each case what it does on a smaller one: cases
      do not influence each other. */
  lemma TickIsLocal(input: TickInput, d: Dict, larger: Dict)
    requires forall k :: k in d ==> k in larger && larger[k] == d[k]
    ensures forall k :: k in d ==> AfterTick(input, larger)[k] == AfterTick(input, d)[k]
    ensures AfterTick(input, larger).Keys == larger.Keys
    ensures ResultOf(input, d) == Executed ==> ResultOf(input, larger) == Executed
  {
    if ResultOf(input, d) == Executed {
      var k :| k in WorkedKeys(input, d);
      assert k in WorkedKeys(input, larger);
    }
  }

  /** Sequential and parallel ticks differ exactly when a phase-four run panics and no
      probe does: only then does one of them unwind and the other return. */
  lemma ModesDifferIff(input: TickInput, d: Dict)
    ensures TickPanics(input, d, Sequential) != TickPanics(input, d, Parallel)
            <==> !input.shutdown && ProbePanicKeys(input, d) == {} && RunPanicKeys(input, d) != {}
  {
  }

  // ---- A tick of one case, told by what its workflow and the fetches answer ----

  /** The case may run at all: it is neither paused, nor stopped, nor finished, and its
      workflow is registered. */
  predicate MayRun(input: TickInput, c: Case) {
    c.lifecycleState !in {"pause", "stop"} && c.state != Finished && input.registered(c.workflowCode)
  }

  /** The case is probed, with this outcome, and leaves these state entries. */
  ghost predicate Probes(input: TickInput, e: Entry, outcome: RunOutcome, locals: Locals) {
    MayRun(input, e.current) && e.current.state == Waiting && input.probe(e.current, e.locals) == (outcome, locals)
  }

  /** The outcome of a probe has the case executed in the same tick: it says so, or it waits
      for something that is there. */
  ghost predicate Resumes(input: TickInput, outcome: RunOutcome) {
    || outcome == Continue
    || (outcome.WaitFor? && input.fetcher.Some?
        && exists p :: p in outcome.polls && input.fetcher.value(p.resourceType, p.resourceId).Payload?)
  }

  /** The case is executed, as this case with these state entries. */
  ghost predicate Executes(input: TickInput, e: Entry, c: Case, locals: Locals) {
    || (MayRun(input, e.current) && e.current.state == Running && c == e.current && locals == e.locals)
    || (exists o :: Probes(input, e, o, locals) && Resumes(input, o) && c == e.current.(state := Running))
  }

  /** The case after a run: only its state and, for a finished one, what it finished with
      change. */
  function Outcome(c: Case, outcome: RunOutcome): Case {
    match outcome
    case WaitFor(_) => c.(state := Waiting)
    case Finish(t, d) => c.(state := Finished, finishedType := Some(t), finishedDescription := Some(d))
    case Continue => c
    case Fail(_) => c
    case Panic => c
  }

  lemma ProbesIff(input: TickInput, e: Entry)
    ensures e.IsProbed(input) <==> Probes(input, e, e.Probe(input).0, e.Probe(input).1)
    ensures e.IsProbed(input) ==> (e.Wakes(input) <==> Resumes(input, e.Probe(input).0))
  {
    if e.IsProbed(input) && e.PollHit(input) {
      var p :| p in e.PendingPolls(input) && IsPayload(input.fetcher.value, p);
      assert p in e.Probe(input).0.polls;
    }
    if e.IsProbed(input) && Resumes(input, e.Probe(input).0) && !e.Probe(input).0.Continue? {
      var p :| p in e.Probe(input).0.polls && input.fetcher.value(p.resourceType, p.resourceId).Payload?;
      assert p in e.PendingPolls(input) && IsPayload(input.fetcher.value, p);
    }
  }

  /** What is executed is the case as phase 3 left it. */
  lemma ExecutesIff(input: TickInput, e: Entry, c: Case, locals: Locals)
    ensures Executes(input, e, c, locals) <==>
            e.IsExecuted(input) && c == e.AfterPolls(input).current && locals == e.AfterPolls(input).locals
  {
    ProbesIff(input, e);
    if e.IsProbed(input) && e.Wakes(input) {
      assert Probes(input, e, e.Probe(input).0, e.Probe(input).1);
    }
  }

  /** The whole tick of a case. One that is executed ends as the outcome of its execution says
      and with the state entries that left. One that is only probed ends as it was, or finished
      if the probe said so, with the entries the probe left. Every other is as before. */
  lemma CaseTickIs(input: TickInput, e: Entry)
    ensures forall c, l :: Executes(input, e, c, l) ==>
              e.AfterRun(input) == Entry(Outcome(c, input.execute(c, l).0), input.execute(c, l).1)
    ensures forall o, l :: Probes(input, e, o, l) && !Resumes(input, o) ==>
              e.AfterRun(input) == Entry(if o.Finish? then Outcome(e.current, o) else e.current, l)
    ensures !MayRun(input, e.current) ==> e.AfterRun(input) == e
  {
    ProbesIff(input, e);
    forall c, l | Executes(input, e, c, l)
      ensures e.AfterRun(input) == Entry(Outcome(c, input.execute(c, l).0), input.execute(c, l).1)
    {
      ExecutesIff(input, e, c, l);
    }
  }

  /** The state after an execution: waiting exactly if the run waits, finished with exactly
      what the run finished with, running exactly in every other case; nothing else in the
      case has changed. */
  lemma ExecutedStateIff(input: TickInput, e: Entry, c: Case, l: Locals)
    requires Executes(input, e, c, l)
    ensures var outcome, after := input.execute(c, l).0, e.AfterRun(input).current;
            && (after.state == Waiting <==> outcome.WaitFor?)
            && (after.state == Running <==> outcome.Continue? || outcome.Fail? || outcome.Panic?)
            && (forall t, d :: after.state == Finished && after.finishedType == Some(t) && after.finishedDescription == Some(d)
                               <==> outcome == Finish(t, d))
            && after.(state := c.state, finishedType := c.finishedType, finishedDescription := c.finishedDescription) == c
            && (!outcome.Finish? ==> after.finishedType == c.finishedType && after.finishedDescription == c.finishedDescription)
  {
    CaseTickIs(input, e);
    ExecutesIff(input, e, c, l);
  }

  /** A case that an execution puts to wait is probed in the next tick, if its workflow is
      still registered, and executed there only if that probe resumes it. */
  lemma WaitsThenProbed(input: TickInput, e: Entry, c: Case, l: Locals, next: TickInput)
    requires Executes(input, e, c, l) && input.execute(c, l).0.WaitFor?
    ensures var now := e.AfterRun(input);
            && (now.IsProbed(next) <==> next.registered(c.workflowCode))
            && (now.IsExecuted(next) <==> now.IsProbed(next) && Resumes(next, next.probe(now.current, now.locals).0))
  {
    CaseTickIs(input, e);
    ExecutesIff(input, e, c, l);
    ProbesIff(next, e.AfterRun(input));
  }

  /** The result of a tick: Executed exactly if some execution goes on, waits or finishes. */
  lemma TickResultIff(input: TickInput, d: Dict)
    ensures ResultOf(input, d) == ShutdownRequested <==> input.shutdown
    ensures ResultOf(input, d) == Executed <==>
            !input.shutdown && exists k, c, l ::
              k in d && Executes(input, d[k], c, l) && (input.execute(c, l).0.Continue? || input.execute(c, l).0.WaitFor?
                                                         || input.execute(c, l).0.Finish?)
  {
    if k :| k in WorkedKeys(input, d) {
      ExecutesIff(input, d[k], d[k].AfterPolls(input).current, d[k].AfterPolls(input).locals);
    }
    if k, c, l :| k in d && Executes(input, d[k], c, l) && CountsAsWork(input.execute(c, l).0) {
      ExecutesIff(input, d[k], c, l);
      assert k in WorkedKeys(input, d);
    }
    forall o: RunOutcome ensures CountsAsWork(o) <==> o.Continue? || o.WaitFor? || o.Finish? {
    }
  }

  /** A tick panics exactly if a probe does, or, run by run, an execution does. */
  lemma TickPanicsIff(input: TickInput, d: Dict, mode: ExecutionMode)
    ensures TickPanics(input, d, mode) <==>
            !input.shutdown
            && ((exists k, l :: k in d && Probes(input, d[k], Panic, l))
                || (mode == Sequential
                    && exists k, c, l :: k in d && Executes(input, d[k], c, l) && input.execute(c, l).0 == Panic))
  {
    forall k | k in d ensures k in ProbePanicKeys(input, d) <==> exists l :: Probes(input, d[k], Panic, l) {
      ProbesIff(input, d[k]);
    }
    forall k | k in d
      ensures k in RunPanicKeys(input, d) <==> exists c, l :: Executes(input, d[k], c, l) && input.execute(c, l).0 == Panic
    {
      ExecutesIff(input, d[k], d[k].AfterPolls(input).current, d[k].AfterPolls(input).locals);
      forall c, l | Executes(input, d[k], c, l) ensures (c, l) == (d[k].AfterPolls(input).current, d[k].AfterPolls(input).locals) {
        ExecutesIff(input, d[k], c, l);
      }
    }
  }

  // ---- What the documentation says of a tick ----

  /** A workflow runs in this tick, as a probe or as an execution. */
  ghost predicate AnyRuns(input: TickInput, d: Dict) { ProbedKeys(input, d) + ExecutedKeys(input, d) != {} }

  /** The documentation has a tick say Executed if any workflow ran, and Idle otherwise. It
      does exactly if some execution returns without an error, or nothing runs at all: probes,
      and executions that fail, do not count. */
  lemma ExecutedMeansRanIff(input: TickInput, d: Dict)
    requires !input.shutdown
    ensures (ResultOf(input, d) == Executed <==> AnyRuns(input, d)) <==>
            WorkedKeys(input, d) != {} || (ProbedKeys(input, d) == {} && ExecutedKeys(input, d) == {})
  {
    if k :| k in WorkedKeys(input, d) {
      assert k in ExecutedKeys(input, d);
    }
  }

  /** A tick that runs and finishes a case, and says Idle. */
  lemma IdleThoughFinished() returns (input: TickInput, d: Dict)
    ensures !input.shutdown && d.Keys == {"k"} && d["k"].IsProbed(input)
    ensures ResultOf(input, d) == Idle && AfterTick(input, d)["k"].current.state == Finished
  {
    var run: Run := (c: Case, l: Locals) => (Finish("done", ""), l);
    input := TickInput((code: string) => true, run, run, None, false);
    d := map["k" := Entry(NewCase("k", "s", "wf").McWait(), map[])];
    assert !d["k"].Works(input);
    assert WorkedKeys(input, d) == {};
  }

  /** The documentation has waiting cases skipped until a poll match resumes them. A tick
      keeps that exactly for the cases without a registered workflow and those it resumes:
      every other waiting case has its workflow run as a probe. */
  lemma SkippedUntilMatchedIff(input: TickInput, e: Entry)
    requires e.IsWaiting()
    ensures (e.IsProbed(input) || e.IsExecuted(input) ==> e.PollHit(input)) <==>
            !input.registered(e.current.workflowCode) || e.PollHit(input)
  {
  }
}
