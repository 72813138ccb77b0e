/** Stage-based workflows and what their back-transitions clear
    (crates/workflow_engine/src/stage.rs). */
module Stages {
  import opened Common
  import opened Keys
  import opened Stores
  import opened Context
  import Scheduler

  datatype StageOutcome =
    | Waiting(polls: seq<Scheduler.Poll>)
    | NextStage(stage: string, clearStages: seq<string>)
    | Finish(finishedType: string, finishedDescription: string)

  /** A step a stage runs: what its body returns if it runs, and whether the stage goes on
      when the body fails. */
  datatype StepCall = StepCall(name: string, body: Result<Json, string>, handled: bool)

  /** What one execution of a stage does: the steps it runs, in order, up to the first error
      it does not handle, and then its own outcome or error. */
  datatype Visit = Visit(steps: seq<StepCall>, outcome: Result<StageOutcome, string>)

  /** Stage keys and the step keys each registered stage owns. */
  type Registry = map<string, seq<string>>

  /** `Cut` is a run that ends with its process, at the start of a stage. */
  datatype StageRun = Answered(outcome: Scheduler.RunOutcome) | Failed(failure: Failure) | Cut

  // ---- The history of a case's checkpoints ----

  datatype Event = Saved(name: string, value: Json) | Cleared(name: string) | Wiped

  function Apply(entries: Entries, caseKey: string, e: Event): Entries {
    match e
    case Saved(name, value) => entries[(caseKey, CheckpointKey(name)) := value]
    case Cleared(name) => entries[(caseKey, CheckpointKey(name)) := Null]
    case Wiped => Without(entries, caseKey)
  }

  function Replay(entries: Entries, caseKey: string, log: seq<Event>): Entries {
    if log == [] then entries
    else Apply(Replay(entries, caseKey, log[..|log| - 1]), caseKey, log[|log| - 1])
  }

  predicate Touches(e: Event, name: string) { e.Wiped? || e.name == name }

  /** Event `i` is the last that concerns the checkpoint. */
  predicate LastTouch(log: seq<Event>, i: int, name: string) {
    0 <= i < |log| && Touches(log[i], name) && forall j :: i < j < |log| ==> !Touches(log[j], name)
  }

  predicate Untouched(log: seq<Event>, name: string) { forall j :: 0 <= j < |log| ==> !Touches(log[j], name) }

  lemma ApplyElsewhere(entries: Entries, caseKey: string, e: Event, name: string)
    requires !Touches(e, name)
    ensures Live(Apply(entries, caseKey, e), caseKey, name) == Live(entries, caseKey, name)
  {
    if CheckpointKey(e.name) == CheckpointKey(name) {
      CheckpointKeyInjective(e.name, name);
    }
  }

  /** A checkpoint is live, with a value, exactly when the last event about it is a save of
      that value, which is not null, or when it was live before and nothing concerns it. */
  lemma {:induction false} LiveIffLastSave(entries: Entries, caseKey: string, log: seq<Event>, name: string, value: Json)
    ensures Live(Replay(entries, caseKey, log), caseKey, name) == Some(value) <==>
            || (exists i :: LastTouch(log, i, name) && log[i] == Saved(name, value) && value != Null)
            || (Untouched(log, name) && Live(entries, caseKey, name) == Some(value))
    decreases |log|
  {
    if log != [] {
      var n := |log| - 1;
      var front, last := log[..n], log[n];
      LiveIffLastSave(entries, caseKey, front, name, value);
      if Touches(last, name) {
        assert LastTouch(log, n, name);
        assert forall i :: LastTouch(log, i, name) ==> i == n;
      } else {
        ApplyElsewhere(Replay(entries, caseKey, front), caseKey, last, name);
        forall i ensures LastTouch(log, i, name) <==> LastTouch(front, i, name) {
        }
      }
    }
  }

  lemma {:induction false} ReplayConcatenation(entries: Entries, caseKey: string, a: seq<Event>, b: seq<Event>)
    ensures Replay(entries, caseKey, a + b) == Replay(Replay(entries, caseKey, a), caseKey, b)
    decreases |b|
  {
    if b == [] {
      assert a + b == a;
    } else {
      assert (a + b)[..|a + b| - 1] == a + b[..|b| - 1];
      ReplayConcatenation(entries, caseKey, a, b[..|b| - 1]);
    }
  }

  // ---- The path of a run on stores that do not fail ----

  function SaveOf(name: string, plain: (Entries, Result<Json, Failure>, bool)): seq<Event> {
    if plain.1.Ok? && plain.2 then [Saved(name, plain.1.value)] else []
  }

  /** The saves of one stage execution, and the error it ends with if a step fails and the
      stage does not handle that. */
  function VisitLog(entries: Entries, caseKey: string, steps: seq<StepCall>): (seq<Event>, Option<Failure>)
    decreases |steps|
  {
    if steps == [] then ([], None)
    else
      var plain := PlainStep(entries, caseKey, steps[0].name, steps[0].body);
      if plain.1.Err? && !steps[0].handled then ([], Some(plain.1.error))
      else
        var (log, failure) := VisitLog(plain.0, caseKey, steps[1..]);
        (SaveOf(steps[0].name, plain) + log, failure)
  }

  /** The step keys a transition clears: those of the named stages that are registered. */
  function ClearNames(registry: Registry, stages: seq<string>): seq<string> {
    if stages == [] then []
    else
      var last := stages[|stages| - 1];
      ClearNames(registry, stages[..|stages| - 1]) + if last in registry then registry[last] else []
  }

  lemma {:induction false} ClearNamesIff(registry: Registry, stages: seq<string>, name: string)
    ensures name in ClearNames(registry, stages) <==>
            exists s :: s in stages && s in registry && name in registry[s]
    decreases |stages|
  {
    if stages != [] {
      var front, last := stages[..|stages| - 1], stages[|stages| - 1];
      ClearNamesIff(registry, front, name);
      assert stages == front + [last];
    }
  }

  function Clears(names: seq<string>): (log: seq<Event>)
    ensures |log| == |names| && forall i :: 0 <= i < |names| ==> log[i] == Cleared(names[i])
  {
    seq(|names|, i requires 0 <= i < |names| => Cleared(names[i]))
  }

  lemma {:induction false} ClearsReplay(entries: Entries, caseKey: string, names: seq<string>)
    ensures Replay(entries, caseKey, Clears(names)) == Nulled(entries, caseKey, names)
    decreases |names|
  {
    if names != [] {
      ClearsReplay(entries, caseKey, names[..|names| - 1]);
      assert Clears(names)[..|names| - 1] == Clears(names[..|names| - 1]);
    }
  }

  datatype Turn = Onward(stage: string) | Over(end: StageRun)

  /** One stage execution with its transition. */
  function OneVisit(registry: Registry, visit: Visit, entries: Entries, caseKey: string): (seq<Event>, Turn) {
    var (saves, failure) := VisitLog(entries, caseKey, visit.steps);
    if failure.Some? then (saves, Over(Failed(failure.value)))
    else
      match visit.outcome
      case Err(message) => (saves, Over(Failed(StepFailed(message))))
      case Ok(Waiting(polls)) => (saves, Over(Answered(Scheduler.WaitFor(polls))))
      case Ok(Finish(t, d)) => (saves + [Wiped], Over(Answered(Scheduler.Finish(t, d))))
      case Ok(NextStage(next, clearStages)) => (saves + Clears(ClearNames(registry, clearStages)), Onward(next))
  }

  /** The whole run from a stage: everything that happens to the case's checkpoints, and how
      the run ends. */
  function Path(registry: Registry, stage: string, visits: seq<Visit>, entries: Entries, caseKey: string)
    : (seq<Event>, StageRun)
    decreases |visits|
  {
    if stage !in registry then ([], Failed(NoStage(stage)))
    else if visits == [] then ([], Cut)
    else
      var (log, turn) := OneVisit(registry, visits[0], entries, caseKey);
      match turn
      case Over(end) => (log, end)
      case Onward(next) =>
        var (rest, end) := Path(registry, next, visits[1..], Replay(entries, caseKey, log), caseKey);
        (log + rest, end)
  }

  // ---- What a path keeps ----

  /** Saves fall on steps without a checkpoint only. */
  ghost predicate SavesOnlyDead(entries: Entries, caseKey: string, log: seq<Event>) {
    forall i :: 0 <= i < |log| && log[i].Saved? ==> Live(Replay(entries, caseKey, log[..i]), caseKey, log[i].name).None?
  }

  lemma {:induction false} SavesOnlyDeadConcatenation(entries: Entries, caseKey: string, a: seq<Event>, b: seq<Event>)
    requires SavesOnlyDead(entries, caseKey, a) && SavesOnlyDead(Replay(entries, caseKey, a), caseKey, b)
    ensures SavesOnlyDead(entries, caseKey, a + b)
  {
    forall i | 0 <= i < |a + b| && (a + b)[i].Saved?
      ensures Live(Replay(entries, caseKey, (a + b)[..i]), caseKey, (a + b)[i].name).None?
    {
      if i < |a| {
        assert (a + b)[..i] == a[..i];
      } else {
        assert (a + b)[..i] == a + b[..i - |a|];
        ReplayConcatenation(entries, caseKey, a, b[..i - |a|]);
      }
    }
  }

  lemma {:induction false} VisitSavesOnlyDead(entries: Entries, caseKey: string, steps: seq<StepCall>)
    ensures SavesOnlyDead(entries, caseKey, VisitLog(entries, caseKey, steps).0)
    ensures forall e :: e in VisitLog(entries, caseKey, steps).0 ==> e.Saved?
    decreases |steps|
  {
    if steps != [] {
      var plain := PlainStep(entries, caseKey, steps[0].name, steps[0].body);
      if plain.1.Ok? || steps[0].handled {
        VisitSavesOnlyDead(plain.0, caseKey, steps[1..]);
        var first := SaveOf(steps[0].name, plain);
        assert first != [] ==> first[..0] == [];
        assert Replay(entries, caseKey, first) == plain.0;
        SavesOnlyDeadConcatenation(entries, caseKey, first, VisitLog(plain.0, caseKey, steps[1..]).0);
      }
    }
  }

  lemma OneVisitSavesOnlyDead(registry: Registry, visit: Visit, entries: Entries, caseKey: string)
    ensures SavesOnlyDead(entries, caseKey, OneVisit(registry, visit, entries, caseKey).0)
  {
    var (saves, failure) := VisitLog(entries, caseKey, visit.steps);
    VisitSavesOnlyDead(entries, caseKey, visit.steps);
    if failure.None? && visit.outcome.Ok? {
      match visit.outcome.value
      case Waiting(_) =>
      case Finish(_, _) => SavesOnlyDeadConcatenation(entries, caseKey, saves, [Wiped]);
      case NextStage(next, clearStages) =>
        SavesOnlyDeadConcatenation(entries, caseKey, saves, Clears(ClearNames(registry, clearStages)));
    }
  }

  /** Along a whole run no live checkpoint is ever saved over: only a clear, or the end of the
      case, lets a step run again. */
  lemma {:induction false} PathSavesOnlyDead(registry: Registry, stage: string, visits: seq<Visit>,
                                             entries: Entries, caseKey: string)
    ensures SavesOnlyDead(entries, caseKey, Path(registry, stage, visits, entries, caseKey).0)
    decreases |visits|
  {
    if stage in registry && visits != [] {
      OneVisitSavesOnlyDead(registry, visits[0], entries, caseKey);
      var (log, turn) := OneVisit(registry, visits[0], entries, caseKey);
      if turn.Onward? {
        var after := Replay(entries, caseKey, log);
        PathSavesOnlyDead(registry, turn.stage, visits[1..], after, caseKey);
        SavesOnlyDeadConcatenation(entries, caseKey, log, Path(registry, turn.stage, visits[1..], after, caseKey).0);
      }
    }
  }

  /** The stages each transition of the run names to be cleared, in order. */
  function Transitions(registry: Registry, stage: string, visits: seq<Visit>, entries: Entries, caseKey: string): seq<seq<string>>
    decreases |visits|
  {
    if stage !in registry || visits == [] then []
    else
      var (log, turn) := OneVisit(registry, visits[0], entries, caseKey);
      if turn.Over? then []
      else
        [visits[0].outcome.value.clearStages]
        + Transitions(registry, turn.stage, visits[1..], Replay(entries, caseKey, log), caseKey)
  }

  predicate Owns(registry: Registry, stages: seq<string>, name: string) {
    exists s :: s in stages && s in registry && name in registry[s]
  }

  /** A transition of the run names a registered stage that owns the step. */
  ghost predicate ClearsStep(registry: Registry, transitions: seq<seq<string>>, name: string) {
    exists i :: 0 <= i < |transitions| && Owns(registry, transitions[i], name)
  }

  lemma OneVisitClearsIff(registry: Registry, visit: Visit, entries: Entries, caseKey: string, name: string)
    ensures var (log, turn) := OneVisit(registry, visit, entries, caseKey);
            && (Cleared(name) in log <==> turn.Onward? && Owns(registry, visit.outcome.value.clearStages, name))
            && (Wiped in log <==> turn.Over? && turn.end.Answered? && turn.end.outcome.Finish?)
            && (Wiped in log ==> log[|log| - 1] == Wiped && Wiped !in log[..|log| - 1])
  {
    VisitSavesOnlyDead(entries, caseKey, visit.steps);
    var (log, turn) := OneVisit(registry, visit, entries, caseKey);
    if turn.Onward? {
      var names := ClearNames(registry, visit.outcome.value.clearStages);
      ClearNamesIff(registry, visit.outcome.value.clearStages, name);
      if name in names {
        var i :| 0 <= i < |names| && names[i] == name;
        assert Clears(names)[i] == Cleared(name);
      }
    }
  }

  /** A run clears a step exactly if one of its transitions names a registered stage that
      owns it, and wipes exactly if it finishes, as the last it does. */
  lemma {:induction false} ClearedIff(registry: Registry, stage: string, visits: seq<Visit>,
                                      entries: Entries, caseKey: string, name: string)
    ensures var (log, end) := Path(registry, stage, visits, entries, caseKey);
            && (Cleared(name) in log <==>
                  ClearsStep(registry, Transitions(registry, stage, visits, entries, caseKey), name))
            && (Wiped in log <==> end.Answered? && end.outcome.Finish?)
            && (Wiped in log ==> log[|log| - 1] == Wiped && Wiped !in log[..|log| - 1])
    decreases |visits|
  {
    if stage in registry && visits != [] {
      OneVisitClearsIff(registry, visits[0], entries, caseKey, name);
      var (first, turn) := OneVisit(registry, visits[0], entries, caseKey);
      if turn.Onward? {
        var after := Replay(entries, caseKey, first);
        ClearedIff(registry, turn.stage, visits[1..], after, caseKey, name);
        var rest := Path(registry, turn.stage, visits[1..], after, caseKey).0;
        hide *;
        PathOnward(registry, stage, visits, entries, caseKey);
        ClearsStepIff(registry, visits[0].outcome.value.clearStages,
                      Transitions(registry, turn.stage, visits[1..], after, caseKey), name);
        if Wiped in rest {
          assert (first + rest)[..|first + rest| - 1] == first + rest[..|rest| - 1];
        }
      }
    }
  }

  lemma PathOnward(registry: Registry, stage: string, visits: seq<Visit>, entries: Entries, caseKey: string)
    requires stage in registry && visits != [] && OneVisit(registry, visits[0], entries, caseKey).1.Onward?
    ensures visits[0].outcome.Ok? && visits[0].outcome.value.NextStage?
    ensures var (first, turn) := OneVisit(registry, visits[0], entries, caseKey);
            var after := Replay(entries, caseKey, first);
            var rest := Path(registry, turn.stage, visits[1..], after, caseKey);
            && Path(registry, stage, visits, entries, caseKey) == (first + rest.0, rest.1)
            && Transitions(registry, stage, visits, entries, caseKey)
               == [visits[0].outcome.value.clearStages] + Transitions(registry, turn.stage, visits[1..], after, caseKey)
  {
  }

  lemma ClearsStepIff(registry: Registry, first: seq<string>, rest: seq<seq<string>>, name: string)
    ensures ClearsStep(registry, [first] + rest, name) <==> Owns(registry, first, name) || ClearsStep(registry, rest, name)
  {
    var all := [first] + rest;
    assert all[0] == first;
    forall i | 0 <= i < |rest| ensures all[i + 1] == rest[i] {
    }
  }

  lemma {:induction false} LiveStays(entries: Entries, caseKey: string, log: seq<Event>, name: string)
    requires SavesOnlyDead(entries, caseKey, log) && Cleared(name) !in log && Wiped !in log
    requires Live(entries, caseKey, name).Some?
    ensures Untouched(log, name)
    ensures Live(Replay(entries, caseKey, log), caseKey, name) == Live(entries, caseKey, name)
    decreases |log|
  {
    hide Apply, Live, CheckpointKey;
    if log != [] {
      var n := |log| - 1;
      var front := log[..n];
      forall i | 0 <= i < |front| && front[i].Saved?
        ensures Live(Replay(entries, caseKey, front[..i]), caseKey, front[i].name).None?
      {
        assert front[..i] == log[..i];
      }
      LiveStays(entries, caseKey, front, name);
      assert log[n] != Cleared(name) && log[n] != Wiped;
      assert log[n].name != name;
      ApplyElsewhere(Replay(entries, caseKey, front), caseKey, log[n], name);
    }
  }

  /** What a run does before it deletes the state of a case it finishes. */
  function BeforeWipe(log: seq<Event>): seq<Event> {
    if Wiped in log then log[..|log| - 1] else log
  }

  /** The body of a step with a checkpoint runs in a run, finishing or not, only if one of
      the run's transitions names its registered stage. If none does the checkpoint keeps its
      value up to the deletion of a finished case's state. */
  lemma {:induction false} OtherStagesKeep(registry: Registry, stage: string, visits: seq<Visit>,
                                           entries: Entries, caseKey: string, name: string)
    requires Live(entries, caseKey, name).Some?
    requires !ClearsStep(registry, Transitions(registry, stage, visits, entries, caseKey), name)
    ensures var log := Path(registry, stage, visits, entries, caseKey).0;
            && Untouched(BeforeWipe(log), name)
            && Live(Replay(entries, caseKey, BeforeWipe(log)), caseKey, name) == Live(entries, caseKey, name)
            && forall v :: Saved(name, v) !in log
  {
    PathSavesOnlyDead(registry, stage, visits, entries, caseKey);
    ClearedIff(registry, stage, visits, entries, caseKey, name);
    var log := Path(registry, stage, visits, entries, caseKey).0;
    var before := BeforeWipe(log);
    hide Path, Transitions, Live, Replay;
    assert SavesOnlyDead(entries, caseKey, before) by {
      assert forall i :: 0 <= i < |before| ==> before[..i] == log[..i];
    }
    LiveStays(entries, caseKey, before, name);
    forall v ensures Saved(name, v) !in log {
      assert Saved(name, v) !in before;
      assert forall e :: e in log ==> e in before || e == Wiped;
    }
  }

  /** A transition clears exactly the steps of the registered stages it names, for this case
      alone. */
  lemma TransitionClearsExactly(registry: Registry, stages: seq<string>, entries: Entries, caseKey: string,
                                owner: string, name: string)
    ensures var after := Replay(entries, caseKey, Clears(ClearNames(registry, stages)));
            Live(after, owner, name) ==
            if owner == caseKey && (exists s :: s in stages && s in registry && name in registry[s]) then None
            else Live(entries, owner, name)
  {
    ClearsReplay(entries, caseKey, ClearNames(registry, stages));
    NulledTakesExactly(entries, caseKey, ClearNames(registry, stages), owner, name);
    ClearNamesIff(registry, stages, name);
  }

  predicate Avoids(steps: seq<StepCall>, name: string) {
    forall i :: 0 <= i < |steps| ==> steps[i].name != name
  }

  /** After a transition, the next stage runs the body of a step it comes to exactly if the
      transition names a registered stage that owns the step, or the step had no checkpoint. */
  lemma {:induction false} ReExecutesIff(registry: Registry, stages: seq<string>, entries: Entries, caseKey: string,
                                         before: seq<StepCall>, name: string, value: Json, handled: bool)
    requires Avoids(before, name)
    requires VisitLog(Replay(entries, caseKey, Clears(ClearNames(registry, stages))), caseKey, before).1.None?
    ensures var after := Replay(entries, caseKey, Clears(ClearNames(registry, stages)));
            var log := VisitLog(after, caseKey, before + [StepCall(name, Ok(value), handled)]).0;
            && VisitLog(after, caseKey, before).0 <= log
            && (Saved(name, value) in log <==>
                  || (exists s :: s in stages && s in registry && name in registry[s])
                  || Live(entries, caseKey, name).None?)
  {
    TransitionClearsExactly(registry, stages, entries, caseKey, caseKey, name);
    LastStepRuns(Replay(entries, caseKey, Clears(ClearNames(registry, stages))), caseKey, before, name, value, handled);
  }

  lemma {:induction false} LastStepRuns(entries: Entries, caseKey: string, before: seq<StepCall>,
                                        name: string, value: Json, handled: bool)
    requires Avoids(before, name) && VisitLog(entries, caseKey, before).1.None?
    ensures var log := VisitLog(entries, caseKey, before).0;
            && VisitLog(entries, caseKey, before + [StepCall(name, Ok(value), handled)]).0
               == log + (if Live(entries, caseKey, name).None? then [Saved(name, value)] else [])
            && Saved(name, value) !in log
    decreases |before|
  {
    hide Live, PlainStep, CheckpointKey, VisitLog;
    var steps := before + [StepCall(name, Ok(value), handled)];
    if before == [] {
      assert steps == [StepCall(name, Ok(value), handled)];
      VisitLogStops(entries, caseKey, []);
      OnlyStepRuns(entries, caseKey, name, value, handled);
    } else {
      var tail := before[1..] + [StepCall(name, Ok(value), handled)];
      assert before == [before[0]] + before[1..] && steps == [before[0]] + tail;
      VisitLogCons(entries, caseKey, before[0], before[1..]);
      VisitLogCons(entries, caseKey, before[0], tail);
      assert before[0].name != name && Avoids(before[1..], name);
      var plain := PlainStep(entries, caseKey, before[0].name, before[0].body);
      LastStepRuns(plain.0, caseKey, before[1..], name, value, handled);
      PlainStepElsewhere(entries, caseKey, before[0].name, before[0].body, name);
      var first, rest := SaveOf(before[0].name, plain), VisitLog(plain.0, caseKey, before[1..]).0;
      var last := if Live(entries, caseKey, name).None? then [Saved(name, value)] else [];
      assert first + (rest + last) == first + rest + last;
    }
  }

  lemma VisitLogCons(entries: Entries, caseKey: string, first: StepCall, rest: seq<StepCall>)
    ensures var plain := PlainStep(entries, caseKey, first.name, first.body);
            VisitLog(entries, caseKey, [first] + rest) ==
            if plain.1.Err? && !first.handled then ([], Some(plain.1.error))
            else
              var (log, failure) := VisitLog(plain.0, caseKey, rest);
              (SaveOf(first.name, plain) + log, failure)
  {
    assert ([first] + rest)[1..] == rest;
  }

  lemma VisitLogStops(entries: Entries, caseKey: string, steps: seq<StepCall>)
    ensures VisitLog(entries, caseKey, steps[|steps|..]) == ([], None)
  {
  }

  lemma OnlyStepRuns(entries: Entries, caseKey: string, name: string, value: Json, handled: bool)
    ensures VisitLog(entries, caseKey, [StepCall(name, Ok(value), handled)]).0
            == if Live(entries, caseKey, name).None? then [Saved(name, value)] else []
  {
    assert [StepCall(name, Ok(value), handled)][1..] == [];
  }

  lemma PlainStepElsewhere(entries: Entries, caseKey: string, other: string, body: Result<Json, string>, name: string)
    requires other != name
    ensures Live(PlainStep(entries, caseKey, other, body).0, caseKey, name) == Live(entries, caseKey, name)
  {
    if CheckpointKey(other) == CheckpointKey(name) {
      CheckpointKeyInjective(other, name);
    }
  }

  // ---- The loop ----

  /** No operation of the store fails. */
  ghost predicate Reliable(faults: nat -> bool) { forall i: nat :: !faults(i) }

  /** One step of a stage. With a fault, nothing has happened to the store. */
  method ExecuteStep(ctx: WorkflowContext, name: string, body: Result<Json, string>)
    returns (r: Result<Json, Failure>, ghost log: seq<Event>)
    requires ctx.CaseCoherent()
    modifies ctx`cache, ctx`records, ctx.states`entries, ctx.states`calls
    ensures ctx.CaseCoherent()
    ensures ctx.states.entries == Replay(old(ctx.states.entries), ctx.current.caseKey, log)
    ensures var plain := PlainStep(old(ctx.states.entries), ctx.current.caseKey, name, body);
            && (r.Err? ==> log == []) && (r == Err(StoreFailed) ==> !Reliable(ctx.states.faults))
            && (r != Err(StoreFailed) ==>
                  && r == plain.1 && ctx.states.entries == plain.0
                  && log == SaveOf(name, plain))
  {
    var ran;
    r, ran := ctx.Step(name, body, _ => true);
    log := if r.Ok? && ran then [Saved(name, r.value)] else [];
    assert log[..0] == [];
  }

  lemma VisitLogNext(entries: Entries, caseKey: string, steps: seq<StepCall>, i: nat)
    requires i < |steps|
    ensures var plain := PlainStep(entries, caseKey, steps[i].name, steps[i].body);
            VisitLog(entries, caseKey, steps[i..]) ==
            if plain.1.Err? && !steps[i].handled then ([], Some(plain.1.error))
            else
              var (log, failure) := VisitLog(plain.0, caseKey, steps[i + 1..]);
              (SaveOf(steps[i].name, plain) + log, failure)
  {
    assert steps[i..][0] == steps[i] && steps[i..][1..] == steps[i + 1..];
  }

  /** The steps of one stage execution. With a fault, a beginning of its saves has happened. */
  method ExecuteSteps(ctx: WorkflowContext, steps: seq<StepCall>)
    returns (failure: Option<Failure>, ghost log: seq<Event>)
    requires ctx.CaseCoherent()
    modifies ctx`cache, ctx`records, ctx.states`entries, ctx.states`calls
    ensures ctx.CaseCoherent()
    ensures ctx.states.entries == Replay(old(ctx.states.entries), ctx.current.caseKey, log)
    ensures var spec := VisitLog(old(ctx.states.entries), ctx.current.caseKey, steps);
            if failure == Some(StoreFailed)
            then log <= spec.0 && !Reliable(ctx.states.faults)
            else log == spec.0 && failure == spec.1
  {
    hide *;
    log := [];
    var i := 0;
    ghost var caseKey := ctx.current.caseKey;
    ghost var spec := VisitLog(ctx.states.entries, caseKey, steps);
    assert steps[0..] == steps;
    NothingYet(spec, ctx.states.entries, caseKey);
    while i < |steps|
      invariant 0 <= i <= |steps| && ctx.CaseCoherent()
      invariant ctx.states.entries == Replay(old(ctx.states.entries), caseKey, log)
      invariant Ahead(spec, log, VisitLog(ctx.states.entries, caseKey, steps[i..]))
    {
      ghost var before := ctx.states.entries;
      VisitLogNext(ctx.states.entries, caseKey, steps, i);
      var r;
      ghost var more;
      r, more := ExecuteStep(ctx, steps[i].name, steps[i].body);
      ReplayConcatenation(old(ctx.states.entries), caseKey, log, more);
      if r.Err? && (r.error == StoreFailed || !steps[i].handled) {
        AheadStops(spec, log, VisitLog(before, caseKey, steps[i..]), more);
        return Some(r.error), log + more;
      }
      AheadNext(spec, log, more, VisitLog(ctx.states.entries, caseKey, steps[i + 1..]));
      log := log + more;
      i := i + 1;
    }
    VisitLogStops(ctx.states.entries, caseKey, steps);
    AheadStops(spec, log, VisitLog(ctx.states.entries, caseKey, steps[i..]), []);
    assert log + [] == log;
    failure := None;
  }

  /** Of a log and an answer, `log` has happened and `rest` is still to come. */
  ghost predicate Ahead<R>(spec: (seq<Event>, R), log: seq<Event>, rest: (seq<Event>, R)) {
    spec.0 == log + rest.0 && spec.1 == rest.1
  }

  lemma NothingYet<R>(spec: (seq<Event>, R), entries: Entries, caseKey: string)
    ensures Ahead(spec, [], spec) && Replay(entries, caseKey, []) == entries
  {
  }

  lemma AheadNext<R>(spec: (seq<Event>, R), log: seq<Event>, more: seq<Event>, rest: (seq<Event>, R))
    requires Ahead(spec, log, (more + rest.0, rest.1))
    ensures Ahead(spec, log + more, rest)
  {
  }

  lemma AheadStops<R>(spec: (seq<Event>, R), log: seq<Event>, rest: (seq<Event>, R), more: seq<Event>)
    requires Ahead(spec, log, rest) && more <= rest.0
    ensures log + more <= spec.0 && spec.1 == rest.1
    ensures more == rest.0 ==> log + more == spec.0
  {
    assert rest.0 == more + rest.0[|more|..];
  }

  /** `StageBase::clear`. */
  method ClearStage(ctx: WorkflowContext, names: seq<string>) returns (ok: bool, ghost log: seq<Event>)
    requires ctx.CaseCoherent()
    modifies ctx`cache, ctx.states`entries, ctx.states`calls
    ensures ctx.CaseCoherent()
    ensures ctx.states.entries == Replay(old(ctx.states.entries), ctx.current.caseKey, log)
    ensures if ok then log == Clears(names) else log <= Clears(names) && !Reliable(ctx.states.faults)
  {
    ok := ctx.ClearSteps(names);
    ghost var done := if ok then names else names[..ctx.states.calls - old(ctx.states.calls) - 1];
    ClearsReplay(old(ctx.states.entries), ctx.current.caseKey, done);
    log := Clears(done);
  }

  lemma ClearsConcatenation(a: seq<string>, b: seq<string>)
    ensures Clears(a + b) == Clears(a) + Clears(b)
  {
  }

  lemma ClearsPrefix(a: seq<string>, b: seq<string>)
    requires a <= b
    ensures Clears(a) <= Clears(b)
  {
  }

  /** Clears every named stage that is registered, in order. */
  method ClearStages(ctx: WorkflowContext, registry: Registry, stages: seq<string>)
    returns (ok: bool, ghost log: seq<Event>)
    requires ctx.CaseCoherent()
    modifies ctx`cache, ctx.states`entries, ctx.states`calls
    ensures ctx.CaseCoherent()
    ensures ctx.states.entries == Replay(old(ctx.states.entries), ctx.current.caseKey, log)
    ensures var spec := Clears(ClearNames(registry, stages));
            if ok then log == spec else log <= spec && !Reliable(ctx.states.faults)
  {
    hide *;
    log := [];
    var i := 0;
    ghost var caseKey := ctx.current.caseKey;
    NothingCleared(registry, stages, ctx.states.entries, caseKey);
    while i < |stages|
      invariant 0 <= i <= |stages| && ctx.CaseCoherent()
      invariant ctx.states.entries == Replay(old(ctx.states.entries), caseKey, log)
      invariant log == Clears(ClearNames(registry, stages[..i]))
    {
      ClearNamesNext(registry, stages, i);
      if stages[i] in registry {
        ghost var cleared;
        ok, cleared := ClearStage(ctx, registry[stages[i]]);
        ReplayConcatenation(old(ctx.states.entries), caseKey, log, cleared);
        ClearsConcatenation(ClearNames(registry, stages[..i]), registry[stages[i]]);
        log := log + cleared;
        if !ok {
          ClearNamesPrefix(registry, stages, i + 1);
          ClearsPrefix(ClearNames(registry, stages[..i + 1]), ClearNames(registry, stages));
          return;
        }
      }
      i := i + 1;
    }
    assert stages[..i] == stages;
    ok := true;
  }

  lemma NothingCleared(registry: Registry, stages: seq<string>, entries: Entries, caseKey: string)
    ensures Clears(ClearNames(registry, stages[..0])) == [] && Replay(entries, caseKey, []) == entries
  {
  }

  lemma ClearNamesNext(registry: Registry, stages: seq<string>, i: nat)
    requires i < |stages|
    ensures ClearNames(registry, stages[..i + 1])
            == ClearNames(registry, stages[..i]) + if stages[i] in registry then registry[stages[i]] else []
  {
    assert stages[..i + 1][..i] == stages[..i];
  }

  lemma {:induction false} ClearNamesPrefix(registry: Registry, stages: seq<string>, i: nat)
    requires i <= |stages|
    ensures ClearNames(registry, stages[..i]) <= ClearNames(registry, stages)
    decreases |stages| - i
  {
    if i < |stages| {
      ClearNamesNext(registry, stages, i);
      ClearNamesPrefix(registry, stages, i + 1);
    } else {
      assert stages[..i] == stages;
    }
  }

  lemma WipeReplay(entries: Entries, caseKey: string)
    ensures Replay(entries, caseKey, [Wiped]) == Without(entries, caseKey)
  {
    assert [Wiped][..0] == [];
  }

  /** One turn of the loop: executes a stage and follows its outcome. */
  method TakeTurn(ctx: WorkflowContext, registry: Registry, visit: Visit) returns (turn: Turn, ghost log: seq<Event>)
    requires ctx.CaseCoherent()
    modifies ctx, ctx.states`entries, ctx.states`calls, ctx.cases`cases, ctx.cases`calls
    ensures ctx.CaseCoherent()
    ensures ctx.states.entries == Replay(old(ctx.states.entries), old(ctx.current.caseKey), log)
    ensures var spec := OneVisit(registry, visit, old(ctx.states.entries), old(ctx.current.caseKey));
            if turn == Over(Failed(StoreFailed))
            then log <= spec.0 && !(Reliable(ctx.states.faults) && Reliable(ctx.cases.faults))
            else && turn == spec.1
                 && (log == spec.0 || (log + [Wiped] == spec.0 && turn.Over? && !Reliable(ctx.states.faults)))
    ensures if turn.Over? && turn.end.Answered? && turn.end.outcome.Finish?
            then && ctx.current == old(ctx.current).McFinish(turn.end.outcome.finishedType, turn.end.outcome.finishedDescription)
                 && ctx.cases.cases == old(ctx.cases.cases)[ctx.current.caseKey := ctx.current]
            else ctx.cases.cases == old(ctx.cases.cases)
    ensures turn.Onward? ==> ctx.current == old(ctx.current)
    ensures turn.Over? && turn.end.Answered? ==> turn.end.outcome.WaitFor? || turn.end.outcome.Finish?
  {
    hide VisitLog, Clears, ClearNames, Replay, Coherent, Without;
    ghost var caseKey, before := ctx.current.caseKey, ctx.states.entries;
    var failure;
    failure, log := ExecuteSteps(ctx, visit.steps);
    if failure.Some? {
      return Over(Failed(failure.value)), log;
    }
    match visit.outcome
    case Err(message) =>
      turn := Over(Failed(StepFailed(message)));
    case Ok(Waiting(polls)) =>
      turn := Over(Answered(Scheduler.WaitFor(polls)));
    case Ok(Finish(finishedType, finishedDescription)) =>
      ghost var calls := ctx.states.calls;
      var ok := ctx.Finish(finishedType, finishedDescription);
      if !ok {
        return Over(Failed(StoreFailed)), log;
      }
      if !ctx.states.faults(calls) {
        ReplayConcatenation(before, caseKey, log, [Wiped]);
        WipeReplay(Replay(before, caseKey, log), caseKey);
        log := log + [Wiped];
      }
      turn := Over(Answered(Scheduler.Finish(finishedType, finishedDescription)));
    case Ok(NextStage(next, clearStages)) =>
      ghost var clears;
      var ok;
      ok, clears := ClearStages(ctx, registry, clearStages);
      ReplayConcatenation(before, caseKey, log, clears);
      log := log + clears;
      turn := if ok then Onward(next) else Over(Failed(StoreFailed));
  }

  lemma PathStops(registry: Registry, stage: string, visits: seq<Visit>, i: nat, entries: Entries, caseKey: string)
    requires i <= |visits| && (stage !in registry || i == |visits|)
    ensures Path(registry, stage, visits[i..], entries, caseKey)
            == ([], if stage !in registry then Failed(NoStage(stage)) else Cut)
  {
  }

  lemma PathNext(registry: Registry, stage: string, visits: seq<Visit>, i: nat, entries: Entries, caseKey: string)
    requires stage in registry && i < |visits|
    ensures var (log, turn) := OneVisit(registry, visits[i], entries, caseKey);
            && (turn.Over? ==> Path(registry, stage, visits[i..], entries, caseKey) == (log, turn.end))
            && (turn.Onward? ==>
                  var (rest, end) := Path(registry, turn.stage, visits[i + 1..], Replay(entries, caseKey, log), caseKey);
                  Path(registry, stage, visits[i..], entries, caseKey) == (log + rest, end))
  {
    assert visits[i..][0] == visits[i] && visits[i..][1..] == visits[i + 1..];
  }

  /** Runs stages from `start`. Unless a store fails, everything that happens to the case's
      checkpoints, and the answer, is as on the path; a failing read or save cuts the path
      short, and a failing delete leaves the state of a finished case. The answer is never
      to continue, and a finished answer has stored the finished case. */
  method RunStages(ctx: WorkflowContext, start: string, registry: Registry, visits: seq<Visit>)
    returns (r: StageRun, ghost log: seq<Event>)
    requires ctx.CaseCoherent()
    modifies ctx, ctx.states`entries, ctx.states`calls, ctx.cases`cases, ctx.cases`calls
    ensures ctx.CaseCoherent()
    ensures ctx.states.entries == Replay(old(ctx.states.entries), old(ctx.current.caseKey), log)
    ensures var path := Path(registry, start, visits, old(ctx.states.entries), old(ctx.current.caseKey));
            if r == Failed(StoreFailed)
            then log <= path.0 && !(Reliable(ctx.states.faults) && Reliable(ctx.cases.faults))
            else && r == path.1
                 && (log == path.0 || (log + [Wiped] == path.0 && !Reliable(ctx.states.faults)))
    ensures r.Answered? ==> r.outcome.WaitFor? || r.outcome.Finish?
    ensures if r.Answered? && r.outcome.Finish?
            then && ctx.current == old(ctx.current).McFinish(r.outcome.finishedType, r.outcome.finishedDescription)
                 && ctx.cases.cases == old(ctx.cases.cases)[ctx.current.caseKey := ctx.current]
            else ctx.cases.cases == old(ctx.cases.cases)
  {
    hide *;
    log := [];
    var current, i := start, 0;
    ghost var caseKey := ctx.current.caseKey;
    ghost var path := Path(registry, start, visits, ctx.states.entries, caseKey);
    assert visits[0..] == visits;
    NothingYet(path, ctx.states.entries, caseKey);
    while true
      invariant 0 <= i <= |visits| && ctx.CaseCoherent()
      invariant ctx.current == old(ctx.current) && ctx.cases.cases == old(ctx.cases.cases)
      invariant ctx.states.entries == Replay(old(ctx.states.entries), caseKey, log)
      invariant Ahead(path, log, Path(registry, current, visits[i..], ctx.states.entries, caseKey))
      decreases |visits| - i
    {
      if current !in registry || i == |visits| {
        PathStops(registry, current, visits, i, ctx.states.entries, caseKey);
        AheadStops(path, log, Path(registry, current, visits[i..], ctx.states.entries, caseKey), []);
        assert log + [] == log;
        return if current !in registry then Failed(NoStage(current)) else Cut, log;
      }
      PathNext(registry, current, visits, i, ctx.states.entries, caseKey);
      ghost var rest := Path(registry, current, visits[i..], ctx.states.entries, caseKey);
      ghost var more;
      var turn;
      turn, more := TakeTurn(ctx, registry, visits[i]);
      ReplayConcatenation(old(ctx.states.entries), caseKey, log, more);
      if turn.Over? {
        if more + [Wiped] == rest.0 {
          AheadStops(path, log, rest, more + [Wiped]);
          assert log + (more + [Wiped]) == log + more + [Wiped];
        } else {
          AheadStops(path, log, rest, more);
        }
        return turn.end, log + more;
      }
      AheadNext(path, log, more, Path(registry, turn.stage, visits[i + 1..], ctx.states.entries, caseKey));
      log := log + more;
      current, i := turn.stage, i + 1;
    }
  }
}
