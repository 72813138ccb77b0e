/** What a stage-based run answers, told by its visits alone
    (crates/workflow_engine/src/stage.rs:79-113). */
module StageLaws {
  import opened Common
  import opened Keys
  import opened Stores
  import opened Context
  import opened Stages
  import Scheduler

  /** The body of step `j` runs and fails, and the stage does not handle that: the step has no
      checkpoint from before, and no earlier step of the visit gives it one. */
  ghost predicate FailsAt(entries: Entries, caseKey: string, steps: seq<StepCall>, j: nat) {
    && j < |steps| && steps[j].body.Err? && !steps[j].handled
    && Live(entries, caseKey, steps[j].name).None?
    && forall i :: 0 <= i < j && steps[i].name == steps[j].name ==> steps[i].body.Err? || steps[i].body.value == Null
  }

  /** None of the steps before `j` fails like that. */
  ghost predicate PassesTo(entries: Entries, caseKey: string, steps: seq<StepCall>, j: nat) {
    forall i: nat :: i < j ==> !FailsAt(entries, caseKey, steps, i)
  }

  ghost predicate Passes(entries: Entries, caseKey: string, steps: seq<StepCall>) {
    PassesTo(entries, caseKey, steps, |steps|)
  }

  /** The visit fails with the error of its first body that runs, fails and is not handled. */
  ghost predicate FailsWith(entries: Entries, caseKey: string, steps: seq<StepCall>, message: string) {
    exists j: nat :: FailsAt(entries, caseKey, steps, j) && PassesTo(entries, caseKey, steps, j)
                     && steps[j].body.error == message
  }

  /** Whether a later step fails is seen after the first as before it. */
  lemma FailsAtShift(entries: Entries, caseKey: string, steps: seq<StepCall>, j: nat)
    requires steps != []
    ensures var after := PlainStep(entries, caseKey, steps[0].name, steps[0].body).0;
            FailsAt(entries, caseKey, steps, j + 1) <==> FailsAt(after, caseKey, steps[1..], j)
  {
    if j + 1 < |steps| {
      var first, name := steps[0], steps[j + 1].name;
      assert steps[1..][j] == steps[j + 1];
      if first.name != name {
        PlainStepElsewhere(entries, caseKey, first.name, first.body, name);
      }
      assert forall i :: 0 <= i < j ==> steps[1..][i] == steps[i + 1];
      assert (forall i :: 0 <= i < j + 1 && steps[i].name == name ==> steps[i].body.Err? || steps[i].body.value == Null)
          <==> && (first.name == name ==> first.body.Err? || first.body.value == Null)
               && (forall i :: 0 <= i < j && steps[1..][i].name == name ==>
                     steps[1..][i].body.Err? || steps[1..][i].body.value == Null) by {
        forall i | 1 <= i < j + 1 ensures steps[i] == steps[1..][i - 1] {
        }
      }
    }
  }

  /** The steps of a visit all pass, or it fails with exactly that error. */
  lemma {:induction false} VisitFailsIff(entries: Entries, caseKey: string, steps: seq<StepCall>)
    ensures VisitLog(entries, caseKey, steps).1.None? <==> Passes(entries, caseKey, steps)
    ensures forall f :: VisitLog(entries, caseKey, steps).1 == Some(f) <==>
                        f.StepFailed? && FailsWith(entries, caseKey, steps, f.message)
    decreases |steps|
  {
    hide Live, CheckpointKey;
    if steps != [] {
      var first := steps[0];
      var plain := PlainStep(entries, caseKey, first.name, first.body);
      assert FailsAt(entries, caseKey, steps, 0) <==> plain.1.Err? && !first.handled;
      if FailsAt(entries, caseKey, steps, 0) {
        assert PassesTo(entries, caseKey, steps, 0);
      } else {
        VisitFailsIff(plain.0, caseKey, steps[1..]);
        FailuresShift(entries, caseKey, steps);
      }
    }
  }

  lemma FailuresShift(entries: Entries, caseKey: string, steps: seq<StepCall>)
    requires steps != [] && !FailsAt(entries, caseKey, steps, 0)
    ensures var after := PlainStep(entries, caseKey, steps[0].name, steps[0].body).0;
            && (Passes(entries, caseKey, steps) <==> Passes(after, caseKey, steps[1..]))
            && forall m :: FailsWith(entries, caseKey, steps, m) <==> FailsWith(after, caseKey, steps[1..], m)
  {
    var after, rest := PlainStep(entries, caseKey, steps[0].name, steps[0].body).0, steps[1..];
    forall j: nat ensures FailsAt(entries, caseKey, steps, j + 1) <==> FailsAt(after, caseKey, rest, j) {
      FailsAtShift(entries, caseKey, steps, j);
    }
    hide FailsAt, PlainStep;
    forall j: nat ensures PassesTo(entries, caseKey, steps, j + 1) <==> PassesTo(after, caseKey, rest, j) {
      forall i: nat | 0 < i <= j ensures FailsAt(entries, caseKey, steps, i) <==> FailsAt(after, caseKey, rest, i - 1) {
        assert FailsAt(entries, caseKey, steps, (i - 1) + 1) <==> FailsAt(after, caseKey, rest, i - 1);
      }
    }
    forall m | FailsWith(entries, caseKey, steps, m) ensures FailsWith(after, caseKey, rest, m) {
      var j: nat :| FailsAt(entries, caseKey, steps, j) && PassesTo(entries, caseKey, steps, j)
                    && steps[j].body.error == m;
      assert FailsAt(entries, caseKey, steps, (j - 1) + 1) && PassesTo(entries, caseKey, steps, (j - 1) + 1);
      assert rest[j - 1] == steps[j];
    }
    forall m | FailsWith(after, caseKey, rest, m) ensures FailsWith(entries, caseKey, steps, m) {
      var j: nat :| FailsAt(after, caseKey, rest, j) && PassesTo(after, caseKey, rest, j) && rest[j].body.error == m;
      assert FailsAt(entries, caseKey, steps, j + 1) && PassesTo(entries, caseKey, steps, j + 1);
      assert rest[j] == steps[j + 1];
    }
  }

  /** The run comes to visit `i`, at this stage and with these entries: every visit before
      belongs to a registered stage, passes its steps and goes on to the next one. */
  ghost predicate ComesTo(registry: Registry, stage: string, visits: seq<Visit>, entries: Entries, caseKey: string,
                          i: nat, at: string, now: Entries)
    decreases i
  {
    if i == 0 then at == stage && now == entries
    else
      && stage in registry && visits != [] && Passes(entries, caseKey, visits[0].steps)
      && visits[0].outcome.Ok? && visits[0].outcome.value.NextStage?
      && var saved := Replay(entries, caseKey, VisitLog(entries, caseKey, visits[0].steps).0);
         var cleared := Nulled(saved, caseKey, ClearNames(registry, visits[0].outcome.value.clearStages));
         ComesTo(registry, visits[0].outcome.value.stage, visits[1..], cleared, caseKey, i - 1, at, now)
  }

  /** A run that comes to visit `i` ends there with this answer. */
  ghost predicate EndsWith(registry: Registry, visits: seq<Visit>, caseKey: string,
                           i: nat, at: string, now: Entries, end: StageRun) {
    if at !in registry then end == Failed(NoStage(at))
    else if i >= |visits| then end == Cut
    else
      var steps, outcome := visits[i].steps, visits[i].outcome;
      match end
      case Answered(WaitFor(polls)) => Passes(now, caseKey, steps) && outcome == Ok(Waiting(polls))
      case Answered(Finish(t, d)) => Passes(now, caseKey, steps) && outcome == Ok(Finish(t, d))
      case Failed(StepFailed(m)) => (Passes(now, caseKey, steps) && outcome == Err(m)) || FailsWith(now, caseKey, steps, m)
      case _ => false
  }

  /** The answers a run can end with at a visit are those of the visit's own steps and
      outcome. */
  lemma EndsAtOnce(registry: Registry, stage: string, visits: seq<Visit>, entries: Entries, caseKey: string, end: StageRun)
    requires stage !in registry || visits == []
             || !Passes(entries, caseKey, visits[0].steps)
             || visits[0].outcome.Err? || !visits[0].outcome.value.NextStage?
    ensures Path(registry, stage, visits, entries, caseKey).1 == end <==>
            EndsWith(registry, visits, caseKey, 0, stage, entries, end)
  {
    hide FailsAt;
    if stage in registry && visits != [] {
      VisitFailsIff(entries, caseKey, visits[0].steps);
      PassesOrFails(entries, caseKey, visits[0].steps);
      hide Passes, FailsWith, VisitLog;
    }
  }

  lemma PassesOrFails(entries: Entries, caseKey: string, steps: seq<StepCall>)
    ensures forall m :: FailsWith(entries, caseKey, steps, m) ==> !Passes(entries, caseKey, steps)
    ensures forall m, n :: FailsWith(entries, caseKey, steps, m) && FailsWith(entries, caseKey, steps, n) ==> m == n
  {
    assert forall j: nat :: FailsAt(entries, caseKey, steps, j) ==> j < |steps|;
    hide FailsAt;
  }

  lemma GoesOn(registry: Registry, stage: string, visits: seq<Visit>, entries: Entries, caseKey: string)
    requires stage in registry && visits != [] && Passes(entries, caseKey, visits[0].steps)
    requires visits[0].outcome.Ok? && visits[0].outcome.value.NextStage?
    ensures var saved := Replay(entries, caseKey, VisitLog(entries, caseKey, visits[0].steps).0);
            var cleared := Nulled(saved, caseKey, ClearNames(registry, visits[0].outcome.value.clearStages));
            Path(registry, stage, visits, entries, caseKey).1
            == Path(registry, visits[0].outcome.value.stage, visits[1..], cleared, caseKey).1
  {
    VisitFailsIff(entries, caseKey, visits[0].steps);
    PassesOrFails(entries, caseKey, visits[0].steps);
    var saves := VisitLog(entries, caseKey, visits[0].steps).0;
    var names := ClearNames(registry, visits[0].outcome.value.clearStages);
    ReplayConcatenation(entries, caseKey, saves, Clears(names));
    ClearsReplay(Replay(entries, caseKey, saves), caseKey, names);
    hide Passes, FailsWith, Clears, ClearNames, Nulled, Replay, VisitLog;
  }

  lemma NoEndYet(registry: Registry, stage: string, visits: seq<Visit>, entries: Entries, caseKey: string, end: StageRun)
    requires stage in registry && visits != [] && Passes(entries, caseKey, visits[0].steps)
    requires visits[0].outcome.Ok? && visits[0].outcome.value.NextStage?
    ensures !EndsWith(registry, visits, caseKey, 0, stage, entries, end)
  {
    PassesOrFails(entries, caseKey, visits[0].steps);
    hide Passes, FailsWith;
  }

  /** Some visit the run comes to ends it with this answer. */
  ghost predicate Ends(registry: Registry, stage: string, visits: seq<Visit>, entries: Entries, caseKey: string, end: StageRun) {
    exists i: nat, at, now :: i <= |visits| && ComesTo(registry, stage, visits, entries, caseKey, i, at, now)
                              && EndsWith(registry, visits, caseKey, i, at, now, end)
  }

  lemma EndsWithShift(registry: Registry, visits: seq<Visit>, caseKey: string, i: nat, at: string, now: Entries, end: StageRun)
    requires visits != []
    ensures EndsWith(registry, visits, caseKey, i + 1, at, now, end) <==> EndsWith(registry, visits[1..], caseKey, i, at, now, end)
  {
    hide Passes, FailsWith;
    assert i + 1 < |visits| ==> visits[1..][i] == visits[i + 1];
  }

  /** What a run answers, told by the visits alone: it waits for polls exactly if it comes to a
      stage whose steps pass and which waits for those polls, finishes with a type and a
      description exactly if it comes to one that finishes with them, fails with a message
      exactly if a stage's outcome or its first failing step has that message, and fails for
      want of a stage exactly if it comes to one that is not registered. */
  lemma {:induction false} RunEndsIff(registry: Registry, stage: string, visits: seq<Visit>,
                                      entries: Entries, caseKey: string, end: StageRun)
    ensures Path(registry, stage, visits, entries, caseKey).1 == end <==> Ends(registry, stage, visits, entries, caseKey, end)
    decreases |visits|
  {
    hide Path, Passes, EndsWith, Replay, VisitLog, Nulled, ClearNames;
    assert ComesTo(registry, stage, visits, entries, caseKey, 0, stage, entries);
    if stage !in registry || visits == [] || !Passes(entries, caseKey, visits[0].steps)
       || visits[0].outcome.Err? || !visits[0].outcome.value.NextStage? {
      EndsAtOnce(registry, stage, visits, entries, caseKey, end);
    } else {
      GoesOn(registry, stage, visits, entries, caseKey);
      NoEndYet(registry, stage, visits, entries, caseKey, end);
      var saved := Replay(entries, caseKey, VisitLog(entries, caseKey, visits[0].steps).0);
      var cleared := Nulled(saved, caseKey, ClearNames(registry, visits[0].outcome.value.clearStages));
      var next, rest := visits[0].outcome.value.stage, visits[1..];
      RunEndsIff(registry, next, rest, cleared, caseKey, end);
      if Ends(registry, next, rest, cleared, caseKey, end) {
        var i: nat, at, now :| i <= |rest| && ComesTo(registry, next, rest, cleared, caseKey, i, at, now)
                               && EndsWith(registry, rest, caseKey, i, at, now, end);
        EndsWithShift(registry, visits, caseKey, i, at, now, end);
        assert ComesTo(registry, stage, visits, entries, caseKey, i + 1, at, now);
      }
      if Ends(registry, stage, visits, entries, caseKey, end) {
        var i: nat, at, now :| i <= |visits| && ComesTo(registry, stage, visits, entries, caseKey, i, at, now)
                               && EndsWith(registry, visits, caseKey, i, at, now, end);
        assert i != 0;
        EndsWithShift(registry, visits, caseKey, i - 1, at, now, end);
        assert ComesTo(registry, next, rest, cleared, caseKey, i - 1, at, now);
      }
    }
  }
}
