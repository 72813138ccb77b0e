/** Crashes and replays of a checkpointed workflow. A process that dies, or a tick that ends,
    loses the context and its cache and keeps the store; the next tick runs the workflow from
    its beginning (crates/workflow_engine/src/context.rs:99-137 and 182-262). */
module CrashRecovery {
  import opened Common
  import opened Keys
  import opened Stores
  import opened Context

  /** A workflow whose continuation depends on the results of its steps so far only. */
  datatype Command = DoStep(name: string) | Stop(result: string)
  type Workflow = seq<Json> -> Command

  datatype Phase =
    | Down
    | Ready(results: seq<Json>)
    | InBody(results: seq<Json>, name: string)
    | Saving(results: seq<Json>, name: string, value: Json)
    | Ended(results: seq<Json>, result: string)

  datatype State = State(entries: Entries, cache: Cache, phase: Phase)

  /** `SavedUnheard` is a save that reaches the store and whose context dies, or is told of a
      failure, before it learns so. An error ends the tick. */
  datatype Event =
    | Restart | Crash
    | Restored | ReadFailed | Began
    | BodyReturned(value: Json) | BodyFailed
    | Saved | SaveFailed | SavedUnheard
    | Stopped

  predicate AtStep(wf: Workflow, s: State) { s.phase.Ready? && wf(s.phase.results).DoStep? }

  function NextStep(wf: Workflow, s: State): string
    requires AtStep(wf, s)
  {
    wf(s.phase.results).name
  }

  /** The answer of `get_checkpoint` at the next step, and whether the step takes it. */
  function Answer(wf: Workflow, caseKey: string, s: State): Option<Json>
    requires AtStep(wf, s)
  {
    Peek(s.cache, s.entries, caseKey, NextStep(wf, s))
  }

  predicate Taken(answer: Option<Json>) { answer.Some? && answer.value != Null }

  predicate Enabled(wf: Workflow, caseKey: string, s: State, e: Event) {
    match e
    case Restart => s.phase.Down?
    case Crash => true
    case Restored => AtStep(wf, s) && Taken(Answer(wf, caseKey, s))
    case Began => AtStep(wf, s) && !Taken(Answer(wf, caseKey, s))
    case ReadFailed => AtStep(wf, s) && CacheKey(caseKey, CheckpointKey(NextStep(wf, s))) !in s.cache
    case BodyReturned(_) => s.phase.InBody?
    case BodyFailed => s.phase.InBody?
    case Saved => s.phase.Saving?
    case SaveFailed => s.phase.Saving?
    case SavedUnheard => s.phase.Saving?
    case Stopped => s.phase.Ready? && wf(s.phase.results).Stop?
  }

  function Next(wf: Workflow, caseKey: string, s: State, e: Event): State
    requires Enabled(wf, caseKey, s, e)
  {
    var down := State(s.entries, map[], Down);
    match e
    case Restart => State(s.entries, map[], Ready([]))
    case Restored =>
      State(s.entries, Warm(s.cache, s.entries, caseKey, NextStep(wf, s)),
            Ready(s.phase.results + [Answer(wf, caseKey, s).value]))
    case Began =>
      State(s.entries, Warm(s.cache, s.entries, caseKey, NextStep(wf, s)), InBody(s.phase.results, NextStep(wf, s)))
    case BodyReturned(v) => s.(phase := Saving(s.phase.results, s.phase.name, v))
    case Saved =>
      State(s.entries[(caseKey, CheckpointKey(s.phase.name)) := s.phase.value],
            s.cache[CacheKey(caseKey, CheckpointKey(s.phase.name)) := s.phase.value],
            Ready(s.phase.results + [s.phase.value]))
    case SavedUnheard => State(s.entries[(caseKey, CheckpointKey(s.phase.name)) := s.phase.value], map[], Down)
    case Stopped => s.(phase := Ended(s.phase.results, wf(s.phase.results).result))
    case _ => down
  }

  /** A history: what happened to one case, from an empty store on. */
  ghost predicate Possible(wf: Workflow, caseKey: string, events: seq<Event>)
    decreases |events|, 0
  {
    events == [] ||
    (&& Possible(wf, caseKey, events[..|events| - 1])
     && Enabled(wf, caseKey, After(wf, caseKey, events[..|events| - 1]), events[|events| - 1]))
  }

  ghost function After(wf: Workflow, caseKey: string, events: seq<Event>): State
    requires Possible(wf, caseKey, events)
    decreases |events|, 1
  {
    if events == [] then State(map[], map[], Down)
    else Next(wf, caseKey, After(wf, caseKey, events[..|events| - 1]), events[|events| - 1])
  }

  lemma {:induction false} PrefixPossible(wf: Workflow, caseKey: string, events: seq<Event>, i: nat)
    requires Possible(wf, caseKey, events) && i <= |events|
    ensures Possible(wf, caseKey, events[..i])
    decreases |events|
  {
    if i < |events| {
      var front := events[..|events| - 1];
      PrefixPossible(wf, caseKey, front, i);
      assert front[..i] == events[..i];
    } else {
      assert events[..i] == events;
    }
  }

  /** The cache agrees with the store and a body runs only for a step without a checkpoint,
      whatever has crashed or failed. */
  lemma {:induction false} BodiesRunUncheckpointed(wf: Workflow, caseKey: string, events: seq<Event>)
    requires Possible(wf, caseKey, events)
    ensures var s := After(wf, caseKey, events);
            && Coherent(s.cache, caseKey, s.entries)
            && (s.phase.InBody? || s.phase.Saving? ==> Live(s.entries, caseKey, s.phase.name).None?)
    decreases |events|
  {
    if events != [] {
      var front, e := events[..|events| - 1], events[|events| - 1];
      BodiesRunUncheckpointed(wf, caseKey, front);
      var s := After(wf, caseKey, front);
      if AtStep(wf, s) {
        WarmKeepsCoherent(s.cache, s.entries, caseKey, NextStep(wf, s));
        CacheShowsIffNull(s.cache, s.entries, caseKey, NextStep(wf, s));
      } else if e.Saved? {
        SaveKeepsCoherent(s.cache, s.entries, caseKey, s.phase.name, s.phase.value);
      }
    }
  }

  /** Event `i` puts `value` into the store as the result of step `name`. */
  ghost predicate Commits(wf: Workflow, caseKey: string, events: seq<Event>, i: nat, name: string, value: Json)
    requires Possible(wf, caseKey, events) && i < |events|
  {
    PrefixPossible(wf, caseKey, events, i);
    var s := After(wf, caseKey, events[..i]);
    (events[i].Saved? || events[i].SavedUnheard?) && s.phase.Saving? && s.phase.name == name && s.phase.value == value
  }

  /** Event `i` starts the body of step `name`. */
  ghost predicate Begins(wf: Workflow, caseKey: string, events: seq<Event>, i: nat, name: string)
    requires Possible(wf, caseKey, events) && i < |events|
  {
    PrefixPossible(wf, caseKey, events, i);
    var s := After(wf, caseKey, events[..i]);
    events[i].Began? && AtStep(wf, s) && NextStep(wf, s) == name
  }

  /** A checkpoint, once there, stays as it is through every crash and replay. */
  lemma {:induction false} CheckpointsStay(wf: Workflow, caseKey: string, events: seq<Event>, i: nat, name: string)
    requires Possible(wf, caseKey, events) && i <= |events|
    requires Possible(wf, caseKey, events[..i]) && Live(After(wf, caseKey, events[..i]).entries, caseKey, name).Some?
    ensures Live(After(wf, caseKey, events).entries, caseKey, name)
            == Live(After(wf, caseKey, events[..i]).entries, caseKey, name)
    decreases |events|
  {
    if i == |events| {
      assert events[..i] == events;
    } else {
      var front := events[..|events| - 1];
      assert front[..i] == events[..i];
      CheckpointsStay(wf, caseKey, front, i, name);
      BodiesRunUncheckpointed(wf, caseKey, front);
    }
  }

  lemma AfterNext(wf: Workflow, caseKey: string, events: seq<Event>, i: nat)
    requires Possible(wf, caseKey, events) && i < |events|
    ensures Possible(wf, caseKey, events[..i]) && Possible(wf, caseKey, events[..i + 1])
    ensures Enabled(wf, caseKey, After(wf, caseKey, events[..i]), events[i])
    ensures After(wf, caseKey, events[..i + 1]) == Next(wf, caseKey, After(wf, caseKey, events[..i]), events[i])
  {
    PrefixPossible(wf, caseKey, events, i);
    PrefixPossible(wf, caseKey, events, i + 1);
    assert events[..i + 1][..i] == events[..i] && events[..i + 1][i] == events[i];
  }

  /** No body runs again once a result of its step other than null has been saved. */
  lemma NeverRunsAgain(wf: Workflow, caseKey: string, events: seq<Event>, i: nat, j: nat, name: string, value: Json)
    requires Possible(wf, caseKey, events) && i < j < |events|
    requires Commits(wf, caseKey, events, i, name, value) && value != Null
    ensures !Begins(wf, caseKey, events, j, name)
  {
    AfterNext(wf, caseKey, events, i);
    AfterNext(wf, caseKey, events, j);
    assert events[..j][..i + 1] == events[..i + 1];
    CheckpointsStay(wf, caseKey, events[..j], i + 1, name);
    BodiesRunUncheckpointed(wf, caseKey, events[..j]);
    var s := After(wf, caseKey, events[..j]);
    if AtStep(wf, s) && NextStep(wf, s) == name {
      CacheShowsIffNull(s.cache, s.entries, caseKey, name);
    }
  }

  /** The store holds the result saved last. */
  lemma {:induction false} LastSaveStands(wf: Workflow, caseKey: string, events: seq<Event>, i: nat, name: string, value: Json)
    requires Possible(wf, caseKey, events) && i < |events|
    requires Commits(wf, caseKey, events, i, name, value)
    requires forall j, v :: i < j < |events| ==> !Commits(wf, caseKey, events, j, name, v)
    ensures Find(After(wf, caseKey, events).entries, (caseKey, CheckpointKey(name))) == Some(value)
    decreases |events|
  {
    var n := |events| - 1;
    var front := events[..n];
    AfterNext(wf, caseKey, events, n);
    assert events[..n + 1] == events;
    if i < n {
      forall j: nat, v | j < n ensures Commits(wf, caseKey, front, j, name, v) == Commits(wf, caseKey, events, j, name, v) {
        assert front[..j] == events[..j];
      }
      LastSaveStands(wf, caseKey, front, i, name, value);
      var s := After(wf, caseKey, front);
      if s.phase.Saving? && CheckpointKey(s.phase.name) == CheckpointKey(name) {
        CheckpointKeyInjective(s.phase.name, name);
        assert !Commits(wf, caseKey, events, n, name, s.phase.value);
      }
    }
  }

  /** The documentation promises that a saved step is not executed again. It holds exactly
      for results that are not null: wherever the workflow comes to the step again, the body
      starts if the last saved result was null and the result is restored if it was not. */
  lemma RunsAgainIffNull(wf: Workflow, caseKey: string, events: seq<Event>, i: nat, name: string, value: Json)
    requires Possible(wf, caseKey, events) && i < |events|
    requires Commits(wf, caseKey, events, i, name, value)
    requires forall j, v :: i < j < |events| ==> !Commits(wf, caseKey, events, j, name, v)
    requires AtStep(wf, After(wf, caseKey, events)) && NextStep(wf, After(wf, caseKey, events)) == name
    ensures Enabled(wf, caseKey, After(wf, caseKey, events), Began) <==> value == Null
    ensures Enabled(wf, caseKey, After(wf, caseKey, events), Restored) <==> value != Null
    ensures value != Null ==> Answer(wf, caseKey, After(wf, caseKey, events)) == Some(value)
  {
    LastSaveStands(wf, caseKey, events, i, name, value);
    BodiesRunUncheckpointed(wf, caseKey, events);
    var s := After(wf, caseKey, events);
    CacheShowsIffNull(s.cache, s.entries, caseKey, name);
  }

  lemma Extend(wf: Workflow, caseKey: string, events: seq<Event>, e: Event)
    requires Possible(wf, caseKey, events) && Enabled(wf, caseKey, After(wf, caseKey, events), e)
    ensures Possible(wf, caseKey, events + [e])
    ensures After(wf, caseKey, events + [e]) == Next(wf, caseKey, After(wf, caseKey, events), e)
  {
    assert (events + [e])[..|events + [e]| - 1] == events;
  }

  /** A history in which the body of a saved step starts again after a crash: its result was
      null. */
  lemma NullRunsAgain(caseKey: string) returns (wf: Workflow, events: seq<Event>)
    ensures Possible(wf, caseKey, events) && |events| == 7
    ensures Commits(wf, caseKey, events, 3, "step", Null) && events[4] == Crash
    ensures Begins(wf, caseKey, events, 6, "step")
  {
    wf := (results: seq<Json>) => if results == [] then DoStep("step") else Stop("done");
    events := [];
    Extend(wf, caseKey, events, Restart);
    events := events + [Restart];
    Extend(wf, caseKey, events, Began);
    events := events + [Began];
    Extend(wf, caseKey, events, BodyReturned(Null));
    events := events + [BodyReturned(Null)];
    ghost var saving := events;
    Extend(wf, caseKey, events, Saved);
    events := events + [Saved];
    Extend(wf, caseKey, events, Crash);
    events := events + [Crash];
    Extend(wf, caseKey, events, Restart);
    events := events + [Restart];
    ghost var before := events;
    Extend(wf, caseKey, events, Began);
    events := events + [Began];
    assert events[..3] == saving && events[..6] == before;
  }

  // ---- Refinement of an uninterrupted run ----

  /** The store after the given step results, none of them interrupted. */
  function EntriesOf(wf: Workflow, caseKey: string, results: seq<Json>): Entries {
    if results == [] then map[]
    else
      var front, last := results[..|results| - 1], results[|results| - 1];
      if wf(front).DoStep? then EntriesOf(wf, caseKey, front)[(caseKey, CheckpointKey(wf(front).name)) := last]
      else EntriesOf(wf, caseKey, front)
  }

  /** Results one uninterrupted run can have: each belongs to a step the workflow asks for,
      and a step asked for again has its first result. */
  ghost predicate Uninterrupted(wf: Workflow, caseKey: string, results: seq<Json>) {
    results == [] ||
    var front, last := results[..|results| - 1], results[|results| - 1];
    && Uninterrupted(wf, caseKey, front)
    && wf(front).DoStep? && last != Null
    && (Live(EntriesOf(wf, caseKey, front), caseKey, wf(front).name).Some? ==>
          Live(EntriesOf(wf, caseKey, front), caseKey, wf(front).name).value == last)
  }

  /** Every result of an uninterrupted run is in the store under its step's name, and nothing
      else is. */
  lemma {:induction false} ResultsAreStored(wf: Workflow, caseKey: string, results: seq<Json>, i: nat)
    requires Uninterrupted(wf, caseKey, results) && i < |results|
    ensures Uninterrupted(wf, caseKey, results[..i])
    ensures wf(results[..i]).DoStep?
    ensures Live(EntriesOf(wf, caseKey, results), caseKey, wf(results[..i]).name) == Some(results[i])
    decreases |results|
  {
    var front, last := results[..|results| - 1], results[|results| - 1];
    assert results[..|results| - 1] == front;
    if i < |front| {
      ResultsAreStored(wf, caseKey, front, i);
      assert front[..i] == results[..i];
      if CheckpointKey(wf(front).name) == CheckpointKey(wf(results[..i]).name) {
        CheckpointKeyInjective(wf(front).name, wf(results[..i]).name);
      }
    }
  }

  lemma {:induction false} EntriesAreLive(wf: Workflow, caseKey: string, results: seq<Json>)
    requires Uninterrupted(wf, caseKey, results)
    ensures forall p :: p in EntriesOf(wf, caseKey, results) ==> EntriesOf(wf, caseKey, results)[p] != Null
    decreases |results|
  {
    if results != [] {
      EntriesAreLive(wf, caseKey, results[..|results| - 1]);
    }
  }

  function Results(phase: Phase): seq<Json> { if phase.Down? then [] else phase.results }

  /** The longest results any of the ticks so far has come to. */
  ghost function Furthest(wf: Workflow, caseKey: string, events: seq<Event>): seq<Json>
    requires Possible(wf, caseKey, events)
    decreases |events|
  {
    if events == [] then []
    else
      var front := events[..|events| - 1];
      var before, best := After(wf, caseKey, front), Furthest(wf, caseKey, front);
      var now := if events[|events| - 1].SavedUnheard? then before.phase.results + [before.phase.value]
                 else Results(After(wf, caseKey, events).phase);
      if |now| > |best| then now else best
  }

  predicate NoNullResult(events: seq<Event>) {
    forall i :: 0 <= i < |events| && events[i].BodyReturned? ==> events[i].value != Null
  }

  /** The invariant: the store is that of an uninterrupted run which the current tick is
      following, and only at its end does a body run. */
  ghost predicate Follows(wf: Workflow, caseKey: string, s: State, best: seq<Json>) {
    && Coherent(s.cache, caseKey, s.entries)
    && Uninterrupted(wf, caseKey, best)
    && s.entries == EntriesOf(wf, caseKey, best)
    && Results(s.phase) <= best
    && (s.phase.InBody? || s.phase.Saving? ==>
          && s.phase.results == best && wf(best) == DoStep(s.phase.name)
          && Live(s.entries, caseKey, s.phase.name).None?)
    && (s.phase.Saving? ==> s.phase.value != Null)
    && (s.phase.Ended? ==> wf(s.phase.results) == Stop(s.phase.result))
  }

  /** A step that is taken from the store goes along the uninterrupted run, or extends it by
      a step it has had before. */
  lemma RestoredFollows(wf: Workflow, caseKey: string, s: State, best: seq<Json>)
    requires Follows(wf, caseKey, s, best) && Enabled(wf, caseKey, s, Restored)
    ensures var s' := Next(wf, caseKey, s, Restored);
            Follows(wf, caseKey, s', if |Results(s'.phase)| > |best| then Results(s'.phase) else best)
  {
    var results, name := s.phase.results, NextStep(wf, s);
    WarmKeepsCoherent(s.cache, s.entries, caseKey, name);
    assert Answer(wf, caseKey, s) == Live(s.entries, caseKey, name) by {
      CacheShowsIffNull(s.cache, s.entries, caseKey, name);
    }
    var now := results + [Answer(wf, caseKey, s).value];
    if |results| < |best| {
      ResultsAreStored(wf, caseKey, best, |results|);
      assert best[..|results|] == results;
      assert now <= best;
    } else {
      assert results == best;
      assert now[..|now| - 1] == best;
      assert EntriesOf(wf, caseKey, now) == s.entries;
    }
  }

  /** A body starts only at the end of the uninterrupted run. */
  lemma BeganFollows(wf: Workflow, caseKey: string, s: State, best: seq<Json>)
    requires Follows(wf, caseKey, s, best) && Enabled(wf, caseKey, s, Began)
    ensures Follows(wf, caseKey, Next(wf, caseKey, s, Began), best)
  {
    var results, name := s.phase.results, NextStep(wf, s);
    WarmKeepsCoherent(s.cache, s.entries, caseKey, name);
    CacheShowsIffNull(s.cache, s.entries, caseKey, name);
    if |results| < |best| {
      assert best[..|results|] == results;
      ResultsAreStored(wf, caseKey, best, |results|);
    }
    assert results == best;
  }

  lemma SavedFollows(wf: Workflow, caseKey: string, s: State, best: seq<Json>, e: Event)
    requires Follows(wf, caseKey, s, best) && s.phase.Saving? && (e.Saved? || e.SavedUnheard?)
    ensures Follows(wf, caseKey, Next(wf, caseKey, s, e), best + [s.phase.value])
  {
    var now := best + [s.phase.value];
    assert now[..|now| - 1] == best;
    EntriesAreLive(wf, caseKey, best);
    SaveKeepsCoherent(s.cache, s.entries, caseKey, s.phase.name, s.phase.value);
  }

  lemma {:induction false} AlwaysFollows(wf: Workflow, caseKey: string, events: seq<Event>)
    requires Possible(wf, caseKey, events) && NoNullResult(events)
    ensures Follows(wf, caseKey, After(wf, caseKey, events), Furthest(wf, caseKey, events))
    decreases |events|
  {
    if events != [] {
      var front, e := events[..|events| - 1], events[|events| - 1];
      assert forall i :: 0 <= i < |front| ==> front[i] == events[i];
      AlwaysFollows(wf, caseKey, front);
      var s, best := After(wf, caseKey, front), Furthest(wf, caseKey, front);
      match e
      case Restored => RestoredFollows(wf, caseKey, s, best);
      case Began => BeganFollows(wf, caseKey, s, best);
      case Saved => SavedFollows(wf, caseKey, s, best, e);
      case SavedUnheard => SavedFollows(wf, caseKey, s, best, e);
      case _ =>
    }
  }

  lemma {:induction false} ResultsAreFurthest(wf: Workflow, caseKey: string, events: seq<Event>)
    requires Possible(wf, caseKey, events) && NoNullResult(events)
    ensures Results(After(wf, caseKey, events).phase) <= Furthest(wf, caseKey, events)
  {
    AlwaysFollows(wf, caseKey, events);
  }

  lemma GrowsByOne(wf: Workflow, caseKey: string, s: State, e: Event)
    requires Enabled(wf, caseKey, s, e)
    ensures var now := Results(Next(wf, caseKey, s, e).phase);
            now == [] || now == Results(s.phase) || (now != [] && now[..|now| - 1] == Results(s.phase))
  {
  }

  /** The furthest results only grow: what a tick once had, every later one has. */
  lemma {:induction false} FurthestGrows(wf: Workflow, caseKey: string, events: seq<Event>, i: nat)
    requires Possible(wf, caseKey, events) && NoNullResult(events) && i <= |events|
    ensures Possible(wf, caseKey, events[..i])
    ensures Furthest(wf, caseKey, events[..i]) <= Furthest(wf, caseKey, events)
    decreases |events|
  {
    PrefixPossible(wf, caseKey, events, i);
    if i == |events| {
      assert events[..i] == events;
    } else {
      var front := events[..|events| - 1];
      assert front[..i] == events[..i];
      assert forall k :: 0 <= k < |front| ==> front[k] == events[k];
      FurthestGrows(wf, caseKey, front, i);
      ResultsAreFurthest(wf, caseKey, front);
      GrowsByOne(wf, caseKey, After(wf, caseKey, front), events[|events| - 1]);
    }
  }

  /** The step results of every moment of a history are a beginning of the same ones. */
  lemma TicksAgree(wf: Workflow, caseKey: string, events: seq<Event>, i: nat)
    requires Possible(wf, caseKey, events) && NoNullResult(events) && i <= |events|
    ensures Possible(wf, caseKey, events[..i])
    ensures Results(After(wf, caseKey, events[..i]).phase) <= Furthest(wf, caseKey, events)
  {
    FurthestGrows(wf, caseKey, events, i);
    assert NoNullResult(events[..i]) by {
      assert forall k :: 0 <= k < i ==> events[..i][k] == events[k];
    }
    AlwaysFollows(wf, caseKey, events[..i]);
  }

  /** Ticks that come to the end come to the same end. */
  lemma CompletionsAgree(wf: Workflow, caseKey: string, events: seq<Event>, i: nat, j: nat)
    requires Possible(wf, caseKey, events) && NoNullResult(events) && i <= |events| && j <= |events|
    requires Possible(wf, caseKey, events[..i]) && After(wf, caseKey, events[..i]).phase.Ended?
    requires Possible(wf, caseKey, events[..j]) && After(wf, caseKey, events[..j]).phase.Ended?
    ensures After(wf, caseKey, events[..i]).phase == After(wf, caseKey, events[..j]).phase
  {
    EndIsFurthest(wf, caseKey, events, i);
    EndIsFurthest(wf, caseKey, events, j);
  }

  lemma EndIsFurthest(wf: Workflow, caseKey: string, events: seq<Event>, i: nat)
    requires Possible(wf, caseKey, events) && NoNullResult(events) && i <= |events|
    requires Possible(wf, caseKey, events[..i]) && After(wf, caseKey, events[..i]).phase.Ended?
    ensures var best := Furthest(wf, caseKey, events);
            wf(best).Stop? && After(wf, caseKey, events[..i]).phase == Ended(best, wf(best).result)
  {
    TicksAgree(wf, caseKey, events, i);
    AlwaysFollows(wf, caseKey, events);
    assert NoNullResult(events[..i]) by {
      assert forall k :: 0 <= k < i ==> events[..i][k] == events[k];
    }
    AlwaysFollows(wf, caseKey, events[..i]);
    var best, results := Furthest(wf, caseKey, events), After(wf, caseKey, events[..i]).phase.results;
    if |results| < |best| {
      assert best[..|results|] == results;
      ResultsAreStored(wf, caseKey, best, |results|);
    }
    assert results == best;
  }

  /** One tick without crash or error that has the given results. */
  function CleanRun(wf: Workflow, caseKey: string, results: seq<Json>): seq<Event> {
    if results == [] then [Restart]
    else
      var front, last := results[..|results| - 1], results[|results| - 1];
      CleanRun(wf, caseKey, front) +
      if wf(front).DoStep? && Live(EntriesOf(wf, caseKey, front), caseKey, wf(front).name).Some? then [Restored]
      else [Began, BodyReturned(last), Saved]
  }

  predicate CrashFree(events: seq<Event>) {
    forall i :: 0 <= i < |events| ==>
      (events[i] == Restart && i == 0) || events[i] in {Restored, Began, Saved} || events[i].BodyReturned?
  }

  /** The machine's steps are those of the context: without a fault, one step leads to the
      entries and the result of `PlainStep`. */
  lemma StepIsPlain(wf: Workflow, caseKey: string, events: seq<Event>, value: Json)
    requires Possible(wf, caseKey, events) && AtStep(wf, After(wf, caseKey, events))
    ensures var s := After(wf, caseKey, events);
            var plain := PlainStep(s.entries, caseKey, NextStep(wf, s), Ok(value));
            var more := events + if plain.2 then [Began, BodyReturned(value), Saved] else [Restored];
            && Possible(wf, caseKey, more)
            && After(wf, caseKey, more).entries == plain.0
            && plain.1.Ok? && After(wf, caseKey, more).phase == Ready(s.phase.results + [plain.1.value])
  {
    var s := After(wf, caseKey, events);
    BodiesRunUncheckpointed(wf, caseKey, events);
    CacheShowsIffNull(s.cache, s.entries, caseKey, NextStep(wf, s));
    if Live(s.entries, caseKey, NextStep(wf, s)).Some? {
      Extend(wf, caseKey, events, Restored);
    } else {
      Extend(wf, caseKey, events, Began);
      Extend(wf, caseKey, events + [Began], BodyReturned(value));
      Extend(wf, caseKey, events + [Began] + [BodyReturned(value)], Saved);
      assert events + [Began] + [BodyReturned(value)] + [Saved] == events + [Began, BodyReturned(value), Saved];
    }
  }

  predicate Reaches(wf: Workflow, caseKey: string, s: State, results: seq<Json>) {
    s.entries == EntriesOf(wf, caseKey, results) && s.phase == Ready(results)
  }

  /** One more step of a clean run. */
  lemma CleanStep(wf: Workflow, caseKey: string, clean: seq<Event>, front: seq<Json>, last: Json)
    requires Uninterrupted(wf, caseKey, front + [last])
    requires Possible(wf, caseKey, clean) && Reaches(wf, caseKey, After(wf, caseKey, clean), front)
    ensures var plain := PlainStep(EntriesOf(wf, caseKey, front), caseKey, wf(front).name, Ok(last));
            var more := clean + if plain.2 then [Began, BodyReturned(last), Saved] else [Restored];
            Possible(wf, caseKey, more) && Reaches(wf, caseKey, After(wf, caseKey, more), front + [last])
  {
    NextEntries(wf, caseKey, front, last);
    hide PlainStep, EntriesOf, Uninterrupted, Possible, After;
    StepIsPlain(wf, caseKey, clean, last);
  }

  lemma NextEntries(wf: Workflow, caseKey: string, front: seq<Json>, last: Json)
    requires Uninterrupted(wf, caseKey, front + [last])
    ensures wf(front).DoStep?
    ensures var plain := PlainStep(EntriesOf(wf, caseKey, front), caseKey, wf(front).name, Ok(last));
            plain.0 == EntriesOf(wf, caseKey, front + [last]) && plain.1 == Ok(last)
  {
    assert (front + [last])[..|front + [last]| - 1] == front;
    var before := EntriesOf(wf, caseKey, front);
    if Live(before, caseKey, wf(front).name).Some? {
      assert before[(caseKey, CheckpointKey(wf(front).name)) := last] == before;
    }
  }

  lemma {:induction false} CleanRunReaches(wf: Workflow, caseKey: string, results: seq<Json>)
    requires Uninterrupted(wf, caseKey, results)
    ensures Possible(wf, caseKey, CleanRun(wf, caseKey, results))
    ensures Reaches(wf, caseKey, After(wf, caseKey, CleanRun(wf, caseKey, results)), results)
    decreases |results|
  {
    if results == [] {
      Extend(wf, caseKey, [], Restart);
      assert [] + [Restart] == [Restart];
    } else {
      var front, last := results[..|results| - 1], results[|results| - 1];
      assert front + [last] == results;
      CleanRunReaches(wf, caseKey, front);
      CleanStep(wf, caseKey, CleanRun(wf, caseKey, front), front, last);
    }
  }

  lemma {:induction false} CleanRunIsCrashFree(wf: Workflow, caseKey: string, results: seq<Json>)
    ensures CleanRun(wf, caseKey, results) != [] && CrashFree(CleanRun(wf, caseKey, results))
    decreases |results|
  {
    if results != [] {
      CleanRunIsCrashFree(wf, caseKey, results[..|results| - 1]);
    }
  }

  /** Crash recovery refines one uninterrupted run: for every history without a null result
      there is a history without crash or error, in which each body runs once, that leaves the
      same store; if the workflow has ended, it ends there with the same results too. */
  lemma {:induction false} CrashesAreInvisible(wf: Workflow, caseKey: string, events: seq<Event>)
    requires Possible(wf, caseKey, events) && NoNullResult(events)
    ensures var clean := CleanRun(wf, caseKey, Furthest(wf, caseKey, events));
            && Possible(wf, caseKey, clean) && CrashFree(clean)
            && After(wf, caseKey, clean).entries == After(wf, caseKey, events).entries
            && Results(After(wf, caseKey, events).phase) <= After(wf, caseKey, clean).phase.results
            && (After(wf, caseKey, events).phase.Ended? ==>
                  && Possible(wf, caseKey, clean + [Stopped])
                  && After(wf, caseKey, clean + [Stopped]).phase == After(wf, caseKey, events).phase)
  {
    AlwaysFollows(wf, caseKey, events);
    var best := Furthest(wf, caseKey, events);
    CleanRunReaches(wf, caseKey, best);
    CleanRunIsCrashFree(wf, caseKey, best);
    if After(wf, caseKey, events).phase.Ended? {
      assert events[..|events|] == events;
      EndIsFurthest(wf, caseKey, events, |events|);
      Extend(wf, caseKey, CleanRun(wf, caseKey, best), Stopped);
    }
  }
}
