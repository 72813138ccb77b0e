/** The case store under spawning, finishing and crashes: what holds between any two store
    operations, whatever contexts run beside each other
    (crates/workflow_engine/src/context.rs:376-411 and 515-571). The scheduler's dictionary
    keeps its own copy of a case; a context works on a clone of that copy. */
module CaseLifecycle {
  import opened Common
  import opened Cases
  import opened Scheduler
  import opened Stores

  /** Where a context is between two store operations. */
  datatype Doing = Free | Linking | Deleting

  /** `finished` says that this context has stored its case as finished. */
  datatype Ctx = Ctx(current: Case, doing: Doing, finished: bool)

  /** `deleted` collects the cases whose state entries have been deleted. */
  datatype State = State(
    stored: map<string, Case>,
    deleted: set<string>,
    dict: map<string, Case>,
    open: map<string, Ctx>)

  /** An operation of the store that fails changes nothing in the store; only what its failure
      changes elsewhere is an event. `Reboot` is a crash at any moment. */
  datatype Event =
    | Submit(submitted: Case, store: bool)
    | Adopt(key: string)
    | Reboot(loaded: set<string>)
    | Wake(key: string)
    | Open(key: string)
    | SpawnChild(key: string, childKey: string, workflowCode: string, resourceData: Option<Json>)
    | LinkChild(key: string, works: bool)
    | StoreFinished(key: string, finishedType: string, finishedDescription: string, works: bool)
    | DeleteState(key: string, works: bool)
    | Close(key: string, outcome: RunOutcome)

  /** What a tick does with its own copy of a case whose run returns. */
  function Settle(c: Case, outcome: RunOutcome): Case {
    match outcome
    case Continue => c.McRun()
    case WaitFor(_) => c.McWait()
    case Finish(finishedType, finishedDescription) => c.McFinish(finishedType, finishedDescription)
    case Fail(_) => c
    case Panic => c
  }

  /** That is what the tick model does: with a running case after its execution, and with a
      waiting one after its probe. */
  lemma SettleIsTick(input: TickInput, e: Entry, outcome: RunOutcome, locals: Locals)
    ensures e.current.state == Running && e.current.IsActive() && input.registered(e.current.workflowCode)
            && input.execute(e.current, e.locals) == (outcome, locals) ==>
              e.AfterRun(input).current == Settle(e.current, outcome)
    ensures e.current.state == Waiting && e.current.IsActive() && input.registered(e.current.workflowCode)
            && input.probe(e.current, e.locals) == (outcome, locals) ==>
              e.AfterProbe(input).current == Settle(e.current, outcome)
  {
  }

  predicate IsDoing(s: State, k: string, doing: Doing) { k in s.open && s.open[k].doing == doing }

  /** A submitted case and a spawned child have keys that are used nowhere. */
  predicate Unused(s: State, k: string) { k !in s.stored && k !in s.dict && k !in s.open }

  predicate Enabled(s: State, e: Event) {
    match e
    case Submit(c, _) => Unused(s, c.caseKey) && c.childKeys == [] && c.state == Running
    case Adopt(k) => k in s.stored && k !in s.open
    case Reboot(_) => true
    case Wake(k) => k in s.dict && k !in s.open && s.dict[k].state == Waiting
    case Open(k) => k in s.dict && k !in s.open && s.dict[k].IsActive()
    case SpawnChild(k, childKey, _, _) => IsDoing(s, k, Free) && Unused(s, childKey)
    case LinkChild(k, _) => IsDoing(s, k, Linking)
    case StoreFinished(k, _, _, _) => IsDoing(s, k, Free)
    case DeleteState(k, _) => IsDoing(s, k, Deleting)
    case Close(k, _) => k in s.open
  }

  function Next(s: State, e: Event): State
    requires Enabled(s, e)
  {
    match e
    case Submit(c, store) =>
      s.(dict := s.dict[c.caseKey := c], stored := if store then s.stored[c.caseKey := c] else s.stored)
    case Adopt(k) => s.(dict := s.dict[k := s.stored[k]])
    case Reboot(loaded) => s.(dict := map k | k in s.stored && k in loaded :: s.stored[k], open := map[])
    case Wake(k) => s.(dict := s.dict[k := s.dict[k].McRun()])
    case Open(k) => s.(open := s.open[k := Ctx(s.dict[k], Free, false)])
    case SpawnChild(k, childKey, workflowCode, resourceData) =>
      var ctx := s.open[k];
      var child := NewCase(childKey, ctx.current.sessionId, workflowCode)
                   .(parentKey := Some(ctx.current.caseKey), resourceData := resourceData);
      var parent := ctx.current.(childKeys := ctx.current.childKeys + [childKey]);
      s.(stored := s.stored[childKey := child], open := s.open[k := ctx.(current := parent, doing := Linking)])
    case LinkChild(k, works) =>
      var ctx := s.open[k];
      s.(stored := if works then s.stored[ctx.current.caseKey := ctx.current] else s.stored,
         open := s.open[k := ctx.(doing := Free)])
    case StoreFinished(k, finishedType, finishedDescription, works) =>
      var ctx := s.open[k];
      var done := ctx.current.McFinish(finishedType, finishedDescription);
      if works then
        s.(stored := s.stored[done.caseKey := done], open := s.open[k := Ctx(done, Deleting, true)])
      else s.(open := s.open[k := ctx.(current := done)])
    case DeleteState(k, works) =>
      s.(deleted := if works then s.deleted + {k} else s.deleted, open := s.open[k := s.open[k].(doing := Free)])
    case Close(k, outcome) =>
      if k in s.dict then s.(dict := s.dict[k := Settle(s.dict[k], outcome)], open := s.open - {k})
      else s.(open := s.open - {k})
  }

  /** The store after an operation of a context is as the context's own methods leave it: a
      child in its parent's session, running and naming its parent; then the parent naming the
      child last; a finished case with what it finished with, its state deleted only later. */
  lemma OperationsStore(s: State, e: Event)
    requires Enabled(s, e)
    ensures e.SpawnChild? ==>
              var parent := s.open[e.key].current;
              && Next(s, e).stored == s.stored[e.childKey := Case(e.childKey, parent.sessionId, e.workflowCode, Running,
                                                                  None, None, Some(parent.caseKey), [], "normal", e.resourceData)]
              && Next(s, e).open[e.key].current == parent.(childKeys := parent.childKeys + [e.childKey])
    ensures e.LinkChild? ==>
              var parent := s.open[e.key].current;
              Next(s, e).stored == if e.works then s.stored[parent.caseKey := parent] else s.stored
    ensures e.StoreFinished? ==>
              var c := s.open[e.key].current;
              var end := c.(state := Finished, finishedType := Some(e.finishedType),
                            finishedDescription := Some(e.finishedDescription));
              && Next(s, e).stored == (if e.works then s.stored[c.caseKey := end] else s.stored)
              && Next(s, e).deleted == s.deleted && Next(s, e).open[e.key].current == end
    ensures e.DeleteState? ==>
              Next(s, e).deleted == (if e.works then s.deleted + {e.key} else s.deleted) && Next(s, e).stored == s.stored
    ensures e.Reboot? ==> Next(s, e).stored == s.stored && Next(s, e).deleted == s.deleted && Next(s, e).open == map[]
  {
  }

  /** The dictionary after an operation: adopting a case and restarting the process take the
      stored copies, waking sets the state alone, only the close of a run settles its case, and
      the contexts' operations leave the dictionary alone. */
  lemma OperationsDictionary(s: State, e: Event, k: string)
    requires Enabled(s, e)
    ensures e.Reboot? ==> Find(Next(s, e).dict, k) == if k in e.loaded then Find(s.stored, k) else None
    ensures e.Submit? ==>
              && Find(Next(s, e).dict, k) == (if k == e.submitted.caseKey then Some(e.submitted) else Find(s.dict, k))
              && Find(Next(s, e).stored, k) == if k == e.submitted.caseKey && e.store then Some(e.submitted) else Find(s.stored, k)
    ensures e.Adopt? ==> Find(Next(s, e).dict, k) == if k == e.key then Find(s.stored, k) else Find(s.dict, k)
    ensures e.Wake? ==>
              Find(Next(s, e).dict, k) == if k == e.key then Some(s.dict[k].(state := Running)) else Find(s.dict, k)
    ensures e.Close? && k != e.key ==> Find(Next(s, e).dict, k) == Find(s.dict, k)
    ensures e.Open? || e.SpawnChild? || e.LinkChild? || e.StoreFinished? || e.DeleteState? ==> Next(s, e).dict == s.dict
  {
  }

  ghost predicate Possible(events: seq<Event>)
    decreases |events|, 0
  {
    events == [] ||
    (Possible(events[..|events| - 1]) && Enabled(After(events[..|events| - 1]), events[|events| - 1]))
  }

  ghost function After(events: seq<Event>): State
    requires Possible(events)
    decreases |events|, 1
  {
    if events == [] then State(map[], {}, map[], map[])
    else Next(After(events[..|events| - 1]), events[|events| - 1])
  }

  // ---- Parents and children ----

  /** Every child a copy of a case names is stored and names the case as its parent. */
  ghost predicate ChildrenStored(s: State, c: Case) {
    forall i :: 0 <= i < |c.childKeys| ==>
      c.childKeys[i] in s.stored && s.stored[c.childKeys[i]].parentKey == Some(c.caseKey)
  }

  /** A copy of case `k`, as good as the stored one. */
  ghost predicate GoodCopy(s: State, k: string, c: Case) {
    && c.caseKey == k && ChildrenStored(s, c)
    && (k in s.stored ==> s.stored[k].parentKey == c.parentKey)
  }

  ghost predicate FamilyOf(s: State, k: string) {
    && (k in s.stored ==> GoodCopy(s, k, s.stored[k]))
    && (k in s.dict ==> GoodCopy(s, k, s.dict[k]))
    && (k in s.open ==>
          k in s.dict && GoodCopy(s, k, s.open[k].current) && s.open[k].current.parentKey == s.dict[k].parentKey)
  }

  ghost predicate Families(s: State) { forall k :: FamilyOf(s, k) }

  /** No step drops a stored case or changes its parent. */
  lemma ParentsStay(s: State, e: Event)
    requires Families(s) && Enabled(s, e)
    ensures forall c :: c in s.stored ==> c in Next(s, e).stored && Next(s, e).stored[c].parentKey == s.stored[c].parentKey
  {
    if e.LinkChild? || e.StoreFinished? {
      assert FamilyOf(s, e.key);
    }
  }

  /** What a step stores for a case has the parent of every copy of it. */
  lemma StepKeepsFamilyOf(s: State, e: Event, k: string)
    requires Families(s) && Enabled(s, e)
    ensures FamilyOf(Next(s, e), k)
  {
    StoredStaysGood(s, e, k);
    DictStaysGood(s, e, k);
    OpenStaysGood(s, e, k);
  }

  lemma StoredStaysGood(s: State, e: Event, k: string)
    requires Families(s) && Enabled(s, e)
    ensures k in Next(s, e).stored ==> GoodCopy(Next(s, e), k, Next(s, e).stored[k])
  {
    ParentsStay(s, e);
    assert FamilyOf(s, k);
    if e.LinkChild? || e.StoreFinished? {
      assert FamilyOf(s, e.key);
    }
  }

  lemma DictStaysGood(s: State, e: Event, k: string)
    requires Families(s) && Enabled(s, e)
    ensures k in Next(s, e).dict ==> GoodCopy(Next(s, e), k, Next(s, e).dict[k])
  {
    ParentsStay(s, e);
    assert FamilyOf(s, k);
    if e.LinkChild? || e.StoreFinished? {
      assert FamilyOf(s, e.key);
    }
  }

  lemma OpenStaysGood(s: State, e: Event, k: string)
    requires Families(s) && Enabled(s, e)
    ensures var s' := Next(s, e);
            k in s'.open ==>
              k in s'.dict && GoodCopy(s', k, s'.open[k].current) && s'.open[k].current.parentKey == s'.dict[k].parentKey
  {
    ParentsStay(s, e);
    assert FamilyOf(s, k);
    if e.LinkChild? || e.StoreFinished? {
      assert FamilyOf(s, e.key);
    } else if e.SpawnChild? && e.key == k {
      SpawnedIsGood(s, e, k);
    }
  }

  lemma SpawnedIsGood(s: State, e: Event, k: string)
    requires Families(s) && Enabled(s, e) && e.SpawnChild? && e.key == k
    ensures GoodCopy(Next(s, e), k, Next(s, e).open[k].current)
  {
    var s' := Next(s, e);
    ParentsStay(s, e);
    assert FamilyOf(s, k);
    var before, after := s.open[k].current, s'.open[k].current;
    forall i | 0 <= i < |after.childKeys|
      ensures after.childKeys[i] in s'.stored && s'.stored[after.childKeys[i]].parentKey == Some(k)
    {
      if i < |before.childKeys| {
        assert after.childKeys[i] == before.childKeys[i];
      }
    }
  }

  lemma StepKeepsFamilies(s: State, e: Event)
    requires Families(s) && Enabled(s, e)
    ensures Families(Next(s, e))
  {
    forall k ensures FamilyOf(Next(s, e), k) {
      StepKeepsFamilyOf(s, e, k);
    }
  }

  /** At every moment of every history, crashes included, every child key in a stored case
      names a stored child whose parent key is that case. */
  lemma {:induction false} ChildrenAlwaysStored(events: seq<Event>)
    requires Possible(events)
    ensures Families(After(events))
    decreases |events|
  {
    if events != [] {
      ChildrenAlwaysStored(events[..|events| - 1]);
      StepKeepsFamilies(After(events[..|events| - 1]), events[|events| - 1]);
    }
  }

  // ---- Finished cases ----

  predicate GoneOnlyIfFinished(s: State, k: string) {
    k in s.deleted ==> k in s.stored && s.stored[k].state == Finished
  }

  /** The promise of `finish`: state is gone only of cases that are stored as finished. */
  ghost predicate DeletedAreFinished(s: State) { forall k :: GoneOnlyIfFinished(s, k) }

  /** A run whose `finish` has deleted the state of its case returns that it is finished. */
  predicate Disciplined(s: State, e: Event) {
    e.Close? && e.key in s.deleted ==> e.outcome.Finish?
  }

  ghost predicate DisciplinedRun(events: seq<Event>)
    requires Possible(events)
  {
    events == [] ||
    (DisciplinedRun(events[..|events| - 1]) && Disciplined(After(events[..|events| - 1]), events[|events| - 1]))
  }

  /** The invariant: what is deleted is finished in every copy that can still be stored. */
  ghost predicate SettledAt(s: State, k: string) {
    && GoneOnlyIfFinished(s, k)
    && (k in s.dict && k in s.deleted && k !in s.open ==> s.dict[k].state == Finished)
    && (k in s.open ==>
          && k in s.dict && s.dict[k].IsActive()
          && (if s.open[k].finished
              then k in s.stored && s.stored[k].state == Finished && s.open[k].current.state == Finished
              else k !in s.deleted && s.open[k].doing != Deleting))
  }

  ghost predicate Settled(s: State) { forall k :: SettledAt(s, k) }

  lemma StepKeepsSettledAt(s: State, e: Event, k: string)
    requires Families(s) && Settled(s) && Enabled(s, e) && Disciplined(s, e)
    ensures SettledAt(Next(s, e), k)
  {
    assert SettledAt(s, k);
    if e.LinkChild? || e.StoreFinished? || e.SpawnChild? {
      assert FamilyOf(s, e.key) && SettledAt(s, e.key);
    }
  }

  lemma StepKeepsSettled(s: State, e: Event)
    requires Families(s) && Settled(s) && Enabled(s, e) && Disciplined(s, e)
    ensures Settled(Next(s, e))
  {
    forall k ensures SettledAt(Next(s, e), k) {
      StepKeepsSettledAt(s, e, k);
    }
  }

  /** At every moment of every history, crashes included, no case has lost its state without
      being stored as finished. */
  lemma {:induction false} DeletedAlwaysFinished(events: seq<Event>)
    requires Possible(events) && DisciplinedRun(events)
    ensures Settled(After(events)) && DeletedAreFinished(After(events))
    decreases |events|
  {
    if events != [] {
      var front := events[..|events| - 1];
      DeletedAlwaysFinished(front);
      ChildrenAlwaysStored(front);
      StepKeepsSettled(After(front), events[|events| - 1]);
    }
    forall k ensures GoneOnlyIfFinished(After(events), k) {
      assert SettledAt(After(events), k);
    }
  }

  /** The discipline is exactly what the promise needs. Of a run that has finished its case
      and deleted its state, the scheduler's copy can be run again if and only if the run
      returns anything else than that it is finished; that second run stores the case as
      running as soon as it spawns a child. */
  lemma RunsOnIffUndisciplined(s: State, k: string, outcome: RunOutcome, childKey: string)
    requires Families(s) && Settled(s) && k in s.open && k in s.deleted && Unused(s, childKey)
    ensures var closed := Next(s, Close(k, outcome));
            && (Enabled(closed, Open(k)) <==> !outcome.Finish?)
            && (!outcome.Finish? ==>
                  var again := Next(closed, Open(k));
                  && Enabled(again, SpawnChild(k, childKey, "", None))
                  && var spawned := Next(again, SpawnChild(k, childKey, "", None));
                  && Enabled(spawned, LinkChild(k, true))
                  && !DeletedAreFinished(Next(spawned, LinkChild(k, true))))
  {
    assert FamilyOf(s, k) && SettledAt(s, k);
    if !outcome.Finish? {
      var spawned := Next(Next(Next(s, Close(k, outcome)), Open(k)), SpawnChild(k, childKey, "", None));
      assert !GoneOnlyIfFinished(Next(spawned, LinkChild(k, true)), k);
    }
  }

  lemma Extend(events: seq<Event>, e: Event)
    requires Possible(events) && Enabled(After(events), e)
    ensures Possible(events + [e]) && After(events + [e]) == Next(After(events), e)
    ensures DisciplinedRun(events) && Disciplined(After(events), e) ==> DisciplinedRun(events + [e])
  {
    assert (events + [e])[..|events + [e]| - 1] == events;
  }

  lemma Beginning()
    ensures Possible([]) && DisciplinedRun([]) && After([]) == State(map[], {}, map[], map[])
  {
  }

  /** A history that comes to such a run: its case is open, finished in the store and
      without its state. Returning Continue from there breaks the promise. */
  lemma ContinueAfterFinish() returns (events: seq<Event>)
    ensures Possible(events) && Families(After(events)) && Settled(After(events))
    ensures "k" in After(events).open && "k" in After(events).deleted && Unused(After(events), "child")
    ensures var closed := Next(After(events), Close("k", Continue));
            && Enabled(closed, Open("k"))
            && var again := Next(closed, Open("k"));
            && Enabled(again, SpawnChild("k", "child", "", None))
            && var spawned := Next(again, SpawnChild("k", "child", "", None));
            && Enabled(spawned, LinkChild("k", true))
            && !DeletedAreFinished(Next(spawned, LinkChild("k", true)))
  {
    hide DisciplinedRun, Possible, After, Families, FamilyOf, GoodCopy, Settled, SettledAt, DeletedAreFinished;
    var submit, start := Submit(NewCase("k", "s", "w"), true), Open("k");
    var store, delete := StoreFinished("k", "done", "", true), DeleteState("k", true);
    Beginning();
    Extend([], submit);
    Extend([] + [submit], start);
    Extend([] + [submit] + [start], store);
    Extend([] + [submit] + [start] + [store], delete);
    events := [] + [submit] + [start] + [store] + [delete];
    ChildrenAlwaysStored(events);
    DeletedAlwaysFinished(events);
    RunsOnIffUndisciplined(After(events), "k", Continue, "child");
  }
}
