/** A workflow's context: checkpoints and state variables behind a per-tick cache
    (crates/workflow_engine/src/context.rs). */
module Context {
  import opened Common
  import opened Cases
  import opened Keys
  import opened Stores

  type Cache = map<string, Json>

  datatype StepRecord = StepRecord(
    caseKey: string,
    workflowCode: string,
    stepName: string,
    input: Option<Json>,
    output: Option<Json>,
    cached: bool,
    error: Option<string>)

  datatype SpawnConfig = SpawnConfig(workflowCode: string, caseKey: Option<string>, resourceData: Option<Json>)

  datatype ChildHandle = ChildHandle(caseKey: string, workflowCode: string)

  datatype ChildStatus =
    | ChildRunning
    | ChildWaiting
    | ChildFinished(finishedType: string, finishedDescription: string, resourceData: Option<Json>)
    | ChildFailed(caseKey: string)

  datatype ChildrenResult = Pending(count: nat) | AllDone(statuses: seq<(ChildHandle, ChildStatus)>)

  // ---- The store alone: what a context without a cache would do ----

  /** The checkpoint of a step, if it has one: null marks a step that has none. */
  function Live(entries: Entries, caseKey: string, name: string): Option<Json> {
    var k := (caseKey, CheckpointKey(name));
    if k in entries && entries[k] != Null then Some(entries[k]) else None
  }

  /** A step without a cache on a store that does not fail: the new entries, the answer,
      and whether the body ran. */
  function PlainStep(entries: Entries, caseKey: string, name: string, body: Result<Json, string>)
    : (Entries, Result<Json, Failure>, bool)
  {
    match Live(entries, caseKey, name)
    case Some(v) => (entries, Ok(v), false)
    case None =>
      match body
      case Ok(v) => (entries[(caseKey, CheckpointKey(name)) := v], Ok(v), true)
      case Err(message) => (entries, Err(StepFailed(message)), true)
  }

  /** A stored value as the type its reader asks for: `decodes` says whether it decodes. */
  function Typed(value: Json, decodes: Json -> bool): Result<Json, Failure> {
    if decodes(value) then Ok(value) else Err(Unreadable(value))
  }

  /** The answer of a step to a caller of a type: a restored value may not decode. */
  function TypedAnswer(plain: (Entries, Result<Json, Failure>, bool), decodes: Json -> bool): Result<Json, Failure> {
    if plain.1.Ok? && !plain.2 then Typed(plain.1.value, decodes) else plain.1
  }

  /** What a step does, told by the entry under its key. It answers a stored value other than
      null, if that decodes, and then neither runs nor writes. Without such a value it runs:
      a result is answered and becomes the entry, and no other entry changes; an error is
      answered with its message, and nothing changes. */
  lemma StepAnswersIff(entries: Entries, caseKey: string, name: string, body: Result<Json, string>, decodes: Json -> bool)
    ensures var plain := PlainStep(entries, caseKey, name, body);
            var answer := TypedAnswer(plain, decodes);
            var k := (caseKey, "wf_" + name);
            && (plain.2 <==> k !in entries || entries[k] == Null)
            && (!plain.2 ==> plain.0 == entries
                             && answer == if decodes(entries[k]) then Ok(entries[k]) else Err(Unreadable(entries[k])))
            && (plain.2 && body.Ok? ==> plain.0 == entries[k := body.value] && answer == Ok(body.value))
            && (plain.2 && body.Err? ==> plain.0 == entries && answer == Err(StepFailed(body.error)))
  {
  }

  /** The entries after null has been saved over each named checkpoint. */
  function Nulled(entries: Entries, caseKey: string, names: seq<string>): Entries {
    if names == [] then entries
    else Nulled(entries, caseKey, names[..|names| - 1])[(caseKey, CheckpointKey(names[|names| - 1])) := Null]
  }

  /** Clearing takes exactly the named checkpoints and leaves every other entry, other
      cases' included. */
  lemma {:induction false} NulledTakesExactly(entries: Entries, caseKey: string, names: seq<string>, owner: string, name: string)
    ensures Live(Nulled(entries, caseKey, names), owner, name)
            == if owner == caseKey && name in names then None else Live(entries, owner, name)
    ensures forall p :: p in entries ==> p in Nulled(entries, caseKey, names)
    decreases |names|
  {
    if names != [] {
      var front, last := names[..|names| - 1], names[|names| - 1];
      NulledTakesExactly(entries, caseKey, front, owner, name);
      if CheckpointKey(last) == CheckpointKey(name) {
        CheckpointKeyInjective(last, name);
      }
      assert name in names <==> name in front || name == last by {
        assert names == front + [last];
      }
    }
  }

  // ---- The cache over the store ----

  /** Every case-scoped value in the cache is the stored one. Checkpoint keys cover the keys
      of state variables. */
  ghost predicate Coherent(cache: Cache, caseKey: string, entries: Entries) {
    forall name :: CacheKey(caseKey, CheckpointKey(name)) in cache ==>
      Find(entries, (caseKey, CheckpointKey(name))) == Some(cache[CacheKey(caseKey, CheckpointKey(name))])
  }

  ghost predicate SessionCoherent(cache: Cache, sessionId: string, entries: Entries) {
    forall name :: SessionCacheKey(sessionId, SessionStateKey(name)) in cache ==>
      Find(entries, (sessionId, SessionStateKey(name))) == Some(cache[SessionCacheKey(sessionId, SessionStateKey(name))])
  }

  /** The answer of `get_checkpoint` when its read does not fail. */
  function Peek(cache: Cache, entries: Entries, caseKey: string, name: string): Option<Json> {
    var k := CacheKey(caseKey, CheckpointKey(name));
    if k in cache then Some(cache[k]) else Live(entries, caseKey, name)
  }

  /** The cache once that answer has been given. */
  function Warm(cache: Cache, entries: Entries, caseKey: string, name: string): Cache {
    var k := CacheKey(caseKey, CheckpointKey(name));
    var live := Live(entries, caseKey, name);
    if k !in cache && live.Some? then cache[k := live.value] else cache
  }

  /** `get_checkpoint` shows the cache in one case only: it answers a cached null where a
      fresh context answers "none". A step that ignores nulls never sees the cache. */
  lemma CacheShowsIffNull(cache: Cache, entries: Entries, caseKey: string, name: string)
    requires Coherent(cache, caseKey, entries)
    ensures Peek(cache, entries, caseKey, name) != Peek(map[], entries, caseKey, name)
            <==> Peek(cache, entries, caseKey, name) == Some(Null)
    ensures (Peek(cache, entries, caseKey, name).Some? && Peek(cache, entries, caseKey, name).value != Null)
            <==> Live(entries, caseKey, name).Some?
  {
    assert CacheKey(caseKey, CheckpointKey(name)) in cache ==>
      Find(entries, (caseKey, CheckpointKey(name))) == Some(cache[CacheKey(caseKey, CheckpointKey(name))]);
  }

  lemma WarmKeepsCoherent(cache: Cache, entries: Entries, caseKey: string, name: string)
    requires Coherent(cache, caseKey, entries)
    ensures Coherent(Warm(cache, entries, caseKey, name), caseKey, entries)
  {
    forall other | CacheKey(caseKey, CheckpointKey(other)) == CacheKey(caseKey, CheckpointKey(name))
      ensures other == name
    {
      CacheKeyInjective(caseKey, CheckpointKey(other), CheckpointKey(name));
      CheckpointKeyInjective(other, name);
    }
  }

  /** Caching what has just been saved keeps the cache coherent. */
  lemma SaveKeepsCoherent(cache: Cache, entries: Entries, caseKey: string, name: string, value: Json)
    requires Coherent(cache, caseKey, entries)
    ensures Coherent(cache[CacheKey(caseKey, CheckpointKey(name)) := value], caseKey,
                     entries[(caseKey, CheckpointKey(name)) := value])
  {
    forall other | CacheKey(caseKey, CheckpointKey(other)) == CacheKey(caseKey, CheckpointKey(name))
      ensures other == name
    {
      CacheKeyInjective(caseKey, CheckpointKey(other), CheckpointKey(name));
      CheckpointKeyInjective(other, name);
    }
    forall other | CheckpointKey(other) == CheckpointKey(name) ensures other == name {
      CheckpointKeyInjective(other, name);
    }
  }

  /** A cleared step is taken out of the cache before null is stored, so the cache is
      coherent before and after the save, and when the save fails. */
  lemma ClearKeepsCoherent(cache: Cache, entries: Entries, caseKey: string, name: string)
    requires Coherent(cache, caseKey, entries)
    ensures Coherent(cache - {CacheKey(caseKey, CheckpointKey(name))}, caseKey, entries)
    ensures Coherent(cache - {CacheKey(caseKey, CheckpointKey(name))}, caseKey, entries[(caseKey, CheckpointKey(name)) := Null])
  {
    forall other | CheckpointKey(other) == CheckpointKey(name) ensures other == name {
      CheckpointKeyInjective(other, name);
    }
  }

  /** Whatever other cases do to the shared store, a context's cache stays coherent. */
  lemma OtherCasesDoNotDisturb(cache: Cache, caseKey: string, before: Entries, after: Entries)
    requires Coherent(cache, caseKey, before)
    requires forall step :: Find(after, (caseKey, step)) == Find(before, (caseKey, step))
    ensures Coherent(cache, caseKey, after)
  {
  }

  function WithSession(cache: Cache, sessionId: string, name: string, value: Json): Cache {
    cache[SessionCacheKey(sessionId, SessionStateKey(name)) := value]
  }

  /** Caching a session variable never disturbs the case's part of the cache. */
  ghost predicate SessionWritesHarmless(caseKey: string, sessionId: string) {
    forall cache: Cache, entries: Entries, name: string, value: Json :: Coherent(cache, caseKey, entries) ==>
      Coherent(WithSession(cache, sessionId, name, value), caseKey, entries)
  }

  /** The two scopes share one map. They are independent exactly if neither fixed beginning
      of their cache keys is a prefix of the other. */
  lemma SessionWritesHarmlessIff(caseKey: string, sessionId: string)
    ensures SessionWritesHarmless(caseKey, sessionId) <==> !Overlap(caseKey, sessionId)
  {
    CacheCollidesIff(caseKey, sessionId);
    if step, variable :| CacheKey(caseKey, CheckpointKey(step)) == SessionCacheKey(sessionId, SessionStateKey(variable)) {
      var cache: Cache, entries: Entries := map[], map[];
      assert Coherent(cache, caseKey, entries);
      var spoiled := WithSession(cache, sessionId, variable, Null);
      assert CacheKey(caseKey, CheckpointKey(step)) in spoiled && !Coherent(spoiled, caseKey, entries);
    }
  }

  function WithCheckpoint(cache: Cache, caseKey: string, name: string, value: Json): Cache {
    cache[CacheKey(caseKey, CheckpointKey(name)) := value]
  }

  /** Caching checkpoints and state variables never disturbs the session's part of the cache. */
  ghost predicate CaseWritesHarmless(caseKey: string, sessionId: string) {
    forall cache: Cache, entries: Entries, name: string, value: Json :: SessionCoherent(cache, sessionId, entries) ==>
      SessionCoherent(WithCheckpoint(cache, caseKey, name, value), sessionId, entries)
  }

  /** The same condition the other way round. */
  lemma CaseWritesHarmlessIff(caseKey: string, sessionId: string)
    ensures CaseWritesHarmless(caseKey, sessionId) <==> !Overlap(caseKey, sessionId)
  {
    CacheCollidesIff(caseKey, sessionId);
    if step, variable :| CacheKey(caseKey, CheckpointKey(step)) == SessionCacheKey(sessionId, SessionStateKey(variable)) {
      var cache: Cache, entries: Entries := map[], map[];
      assert SessionCoherent(cache, sessionId, entries);
      var spoiled := WithCheckpoint(cache, caseKey, step, Null);
      assert SessionCacheKey(sessionId, SessionStateKey(variable)) in spoiled && !SessionCoherent(spoiled, sessionId, entries);
    }
  }

  /** Caching the session variable that has just been saved keeps the session's part of the
      cache coherent, whatever the keys. */
  lemma SessionSaveKeepsCoherent(cache: Cache, entries: Entries, sessionId: string, name: string, value: Json)
    requires SessionCoherent(cache, sessionId, entries)
    ensures SessionCoherent(WithSession(cache, sessionId, name, value), sessionId,
                            entries[(sessionId, SessionStateKey(name)) := value])
  {
    forall other | SessionCacheKey(sessionId, SessionStateKey(other)) == SessionCacheKey(sessionId, SessionStateKey(name))
      ensures SessionStateKey(other) == SessionStateKey(name)
    {
      SessionCacheKeyInjective(sessionId, SessionStateKey(other), SessionStateKey(name));
    }
  }

  // ---- Children ----

  function StatusOf(found: Option<Case>, handle: ChildHandle): ChildStatus {
    match found
    case None => ChildFailed(handle.caseKey)
    case Some(child) =>
      match child.state
      case Running => ChildRunning
      case Waiting => ChildWaiting
      case Finished =>
        ChildFinished(if child.finishedType.Some? then child.finishedType.value else "",
                      if child.finishedDescription.Some? then child.finishedDescription.value else "",
                      child.resourceData)
  }

  /** The status of a child, told by the stored case. */
  lemma StatusIff(found: Option<Case>, handle: ChildHandle)
    ensures var status := StatusOf(found, handle);
            && (status == ChildRunning <==> found.Some? && found.value.state == Running)
            && (status == ChildWaiting <==> found.Some? && found.value.state == Waiting)
            && (status.ChildFailed? <==> found.None?) && (found.None? ==> status.caseKey == handle.caseKey)
            && (status.ChildFinished? <==> found.Some? && found.value.state == Finished)
            && (status.ChildFinished? ==>
                  && status.resourceData == found.value.resourceData
                  && found.value.finishedType in {None, Some(status.finishedType)}
                  && (found.value.finishedType.None? ==> status.finishedType == "")
                  && found.value.finishedDescription in {None, Some(status.finishedDescription)}
                  && (found.value.finishedDescription.None? ==> status.finishedDescription == ""))
  {
  }

  predicate InFlight(cases: map<string, Case>, handle: ChildHandle) {
    handle.caseKey in cases && cases[handle.caseKey].state != Finished
  }

  function InFlightCount(cases: map<string, Case>, handles: seq<ChildHandle>): nat {
    if handles == [] then 0
    else InFlightCount(cases, handles[..|handles| - 1]) + if InFlight(cases, handles[|handles| - 1]) then 1 else 0
  }

  function Statuses(cases: map<string, Case>, handles: seq<ChildHandle>): seq<(ChildHandle, ChildStatus)> {
    seq(|handles|, i requires 0 <= i < |handles| => (handles[i], StatusOf(Find(cases, handles[i].caseKey), handles[i])))
  }

  function StoredUnfinished(cases: map<string, Case>, handles: seq<ChildHandle>): set<nat> {
    set i: nat | i < |handles| && handles[i].caseKey in cases && cases[handles[i].caseKey].state != Finished
  }

  /** The pending count is the number of handles whose child is stored and not finished. */
  lemma {:induction false} CountsInFlight(cases: map<string, Case>, handles: seq<ChildHandle>)
    ensures InFlightCount(cases, handles) == |StoredUnfinished(cases, handles)|
    decreases |handles|
  {
    if handles != [] {
      var n := |handles| - 1;
      CountsInFlight(cases, handles[..n]);
      OneMoreHandle(cases, handles);
    }
  }

  lemma OneMoreHandle(cases: map<string, Case>, handles: seq<ChildHandle>)
    requires handles != []
    ensures var n := |handles| - 1;
            var before := StoredUnfinished(cases, handles[..n]);
            && n !in before
            && StoredUnfinished(cases, handles) == if InFlight(cases, handles[n]) then before + {n} else before
  {
  }

  /** The answer of `await_children` when no read fails. */
  function Awaited(cases: map<string, Case>, handles: seq<ChildHandle>): ChildrenResult {
    if InFlightCount(cases, handles) > 0 then Pending(InFlightCount(cases, handles)) else AllDone(Statuses(cases, handles))
  }

  predicate AllFinished(cases: map<string, Case>, handles: seq<ChildHandle>) {
    forall i :: 0 <= i < |handles| ==> handles[i].caseKey in cases && cases[handles[i].caseKey].state == Finished
  }

  /** "All done" is documented to mean that all children have finished. It does exactly if
      some child is in flight or every child is stored: a missing child counts as done. */
  lemma {:induction false} AllDoneMeansFinishedIff(cases: map<string, Case>, handles: seq<ChildHandle>)
    ensures (Awaited(cases, handles).AllDone? <==> AllFinished(cases, handles)) <==>
            || (exists i :: 0 <= i < |handles| && InFlight(cases, handles[i]))
            || (forall i :: 0 <= i < |handles| ==> handles[i].caseKey in cases)
  {
    NonePendingIff(cases, handles);
  }

  /** The answer lists every handle, in order, with the status of its own child. */
  lemma AwaitedIs(cases: map<string, Case>, handles: seq<ChildHandle>, i: nat)
    requires Awaited(cases, handles).AllDone? && i < |handles|
    ensures var statuses, key := Awaited(cases, handles).statuses, handles[i].caseKey;
            && |statuses| == |handles|
            && statuses[i] == (handles[i], StatusOf(if key in cases then Some(cases[key]) else None, handles[i]))
  {
  }

  /** A missing child, and the answer that all is done. */
  lemma MissingChildIsDone()
    ensures var handles := [ChildHandle("child", "wf")];
            Awaited(map[], handles) == AllDone([(handles[0], ChildFailed("child"))]) && !AllFinished(map[], handles)
  {
    var handles := [ChildHandle("child", "wf")];
    assert handles[..0] == [] && InFlightCount(map[], handles) == 0;
  }

  /** No child is counted as pending exactly when every child is finished or missing. */
  lemma {:induction false} NonePendingIff(cases: map<string, Case>, handles: seq<ChildHandle>)
    ensures InFlightCount(cases, handles) == 0 <==> forall i :: 0 <= i < |handles| ==> !InFlight(cases, handles[i])
    decreases |handles|
  {
    if handles != [] {
      var front := handles[..|handles| - 1];
      NonePendingIff(cases, front);
      assert forall i :: 0 <= i < |front| ==> front[i] == handles[i];
    }
  }

  // ---- The context ----

  class WorkflowContext {
    var current: Case
    var cache: Cache
    var records: seq<StepRecord>
    const cases: CaseStore
    const states: StateStore

    /** A fresh context: nothing is cached. */
    constructor (current: Case, cases: CaseStore, states: StateStore)
      ensures this.current == current && this.cases == cases && this.states == states
      ensures cache == map[] && records == []
    {
      this.current, this.cases, this.states, cache, records := current, cases, states, map[], [];
    }

    /** The invariant of a context that owns its case. */
    ghost predicate CaseCoherent()
      reads this, states
    {
      Coherent(cache, current.caseKey, states.entries)
    }

    /** The invariant of a context while it alone writes its session's variables. */
    ghost predicate SessionIsCoherent()
      reads this, states
    {
      SessionCoherent(cache, current.sessionId, states.sessionEntries)
    }

    ghost predicate ScopesApart()
      reads this
    {
      !Overlap(current.caseKey, current.sessionId)
    }

    method GetCheckpoint(name: string) returns (r: Result<Option<Json>, Failure>)
      modifies `cache, states`calls
      ensures var hit := CacheKey(current.caseKey, CheckpointKey(name)) in old(cache);
              && states.calls == old(states.calls) + (if hit then 0 else 1)
              && if !hit && states.faults(old(states.calls))
                 then r == Err(StoreFailed) && cache == old(cache)
                 else && r == Ok(Peek(old(cache), states.entries, current.caseKey, name))
                      && cache == Warm(old(cache), states.entries, current.caseKey, name)
      ensures old(CaseCoherent()) ==> CaseCoherent()
      ensures old(SessionIsCoherent()) && ScopesApart() ==> SessionIsCoherent()
    {
      var cacheKey := CacheKey(current.caseKey, CheckpointKey(name));
      if old(CaseCoherent()) {
        WarmKeepsCoherent(cache, states.entries, current.caseKey, name);
      }
      CaseWritesHarmlessIff(current.caseKey, current.sessionId);
      if cacheKey in cache {
        return Ok(Some(cache[cacheKey]));
      }
      var entry := states.Get(current.caseKey, CheckpointKey(name));
      if entry.Err? {
        return Err(entry.error);
      }
      match entry.value
      case None =>
        r := Ok(None);
      case Some(value) =>
        if value == Null {
          r := Ok(None);
        } else {
          cache := WithCheckpoint(cache, current.caseKey, name, value);
          r := Ok(Some(value));
        }
    }

    method SaveCheckpoint(name: string, value: Json) returns (ok: bool)
      modifies `cache, states`entries, states`calls
      ensures states.calls == old(states.calls) + 1 && ok == !states.faults(old(states.calls))
      ensures var k := CheckpointKey(name);
              if ok
              then && states.entries == old(states.entries)[(current.caseKey, k) := value]
                   && cache == old(cache)[CacheKey(current.caseKey, k) := value]
              else states.entries == old(states.entries) && cache == old(cache)
      ensures old(CaseCoherent()) ==> CaseCoherent()
      ensures old(SessionIsCoherent()) && ScopesApart() ==> SessionIsCoherent()
    {
      if old(CaseCoherent()) {
        SaveKeepsCoherent(cache, states.entries, current.caseKey, name, value);
      }
      CaseWritesHarmlessIff(current.caseKey, current.sessionId);
      ok := states.Save(current.caseKey, CheckpointKey(name), value);
      if ok {
        cache := WithCheckpoint(cache, current.caseKey, name, value);
      }
    }

    method ClearStep(name: string) returns (ok: bool)
      modifies `cache, states`entries, states`calls
      ensures states.calls == old(states.calls) + 1 && ok == !states.faults(old(states.calls))
      ensures cache == old(cache) - {CacheKey(current.caseKey, CheckpointKey(name))}
      ensures states.entries ==
              if ok then old(states.entries)[(current.caseKey, CheckpointKey(name)) := Null] else old(states.entries)
      ensures old(CaseCoherent()) ==> CaseCoherent()
      ensures old(SessionIsCoherent()) && ScopesApart() ==> SessionIsCoherent()
    {
      if old(CaseCoherent()) {
        ClearKeepsCoherent(cache, states.entries, current.caseKey, name);
      }
      cache := cache - {CacheKey(current.caseKey, CheckpointKey(name))};
      ok := states.Save(current.caseKey, CheckpointKey(name), Null);
    }

    /** Clears from the left and stops at the first save that fails. */
    method ClearSteps(names: seq<string>) returns (ok: bool)
      modifies `cache, states`entries, states`calls
      ensures old(states.calls) <= states.calls <= old(states.calls) + |names|
      ensures forall i :: old(states.calls) <= i < states.calls - (if ok then 0 else 1) ==> !states.faults(i)
      ensures if ok
              then && states.calls == old(states.calls) + |names|
                   && states.entries == Nulled(old(states.entries), current.caseKey, names)
              else && states.calls > old(states.calls) && states.faults(states.calls - 1)
                   && states.entries
                      == Nulled(old(states.entries), current.caseKey, names[..states.calls - old(states.calls) - 1])
      ensures old(CaseCoherent()) ==> CaseCoherent()
      ensures old(SessionIsCoherent()) && ScopesApart() ==> SessionIsCoherent()
    {
      var i := 0;
      while i < |names|
        invariant 0 <= i <= |names| && states.calls == old(states.calls) + i
        invariant forall j :: old(states.calls) <= j < states.calls ==> !states.faults(j)
        invariant states.entries == Nulled(old(states.entries), current.caseKey, names[..i])
        invariant old(CaseCoherent()) ==> CaseCoherent()
        invariant old(SessionIsCoherent()) && ScopesApart() ==> SessionIsCoherent()
      {
        ok := ClearStep(names[i]);
        if !ok {
          return;
        }
        assert names[..i + 1][..i] == names[..i];
        i := i + 1;
      }
      assert names[..|names|] == names;
      ok := true;
    }

    /** Runs a step. `body` is what its closure returns if it runs, `ran` says whether it ran,
        and `decodes` which stored values its result type can be decoded from. On a coherent
        cache a step does what a step without a cache does, except that a failing read or save
        is an error that leaves the store as it was. */
    method Step(name: string, body: Result<Json, string>, decodes: Json -> bool) returns (r: Result<Json, Failure>, ran: bool)
      modifies `cache, `records, states`entries, states`calls
      ensures old(CaseCoherent()) ==> CaseCoherent()
      ensures old(SessionIsCoherent()) && ScopesApart() ==> SessionIsCoherent()
      ensures old(CaseCoherent()) ==>
                var plain := PlainStep(old(states.entries), current.caseKey, name, body);
                var hit := CacheKey(current.caseKey, CheckpointKey(name)) in old(cache);
                var readFails := !hit && states.faults(old(states.calls));
                var saveFails := plain.2 && body.Ok? && states.faults(old(states.calls) + if hit then 0 else 1);
                && ran == (!readFails && plain.2)
                && states.calls == old(states.calls) + (if hit then 0 else 1) + (if ran && body.Ok? then 1 else 0)
                && r == (if readFails || saveFails then Err(StoreFailed) else TypedAnswer(plain, decodes))
                && states.entries == (if readFails || saveFails then old(states.entries) else plain.0)
                && (readFails ==> records == old(records))
                && (!readFails ==>
                      records == old(records) + [StepRecord(
                        current.caseKey, current.workflowCode, name, current.resourceData,
                        if ran then if body.Ok? then Some(body.value) else None
                        else Live(old(states.entries), current.caseKey, name),
                        !ran,
                        if ran && body.Err? then Some(body.error) else None)])
    {
      ran := false;
      if old(CaseCoherent()) {
        CacheShowsIffNull(cache, states.entries, current.caseKey, name);
      }
      var found := GetCheckpoint(name);
      if found.Err? {
        return Err(found.error), false;
      }
      if found.value.Some? && found.value.value != Null {
        records := records + [StepRecord(current.caseKey, current.workflowCode, name, current.resourceData,
                                         found.value, true, None)];
        return Typed(found.value.value, decodes), false;
      }
      ran := true;
      match body
      case Err(message) =>
        records := records + [StepRecord(current.caseKey, current.workflowCode, name, current.resourceData,
                                         None, false, Some(message))];
        r := Err(StepFailed(message));
      case Ok(value) =>
        records := records + [StepRecord(current.caseKey, current.workflowCode, name, current.resourceData,
                                         Some(value), false, None)];
        var ok := SaveCheckpoint(name, value);
        r := if ok then Ok(value) else Err(StoreFailed);
    }

    /** Reads a state variable; a default is answered but not cached. */
    method GetState(name: string, default: Json, decodes: Json -> bool) returns (r: Result<Json, Failure>)
      modifies `cache, states`calls
      ensures old(CaseCoherent()) ==> CaseCoherent()
      ensures old(SessionIsCoherent()) && ScopesApart() ==> SessionIsCoherent()
      ensures var hit := CacheKey(current.caseKey, StateKey(name)) in old(cache);
              var stored := Find(states.entries, (current.caseKey, StateKey(name)));
              && states.calls == old(states.calls) + (if hit then 0 else 1)
              && cache == if !hit && !states.faults(old(states.calls)) && stored.Some?
                          then old(cache)[CacheKey(current.caseKey, StateKey(name)) := stored.value] else old(cache)
      ensures old(CaseCoherent()) ==>
                var hit := CacheKey(current.caseKey, StateKey(name)) in old(cache);
                var stored := Find(states.entries, (current.caseKey, StateKey(name)));
                r == if !hit && states.faults(old(states.calls)) then Err(StoreFailed)
                     else if stored.Some? then Typed(stored.value, decodes) else Ok(default)
    {
      CheckpointMeetsStateIff("state_" + name, name);
      var cacheKey := CacheKey(current.caseKey, StateKey(name));
      if cacheKey in cache {
        return Typed(cache[cacheKey], decodes);
      }
      var entry := states.Get(current.caseKey, StateKey(name));
      if entry.Err? {
        return Err(entry.error);
      }
      match entry.value
      case None =>
        r := Ok(default);
      case Some(value) =>
        if old(CaseCoherent()) {
          SaveKeepsCoherent(cache, states.entries, current.caseKey, "state_" + name, value);
          assert states.entries[(current.caseKey, StateKey(name)) := value] == states.entries;
        }
        CaseWritesHarmlessIff(current.caseKey, current.sessionId);
        cache := WithCheckpoint(cache, current.caseKey, "state_" + name, value);
        r := Typed(value, decodes);
    }

    method SetState(name: string, value: Json) returns (ok: bool)
      modifies `cache, states`entries, states`calls
      ensures states.calls == old(states.calls) + 1 && ok == !states.faults(old(states.calls))
      ensures if ok
              then && states.entries == old(states.entries)[(current.caseKey, StateKey(name)) := value]
                   && cache == old(cache)[CacheKey(current.caseKey, StateKey(name)) := value]
              else states.entries == old(states.entries) && cache == old(cache)
      ensures old(CaseCoherent()) ==> CaseCoherent()
      ensures old(SessionIsCoherent()) && ScopesApart() ==> SessionIsCoherent()
    {
      CheckpointMeetsStateIff("state_" + name, name);
      if old(CaseCoherent()) {
        SaveKeepsCoherent(cache, states.entries, current.caseKey, "state_" + name, value);
      }
      CaseWritesHarmlessIff(current.caseKey, current.sessionId);
      ok := states.Save(current.caseKey, StateKey(name), value);
      if ok {
        cache := WithCheckpoint(cache, current.caseKey, "state_" + name, value);
      }
    }

    /** A cached session variable may be stale, since other cases of the session write it too;
        to a context that alone writes them the answer is the stored value. */
    method GetSessionState(name: string, default: Json, decodes: Json -> bool) returns (r: Result<Json, Failure>)
      modifies `cache, states`calls
      ensures old(CaseCoherent()) && ScopesApart() ==> CaseCoherent()
      ensures old(SessionIsCoherent()) ==> SessionIsCoherent()
      ensures var hit := SessionCacheKey(current.sessionId, SessionStateKey(name)) in old(cache);
              var stored := Find(states.sessionEntries, (current.sessionId, SessionStateKey(name)));
              var answer := if stored.Some? then Typed(stored.value, decodes) else Ok(default);
              var faulty := !hit && states.faults(old(states.calls));
              && states.calls == old(states.calls) + (if hit then 0 else 1)
              && r == (if hit then Typed(old(cache)[SessionCacheKey(current.sessionId, SessionStateKey(name))], decodes)
                       else if faulty then Err(StoreFailed) else answer)
              && (old(SessionIsCoherent()) && !faulty ==> r == answer)
              && cache == (if !hit && !faulty && stored.Some?
                           then WithSession(old(cache), current.sessionId, name, stored.value) else old(cache))
    {
      SessionWritesHarmlessIff(current.caseKey, current.sessionId);
      var cacheKey := SessionCacheKey(current.sessionId, SessionStateKey(name));
      if cacheKey in cache {
        return Typed(cache[cacheKey], decodes);
      }
      var entry := states.GetSession(current.sessionId, SessionStateKey(name));
      if entry.Err? {
        return Err(entry.error);
      }
      match entry.value
      case None =>
        r := Ok(default);
      case Some(value) =>
        if old(SessionIsCoherent()) {
          SessionSaveKeepsCoherent(cache, states.sessionEntries, current.sessionId, name, value);
          assert states.sessionEntries[(current.sessionId, SessionStateKey(name)) := value] == states.sessionEntries;
        }
        cache := WithSession(cache, current.sessionId, name, value);
        r := Typed(value, decodes);
    }

    method SetSessionState(name: string, value: Json) returns (ok: bool)
      modifies `cache, states`sessionEntries, states`calls
      ensures states.calls == old(states.calls) + 1 && ok == !states.faults(old(states.calls))
      ensures if ok
              then && states.sessionEntries == old(states.sessionEntries)[(current.sessionId, SessionStateKey(name)) := value]
                   && cache == WithSession(old(cache), current.sessionId, name, value)
              else states.sessionEntries == old(states.sessionEntries) && cache == old(cache)
      ensures old(CaseCoherent()) && ScopesApart() ==> CaseCoherent()
      ensures old(SessionIsCoherent()) ==> SessionIsCoherent()
    {
      SessionWritesHarmlessIff(current.caseKey, current.sessionId);
      if old(SessionIsCoherent()) {
        SessionSaveKeepsCoherent(cache, states.sessionEntries, current.sessionId, name, value);
      }
      ok := states.SaveSession(current.sessionId, SessionStateKey(name), value);
      if ok {
        cache := WithSession(cache, current.sessionId, name, value);
      }
    }

    /** Stores the child before its key: a stored parent never names a child that is not
        stored. `stamp` is the clock in a generated key. */
    method SpawnChild(config: SpawnConfig, stamp: string) returns (r: Result<ChildHandle, Failure>)
      modifies `current, cases`cases, cases`calls
      ensures var key := if config.caseKey.Some? then config.caseKey.value
                         else current.caseKey + "_" + stamp + "_child_" + config.workflowCode;
              var child := Case(key, current.sessionId, config.workflowCode, Running, None, None,
                                Some(current.caseKey), [], "normal", config.resourceData);
              var parent := old(current).(childKeys := old(current).childKeys + [key]);
              if cases.faults(old(cases.calls))
              then r == Err(StoreFailed) && current == old(current) && cases.cases == old(cases.cases)
              else if cases.faults(old(cases.calls) + 1)
              then r == Err(StoreFailed) && current == parent && cases.cases == old(cases.cases)[key := child]
              else && r == Ok(ChildHandle(key, config.workflowCode)) && current == parent
                   && cases.cases == old(cases.cases)[key := child][parent.caseKey := parent]
    {
      var key := if config.caseKey.Some? then config.caseKey.value
                 else current.caseKey + "_" + stamp + "_child_" + config.workflowCode;
      var child := NewCase(key, current.sessionId, config.workflowCode);
      child := child.(parentKey := Some(current.caseKey), resourceData := config.resourceData);
      var ok := cases.Upsert(child);
      if !ok {
        return Err(StoreFailed);
      }
      current := current.(childKeys := current.childKeys + [key]);
      ok := cases.Upsert(current);
      r := if ok then Ok(ChildHandle(key, config.workflowCode)) else Err(StoreFailed);
    }

    method ChildStatusOf(handle: ChildHandle) returns (r: Result<ChildStatus, Failure>)
      modifies cases`calls
      ensures cases.calls == old(cases.calls) + 1
      ensures r == if cases.faults(old(cases.calls)) then Err(StoreFailed)
                   else Ok(StatusOf(Find(cases.cases, handle.caseKey), handle))
    {
      var found := cases.GetByKey(handle.caseKey);
      r := if found.Err? then Err(found.error) else Ok(StatusOf(found.value, handle));
    }

    /** All done exactly when no read fails and every child is finished or missing. */
    method AwaitChildren(handles: seq<ChildHandle>) returns (r: Result<ChildrenResult, Failure>)
      modifies cases`calls
      ensures r.Err? <==> exists i :: old(cases.calls) <= i < old(cases.calls) + |handles| && cases.faults(i)
      ensures r.Ok? ==>
                && r.value == Awaited(cases.cases, handles)
                && (r.value.Pending? <==> exists i :: 0 <= i < |handles| && InFlight(cases.cases, handles[i]))
    {
      var statuses: seq<(ChildHandle, ChildStatus)>, pending := [], 0;
      var i := 0;
      while i < |handles|
        invariant 0 <= i <= |handles| && cases.calls == old(cases.calls) + i
        invariant forall j :: old(cases.calls) <= j < cases.calls ==> !cases.faults(j)
        invariant statuses == Statuses(cases.cases, handles[..i])
        invariant pending == InFlightCount(cases.cases, handles[..i])
      {
        var status := ChildStatusOf(handles[i]);
        if status.Err? {
          return Err(status.error);
        }
        assert handles[..i + 1][..i] == handles[..i];
        if status.value.ChildRunning? || status.value.ChildWaiting? {
          pending := pending + 1;
        }
        statuses := statuses + [(handles[i], status.value)];
        i := i + 1;
      }
      assert handles[..|handles|] == handles;
      NonePendingIff(cases.cases, handles);
      r := Ok(if pending > 0 then Pending(pending) else AllDone(statuses));
    }

    /** Stores the finished case first and deletes its state only after that; a failing
        delete is not an error. */
    method Finish(finishedType: string, finishedDescription: string) returns (ok: bool)
      modifies this, cases`cases, cases`calls, states`entries, states`calls
      ensures current == old(current).McFinish(finishedType, finishedDescription)
      ensures ok == !cases.faults(old(cases.calls)) && cases.calls == old(cases.calls) + 1
      ensures states.calls == old(states.calls) + if ok then 1 else 0
      ensures if ok
              then && cases.cases == old(cases.cases)[current.caseKey := current]
                   && states.entries == (if states.faults(old(states.calls)) then old(states.entries)
                                         else Without(old(states.entries), current.caseKey))
                   && cache == map[] && records == []
              else && cases.cases == old(cases.cases) && states.entries == old(states.entries)
                   && cache == old(cache) && records == old(records)
      ensures old(CaseCoherent()) ==> CaseCoherent()
      ensures old(SessionIsCoherent()) && ScopesApart() ==> SessionIsCoherent()
    {
      current := current.McFinish(finishedType, finishedDescription);
      ok := cases.Upsert(current);
      if !ok {
        return;
      }
      var _ := states.DeleteByCase(current.caseKey);
      cache, records := map[], [];
    }
  }
}
