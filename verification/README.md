# A verified model of the Tianshu workflow engine

The engine runs *workflows* for *cases*. A workflow is ordinary code that wraps its
expensive parts in named *steps*; a step's result is a *checkpoint* in a persistent store, so
a workflow that is started again after a crash, or at the next scheduler tick, skips what it
has done. Around this core stand a scheduler that advances many cases per tick, a loop that
lets a language model call tools, a provider that retries and falls back, a decoder of
streamed completions, and a conversation that truncates itself.

Each module models one source file or one property that spans several. Objects whose methods
update fields are classes (`Stores.StateStore`, `Stores.CaseStore`,
`Context.WorkflowContext`, `Scheduler.SchedulerV2`, `Scheduler.SchedulerEnvironment`,
`Compaction.ManagedConversation`) and loops are loops; their methods are proved against
functions on values, and the laws are lemmas about those functions. What the program cannot
decide is a parameter that every theorem quantifies over: workflow outcomes, fetches, model
replies, provider answers, tool behaviour, store failures, schedules, crash points and the
JSON decoder.

| Module | Subject |
|---|---|
| `Common`, `Llm` | options, results, JSON values; messages, tool calls and tool results |
| `Keys` | key formats and their collisions |
| `Stores` | the two persistent maps, with operations that may fail |
| `Context` | checkpoints, state variables and children behind the per-tick cache |
| `CrashRecovery` | histories of crashes and replays of one workflow |
| `Stages`, `StageLaws` | stage-based workflows and back-transitions; how their runs end |
| `Cases`, `CaseLifecycle` | case transitions; the case store under spawning, finishing and crashing |
| `Scheduler`, `SchedulerLaws` | one tick; runs of ticks |
| `Serializability`, `ParallelTick` | parallel cases over the shared stores; the runs of a parallel tick, one store operation at a time |
| `Tools`, `ToolLoop`, `ToolSteps` | concurrent tool calls; the conversation with the model; that conversation as a step |
| `Retry`, `Resilient` | retry with backoff; fallback providers |
| `Utf8`, `Sse`, `LineLaws`, `Streaming`, `StreamLaws` | streamed completions, chunk by chunk and as a whole; what each line says |
| `Compaction` | truncation to a token budget |

## Where the code and its documentation disagree

The model follows the code. For each disagreement a member says exactly when the
documentation holds; most also have a lemma that reaches the failure at a concrete input.

- A step that completed is "never re-executed" (README of the repository, line 45): true
  exactly for results other than JSON null (`CrashRecovery.RunsAgainIffNull`,
  `CrashRecovery.NullRunsAgain`).
- A tool step is "never re-executed" (`context.rs`, line 480): the code runs the loop without
  asking for the checkpoint, so it holds exactly if the step is not saved yet or the loop is
  given no round (`ToolSteps.ToolStep`).
- "Drop oldest messages until under target" (`compact.rs`, line 23): one boundary keeps less
  (`Compaction.PromiseKeptIff`, `Compaction.FreeMessageIsDropped`).
- The sweep of the resilient provider gives "untried fallbacks" a shot
  (`llm_resilient.rs`, lines 73-77): it can skip one that was never tried
  (`Resilient.TriedIff`, `Resilient.TriesAllIff`, `Resilient.SkippedFallback`).
- Token escalation can lower the limit (`Resilient.EscalationRaisesIff`).
- A stream "always sends Done or Error as the final event" (`streaming.rs`, line 22): not
  when the request cannot be sent (`StreamLaws.OneEndEvent`).
- A tick is Executed "if any workflow ran" and Idle otherwise (`engine.rs`, line 190): runs of
  the probe phase and runs that fail do not count (`SchedulerLaws.ExecutedMeansRanIff`,
  `SchedulerLaws.IdleThoughFinished`).
- Waiting cases are "skipped until a poll match resumes them" (`docs/concepts/case.md`, line
  26): their workflow runs in every tick, as a probe, unless it is not registered
  (`SchedulerLaws.SkippedUntilMatchedIff`).
- Children are "all done when all finish" (`context.rs`, line 431): a missing child counts as
  done (`Context.AllDoneMeansFinishedIff`, `Context.MissingChildIsDone`).
- Backoff grows with the attempts: not at attempt 2^31 (`Retry.DelaysGrowIff`,
  `Retry.DelayCollapsesAtSignedOverflow`).
- `finish` deletes the state of a finished workflow (`context.rs`, lines 511-514): the stored
  case stays finished exactly if the run then also returns that it is finished
  (`CaseLifecycle.RunsOnIffUndisciplined`, `CaseLifecycle.ContinueAfterFinish`).

## Model

| member | source | states |
|---|---|---|
| `Keys.CheckpointMeetsStateIff` | crates/workflow_engine/src/context.rs:83-89 | a checkpoint and a state variable share a store key exactly when the checkpoint's name is the variable's name behind `state_` |
| `Keys.CheckpointKeyInjective` | crates/workflow_engine/src/context.rs:83-85 | different steps of a case have different store keys |
| `Keys.SessionCacheKeyInjective` | crates/workflow_engine/src/context.rs:313-315 | different session variables have different cache keys |
| `Keys.CacheCollidesIff` | crates/workflow_engine/src/context.rs:92-94 | a case-scoped and a session-scoped entry can share a key of the one cache map exactly when one of two fixed strings, made of case key and session id, is a prefix of the other |
| `Keys.NoCollisionOutsideSession` | crates/workflow_engine/src/context.rs:313-315 | a case key that does not begin with the word `session` never collides |
| `Keys.CaseNamedSessionCollides` | crates/workflow_engine/src/context.rs:309-315 | excluding only keys that begin with `session:` is not enough: the case `session` collides with the session `wf_a` |
| `Stores.StateStore.Save` | crates/workflow_engine/src/store.rs:327-339 | stores one entry and touches no other; a failing save changes nothing |
| `Stores.StateStore.Get` | crates/workflow_engine/src/store.rs:341-346 | answers the entry last saved for the pair of case and step |
| `Stores.StateStore.DeleteByCase` | crates/workflow_engine/src/store.rs:358-362 | removes exactly the entries of one case |
| `Stores.StateStore.SaveSession` | crates/workflow_engine/src/store.rs:364-376 | stores a session entry beside, not among, the case entries |
| `Stores.StateStore.GetSession` | crates/workflow_engine/src/store.rs:378-383 | answers the session entry last saved |
| `Stores.CaseStore.Upsert` | crates/workflow_engine/src/store.rs:38-40 | stores a case under its own key; a failing upsert changes nothing |
| `Stores.CaseStore.GetByKey` | crates/workflow_engine/src/store.rs:42-43 | answers the case last stored under the key |
| `Context.NulledTakesExactly` | crates/workflow_engine/src/context.rs:139-173 | clearing takes exactly the named checkpoints of this case, and no other entry |
| `Context.CacheShowsIffNull` | crates/workflow_engine/src/context.rs:99-119 | on a coherent cache `get_checkpoint` differs from a context without a cache exactly when it answers a cached null, and a step never sees the difference |
| `Context.StepAnswersIff` | crates/workflow_engine/src/context.rs:182-262 | a step runs its body exactly if the entry at its key is missing or null; otherwise it answers that entry, if it decodes, and changes nothing; a body that succeeds becomes the entry, one that fails changes nothing |
| `Context.WarmKeepsCoherent` | crates/workflow_engine/src/context.rs:107-116 | caching what was read keeps every cached value equal to the stored one |
| `Context.SaveKeepsCoherent` | crates/workflow_engine/src/context.rs:126-130 | saving first and caching second keeps the cache coherent |
| `Context.ClearKeepsCoherent` | crates/workflow_engine/src/context.rs:140-165 | uncaching first and storing null second keeps it coherent, also when the save fails |
| `Context.OtherCasesDoNotDisturb` | crates/workflow_engine/src/context.rs:33-36 | nothing other cases do to the shared store spoils a context's cache |
| `Context.SessionWritesHarmlessIff` | crates/workflow_engine/src/context.rs:352-371 | caching session variables never spoils the case's part of the cache exactly if the two fixed strings of the keys do not overlap |
| `Context.CaseWritesHarmlessIff` | crates/workflow_engine/src/context.rs:122-137 | caching checkpoints and state variables never spoils the session's part of the cache, under exactly the same condition |
| `Context.SessionSaveKeepsCoherent` | crates/workflow_engine/src/context.rs:361-364 | saving a session variable first and caching it second keeps the session's part of the cache coherent |
| `Context.NonePendingIff` | crates/workflow_engine/src/context.rs:432-448 | the pending count is zero exactly when every child is finished or missing |
| `Context.CountsInFlight` | crates/workflow_engine/src/context.rs:432-448 | the pending count is the number of handles whose child is stored and not finished |
| `Context.StatusIff` | crates/workflow_engine/src/context.rs:414-429 | the status names the state of the stored child, with what it finished with in the right fields, and the missing child by its key |
| `Context.AllDoneMeansFinishedIff` | crates/workflow_engine/src/context.rs:431-448 | all done means that all children have finished exactly if some child is in flight or every child is stored |
| `Context.MissingChildIsDone` | crates/workflow_engine/src/context.rs:415-418 | a child that is not stored is answered as done |
| `Context.WorkflowContext.constructor` | crates/workflow_engine/src/context.rs:52-69 | a context starts with nothing cached |
| `Context.WorkflowContext.GetCheckpoint` | crates/workflow_engine/src/context.rs:99-119 | cache first, then the store, where null means none; one store read at most |
| `Context.WorkflowContext.SaveCheckpoint` | crates/workflow_engine/src/context.rs:122-137 | store and cache change together or not at all |
| `Context.WorkflowContext.ClearStep` | crates/workflow_engine/src/context.rs:140-165 | uncaches, then stores null; the cache stays coherent either way |
| `Context.WorkflowContext.ClearSteps` | crates/workflow_engine/src/context.rs:168-173 | clears from the left, up to the first save that fails |
| `Context.WorkflowContext.Step` | crates/workflow_engine/src/context.rs:182-262 | does what a step without a cache does: restores a non-null result without running the body, or fails if it does not decode, else runs the body and saves; a failing read or save is an error that leaves the store as it was; one record per step |
| `Context.WorkflowContext.GetState` | crates/workflow_engine/src/context.rs:267-286 | answers the stored value, if it decodes, or the default, as without a cache; caches what it read, and reads the store at most once |
| `Context.WorkflowContext.SetState` | crates/workflow_engine/src/context.rs:289-305 | changes this variable alone, in store and cache together |
| `Context.WorkflowContext.GetSessionState` | crates/workflow_engine/src/context.rs:322-345 | answers a cached value, which may be stale, or the stored one, or the default, and caches what it read; to a context that alone writes the session's variables the answer is the stored value |
| `Context.WorkflowContext.SetSessionState` | crates/workflow_engine/src/context.rs:352-371 | changes this session variable alone, in store and cache together; without overlapping keys the case's part of the cache stays coherent, and the session's part always does |
| `Context.WorkflowContext.SpawnChild` | crates/workflow_engine/src/context.rs:376-402 | stores the child with its parent key first and the parent naming it second, with both failure points |
| `Context.WorkflowContext.ChildStatusOf` | crates/workflow_engine/src/context.rs:414-429 | the status follows the stored child; a missing child has failed |
| `Context.WorkflowContext.AwaitChildren` | crates/workflow_engine/src/context.rs:432-448 | pending with the number in flight if any is, else every status in order |
| `Context.WorkflowContext.Finish` | crates/workflow_engine/src/context.rs:515-571 | the finished case is stored before its state is deleted; a failing delete is no error, a failing upsert deletes nothing |
| `CrashRecovery.BodiesRunUncheckpointed` | crates/workflow_engine/src/context.rs:192-222 | at every moment of every history the cache agrees with the store and a running body's step has no checkpoint |
| `CrashRecovery.CheckpointsStay` | crates/workflow_engine/src/context.rs:122-137 | no crash, error or replay changes a non-null checkpoint |
| `CrashRecovery.NeverRunsAgain` | crates/workflow_engine/src/context.rs:179-181 | no body starts again after a non-null result of its step has been saved |
| `CrashRecovery.LastSaveStands` | crates/workflow_engine/src/context.rs:126-130 | the store holds the result saved last |
| `CrashRecovery.RunsAgainIffNull` | crates/workflow_engine/src/context.rs:109-113 | a workflow that comes to a saved step again runs its body exactly if the last saved result is null, and restores exactly that result otherwise |
| `CrashRecovery.NullRunsAgain` | crates/workflow_engine/src/context.rs:192-193 | a history of seven events in which a saved null makes a body start again after a crash |
| `CrashRecovery.RestoredFollows` | crates/workflow_engine/src/context.rs:192-216 | restoring a step follows the uninterrupted run |
| `CrashRecovery.BeganFollows` | crates/workflow_engine/src/context.rs:218-222 | a body starts only where the uninterrupted run has got to |
| `CrashRecovery.AlwaysFollows` | crates/workflow_engine/src/context.rs:182-262 | in every history without a null result the store is that of an uninterrupted run and every tick has a beginning of its results |
| `CrashRecovery.TicksAgree` | crates/workflow_engine/src/context.rs:182-262 | the step results of all ticks are beginnings of one and the same sequence |
| `CrashRecovery.CompletionsAgree` | crates/workflow_engine/src/context.rs:182-262 | ticks that reach the end have the same step results and the same outcome |
| `CrashRecovery.StepIsPlain` | crates/workflow_engine/src/context.rs:192-262 | the machine's steps, without a fault, are the steps of the context |
| `CrashRecovery.CrashesAreInvisible` | crates/workflow_engine/src/context.rs:99-262 | every history, whatever has crashed or failed in it, leaves the store and the results of one history without crash or error |
| `Stages.LiveIffLastSave` | crates/workflow_engine/src/context.rs:109-165 | a checkpoint is live exactly when its last event is a save of a non-null value |
| `Stages.ClearNamesIff` | crates/workflow_engine/src/stage.rs:103-107 | a step is cleared exactly if a named and registered stage owns it |
| `Stages.PathSavesOnlyDead` | crates/workflow_engine/src/stage.rs:83-112 | along a whole run no live checkpoint is saved over |
| `Stages.ClearedIff` | crates/workflow_engine/src/stage.rs:90-111 | a run clears a step exactly if a transition it takes names a registered stage that owns it; it deletes the state exactly if it finishes, as the last it does |
| `Stages.OtherStagesKeep` | crates/workflow_engine/src/stage.rs:79-113 | in every run, finishing or not, a checkpoint no taken transition names keeps its value up to the deletion of a finished case's state, and its body does not run |
| `Stages.TransitionClearsExactly` | crates/workflow_engine/src/stage.rs:99-109 | a back-transition takes exactly the steps of the registered stages it names, of this case alone |
| `Stages.ReExecutesIff` | crates/workflow_engine/src/stage.rs:99-109 | after a transition a step's body runs exactly if the transition names its registered stage or the step had no checkpoint |
| `Stages.ExecuteSteps` | crates/workflow_engine/src/stage.rs:68-69 | the saves of one stage execution are those of its steps in order, up to the first failing step the stage does not handle; a fault of the store cuts them short |
| `Stages.ClearStage` | crates/workflow_engine/src/stage.rs:72-74 | clears the stage's own steps in order |
| `Stages.ClearStages` | crates/workflow_engine/src/stage.rs:103-107 | clears the registered stages named, in order, and skips unregistered ones |
| `Stages.TakeTurn` | crates/workflow_engine/src/stage.rs:90-110 | one stage execution with its outcome |
| `Stages.RunStages` | crates/workflow_engine/src/stage.rs:79-113 | the run takes the path, a failing store cuts it short, it never answers Continue, and it answers Finished only after storing the finished case |
| `StageLaws.VisitFailsIff` | crates/workflow_engine/src/stage.rs:68-69 | a visit ends with a message exactly if the first step that fails and is not handled fails with it |
| `StageLaws.RunEndsIff` | crates/workflow_engine/src/stage.rs:79-113 | the answer of a run, told by its visits: it waits for polls, or finishes with a type and description, exactly if it comes to a stage that passes its steps and says so; it fails with a message exactly if a step or the stage there does; and for want of a stage exactly if it comes to one that is not registered |
| `CaseLifecycle.ParentsStay` | crates/workflow_engine/src/context.rs:386-396 | no operation drops a stored case or changes its parent |
| `CaseLifecycle.ChildrenAlwaysStored` | crates/workflow_engine/src/context.rs:376-402 | at every crash point of every history, every child key in a stored case names a stored child of that case |
| `CaseLifecycle.OperationsStore` | crates/workflow_engine/src/context.rs:376-402 | what each operation leaves in the case store, field by field, as the methods of the context do |
| `CaseLifecycle.OperationsDictionary` | crates/workflow_engine/src/engine.rs:128-139 | the dictionary takes stored copies on adoption and restart, waking sets the state alone, and the operations of contexts leave it alone |
| `CaseLifecycle.SettleIsTick` | crates/workflow_engine/src/engine.rs:285-316 | what a run leaves of the dictionary's copy of its case is what the tick makes of it, executed or probed |
| `CaseLifecycle.DeletedAlwaysFinished` | crates/workflow_engine/src/context.rs:525-543 | at every crash point of every history of disciplined runs, state is deleted only of cases stored as finished |
| `CaseLifecycle.RunsOnIffUndisciplined` | crates/workflow_engine/src/engine.rs:393-426 | a run that has deleted its state can be run again exactly if it returns anything but Finished; then the store shows it running without its state |
| `CaseLifecycle.ContinueAfterFinish` | crates/workflow_engine/src/engine.rs:393-397 | a history that reaches such a run, and the promise broken from there |
| `Scheduler.Evaluate` | crates/workflow_engine/src/poll.rs:42-72 | the payloads fetched, in order, whatever other fetches fail |
| `Scheduler.MatchesIff` | crates/workflow_engine/src/poll.rs:49-72 | some predicate matches exactly if some fetch gives a payload |
| `Scheduler.MatchesPollByPoll` | crates/workflow_engine/src/poll.rs:49-72 | each poll adds its own step name with the payload fetched for it, at its own place, and nothing if the fetch gives none |
| `Scheduler.SchedulerEnvironment.constructor` | crates/workflow_engine/src/engine.rs:129-139 | the dictionary holds the given cases under their keys, the last of those with one key |
| `Scheduler.SchedulerV2.Tick` | crates/workflow_engine/src/engine.rs:197-513 | for every iteration order, completion order and mode the dictionary and result after a tick are one function of the dictionary before, case by case; each case is probed and executed at most once, and which are is fixed; a panic leaves some cases one phase behind the others |
| `Scheduler.SchedulerV2.Partition` | crates/workflow_engine/src/engine.rs:219-232 | every active case is listed once, by its state |
| `Scheduler.SchedulerV2.ProbeWaiting` | crates/workflow_engine/src/engine.rs:236-318 | exactly the waiting cases with a registered workflow are run, once each |
| `Scheduler.SchedulerV2.EvaluatePolls` | crates/workflow_engine/src/engine.rs:320-354 | exactly the cases with a poll whose fetch gives a payload are woken besides those that continue |
| `Scheduler.SchedulerV2.CollectReady` | crates/workflow_engine/src/engine.rs:357-362 | the ready list is the running and the woken cases, without repetition |
| `Scheduler.SchedulerV2.ExecuteSequential` | crates/workflow_engine/src/engine.rs:365-428 | the outcome of every ready case is recorded, unless one panics |
| `Scheduler.SchedulerV2.ExecuteParallel` | crates/workflow_engine/src/engine.rs:429-505 | the same for tasks on copies that complete in any order, panics included |
| `Scheduler.SchedulerV2.ExecuteOne` | crates/workflow_engine/src/engine.rs:393-426 | one run changes its own case alone, by its outcome |
| `SchedulerLaws.KeysPreserved` | crates/workflow_engine/src/engine.rs:197-513 | no run of ticks, panicking ones included, adds or drops a case or changes what identifies it |
| `SchedulerLaws.CaseTickIs` | crates/workflow_engine/src/engine.rs:282-493 | the whole tick of one case, told by the case and the answers of its workflow alone: executed, probed or left as it is |
| `SchedulerLaws.ExecutedStateIff` | crates/workflow_engine/src/engine.rs:472-493 | after its run a case is waiting exactly for an outcome that waits, finished with a type and a description exactly for that outcome, and running exactly for the others; no other field changes |
| `SchedulerLaws.WaitsThenProbed` | crates/workflow_engine/src/engine.rs:282-353 | a case put to wait is probed by the next tick, and executed there only if its probe or its polls resume it |
| `SchedulerLaws.TickResultIff` | crates/workflow_engine/src/engine.rs:508-512 | a tick is Executed exactly if the run of some case continues, waits or finishes |
| `SchedulerLaws.TickPanicsIff` | crates/workflow_engine/src/engine.rs:282-493 | a tick panics exactly if a probe does, or a run in sequential mode |
| `SchedulerLaws.FinishedForever` | crates/workflow_engine/src/case.rs:102-104 | a finished case keeps its type and description through every run, panicking ticks included, and is never probed or executed again |
| `SchedulerLaws.InactiveUntouched` | crates/workflow_engine/src/engine.rs:223-226 | a paused or stopped case stays exactly as it is |
| `SchedulerLaws.WakesIff` | crates/workflow_engine/src/engine.rs:286-354 | a waiting case is running after the polls exactly if its probe continued or still waited and a fetch gave a payload; then it is executed in the same tick |
| `SchedulerLaws.ExecutedMeansRanIff` | crates/workflow_engine/src/engine.rs:187-196 | Executed means that some workflow ran, and Idle that none did, exactly if some execution returns without an error or nothing runs |
| `SchedulerLaws.IdleThoughFinished` | crates/workflow_engine/src/engine.rs:305-313 | a tick that runs and finishes a case in its probe and is Idle |
| `SchedulerLaws.SkippedUntilMatchedIff` | crates/workflow_engine/src/engine.rs:239-264 | a waiting case is skipped until a poll matches exactly if its workflow is not registered or a poll matches in this tick |
| `Serializability.Projection` | crates/workflow_engine/src/store.rs:318-362 | what an interleaving does to a case is what the case's own operations do |
| `Serializability.InterleavingsAgree` | crates/workflow_engine/src/engine.rs:429-505 | interleavings of the same operations end in the same stores and the same step results |
| `Serializability.SerializableInAnyOrder` | crates/workflow_engine/src/engine.rs:429-505 | parallel cases, finishing ones included, end as if run one after another in any order |
| `Serializability.OperationsReadBack` | crates/workflow_engine/src/store.rs:327-362 | what is written is read back, a deletion takes all entries of its case, and each operation leaves everything else |
| `ParallelTick.StepCodeIsPlain` | crates/workflow_engine/src/context.rs:182-262 | a step as one or two store operations does what `PlainStep`, the specification of the context's step, does |
| `ParallelTick.WriteCodeSaves` | crates/workflow_engine/src/context.rs:289-305 | writing a state variable is one save |
| `ParallelTick.ReadCodeReads` | crates/workflow_engine/src/context.rs:267-286 | reading a state variable answers the stored value or the default |
| `ParallelTick.FinishCodeFinishes` | crates/workflow_engine/src/context.rs:515-571 | finishing is an upsert and then a deletion, with the state still there between the two |
| `ParallelTick.ReturnCodeEnds` | crates/workflow_engine/src/engine.rs:460-463 | a run that returns touches no store and keeps its outcome |
| `ParallelTick.GoesAsAlone` | crates/workflow_engine/src/engine.rs:450-463 | beside any other contexts, operation by operation, a context goes exactly as far as its own operations take it alone |
| `ParallelTick.InterleavedRunsAreAtomic` | crates/workflow_engine/src/engine.rs:429-464 | however the store operations of a tick's runs interleave, each run has the outcome and the state entries of an atomic run |
| `ParallelTick.SomeScheduleEnds` | crates/workflow_engine/src/engine.rs:466 | some interleaving lets all runs end |
| `ParallelTick.ParallelTickIsAtomic` | crates/workflow_engine/src/engine.rs:429-505 | a parallel tick at the grain of store operations ends in the dictionary and store of the tick with atomic runs |
| `Tools.ResultsMatchCalls` | crates/workflow_engine/src/tool.rs:65-100 | result `i` carries the identifier of call `i`, for unknown tools and malformed arguments too |
| `Tools.CallAnswersIff` | crates/workflow_engine/src/tool.rs:65-100 | the answer of a call has the text as content and no error exactly if the tool, after its actions, finishes with it, and is an error with the text exactly if the tool fails with it; the world is the one the last action left |
| `Tools.CallRefused` | crates/workflow_engine/src/tool.rs:65-86 | a call to an unknown tool, or with arguments that do not parse, is an error answer and leaves the world as it is |
| `Tools.SequentialCallByCall` | crates/workflow_engine/src/tool.rs:108-218 | in the reference run each call meets the world the calls before it left, and its answer stands at its place |
| `Tools.MoveKeepsInvariant` | crates/workflow_engine/src/tool.rs:155-208 | every move of every schedule keeps each task on course to the result of its call run alone |
| `Tools.NeverStuckIff` | crates/workflow_engine/src/tool.rs:152-163 | a batch can always move on exactly if it has a permit or no calls |
| `Tools.EveryScheduleIsSequential` | crates/workflow_engine/src/tool.rs:150-213 | under every schedule a batch ends within a fixed number of moves, with the results and world of the calls run left to right |
| `Tools.RunBatch` | crates/workflow_engine/src/tool.rs:148-213 | the same for the batch as a loop with an arbitrary scheduler; permits are respected at every moment |
| `Tools.RunAlone` | crates/workflow_engine/src/tool.rs:128-134 | an exclusive call taken move by move comes to what the call comes to, and nothing else is active meanwhile |
| `Tools.ExecuteWithConcurrency` | crates/workflow_engine/src/tool.rs:108-218 | groups tile the call list; at each moment one exclusive call or at most the permitted number of calls of one read-only run is active; results answer calls in order and, with honest read-only tools, results and world are those of the calls run left to right; it waits forever exactly if a read-only call meets no permits |
| `ToolLoop.RunToolLoop` | crates/workflow_engine/src/tool_loop.rs:42-130 | the conversation is the initial messages and then well-formed rounds; the model is called at most the maximum of rounds; success ends with an answer without calls; both errors, and waiting forever without permits, are exact |
| `ToolLoop.TranscriptLength` | crates/workflow_engine/src/tool_loop.rs:71-128 | length is initial messages plus rounds plus calls |
| `ToolLoop.RoundIsAnswered` | crates/workflow_engine/src/tool_loop.rs:73-128 | the conversation begins with the initial messages; each round adds the model's message with its content and calls, and behind it the answer to each call, in order, with its content and the identifier of the call |
| `ToolSteps.ToolStep` | crates/workflow_engine/src/context.rs:476-495 | the loop runs whatever is saved, and its final text is saved; a failing loop or save leaves the store as it was |
| `Retry.WithRetry` | crates/workflow_engine/src/retry.rs:61-92 | the calls and sleeps of a run obey the retry rules: attempts in order, the class of the failure before, one fewer sleep than calls, stop at success, fatal error or last attempt |
| `Retry.TraceIsUnique` | crates/workflow_engine/src/retry.rs:61-92 | the rules leave exactly one run |
| `Retry.AttemptsAreConsecutive` | crates/workflow_engine/src/retry.rs:66-88 | attempts are 0, 1, 2 and so on without gaps, and no fatal error is retried |
| `Retry.FailureIsFinal` | crates/workflow_engine/src/retry.rs:76-80 | a failed run met a fatal error or made max(1, max_attempts) calls |
| `Retry.Delay` | crates/workflow_engine/src/retry.rs:81-85 | no pause is longer than the maximum |
| `Retry.DelayIsGeometric` | crates/workflow_engine/src/retry.rs:81-85 | up to the overflow the pauses are a geometric sequence in whole milliseconds, cut at the maximum; the first is the base delay |
| `Retry.DelaysGrowIff` | crates/workflow_engine/src/retry.rs:81-85 | with a factor of at least one a pause shrinks exactly at attempt 2^31, where the exponent overflows, and there exactly unless the base is zero, the factor is one or the cap is low enough to hide it |
| `Retry.DelayCollapsesAtSignedOverflow` | crates/workflow_engine/src/retry.rs:81-83 | at attempt 2^31 a pause drops from the cap to zero |
| `Resilient.EscalationRaisesIff` | crates/workflow_engine/src/llm_resilient.rs:88-94 | escalation raises the token limit exactly if it is above zero and below the ceiling |
| `Resilient.EscalatesTo` | crates/workflow_engine/src/llm_resilient.rs:90-93 | the escalated limit is twice the limit, or 128000 if that is less, with 4096 for no limit, and with the wrap at 32 bits |
| `Resilient.LastChanceIs` | crates/workflow_engine/src/llm_resilient.rs:88-100 | a loop that ends for want of output tokens is followed by exactly one call to the primary, with the same payload and the escalated limit, and that answer is the answer of the run; likewise for a prompt that is too long, with the shortened request |
| `Resilient.CallsCarryRequest` | crates/workflow_engine/src/llm_resilient.rs:62-87 | every other call carries the request as it came |
| `Resilient.Complete` | crates/workflow_engine/src/llm_resilient.rs:53-104 | a run is a retry loop over the picked providers, then the sweep or the last-chance call its last error asks for; the log is whom it asked |
| `Resilient.Sweep` | crates/workflow_engine/src/llm_resilient.rs:80-87 | the sweep asks the fallbacks behind the counted ones until one answers |
| `Resilient.LoopFallback` | crates/workflow_engine/src/llm_resilient.rs:62-68 | the loop asks fallback `k` exactly at attempt `k + 1` after an overloaded failure |
| `Resilient.FallbackAtMostOnce` | crates/workflow_engine/src/llm_resilient.rs:73-87 | no fallback is asked twice across loop and sweep |
| `Resilient.TotalBound` | crates/workflow_engine/src/llm_resilient.rs:53-104 | at most max(attempts + 1, fallbacks + 1) calls |
| `Resilient.FirstSuccessWins` | crates/workflow_engine/src/llm_resilient.rs:53-104 | the first success is the answer and no call follows it |
| `Resilient.AllOverloadedSchedule` | crates/workflow_engine/src/llm_resilient.rs:53-87 | if every call is overloaded: the primary, each fallback once in order, then the primary for the attempts left |
| `Resilient.TriedIff` | crates/workflow_engine/src/llm_resilient.rs:73-87 | a run that gives up has asked fallback `k` exactly if the sweep covers it or attempt `k` failed as overloaded |
| `Resilient.TriesAllIff` | crates/workflow_engine/src/llm_resilient.rs:73-87 | a configuration never leaves a fallback untried exactly if it has none or makes one attempt |
| `Resilient.SkippedFallback` | crates/workflow_engine/src/llm_resilient.rs:81-82 | a concrete run that gives up without asking the first fallback |
| `Utf8.DecodeSplitsIff` | crates/workflow_engine_llm_openai/src/streaming.rs:81 | lossy decoding in two pieces is decoding the whole exactly if the cut is not inside a character |
| `Utf8.DecodeEachIff` | crates/workflow_engine_llm_openai/src/streaming.rs:72-81 | the text collected chunk by chunk is the body's text exactly if no cut is inside a character |
| `Utf8.CutInsideAccent` | crates/workflow_engine_llm_openai/src/streaming.rs:81 | a two-byte character cut in two becomes two replacement characters |
| `Utf8.DecodeEncoded` | crates/workflow_engine_llm_openai/src/streaming.rs:81 | decoding the encoding of any text gives the text back |
| `Utf8.PieceIsEncodedIff` | crates/workflow_engine_llm_openai/src/streaming.rs:81 | a piece taken off the bytes is the encoding of its character, unless no character's encoding stands there; then it is the replacement character |
| `Sse.FlushInOrder` | crates/workflow_engine_llm_openai/src/sse.rs:182-192 | the assembled calls leave in ascending slot order, which is slot zero alone |
| `Sse.AssembledCall` | crates/workflow_engine_llm_openai/src/sse.rs:164-172 | chunks assemble one call: the first start with all later index-zero argument deltas |
| `Sse.LinesOfConcatenation` | crates/workflow_engine_llm_openai/src/streaming.rs:81-86 | a cut never changes the lines if the text behind the last newline is carried over |
| `LineLaws.TrimIs` | crates/workflow_engine_llm_openai/src/streaming.rs:85 | trimming takes the white space of both ends and nothing else |
| `LineLaws.LinesAre` | crates/workflow_engine_llm_openai/src/streaming.rs:83-86 | the lines are those between newlines: joined again with the rest they are the text |
| `LineLaws.ChunkIff` | crates/workflow_engine_llm_openai/src/sse.rs:77-143 | what a line becomes, told by its decoded response: text, end mark, usage, start of a call or arguments, each exactly if the first choice says so |
| `Sse.CollectEvents` | crates/workflow_engine_llm_openai/src/sse.rs:149-206 | the collector's loop folds the chunks of the body's lines up to the first end mark |
| `LineLaws.CollectorSays` | crates/workflow_engine_llm_openai/src/sse.rs:149-206 | the events of the collector, told by its lines: the texts before the first end mark and, if there is one, the assembled call, the last usage and Done |
| `Streaming.Stream` | crates/workflow_engine_llm_openai/src/streaming.rs:23-155 | a receiver gets the events of the whole answer, or a beginning of them if it leaves; the result is an error exactly if the request fails or is refused, or the transport breaks before an end mark and before a text the receiver is no longer there for |
| `LineLaws.StreamSays` | crates/workflow_engine_llm_openai/src/streaming.rs:65-154 | the events of a stream, told by its lines: the texts and usages the lines before the first end mark say, in order; then the assembled call and Done, or the transport error if it comes before an end mark |
| `Streaming.BrokenBody` | crates/workflow_engine_llm_openai/src/streaming.rs:72-81 | the text of a body and its error are those of the pieces before the first transport error |
| `Streaming.WithoutBody` | crates/workflow_engine_llm_openai/src/streaming.rs:48-63 | a request that cannot be sent sends no event; one that is refused sends its message as the only event |
| `Streaming.OkIffDone` | crates/workflow_engine_llm_openai/src/streaming.rs:23-155 | to a receiver that stays to the end the result is Ok exactly when the last event is Done |
| `Streaming.StreamBody` | crates/workflow_engine_llm_openai/src/streaming.rs:65-155 | the chunk loop sends what the body's text sends, for every way to cut it and every transport error |
| `Streaming.DrainLines` | crates/workflow_engine_llm_openai/src/streaming.rs:83-136 | the line loop consumes exactly the complete lines and leaves the rest in the buffer |
| `Streaming.HandleChunk` | crates/workflow_engine_llm_openai/src/streaming.rs:88-135 | one chunk changes the calls under assembly and sends its events |
| `Streaming.FeedConcatenation` | crates/workflow_engine_llm_openai/src/streaming.rs:81-86 | feeding a text is feeding its first part and then the rest with the carried line |
| `Streaming.DoneIsFinal` | crates/workflow_engine_llm_openai/src/streaming.rs:117-134 | nothing is sent after Done |
| `StreamLaws.CleanCutsDoNotMatter` | crates/workflow_engine_llm_openai/src/streaming.rs:65-154 | cut at character boundaries, chunks send the events of the decoded whole |
| `StreamLaws.ChunkingIsInvisible` | crates/workflow_engine_llm_openai/src/streaming.rs:65-154 | two clean ways to cut the same bytes send the same events |
| `StreamLaws.OneEndEvent` | crates/workflow_engine_llm_openai/src/streaming.rs:19-23 | exactly one Done or Error is sent and it is last, exactly unless the request cannot be sent |
| `StreamLaws.DecodersInStep` | crates/workflow_engine_llm_openai/src/sse.rs:156-203 | stream and collector hold the same calls and, usage aside, the same events after every line |
| `StreamLaws.IncrementalEqualsBatchIff` | crates/workflow_engine_llm_openai/src/sse.rs:145-206 | stream and collector agree, usage aside, exactly for the bodies with an end mark on some line; then the collector moves the last usage before Done |
| `StreamLaws.StreamedToolCall` | crates/workflow_engine_llm_openai/src/streaming.rs:97-131 | a stream emits at most one tool call: its first start with the later index-zero arguments before the end |
| `Compaction.Compact` | crates/workflow_engine/src/compact.rs:30-62 | the backwards walk keeps what dropping the oldest messages keeps, and the bare tail on the one boundary |
| `Compaction.LongestFittingIsDropOldest` | crates/workflow_engine/src/compact.rs:49-61 | a fitting suffix that cannot be extended is the promised one |
| `Compaction.DropOldestIsOptimal` | crates/workflow_engine/src/compact.rs:23-26 | the promised conversation is the longest suffix that fits the target or is no longer than the preserved tail |
| `Compaction.PromiseKeptIff` | crates/workflow_engine/src/compact.rs:44-47 | the code keeps what is promised exactly unless the tail costs the target and the message before it is free |
| `Compaction.FreeMessageIsDropped` | crates/workflow_engine/src/compact.rs:44-47 | a conversation of two messages on that boundary |
| `Compaction.CompactIdempotent` | crates/workflow_engine/src/compact.rs:30-62 | compacting again changes nothing |
| `Compaction.CharCounterHasNoFreeMessage` | crates/workflow_engine/src/token.rs:16-24 | with the built-in counter the boundary cannot occur |
| `Compaction.CharCountIs` | crates/workflow_engine/src/token.rs:16-24 | a text costs a quarter of the length of its UTF-8 encoding, and one at least |
| `Compaction.CountsMessageByMessage` | crates/workflow_engine/src/token.rs:21-23 | a conversation costs the sum of what its messages cost |
| `Compaction.ManagedConversation.Push` | crates/workflow_engine/src/compact.rs:147-149 | appends one message |
| `Compaction.ManagedConversation.ForceCompact` | crates/workflow_engine/src/compact.rs:171-180 | the conversation becomes its truncation to 0.7 of the threshold |
| `Compaction.ManagedConversation.CompactIfNeeded` | crates/workflow_engine/src/compact.rs:160-168 | afterwards the conversation is within the threshold or is exactly the preserved tail |
| `Compaction.ManagedConversation.LevelsAre` | crates/workflow_engine/src/compact.rs:160-173 | below saturation the threshold is the fraction of the maximum, and the target 0.7 of that, in whole tokens |
| `Compaction.TargetBelowThreshold` | crates/workflow_engine/src/compact.rs:161-173 | the target never exceeds the threshold, both truncated and saturated |

## Left out

- Context.WorkflowContext.Step: its body answers with a value or an error. The closure cannot keep the context while it waits; that it may change the case's public fields before its future starts is not modelled. Records have no timestamps or durations.
- Context.WorkflowContext.GetCheckpoint: a stored text is taken to be the JSON that was saved; malformed text in a store is not modelled.
- Context.WorkflowContext.GetSessionState: nothing is promised between contexts that write the same session's variables; the last write wins.
- Context.WorkflowContext.SpawnChild: the generated key takes the clock as a parameter; `CaseLifecycle` assumes fresh child keys. Spawning again on replay creates another child.
- CrashRecovery.CrashesAreInvisible: is about steps; state variables, which are not idempotent, and the final `finish` are not part of these histories.
- Stages.RunStages: a stage execution is an oracle of the steps it runs and of the failing bodies it handles; stages that handle a failing store, set state variables or clear steps themselves are not modelled, and restored results decode. A run ends when the visits it is given end, since back-transitions may go on forever. Coherence of the cache is an invariant its callers have.
- Scheduler.SchedulerV2.Tick: a probe or run of a case is one move on the case and its own state entries; `ParallelTick` shows that interleaving the operations of the runs comes to the same. The registry lookup is a predicate on the workflow code.
- ParallelTick.ParallelTickIsAtomic: the stores do not fail, stored values decode, and session variables and spawning, which reach beyond the case, are outside it. A run that panics is one that returns so, between two operations.
- Serializability.SerializableInAnyOrder: covers the case-scoped operations only.
- Tools.ExecuteWithConcurrency: panicking tools and durations are not modelled.
- Resilient.Complete: doubling a token limit wraps at 32 bits, as in an optimised build; a debug build panics there.
- Retry.Delay: floats are reals, with the saturating casts of the code.
- Compaction.ManagedConversation.CompactIfNeeded: fractions are reals and the sum of token counts is unbounded where the code's is a 32-bit sum; the strategy is truncation.
- Streaming.Stream: building and sending the HTTP request, and the JSON decoder, are parameters.
- `CaseLifecycle` has no paused or stopped cases and no second process with its own dictionary.
- `step_with_retry` and `spawn_children` are compositions of modelled parts.
- Compaction by summary and routing by intent: decided by a model's reply.
- PostgreSQL adapters, dashboard, observers, dataset export, sessions, listing and counting of cases, signal handling: input and output, or easy members.
