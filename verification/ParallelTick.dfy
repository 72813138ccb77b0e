/** The runs of a parallel tick, one store operation at a time: the context's own operations
    as code of the serializability model, and the scheduler's atomic runs as what they come
    to (crates/workflow_engine/src/context.rs:182-305 and 515-571,
    crates/workflow_engine/src/engine.rs:429-505). The stores do not fail here. */
module ParallelTick {
  import opened Common
  import opened Keys
  import opened Cases
  import opened Stores
  import opened Context
  import opened Scheduler
  import S = Serializability

  /** What a workflow asks of its context next, or the outcome it returns. */
  datatype Call =
    | RunStep(name: string, body: Result<Json, string>)
    | ReadState(name: string, default: Json)
    | WriteState(name: string, value: Json)
    | FinishCase(finishedType: string, finishedDescription: string)
    | Return(outcome: RunOutcome)

  datatype Answer = StepAnswer(result: Result<Json, Failure>) | StateAnswer(value: Json) | Written

  /** A workflow on a case: its next call after the answers so far. */
  type Workflow = (Case, seq<Answer>) -> Call

  /** Where a context is between two store operations. */
  datatype At = Deciding | Saving(name: string, value: Json) | Deleting | Ended(outcome: RunOutcome)

  datatype Local = Local(start: Case, current: Case, cache: Cache, answers: seq<Answer>, at: At)
  {
    function Cached(step: string): Option<Json> { Find(cache, CacheKey(current.caseKey, step)) }

    function Reply(answer: Answer): Local { this.(answers := answers + [answer], at := Deciding) }

    function WithCached(step: string, value: Json): Local {
      this.(cache := cache[CacheKey(current.caseKey, step) := value])
    }
  }

  /** A fresh context on a clone of the case. */
  function Start(c: Case): Local { Local(c, c, map[], [], Deciding) }

  /** The next store operation of a context. */
  function NextOp(wf: Workflow, l: Local): S.Op {
    match l.at
    case Saving(name, value) => S.Save(CheckpointKey(name), value)
    case Deleting => S.DeleteByCase
    case Ended(_) => S.Compute
    case Deciding =>
      match wf(l.start, l.answers)
      case RunStep(name, _) => if l.Cached(CheckpointKey(name)).Some? then S.Compute else S.Get(CheckpointKey(name))
      case ReadState(name, _) => if l.Cached(StateKey(name)).Some? then S.Compute else S.Get(StateKey(name))
      case WriteState(name, value) => S.Save(StateKey(name), value)
      case FinishCase(t, d) => S.Upsert(l.current.McFinish(t, d))
      case Return(_) => S.Compute
  }

  /** What a read found: in the cache, or else in the store. */
  function Found(l: Local, step: string, reply: S.Reply): Option<Json> {
    if l.Cached(step).Some? then l.Cached(step) else if reply.Entry? then reply.data else None
  }

  /** The context once that operation has been answered. */
  function Resume(wf: Workflow, l: Local, reply: S.Reply): Local {
    match l.at
    case Saving(name, value) => l.WithCached(CheckpointKey(name), value).Reply(StepAnswer(Ok(value)))
    case Deleting => l.(cache := map[]).Reply(Written)
    case Ended(_) => l
    case Deciding =>
      match wf(l.start, l.answers)
      case RunStep(name, body) =>
        var found := Found(l, CheckpointKey(name), reply);
        if found.Some? && found.value != Null then
          l.WithCached(CheckpointKey(name), found.value).Reply(StepAnswer(Ok(found.value)))
        else (match body
          case Err(message) => l.Reply(StepAnswer(Err(StepFailed(message))))
          case Ok(value) => l.(at := Saving(name, value)))
      case ReadState(name, default) =>
        var found := Found(l, StateKey(name), reply);
        if found.Some? then l.WithCached(StateKey(name), found.value).Reply(StateAnswer(found.value))
        else l.Reply(StateAnswer(default))
      case WriteState(name, value) => l.WithCached(StateKey(name), value).Reply(Written)
      case FinishCase(t, d) => l.(current := l.current.McFinish(t, d), at := Deleting)
      case Return(outcome) => l.(at := Ended(outcome))
  }

  function ContextCode(wf: Workflow): S.Code<Local> {
    S.Code(l => NextOp(wf, l), (l, reply) => Resume(wf, l, reply))
  }

  function Times(k: string, n: nat): seq<string> { seq(n, _ => k) }

  lemma RunOnce<L>(code: map<string, S.Code<L>>, w: S.World<L>, k: string)
    ensures S.Run(code, w, Times(k, 0)) == w
    ensures S.Run(code, w, Times(k, 1)) == S.Step(code, w, k)
    ensures S.Run(code, w, Times(k, 2)) == S.Step(code, S.Step(code, w, k), k)
  {
    assert Times(k, 1)[..0] == Times(k, 0) && Times(k, 2)[..1] == Times(k, 1);
  }

  // ---- The code's operations are the context's ----

  /** The context of case `k` is about to make a call. */
  ghost predicate Calls(wf: Workflow, code: map<string, S.Code<Local>>, w: S.World<Local>, k: string, call: Call) {
    && k in code && code[k] == ContextCode(wf) && k in w.locals
    && w.locals[k].at == Deciding && wf(w.locals[k].start, w.locals[k].answers) == call
    && w.locals[k].current.caseKey == k && Coherent(w.locals[k].cache, k, w.entries)
  }

  /** The context of case `k` has its answer and is coherent again. */
  ghost predicate Answered(before: S.World<Local>, after: S.World<Local>, k: string, answer: Answer) {
    && k in before.locals && k in after.locals
    && after.locals[k].answers == before.locals[k].answers + [answer]
    && after.locals[k].at == Deciding && after.locals[k].start == before.locals[k].start
    && after.locals[k].current.caseKey == k && Coherent(after.locals[k].cache, k, after.entries)
  }

  /** A step in one or two operations is `PlainStep`. */
  lemma StepCodeIsPlain(wf: Workflow, code: map<string, S.Code<Local>>, w: S.World<Local>, k: string,
                        name: string, body: Result<Json, string>)
    requires Calls(wf, code, w, k, RunStep(name, body))
    ensures var plain := PlainStep(w.entries, k, name, body);
            var after := S.Run(code, w, Times(k, if plain.2 && body.Ok? then 2 else 1));
            after.entries == plain.0 && after.cases == w.cases && Answered(w, after, k, StepAnswer(plain.1))
  {
    RunOnce(code, w, k);
    var l := w.locals[k];
    CacheShowsIffNull(l.cache, w.entries, k, name);
    WarmKeepsCoherent(l.cache, w.entries, k, name);
    var live := Live(w.entries, k, name);
    if live.Some? {
      assert l.cache[CacheKey(k, CheckpointKey(name)) := live.value] == Warm(l.cache, w.entries, k, name);
    } else if body.Ok? {
      SaveKeepsCoherent(l.cache, w.entries, k, name, body.value);
    }
  }

  /** Writing a state variable is one save. */
  lemma WriteCodeSaves(wf: Workflow, code: map<string, S.Code<Local>>, w: S.World<Local>, k: string, name: string, value: Json)
    requires Calls(wf, code, w, k, WriteState(name, value))
    ensures var after := S.Run(code, w, Times(k, 1));
            && after.entries == w.entries[(k, StateKey(name)) := value] && after.cases == w.cases
            && Answered(w, after, k, Written)
  {
    RunOnce(code, w, k);
    CheckpointMeetsStateIff("state_" + name, name);
    SaveKeepsCoherent(w.locals[k].cache, w.entries, k, "state_" + name, value);
  }

  /** Reading a state variable answers the stored value or the default. */
  lemma ReadCodeReads(wf: Workflow, code: map<string, S.Code<Local>>, w: S.World<Local>, k: string, name: string, default: Json)
    requires Calls(wf, code, w, k, ReadState(name, default))
    ensures var after := S.Run(code, w, Times(k, 1));
            var stored := Find(w.entries, (k, StateKey(name)));
            && after.entries == w.entries && after.cases == w.cases
            && Answered(w, after, k, StateAnswer(if stored.Some? then stored.value else default))
  {
    RunOnce(code, w, k);
    CheckpointMeetsStateIff("state_" + name, name);
    var stored := Find(w.entries, (k, StateKey(name)));
    if stored.Some? {
      SaveKeepsCoherent(w.locals[k].cache, w.entries, k, "state_" + name, stored.value);
      assert w.entries[(k, StateKey(name)) := stored.value] == w.entries;
    }
  }

  /** Finishing stores the finished case and then deletes its state. */
  lemma FinishCodeFinishes(wf: Workflow, code: map<string, S.Code<Local>>, w: S.World<Local>, k: string, t: string, d: string)
    requires Calls(wf, code, w, k, FinishCase(t, d))
    ensures var first, after := S.Run(code, w, Times(k, 1)), S.Run(code, w, Times(k, 2));
            var finished := w.locals[k].current.McFinish(t, d);
            && first.entries == w.entries && first.cases == w.cases[k := finished]
            && after.entries == Without(w.entries, k) && after.cases == first.cases
            && Answered(w, after, k, Written) && after.locals[k].current == finished
  {
    RunOnce(code, w, k);
  }

  /** Returning ends the run with that outcome and changes nothing in the stores. */
  lemma ReturnCodeEnds(wf: Workflow, code: map<string, S.Code<Local>>, w: S.World<Local>, k: string, outcome: RunOutcome)
    requires Calls(wf, code, w, k, Return(outcome))
    ensures var after := S.Run(code, w, Times(k, 1));
            && after.entries == w.entries && after.cases == w.cases
            && k in after.locals && after.locals[k] == w.locals[k].(at := Ended(outcome))
  {
    RunOnce(code, w, k);
  }

  // ---- A tick's runs, interleaved ----

  /** The state entries of one case. */
  function Partition(entries: Entries, k: string): Locals {
    map p | p in entries && p.0 == k :: p.1 := entries[p]
  }

  /** The world in which the context of one case runs alone. */
  function AloneWorld(c: Case, locals: Locals): S.World<Local> {
    S.World(map step | step in locals :: (c.caseKey, step) := locals[step], map[], map[c.caseKey := Start(c)])
  }

  function Alone(wf: Workflow, c: Case, locals: Locals, n: nat): S.World<Local> {
    S.Run(map[c.caseKey := ContextCode(wf)], AloneWorld(c, locals), Times(c.caseKey, n))
  }

  /** Alone, the workflow comes to this end within `n` operations. */
  ghost predicate EndsAlone(wf: Workflow, c: Case, locals: Locals, n: nat, end: (RunOutcome, Locals)) {
    var w := Alone(wf, c, locals, n);
    c.caseKey in w.locals && w.locals[c.caseKey].at == Ended(end.0) && Partition(w.entries, c.caseKey) == end.1
  }

  /** The scheduler's atomic run of a case is what the case's context comes to alone. */
  ghost predicate Realises(run: Run, wf: Workflow) {
    forall c, locals :: exists n :: EndsAlone(wf, c, locals, n, run(c, locals))
  }

  /** A context's own state is the same in both worlds; the stored cases, which its code never
      reads, may differ. */
  ghost predicate SameOwn(k: string, a: S.World<Local>, b: S.World<Local>) {
    && Find(a.locals, k) == Find(b.locals, k)
    && forall step :: Find(a.entries, (k, step)) == Find(b.entries, (k, step))
  }

  lemma NeverReadsCases(wf: Workflow, l: Local)
    ensures !NextOp(wf, l).GetByKey?
  {
  }

  lemma OwnStep(wf: Workflow, code: map<string, S.Code<Local>>, alone: map<string, S.Code<Local>>,
                a: S.World<Local>, b: S.World<Local>, k: string)
    requires k in code && code[k] == ContextCode(wf) && k in alone && alone[k] == ContextCode(wf)
    requires SameOwn(k, a, b)
    ensures SameOwn(k, S.Step(code, a, k), S.Step(alone, b, k))
  {
    hide NextOp, Resume;
    if k in a.locals {
      NeverReadsCases(wf, a.locals[k]);
      var op := NextOp(wf, a.locals[k]);
      var (a', ra) := S.Apply(a, k, op);
      var (b', rb) := S.Apply(b, k, op);
      assert ra == rb;
      forall step ensures Find(a'.entries, (k, step)) == Find(b'.entries, (k, step)) {
        assert Find(a.entries, (k, step)) == Find(b.entries, (k, step));
      }
    }
  }

  function Count(schedule: seq<string>, k: string): nat {
    if schedule == [] then 0
    else Count(schedule[..|schedule| - 1], k) + if schedule[|schedule| - 1] == k then 1 else 0
  }

  /** Beside any other contexts a context goes as far as its own steps take it alone. */
  lemma {:induction false} GoesAsAlone(wf: Workflow, code: map<string, S.Code<Local>>, w: S.World<Local>,
                                       schedule: seq<string>, c: Case, locals: Locals)
    requires c.caseKey in code && code[c.caseKey] == ContextCode(wf)
    requires SameOwn(c.caseKey, w, AloneWorld(c, locals))
    ensures SameOwn(c.caseKey, S.Run(code, w, schedule), Alone(wf, c, locals, Count(schedule, c.caseKey)))
    decreases |schedule|
  {
    hide SameOwn, Alone, AloneWorld, ContextCode, Times;
    var k := c.caseKey;
    if schedule == [] {
      AloneStart(wf, c, locals);
    } else {
      var front, last := schedule[..|schedule| - 1], schedule[|schedule| - 1];
      GoesAsAlone(wf, code, w, front, c, locals);
      var so := S.Run(code, w, front);
      var there := Alone(wf, c, locals, Count(front, k));
      if last == k {
        AloneNext(wf, c, locals, Count(front, k));
        OwnStep(wf, code, map[k := ContextCode(wf)], so, there, k);
      } else {
        OtherStep(code, so, there, last, k);
      }
    }
  }

  lemma AloneStart(wf: Workflow, c: Case, locals: Locals)
    ensures Alone(wf, c, locals, 0) == AloneWorld(c, locals)
  {
    RunOnce(map[c.caseKey := ContextCode(wf)], AloneWorld(c, locals), c.caseKey);
  }

  lemma OtherStep(code: map<string, S.Code<Local>>, a: S.World<Local>, b: S.World<Local>, j: string, k: string)
    requires j != k && SameOwn(k, a, b)
    ensures SameOwn(k, S.Step(code, a, j), b)
  {
    S.StepOther(code, a, j, k);
    hide S.Step, S.Apply;
  }

  /** A context that has ended stays as it is. */
  lemma {:induction false} EndStays(wf: Workflow, c: Case, locals: Locals, m: nat, n: nat)
    requires m <= n
    requires var w := Alone(wf, c, locals, m); c.caseKey in w.locals && w.locals[c.caseKey].at.Ended?
    ensures Alone(wf, c, locals, n) == Alone(wf, c, locals, m)
    decreases n
  {
    hide *;
    if m < n {
      EndStays(wf, c, locals, m, n - 1);
      AloneNext(wf, c, locals, n - 1);
      EndedStep(wf, Alone(wf, c, locals, m), c.caseKey);
    }
  }

  lemma {:induction false} AloneNext(wf: Workflow, c: Case, locals: Locals, n: nat)
    ensures Alone(wf, c, locals, n + 1)
            == S.Step(map[c.caseKey := ContextCode(wf)], Alone(wf, c, locals, n), c.caseKey)
  {
    assert Times(c.caseKey, n + 1)[..n] == Times(c.caseKey, n);
  }

  lemma EndedStep(wf: Workflow, w: S.World<Local>, k: string)
    requires k in w.locals && w.locals[k].at.Ended?
    ensures S.Step(map[k := ContextCode(wf)], w, k) == w
  {
    assert w.locals[k := w.locals[k]] == w.locals;
  }

  /** The world at the start of the runs of a tick: a context for each case to be run. */
  function Beginning(entries: Entries, stored: map<string, Case>, runs: map<string, Case>): S.World<Local> {
    S.World(entries, stored, map k | k in runs :: Start(runs[k]))
  }

  function Codes(wf: Workflow, runs: map<string, Case>): map<string, S.Code<Local>> {
    map k | k in runs :: ContextCode(wf)
  }

  ghost predicate AllEnded(w: S.World<Local>, runs: map<string, Case>) {
    forall k :: k in runs ==> k in w.locals && w.locals[k].at.Ended?
  }

  /** However the store operations of the runs are interleaved, once all have ended each run
      has the outcome and the state entries of the atomic run, and no other case's entries
      have changed. */
  lemma {:induction false} InterleavedRunsAreAtomic(run: Run, wf: Workflow, entries: Entries, stored: map<string, Case>,
                                 runs: map<string, Case>, schedule: seq<string>, k: string)
    requires Realises(run, wf)
    requires forall j :: j in runs ==> runs[j].caseKey == j
    requires AllEnded(S.Run(Codes(wf, runs), Beginning(entries, stored, runs), schedule), runs)
    ensures var w := S.Run(Codes(wf, runs), Beginning(entries, stored, runs), schedule);
            if k in runs then (w.locals[k].at.outcome, Partition(w.entries, k)) == run(runs[k], Partition(entries, k))
            else Partition(w.entries, k) == Partition(entries, k)
  {
    var code, begin := Codes(wf, runs), Beginning(entries, stored, runs);
    var w := S.Run(code, begin, schedule);
    if k in runs {
      var c, locals := runs[k], Partition(entries, k);
      BeginsAsAlone(entries, stored, runs, k);
      GoesAsAlone(wf, code, begin, schedule, c, locals);
      var m := Count(schedule, k);
      var n :| EndsAlone(wf, c, locals, n, run(c, locals));
      SamePartition(k, w, Alone(wf, c, locals, m));
      if m <= n {
        EndStays(wf, c, locals, m, n);
      } else {
        EndStays(wf, c, locals, n, m);
      }
    } else {
      OthersUntouched(code, begin, schedule, k);
      SamePartition(k, w, begin);
    }
  }

  lemma SamePartition(k: string, a: S.World<Local>, b: S.World<Local>)
    ensures (forall step :: Find(a.entries, (k, step)) == Find(b.entries, (k, step)))
            <==> Partition(a.entries, k) == Partition(b.entries, k)
  {
    forall e: Entries, step ensures Find(Partition(e, k), step) == Find(e, (k, step)) {
      PartitionFinds(e, k, step);
    }
    if Partition(a.entries, k) == Partition(b.entries, k) {
      forall step ensures Find(a.entries, (k, step)) == Find(b.entries, (k, step)) {
        PartitionFinds(a.entries, k, step);
        PartitionFinds(b.entries, k, step);
      }
    } else {
      var p, q := Partition(a.entries, k), Partition(b.entries, k);
      var step :| Find(p, step) != Find(q, step);
    }
  }

  lemma PartitionFinds(entries: Entries, k: string, step: string)
    ensures Find(Partition(entries, k), step) == Find(entries, (k, step))
  {
    assert (k, step) in entries ==> (k, step).1 in Partition(entries, k);
    if step in Partition(entries, k) {
      var p :| p in entries && p.0 == k && p.1 == step;
      assert p == (k, step);
    }
  }

  lemma {:induction false} OthersUntouched<L>(code: map<string, S.Code<L>>, w: S.World<L>, schedule: seq<string>, k: string)
    requires k !in code
    ensures forall step :: Find(S.Run(code, w, schedule).entries, (k, step)) == Find(w.entries, (k, step))
    decreases |schedule|
  {
    if schedule != [] {
      var front, last := schedule[..|schedule| - 1], schedule[|schedule| - 1];
      OthersUntouched(code, w, front, k);
      if last != k {
        S.StepOther(code, S.Run(code, w, front), last, k);
      }
    }
  }

  lemma {:induction false} CountTimes(schedule: seq<string>, j: string, n: nat, k: string)
    ensures Count(schedule + Times(j, n), k) == Count(schedule, k) + if j == k then n else 0
    decreases n
  {
    if n == 0 {
      assert schedule + Times(j, n) == schedule;
    } else {
      var all := schedule + Times(j, n);
      assert all[..|all| - 1] == schedule + Times(j, n - 1) && all[|all| - 1] == j;
      CountTimes(schedule, j, n - 1, k);
    }
  }

  /** The runs of a tick can end: one after the other, for example. */
  lemma SomeScheduleEnds(run: Run, wf: Workflow, entries: Entries, stored: map<string, Case>, runs: map<string, Case>)
    returns (schedule: seq<string>)
    requires Realises(run, wf)
    requires forall j :: j in runs ==> runs[j].caseKey == j
    ensures AllEnded(S.Run(Codes(wf, runs), Beginning(entries, stored, runs), schedule), runs)
  {
    hide *;
    schedule := [];
    NoneCounted();
    var rest := runs.Keys;
    while rest != {}
      invariant rest <= runs.Keys
      invariant forall k :: k in rest ==> Count(schedule, k) == 0
      invariant forall k :: k in runs && k !in rest ==>
                  EndsAlone(wf, runs[k], Partition(entries, k), Count(schedule, k), run(runs[k], Partition(entries, k)))
    {
      var k :| k in rest;
      var n := EndsSomewhere(run, wf, runs[k], Partition(entries, k));
      forall j ensures Count(schedule + Times(k, n), j) == Count(schedule, j) + if j == k then n else 0 {
        CountTimes(schedule, k, n, j);
      }
      schedule, rest := schedule + Times(k, n), rest - {k};
    }
    var w := S.Run(Codes(wf, runs), Beginning(entries, stored, runs), schedule);
    forall k | k in runs ensures k in w.locals && w.locals[k].at.Ended? {
      EndedInSchedule(run, wf, entries, stored, runs, schedule, k);
    }
    AllEndedIf(w, runs);
  }

  lemma NoneCounted()
    ensures forall k :: Count([], k) == 0
  {
  }

  lemma {:induction false} EndsSomewhere(run: Run, wf: Workflow, c: Case, locals: Locals) returns (n: nat)
    requires Realises(run, wf)
    ensures EndsAlone(wf, c, locals, n, run(c, locals))
  {
    n :| EndsAlone(wf, c, locals, n, run(c, locals));
  }

  lemma AllEndedIf(w: S.World<Local>, runs: map<string, Case>)
    requires forall k :: k in runs ==> k in w.locals && w.locals[k].at.Ended?
    ensures AllEnded(w, runs)
  {
  }

  lemma EndedInSchedule(run: Run, wf: Workflow, entries: Entries, stored: map<string, Case>,
                        runs: map<string, Case>, schedule: seq<string>, k: string)
    requires k in runs && runs[k].caseKey == k
    requires EndsAlone(wf, runs[k], Partition(entries, k), Count(schedule, k), run(runs[k], Partition(entries, k)))
    ensures var w := S.Run(Codes(wf, runs), Beginning(entries, stored, runs), schedule);
            k in w.locals && w.locals[k].at.Ended?
  {
    hide Alone, S.Run, Count, Partition;
    var c, locals := runs[k], Partition(entries, k);
    BeginsAsAlone(entries, stored, runs, k);
    GoesAsAlone(wf, Codes(wf, runs), Beginning(entries, stored, runs), schedule, c, locals);
  }

  lemma BeginsAsAlone(entries: Entries, stored: map<string, Case>, runs: map<string, Case>, k: string)
    requires k in runs && runs[k].caseKey == k
    ensures SameOwn(k, Beginning(entries, stored, runs), AloneWorld(runs[k], Partition(entries, k)))
  {
    hide Start;
    forall step ensures Find(entries, (k, step)) == Find(AloneWorld(runs[k], Partition(entries, k)).entries, (k, step)) {
      PartitionFinds(entries, k, step);
      AloneFinds(runs[k], Partition(entries, k), step);
    }
  }

  lemma AloneFinds(c: Case, locals: Locals, step: string)
    ensures Find(AloneWorld(c, locals).entries, (c.caseKey, step)) == Find(locals, step)
  {
    assert step in locals ==> (c.caseKey, step) in AloneWorld(c, locals).entries;
  }

  /** The cases a tick executes, as they are after the polls. */
  ghost function Executions(input: TickInput, d: Dict): map<string, Case> {
    map k | k in d && d[k].IsExecuted(input) :: d[k].AfterPolls(input).current
  }

  /** The entry of a case once the runs of phase four have ended in world `w`. */
  ghost function Collected(input: TickInput, d: Dict, w: S.World<Local>, k: string): Entry
    requires k in d && AllEnded(w, Executions(input, d))
  {
    var e := d[k].AfterPolls(input);
    if k in Executions(input, d) then e.Record((w.locals[k].at.outcome, Partition(w.entries, k)))
    else e.(locals := Partition(w.entries, k))
  }

  /** A parallel tick whose runs interleave their store operations in any way ends in the
      dictionary and the store of a tick whose runs are atomic. */
  lemma {:induction false} ParallelTickIsAtomic(input: TickInput, d: Dict, wf: Workflow, entries: Entries,
                                                stored: map<string, Case>, schedule: seq<string>, w: S.World<Local>)
    requires Realises(input.execute, wf)
    requires forall k :: k in d ==> d[k].current.caseKey == k && Partition(entries, k) == d[k].AfterPolls(input).locals
    requires w == S.Run(Codes(wf, Executions(input, d)), Beginning(entries, stored, Executions(input, d)), schedule)
    requires AllEnded(w, Executions(input, d))
    ensures (map k | k in d :: Collected(input, d, w, k)) == AfterRuns(input, d)
    ensures forall k :: k in d ==> Partition(w.entries, k) == d[k].AfterRun(input).locals
  {
    hide S.Run, Realises, Partition, Codes, Beginning, Collected, AllEnded, Entry.AfterRun, Entry.AfterPolls, Entry.IsExecuted;
    ExecutionsKeyed(input, d);
    forall k | k in d
      ensures Collected(input, d, w, k) == d[k].AfterRun(input) && Partition(w.entries, k) == d[k].AfterRun(input).locals
    {
      InterleavedRunsAreAtomic(input.execute, wf, entries, stored, Executions(input, d), schedule, k);
      CollectedIs(input, d, w, k);
    }
  }

  lemma ExecutionsKeyed(input: TickInput, d: Dict)
    requires forall k :: k in d ==> d[k].current.caseKey == k
    ensures forall k :: k in Executions(input, d) ==> Executions(input, d)[k].caseKey == k
  {
  }

  lemma CollectedIs(input: TickInput, d: Dict, w: S.World<Local>, k: string)
    requires k in d && AllEnded(w, Executions(input, d))
    requires if k in Executions(input, d)
             then (w.locals[k].at.outcome, Partition(w.entries, k))
                  == input.execute(Executions(input, d)[k], d[k].AfterPolls(input).locals)
             else Partition(w.entries, k) == d[k].AfterPolls(input).locals
    ensures Collected(input, d, w, k) == d[k].AfterRun(input) && Partition(w.entries, k) == d[k].AfterRun(input).locals
  {
    hide Partition, Entry.AfterPolls;
  }
}
