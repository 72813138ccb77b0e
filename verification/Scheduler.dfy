/** One scheduler tick over a dictionary of cases, and what whole runs of ticks keep
    (crates/workflow_engine/src/engine.rs, crates/workflow_engine/src/poll.rs). */
module Scheduler {
  import opened Common
  import opened Cases

  datatype Poll = Poll(resourceType: string, resourceId: string, stepName: string, intentDesc: Option<string>)

  /** What one run of a workflow on a context returns. */
  datatype RunOutcome =
    | Continue
    | WaitFor(polls: seq<Poll>)
    | Finish(finishedType: string, finishedDescription: string)
    | Fail(error: string)
    | Panic

  datatype Fetch = Payload(payload: Json) | NotReady | FetchError(error: string)

  /** The state-store partition of one case, the only part its context touches. */
  type Locals = map<string, Json>

  type Run = (Case, Locals) -> (RunOutcome, Locals)

  datatype ExecutionMode = Sequential | Parallel

  /** What the outside world answers during one tick: which workflow codes are registered,
      what a case's workflow does when probed and when executed, what is fetched, and
      whether shutdown is requested. */
  datatype TickInput = TickInput(
    registered: string -> bool,
    probe: Run,
    execute: Run,
    fetcher: Option<(string, string) -> Fetch>,
    shutdown: bool)

  datatype TickResult = Executed | Idle | ShutdownRequested

  /** A tick returns its result unless a workflow panics on the scheduler's own task. */
  datatype TickEnd = Returned(result: TickResult) | Panicked

  datatype PollMatch = PollMatch(stepName: string, payload: Json)

  // ----- Poll evaluation -----

  predicate IsPayload(fetch: (string, string) -> Fetch, p: Poll) {
    fetch(p.resourceType, p.resourceId).Payload?
  }

  /** The matches of a poll list: the payloads fetched, in order, failures skipped. */
  function Matches(fetch: (string, string) -> Fetch, polls: seq<Poll>): seq<PollMatch> {
    if polls == [] then []
    else
      var last := polls[|polls| - 1];
      Matches(fetch, polls[..|polls| - 1])
      + (if IsPayload(fetch, last) then [PollMatch(last.stepName, fetch(last.resourceType, last.resourceId).payload)] else [])
  }

  method Evaluate(fetch: (string, string) -> Fetch, polls: seq<Poll>) returns (matches: seq<PollMatch>)
    ensures matches == Matches(fetch, polls)
  {
    matches := [];
    for i := 0 to |polls|
      invariant matches == Matches(fetch, polls[..i])
    {
      assert polls[..i + 1][..i] == polls[..i];
      match fetch(polls[i].resourceType, polls[i].resourceId) {
        case Payload(payload) => matches := matches + [PollMatch(polls[i].stepName, payload)];
        case NotReady =>
        case FetchError(_) =>
      }
    }
    assert polls[..|polls|] == polls;
  }

  /** Every poll whose fetch gives a payload matches with its own step name and that payload,
      every other poll does not, and the matches keep the order of the polls. */
  lemma {:induction false} MatchesPollByPoll(fetch: (string, string) -> Fetch, a: seq<Poll>, p: Poll, b: seq<Poll>)
    ensures Matches(fetch, a + [p] + b) ==
            Matches(fetch, a)
            + (match fetch(p.resourceType, p.resourceId)
               case Payload(payload) => [PollMatch(p.stepName, payload)]
               case NotReady => []
               case FetchError(_) => [])
            + Matches(fetch, b)
    ensures Matches(fetch, []) == []
    decreases |b|
  {
    if b == [] {
      assert a + [p] + b == a + [p] && (a + [p])[..|a|] == a;
    } else {
      var front, last := b[..|b| - 1], b[|b| - 1];
      MatchesPollByPoll(fetch, a, p, front);
      assert (a + [p] + b)[..|a + [p] + b| - 1] == a + [p] + front;
    }
  }

  /** A poll list matches exactly when some fetch gives a payload, whatever the others do. */
  lemma {:induction false} MatchesIff(fetch: (string, string) -> Fetch, polls: seq<Poll>)
    ensures Matches(fetch, polls) != [] <==> exists p :: p in polls && IsPayload(fetch, p)
    decreases |polls|
  {
    if polls != [] {
      var front, last := polls[..|polls| - 1], polls[|polls| - 1];
      MatchesIff(fetch, front);
      assert polls == front + [last];
    }
  }

  // ----- The tick of one case -----

  /** A case of the scheduler's dictionary, with its partition of the state store. */
  datatype Entry = Entry(current: Case, locals: Locals)
  {
    predicate IsRunning() { current.IsActive() && current.state == Running }

    predicate IsWaiting() { current.IsActive() && current.state == Waiting }

    predicate IsProbed(input: TickInput) { IsWaiting() && input.registered(current.workflowCode) }

    function Probe(input: TickInput): (RunOutcome, Locals) { input.probe(current, locals) }

    predicate Continues(input: TickInput) { IsProbed(input) && Probe(input).0.Continue? }

    /** The polls to evaluate: those of a probed case that still waits. */
    function PendingPolls(input: TickInput): seq<Poll> {
      if IsProbed(input) && Probe(input).0.WaitFor? then Probe(input).0.polls else []
    }

    /** A fetch for one of the pending polls gave a payload. */
    predicate PollHit(input: TickInput) {
      input.fetcher.Some? && exists p :: p in PendingPolls(input) && IsPayload(input.fetcher.value, p)
    }

    predicate Wakes(input: TickInput) { Continues(input) || PollHit(input) }

    /** After phase 2. */
    function AfterProbe(input: TickInput): Entry {
      if !IsProbed(input) then this
      else
        var (outcome, locals') := Probe(input);
        Entry(match outcome
              case Continue => current.McRun()
              case Finish(t, d) => current.McFinish(t, d)
              case _ => current,
              locals')
    }

    /** After phase 3. */
    function AfterPolls(input: TickInput): Entry {
      if PollHit(input) then AfterProbe(input).Run() else AfterProbe(input)
    }

    function Run(): Entry { this.(current := current.McRun()) }

    predicate IsReady(input: TickInput) { IsRunning() || Wakes(input) }

    predicate IsExecuted(input: TickInput) { IsReady(input) && input.registered(current.workflowCode) }

    function Execute(input: TickInput): (RunOutcome, Locals) {
      input.execute(AfterPolls(input).current, AfterPolls(input).locals)
    }

    /** After phase 4. */
    function AfterRun(input: TickInput): Entry {
      if IsExecuted(input) then AfterPolls(input).Record(Execute(input)) else AfterPolls(input)
    }

    /** What phase 4 does with the outcome of a run. */
    function Record(run: (RunOutcome, Locals)): Entry {
      Entry(match run.0
            case WaitFor(_) => current.McWait()
            case Finish(t, d) => current.McFinish(t, d)
            case _ => current,
            run.1)
    }

    predicate ProbePanics(input: TickInput) { IsProbed(input) && Probe(input).0.Panic? }

    predicate RunPanics(input: TickInput) { IsExecuted(input) && Execute(input).0.Panic? }

    predicate Works(input: TickInput) { IsExecuted(input) && CountsAsWork(Execute(input).0) }
  }

  predicate CountsAsWork(outcome: RunOutcome) { !outcome.Fail? && !outcome.Panic? }

  // ----- The tick of a dictionary -----

  type Dict = map<string, Entry>

  ghost function AfterProbes(input: TickInput, d: Dict): Dict { map k | k in d :: d[k].AfterProbe(input) }

  ghost function AfterPolls(input: TickInput, d: Dict): Dict { map k | k in d :: d[k].AfterPolls(input) }

  ghost function AfterRuns(input: TickInput, d: Dict): Dict { map k | k in d :: d[k].AfterRun(input) }

  ghost function RunningKeys(d: Dict): set<string> { set k | k in d && d[k].IsRunning() }

  ghost function WaitingKeys(d: Dict): set<string> { set k | k in d && d[k].IsWaiting() }

  ghost function ProbedKeys(input: TickInput, d: Dict): set<string> { set k | k in d && d[k].IsProbed(input) }

  ghost function ContinuedKeys(input: TickInput, d: Dict): set<string> { set k | k in d && d[k].Continues(input) }

  ghost function HitKeys(input: TickInput, d: Dict): set<string> { set k | k in d && d[k].PollHit(input) }

  ghost function WokenKeys(input: TickInput, d: Dict): set<string> { set k | k in d && d[k].Wakes(input) }

  ghost function ReadyKeys(input: TickInput, d: Dict): set<string> { set k | k in d && d[k].IsReady(input) }

  ghost function ExecutedKeys(input: TickInput, d: Dict): set<string> { set k | k in d && d[k].IsExecuted(input) }

  ghost function WorkedKeys(input: TickInput, d: Dict): set<string> { set k | k in d && d[k].Works(input) }

  ghost function ProbePanicKeys(input: TickInput, d: Dict): set<string> { set k | k in d && d[k].ProbePanics(input) }

  ghost function RunPanicKeys(input: TickInput, d: Dict): set<string> { set k | k in d && d[k].RunPanics(input) }

  /** The dictionary after a tick: every case moves on its own. */
  ghost function AfterTick(input: TickInput, d: Dict): Dict {
    if input.shutdown then d else AfterRuns(input, d)
  }

  ghost function ResultOf(input: TickInput, d: Dict): TickResult {
    if input.shutdown then ShutdownRequested else if WorkedKeys(input, d) != {} then Executed else Idle
  }

  /** A panic unwinds the tick when it happens in a probe, or in a sequential run; a
      parallel run's panic stays in its task. */
  ghost predicate TickPanics(input: TickInput, d: Dict, mode: ExecutionMode) {
    && !input.shutdown
    && (ProbePanicKeys(input, d) != {} || (mode == Sequential && RunPanicKeys(input, d) != {}))
  }

  // ----- Bookkeeping of the loops -----

  /** Part way from `a` to `b`: the keys in `done` are there, the others not yet. */
  ghost function Mix(a: Dict, b: Dict, done: set<string>): Dict {
    map k | k in a :: if k in done && k in b then b[k] else a[k]
  }

  /** The dictionary a panicking tick leaves behind: the cases in `done` have been probed, or,
      if it was a run that panicked, executed. */
  ghost function Unwinding(input: TickInput, d: Dict, done: set<string>): Dict {
    if ProbePanicKeys(input, d) != {} then Mix(d, AfterProbes(input, d), done)
    else Mix(AfterPolls(input, d), AfterRuns(input, d), done)
  }

  ghost predicate IsUnwinding(input: TickInput, d: Dict, after: Dict) {
    exists done :: after == Unwinding(input, d, done)
  }

  lemma MixNext(a: Dict, b: Dict, done: set<string>, k: string)
    requires k in a && k in b
    ensures Mix(a, b, done + {k}) == Mix(a, b, done)[k := b[k]]
    ensures k !in done ==> Mix(a, b, done)[k] == a[k]
  {
  }

  lemma MixEnds(a: Dict, b: Dict, done: set<string>)
    requires a.Keys == b.Keys
    ensures Mix(a, b, a.Keys) == b
    ensures (forall k :: k in done && k in a ==> a[k] == b[k]) ==> Mix(a, b, done) == a
  {
  }

  /** A list without repetition of exactly the keys that are both done and chosen. */
  ghost predicate Lists(keys: seq<string>, done: set<string>, chosen: set<string>) {
    Distinct(keys) && forall k :: k in keys <==> k in done && k in chosen
  }

  lemma ListsNext(keys: seq<string>, done: set<string>, chosen: set<string>, k: string)
    requires Lists(keys, done, chosen) && k !in done
    ensures Lists(if k in chosen then keys + [k] else keys, done + {k}, chosen)
  {
  }

  /** What is not done is exactly the keys from position `i` on. */
  ghost predicate Remaining(keys: seq<string>, i: nat, all: set<string>, done: set<string>) {
    i <= |keys| && done <= all && forall k :: k in keys[i..] <==> k in all && k !in done
  }

  lemma RemainingStart(keys: seq<string>, all: set<string>, chosen: set<string>)
    requires chosen <= all && Lists(keys, all, chosen)
    ensures Remaining(keys, 0, all, all - chosen)
  {
    assert keys[0..] == keys;
  }

  lemma RemainingNext(keys: seq<string>, i: nat, all: set<string>, done: set<string>)
    requires Distinct(keys) && Remaining(keys, i, all, done) && i < |keys|
    ensures keys[i] in keys && keys[i] in all && keys[i] !in done
    ensures Remaining(keys, i + 1, all, done + {keys[i]})
  {
    assert keys[i..] == [keys[i]] + keys[i + 1..];
    assert keys[i] !in keys[i + 1..];
    assert keys[i] in keys[i..];
    assert forall k :: k in keys[i..] <==> k == keys[i] || k in keys[i + 1..];
  }

  lemma RemainingEnd(keys: seq<string>, all: set<string>, done: set<string>)
    requires Remaining(keys, |keys|, all, done)
    ensures done == all
  {
    assert forall k :: k in all && k !in done ==> k in keys[|keys|..];
  }

  /** The records phase 2 keeps: woken keys, polls to evaluate, keys probed. */
  ghost predicate ProbeLists(input: TickInput, d: Dict, done: set<string>,
                             woken: seq<string>, results: seq<(string, seq<Poll>)>, probed: seq<string>) {
    && Lists(woken, done, ContinuedKeys(input, d))
    && Lists(probed, done, ProbedKeys(input, d))
    && ListsPolls(input, d, done, results)
  }

  ghost predicate ListsPolls(input: TickInput, d: Dict, done: set<string>, results: seq<(string, seq<Poll>)>) {
    forall k, polls :: (k, polls) in results <==> k in done && k in d && polls == d[k].PendingPolls(input) && polls != []
  }

  lemma ProbeListsNext(input: TickInput, d: Dict, done: set<string>,
                       woken: seq<string>, results: seq<(string, seq<Poll>)>, probed: seq<string>, k: string)
    requires ProbeLists(input, d, done, woken, results, probed)
    requires k in d && k !in done
    ensures ProbeLists(input, d, done + {k},
                       if d[k].Continues(input) then woken + [k] else woken,
                       if d[k].PendingPolls(input) != [] then results + [(k, d[k].PendingPolls(input))] else results,
                       if d[k].IsProbed(input) then probed + [k] else probed)
  {
    ListsNext(woken, done, ContinuedKeys(input, d), k);
    ListsNext(probed, done, ProbedKeys(input, d), k);
  }

  /** The records phase 4 keeps: whether anything counts as work, keys executed. */
  ghost predicate RunLists(input: TickInput, d: Dict, done: set<string>, any: bool, executed: seq<string>) {
    && (any <==> done * WorkedKeys(input, d) != {})
    && Lists(executed, done, ExecutedKeys(input, d))
  }

  lemma RunListsNext(input: TickInput, d: Dict, done: set<string>, any: bool, executed: seq<string>, k: string)
    requires RunLists(input, d, done, any, executed)
    requires k in d && k !in done
    ensures RunLists(input, d, done + {k}, any || d[k].Works(input), if d[k].IsExecuted(input) then executed + [k] else executed)
  {
    ListsNext(executed, done, ExecutedKeys(input, d), k);
    assert (done + {k}) * WorkedKeys(input, d) == done * WorkedKeys(input, d) + (if d[k].Works(input) then {k} else {});
  }

  lemma RunListsStart(input: TickInput, d: Dict)
    ensures RunLists(input, d, d.Keys - ReadyKeys(input, d), false, [])
    ensures forall k :: k in d && k !in ReadyKeys(input, d) ==> AfterPolls(input, d)[k] == AfterRuns(input, d)[k]
  {
  }

  // ----- The scheduler -----

  /** No later case of the list has the same key. */
  predicate IsLast(cases: seq<Entry>, i: nat)
    requires i < |cases|
  {
    forall j :: i < j < |cases| ==> cases[j].current.caseKey != cases[i].current.caseKey
  }

  class SchedulerEnvironment {
    var entries: Dict
    var mode: ExecutionMode

    constructor (cases: seq<Entry>, mode: ExecutionMode)
      ensures this.mode == mode
      ensures forall k :: k in entries ==> entries[k].current.caseKey == k && entries[k] in cases
      ensures forall i :: 0 <= i < |cases| ==> cases[i].current.caseKey in entries
      ensures forall i :: 0 <= i < |cases| && IsLast(cases, i) ==> entries[cases[i].current.caseKey] == cases[i]
    {
      this.entries := map[];
      this.mode := mode;
      new;
      for i := 0 to |cases|
        invariant this.mode == mode
        invariant forall k :: k in entries ==> entries[k].current.caseKey == k && entries[k] in cases
        invariant forall j :: 0 <= j < i ==> cases[j].current.caseKey in entries
        invariant forall j :: 0 <= j < i && IsLast(cases, j) ==> entries[cases[j].current.caseKey] == cases[j]
      {
        entries := entries[cases[i].current.caseKey := cases[i]];
      }
    }
  }

  /** Some order of a hash map's keys. */
  method IterationOrder(keys: set<string>) returns (order: seq<string>)
    ensures Lists(order, keys, keys)
  {
    order := [];
    var rest := keys;
    while rest != {}
      invariant rest <= keys && Lists(order, keys - rest, keys)
    {
      var k :| k in rest;
      ListsNext(order, keys - rest, keys, k);
      assert keys - rest + {k} == keys - (rest - {k});
      rest := rest - {k};
      order := order + [k];
    }
    assert keys - rest == keys;
  }

  class SchedulerV2 {
    var wokenKeys: seq<string>

    constructor ()
      ensures wokenKeys == []
    {
      wokenKeys := [];
    }

    /** One tick. For every iteration order, completion order and execution mode the
        dictionary, the store and the result are the same functions of the dictionary
        before, case by case; `probed` and `executed` record which cases were run, each at
        most once. A tick that a panic ends leaves some cases one phase behind the others. */
    method Tick(env: SchedulerEnvironment, input: TickInput)
      returns (end: TickEnd, probed: seq<string>, executed: seq<string>)
      modifies this, env`entries
      ensures end == Panicked <==> TickPanics(input, old(env.entries), env.mode)
      ensures end.Returned? ==>
                && end.result == ResultOf(input, old(env.entries))
                && env.entries == AfterTick(input, old(env.entries))
      ensures end.Returned? && !input.shutdown ==>
                && Lists(probed, env.entries.Keys, ProbedKeys(input, old(env.entries)))
                && Lists(executed, env.entries.Keys, ExecutedKeys(input, old(env.entries)))
      ensures end.Panicked? ==> IsUnwinding(input, old(env.entries), env.entries)
      ensures input.shutdown ==> probed == executed == []
    {
      ghost var d := env.entries;
      if input.shutdown {
        return Returned(ShutdownRequested), [], [];
      }
      wokenKeys := [];
      if env.entries == map[] {
        assert WorkedKeys(input, d) == {} && env.entries == AfterRuns(input, d);
        return Returned(Idle), [], [];
      }
      var runningKeys, waitingKeys := Partition(env);
      var panicked, probeResults;
      panicked, probeResults, probed := ProbeWaiting(env, input, waitingKeys, d);
      if panicked {
        return Panicked, probed, [];
      }
      EvaluatePolls(env, input, probeResults, d);
      var readyKeys := CollectReady(runningKeys, input, d);
      var anyExecuted;
      match env.mode {
        case Sequential =>
          panicked, anyExecuted, executed := ExecuteSequential(env, input, readyKeys, d);
          if panicked {
            return Panicked, probed, executed;
          }
        case Parallel =>
          anyExecuted, executed := ExecuteParallel(env, input, readyKeys, d);
      }
      assert d.Keys * WorkedKeys(input, d) == WorkedKeys(input, d);
      return Returned(if anyExecuted then Executed else Idle), probed, executed;
    }

    /** Phase 1. */
    method Partition(env: SchedulerEnvironment) returns (runningKeys: seq<string>, waitingKeys: seq<string>)
      ensures Lists(runningKeys, env.entries.Keys, RunningKeys(env.entries))
      ensures Lists(waitingKeys, env.entries.Keys, WaitingKeys(env.entries))
    {
      var order := IterationOrder(env.entries.Keys);
      runningKeys, waitingKeys := [], [];
      ghost var d, done: set<string> := env.entries, {};
      RemainingStart(order, d.Keys, d.Keys);
      for i := 0 to |order|
        invariant Remaining(order, i, d.Keys, done)
        invariant Lists(runningKeys, done, RunningKeys(d))
        invariant Lists(waitingKeys, done, WaitingKeys(d))
      {
        var k := order[i];
        RemainingNext(order, i, d.Keys, done);
        ListsNext(runningKeys, done, RunningKeys(d), k);
        ListsNext(waitingKeys, done, WaitingKeys(d), k);
        var c := env.entries[k].current;
        if c.IsActive() {
          match c.state {
            case Running => runningKeys := runningKeys + [k];
            case Waiting => waitingKeys := waitingKeys + [k];
            case Finished =>
          }
        }
        done := done + {k};
      }
      RemainingEnd(order, d.Keys, done);
    }

    /** Phase 2. */
    method ProbeWaiting(env: SchedulerEnvironment, input: TickInput, waitingKeys: seq<string>, ghost d: Dict)
      returns (panicked: bool, results: seq<(string, seq<Poll>)>, probed: seq<string>)
      requires d == env.entries && wokenKeys == []
      requires Lists(waitingKeys, d.Keys, WaitingKeys(d))
      modifies this, env`entries
      ensures panicked <==> ProbePanicKeys(input, d) != {}
      ensures panicked ==> IsUnwinding(input, d, env.entries)
      ensures !panicked ==> env.entries == AfterProbes(input, d) && ProbeLists(input, d, d.Keys, wokenKeys, results, probed)
    {
      panicked, results, probed := false, [], [];
      ghost var done, after := d.Keys - WaitingKeys(d), AfterProbes(input, d);
      RemainingStart(waitingKeys, d.Keys, WaitingKeys(d));
      MixEnds(d, after, done);
      for i := 0 to |waitingKeys|
        invariant Remaining(waitingKeys, i, d.Keys, done)
        invariant done !! ProbePanicKeys(input, d)
        invariant env.entries == Mix(d, after, done)
        invariant ProbeLists(input, d, done, wokenKeys, results, probed)
      {
        var k := waitingKeys[i];
        RemainingNext(waitingKeys, i, d.Keys, done);
        MixNext(d, after, done, k);
        panicked, results, probed := ProbeOne(env, input, k, results, probed, d, done);
        done := done + {k};
        if panicked {
          assert env.entries == Unwinding(input, d, done);
          return;
        }
      }
      RemainingEnd(waitingKeys, d.Keys, done);
    }

    /** Phase 2 for one waiting case. */
    method ProbeOne(env: SchedulerEnvironment, input: TickInput, k: string,
                    results0: seq<(string, seq<Poll>)>, probed0: seq<string>, ghost d: Dict, ghost done: set<string>)
      returns (panicked: bool, results: seq<(string, seq<Poll>)>, probed: seq<string>)
      requires k in d && k !in done && d[k].IsWaiting() && k in env.entries && env.entries[k] == d[k]
      requires ProbeLists(input, d, done, wokenKeys, results0, probed0)
      modifies this, env`entries
      ensures panicked <==> k in ProbePanicKeys(input, d)
      ensures env.entries == old(env.entries)[k := d[k].AfterProbe(input)]
      ensures !panicked ==> ProbeLists(input, d, done + {k}, wokenKeys, results, probed)
    {
      panicked, results, probed := false, results0, probed0;
      ProbeListsNext(input, d, done, wokenKeys, results, probed, k);
      var c := env.entries[k].current;
      if input.registered(c.workflowCode) {
        var (outcome, locals) := input.probe(c, env.entries[k].locals);
        if outcome.Panic? {
          panicked := true;
          env.entries := env.entries[k := Entry(c, locals)];
          return;
        }
        probed := probed + [k];
        match outcome {
          case Continue =>
            c := c.McRun();
            wokenKeys := wokenKeys + [k];
          case WaitFor(polls) =>
            if polls != [] {
              results := results + [(k, polls)];
            }
          case Finish(t, f) =>
            c := c.McFinish(t, f);
          case Fail(_) =>
        }
        env.entries := env.entries[k := Entry(c, locals)];
      } else {
        assert env.entries[k := d[k]] == env.entries;
      }
    }

    /** Phase 3: data polls first, then the polls with an intent description. */
    method EvaluatePolls(env: SchedulerEnvironment, input: TickInput, results: seq<(string, seq<Poll>)>, ghost d: Dict)
      requires env.entries == AfterProbes(input, d)
      requires Lists(wokenKeys, d.Keys, ContinuedKeys(input, d))
      requires ListsPolls(input, d, d.Keys, results)
      modifies this, env`entries
      ensures env.entries == AfterPolls(input, d)
      ensures Lists(wokenKeys, d.Keys, WokenKeys(input, d))
    {
      var dataPolls, routerPolls := SplitPolls(results);
      var polls := dataPolls + routerPolls;
      KeyedPolls(input, d, results, polls);
      PollsStart(input, d);
      if input.fetcher.Some? {
        EvaluateAll(env, input, polls, d);
      }
    }

    /** Phase 3, one poll after the other. */
    method EvaluateAll(env: SchedulerEnvironment, input: TickInput, polls: seq<(string, Poll)>, ghost d: Dict)
      requires input.fetcher.Some? && MatchedBy(input.fetcher.value, polls) == HitKeys(input, d)
      requires forall i :: 0 <= i < |polls| ==> polls[i].0 in d && polls[i].1 in d[polls[i].0].PendingPolls(input)
      requires env.entries == Polled(input, d, {})
      requires Lists(wokenKeys, d.Keys, ContinuedKeys(input, d) + {})
      modifies this, env`entries
      ensures env.entries == Polled(input, d, HitKeys(input, d))
      ensures Lists(wokenKeys, d.Keys, ContinuedKeys(input, d) + HitKeys(input, d))
    {
      ghost var hits: set<string> := {};
      for i := 0 to |polls|
        invariant hits == MatchedBy(input.fetcher.value, polls[..i]) && hits <= HitKeys(input, d)
        invariant env.entries == Polled(input, d, hits)
        invariant Lists(wokenKeys, d.Keys, ContinuedKeys(input, d) + hits)
      {
        var (key, poll) := polls[i];
        MatchedByNext(input.fetcher.value, polls, i);
        PolledNext(input, d, hits, key);
        EvaluateOne(env, input, key, poll, d, hits);
        hits := hits + (if IsPayload(input.fetcher.value, poll) then {key} else {});
      }
      assert polls[..|polls|] == polls;
    }

    /** Phase 3 for one poll. */
    method EvaluateOne(env: SchedulerEnvironment, input: TickInput, k: string, poll: Poll,
                       ghost d: Dict, ghost hits: set<string>)
      requires input.fetcher.Some? && k in d && k in env.entries
      requires IsPayload(input.fetcher.value, poll) ==> d[k].PollHit(input)
      requires env.entries[k] == if k in hits then d[k].AfterPolls(input) else d[k].AfterProbe(input)
      requires k in hits ==> d[k].PollHit(input)
      requires Lists(wokenKeys, d.Keys, ContinuedKeys(input, d) + hits)
      modifies this, env`entries
      ensures var hit := IsPayload(input.fetcher.value, poll);
              && env.entries == (if hit then old(env.entries)[k := d[k].AfterPolls(input)] else old(env.entries))
              && Lists(wokenKeys, d.Keys, ContinuedKeys(input, d) + hits + (if hit then {k} else {}))
    {
      MatchesIff(input.fetcher.value, [poll]);
      assert poll in [poll];
      var matches := Evaluate(input.fetcher.value, [poll]);
      if matches != [] {
        env.entries := env.entries[k := env.entries[k].Run()];
        if k !in wokenKeys {
          wokenKeys := wokenKeys + [k];
        }
      }
    }

    /** The ready list: the running keys, then the woken ones not among them. */
    method CollectReady(runningKeys: seq<string>, input: TickInput, ghost d: Dict) returns (readyKeys: seq<string>)
      requires Lists(runningKeys, d.Keys, RunningKeys(d))
      requires Lists(wokenKeys, d.Keys, WokenKeys(input, d))
      ensures Lists(readyKeys, d.Keys, ReadyKeys(input, d))
    {
      readyKeys := runningKeys;
      for i := 0 to |wokenKeys|
        invariant Distinct(readyKeys)
        invariant forall k :: k in readyKeys <==> k in runningKeys || k in wokenKeys[..i]
      {
        assert wokenKeys[..i + 1] == wokenKeys[..i] + [wokenKeys[i]];
        if wokenKeys[i] !in readyKeys {
          readyKeys := readyKeys + [wokenKeys[i]];
        }
      }
      assert wokenKeys[..|wokenKeys|] == wokenKeys;
    }

    /** Phase 4, one case at a time. */
    method ExecuteSequential(env: SchedulerEnvironment, input: TickInput, readyKeys: seq<string>, ghost d: Dict)
      returns (panicked: bool, anyExecuted: bool, executed: seq<string>)
      requires env.entries == AfterPolls(input, d)
      requires Lists(readyKeys, d.Keys, ReadyKeys(input, d))
      modifies env`entries
      ensures panicked <==> RunPanicKeys(input, d) != {}
      ensures panicked && ProbePanicKeys(input, d) == {} ==> IsUnwinding(input, d, env.entries)
      ensures !panicked ==> env.entries == AfterRuns(input, d) && RunLists(input, d, d.Keys, anyExecuted, executed)
    {
      RunListsStart(input, d);
      panicked, anyExecuted, executed := false, false, [];
      ghost var done, before, after := d.Keys - ReadyKeys(input, d), AfterPolls(input, d), AfterRuns(input, d);
      RemainingStart(readyKeys, d.Keys, ReadyKeys(input, d));
      MixEnds(before, after, done);
      for i := 0 to |readyKeys|
        invariant Remaining(readyKeys, i, d.Keys, done)
        invariant done !! RunPanicKeys(input, d)
        invariant env.entries == Mix(before, after, done)
        invariant RunLists(input, d, done, anyExecuted, executed)
      {
        var k := readyKeys[i];
        RemainingNext(readyKeys, i, d.Keys, done);
        MixNext(before, after, done, k);
        panicked, anyExecuted, executed := ExecuteOne(env, input, k, env.entries[k].current, anyExecuted, executed, d, done);
        done := done + {k};
        if panicked {
          assert ProbePanicKeys(input, d) == {} ==> env.entries == Unwinding(input, d, done);
          return;
        }
      }
      RemainingEnd(readyKeys, d.Keys, done);
    }

    /** Phase 4, all cases as tasks on copies of their cases, completing in any order. */
    method ExecuteParallel(env: SchedulerEnvironment, input: TickInput, readyKeys: seq<string>, ghost d: Dict)
      returns (anyExecuted: bool, executed: seq<string>)
      requires env.entries == AfterPolls(input, d)
      requires Lists(readyKeys, d.Keys, ReadyKeys(input, d))
      modifies env`entries
      ensures env.entries == AfterRuns(input, d) && RunLists(input, d, d.Keys, anyExecuted, executed)
    {
      hide RunLists, Entry.AfterRun, Entry.AfterPolls, Entry.IsReady;
      RunListsStart(input, d);
      anyExecuted, executed := false, [];
      var tasks := map k | k in readyKeys && k in env.entries :: env.entries[k].current;
      var pending := tasks.Keys;
      assert pending == ReadyKeys(input, d);
      ghost var done, before, after := d.Keys - pending, AfterPolls(input, d), AfterRuns(input, d);
      MixEnds(before, after, done);
      while pending != {}
        invariant pending <= ReadyKeys(input, d) && done == d.Keys - pending
        invariant env.entries == Mix(before, after, done)
        invariant RunLists(input, d, done, anyExecuted, executed)
        decreases pending
      {
        var k :| k in pending;
        MixNext(before, after, done, k);
        var _, any, list := ExecuteOne(env, input, k, tasks[k], anyExecuted, executed, d, done);
        anyExecuted, executed, pending := any, list, pending - {k};
        done := done + {k};
      }
      assert done == d.Keys;
    }

    /** Run one ready case on its copy `c`, if its workflow is registered, and record the
        outcome. */
    method ExecuteOne(env: SchedulerEnvironment, input: TickInput, k: string, c: Case,
                      any0: bool, executed0: seq<string>, ghost d: Dict, ghost done: set<string>)
      returns (panicked: bool, any: bool, executed: seq<string>)
      requires k in d && k !in done && d[k].IsReady(input) && k in env.entries
      requires env.entries[k] == d[k].AfterPolls(input) && c == env.entries[k].current
      requires RunLists(input, d, done, any0, executed0)
      modifies env`entries
      ensures panicked <==> k in RunPanicKeys(input, d)
      ensures env.entries == old(env.entries)[k := d[k].AfterRun(input)]
      ensures RunLists(input, d, done + {k}, any, executed)
    {
      panicked, any, executed := false, any0, executed0;
      RunListsNext(input, d, done, any, executed, k);
      if input.registered(c.workflowCode) {
        var run := input.execute(c, env.entries[k].locals);
        env.entries := env.entries[k := env.entries[k].Record(run)];
        any := any || CountsAsWork(run.0);
        executed := executed + [k];
        panicked := run.0.Panic?;
      } else {
        assert env.entries[k := d[k].AfterPolls(input)] == env.entries;
      }
    }
  }

  method SplitPolls(results: seq<(string, seq<Poll>)>) returns (data: seq<(string, Poll)>, router: seq<(string, Poll)>)
    ensures forall k, p :: (k, p) in data + router <==> exists polls :: (k, polls) in results && p in polls
  {
    data, router := [], [];
    for i := 0 to |results|
      invariant forall k, p :: (k, p) in data + router <==> exists polls :: (k, polls) in results[..i] && p in polls
    {
      var (key, polls) := results[i];
      ghost var before := data + router;
      for j := 0 to |polls|
        invariant forall k, p :: (k, p) in data + router <==> (k, p) in before || (k == key && p in polls[..j])
      {
        assert polls[..j + 1] == polls[..j] + [polls[j]];
        if polls[j].intentDesc.Some? {
          router := router + [(key, polls[j])];
        } else {
          data := data + [(key, polls[j])];
        }
      }
      assert polls[..|polls|] == polls;
      assert results[..i + 1] == results[..i] + [(key, polls)];
    }
    assert results[..|results|] == results;
  }

  /** The keys with a matching poll in a list of keyed polls. */
  ghost function MatchedBy(fetch: (string, string) -> Fetch, polls: seq<(string, Poll)>): set<string> {
    set i | 0 <= i < |polls| && IsPayload(fetch, polls[i].1) :: polls[i].0
  }

  lemma MatchedByNext(fetch: (string, string) -> Fetch, polls: seq<(string, Poll)>, i: nat)
    requires i < |polls|
    ensures MatchedBy(fetch, polls[..i + 1])
            == MatchedBy(fetch, polls[..i]) + (if IsPayload(fetch, polls[i].1) then {polls[i].0} else {})
  {
    var before, after := polls[..i], polls[..i + 1];
    assert after == before + [polls[i]];
    forall k | k in MatchedBy(fetch, before) ensures k in MatchedBy(fetch, after) {
      var j :| 0 <= j < |before| && IsPayload(fetch, before[j].1) && before[j].0 == k;
      assert after[j] == before[j];
    }
    assert IsPayload(fetch, polls[i].1) ==> IsPayload(fetch, after[i].1);
  }

  /** The keyed polls are those of the dictionary's probed cases that still wait. */
  lemma KeyedPolls(input: TickInput, d: Dict, results: seq<(string, seq<Poll>)>, polls: seq<(string, Poll)>)
    requires ListsPolls(input, d, d.Keys, results)
    requires forall k, p :: (k, p) in polls <==> exists ps :: (k, ps) in results && p in ps
    ensures forall i :: 0 <= i < |polls| ==> polls[i].0 in d && polls[i].1 in d[polls[i].0].PendingPolls(input)
    ensures input.fetcher.Some? ==> MatchedBy(input.fetcher.value, polls) == HitKeys(input, d)
    ensures input.fetcher.None? ==> HitKeys(input, d) == {}
  {
    forall i | 0 <= i < |polls| ensures polls[i].0 in d && polls[i].1 in d[polls[i].0].PendingPolls(input) {
      assert (polls[i].0, polls[i].1) in polls;
    }
    if input.fetcher.Some? {
      forall k | k in HitKeys(input, d) ensures k in MatchedBy(input.fetcher.value, polls) {
        var p :| p in d[k].PendingPolls(input) && IsPayload(input.fetcher.value, p);
        assert (k, d[k].PendingPolls(input)) in results;
        assert (k, p) in polls;
      }
    }
  }

  /** The dictionary during phase 3: the cases with a hit so far are running. */
  ghost function Polled(input: TickInput, d: Dict, hits: set<string>): Dict {
    Mix(AfterProbes(input, d), AfterPolls(input, d), hits)
  }

  lemma PollsStart(input: TickInput, d: Dict)
    ensures Polled(input, d, {}) == AfterProbes(input, d)
    ensures Polled(input, d, HitKeys(input, d)) == AfterPolls(input, d)
    ensures ContinuedKeys(input, d) + {} == ContinuedKeys(input, d)
    ensures ContinuedKeys(input, d) + HitKeys(input, d) == WokenKeys(input, d)
    ensures input.fetcher.None? ==> HitKeys(input, d) == {}
  {
  }

  lemma PolledNext(input: TickInput, d: Dict, hits: set<string>, k: string)
    requires k in d
    ensures k in Polled(input, d, hits)
    ensures Polled(input, d, hits)[k] == if k in hits then d[k].AfterPolls(input) else d[k].AfterProbe(input)
    ensures Polled(input, d, hits + {k}) == Polled(input, d, hits)[k := d[k].AfterPolls(input)]
    ensures Polled(input, d, hits + {}) == Polled(input, d, hits)
  {
    assert hits + {} == hits;
  }
}
