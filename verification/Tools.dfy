/** Tool calls executed by safety level: runs of read-only calls concurrently under a
    semaphore, other calls alone (crates/workflow_engine/src/tool.rs). */
module Tools {
  import opened Common
  import opened Llm

  datatype Safety = ReadOnly | Exclusive

  /** A tool. One execution on given arguments is a fixed number of atomic actions; each
      sees the world `W` and what the execution has observed so far, `O`. Between two
      actions other executions may act. */
  datatype Tool<!W, !O> = Tool(
    safety: Safety,
    actions: Json -> nat,
    begin: Json -> O,
    act: (nat, O, W) -> (O, W),
    finish: O -> Result<string, string>)

  /** Registered tools by name, and the JSON parser applied to call arguments. */
  datatype Registry<!W, !O> = Registry(tools: map<string, Tool<W, O>>, parse: string -> Result<Json, string>)
  {
    function SafetyOf(name: string): Safety {
      if name in tools then tools[name].safety else Exclusive
    }

    predicate ReadOnlyAt(calls: seq<ToolCall>, i: int)
      requires 0 <= i < |calls|
    {
      SafetyOf(calls[i].name) == ReadOnly
    }
  }

  /** What marking a tool ReadOnly declares: its actions leave the world as it is. */
  ghost predicate HonestReadOnly<W(!new), O(!new)>(reg: Registry<W, O>) {
    forall name, n, o, w :: name in reg.tools && reg.tools[name].safety == ReadOnly ==> reg.tools[name].act(n, o, w).1 == w
  }

  // ----- One call -----

  /** An execution under way: an answer to return, or actions left to take. */
  datatype Code<O> = Ret(content: string, isError: bool) | Run(left: nat, observed: O)

  function Begin<W, O>(reg: Registry<W, O>, call: ToolCall): Code<O> {
    if call.name !in reg.tools then Ret("unknown tool: " + call.name, true)
    else match reg.parse(call.arguments)
      case Err(e) => Ret("failed to parse arguments: " + e, true)
      case Ok(args) => Run(reg.tools[call.name].actions(args), reg.tools[call.name].begin(args))
  }

  predicate ValidCode<W, O>(reg: Registry<W, O>, call: ToolCall, code: Code<O>) {
    code.Run? ==> call.name in reg.tools
  }

  /** One atomic action, or the return once none is left. */
  function Act<W, O>(reg: Registry<W, O>, call: ToolCall, code: Code<O>, w: W): (Code<O>, W)
    requires code.Run? && ValidCode(reg, call, code)
  {
    var tool := reg.tools[call.name];
    if code.left == 0 then
      match tool.finish(code.observed)
      case Ok(content) => (Ret(content, false), w)
      case Err(e) => (Ret(e, true), w)
    else
      var (o, w') := tool.act(code.left, code.observed, w);
      (Run(code.left - 1, o), w')
  }

  function CodeWork<O>(code: Code<O>): nat { if code.Ret? then 1 else code.left + 2 }

  /** The rest of an execution when nothing else acts in between. */
  function Complete<W, O>(reg: Registry<W, O>, call: ToolCall, code: Code<O>, w: W): (ToolResult, W)
    requires ValidCode(reg, call, code)
    decreases CodeWork(code)
  {
    if code.Ret? then (ToolResult(call.id, code.content, code.isError), w)
    else
      var (next, w') := Act(reg, call, code, w);
      Complete(reg, call, next, w')
  }

  function ExecuteCall<W, O>(reg: Registry<W, O>, call: ToolCall, w: W): (ToolResult, W) {
    Complete(reg, call, Begin(reg, call), w)
  }

  /** The reference: the calls one after the other, left to right. */
  function Sequential<W, O>(reg: Registry<W, O>, calls: seq<ToolCall>, w: W): (r: (seq<ToolResult>, W)) {
    if calls == [] then ([], w)
    else
      var (first, w') := ExecuteCall(reg, calls[0], w);
      var (rest, w'') := Sequential(reg, calls[1..], w');
      ([first] + rest, w'')
  }

  lemma {:induction false} ResultCarriesId<W, O>(reg: Registry<W, O>, call: ToolCall, code: Code<O>, w: W)
    requires ValidCode(reg, call, code)
    ensures Complete(reg, call, code, w).0.callId == call.id
    decreases CodeWork(code)
  {
    if code.Run? {
      ResultCarriesId(reg, call, Act(reg, call, code, w).0, Act(reg, call, code, w).1);
    }
  }

  /** What a tool has observed and left behind after its actions `n` to 1, one after the
      other. */
  function Observed<W, O>(tool: Tool<W, O>, n: nat, o: O, w: W): (O, W) {
    if n == 0 then (o, w)
    else
      var (next, after) := tool.act(n, o, w);
      Observed(tool, n - 1, next, after)
  }

  lemma {:induction false} CompleteObserves<W, O>(reg: Registry<W, O>, call: ToolCall, n: nat, o: O, w: W)
    requires call.name in reg.tools
    ensures var tool := reg.tools[call.name];
            var (end, after) := Observed(tool, n, o, w);
            Complete(reg, call, Run(n, o), w) ==
            (match tool.finish(end)
             case Ok(content) => (ToolResult(call.id, content, false), after)
             case Err(message) => (ToolResult(call.id, message, true), after))
  {
    if n > 0 {
      var (next, after) := reg.tools[call.name].act(n, o, w);
      CompleteObserves(reg, call, n - 1, next, after);
    }
  }

  /** What a call answers, told by the tool alone: the content its execution ends with,
      exactly if it succeeds, and the message of its error, exactly if it fails, in the world
      its last action left. */
  lemma {:induction false} CallAnswersIff<W, O>(reg: Registry<W, O>, call: ToolCall, args: Json, w: W, text: string)
    requires call.name in reg.tools && reg.parse(call.arguments) == Ok(args)
    ensures var tool := reg.tools[call.name];
            var (end, after) := Observed(tool, tool.actions(args), tool.begin(args), w);
            var (result, world) := ExecuteCall(reg, call, w);
            && (result == ToolResult(call.id, text, false) <==> tool.finish(end) == Ok(text))
            && (result == ToolResult(call.id, text, true) <==> tool.finish(end) == Err(text))
            && world == after
  {
    var tool := reg.tools[call.name];
    CompleteObserves(reg, call, tool.actions(args), tool.begin(args), w);
  }

  /** A call that cannot be executed is answered with an error that says why, and leaves the
      world as it is. */
  lemma CallRefused<W, O>(reg: Registry<W, O>, call: ToolCall, w: W)
    ensures call.name !in reg.tools ==>
              ExecuteCall(reg, call, w) == (ToolResult(call.id, "unknown tool: " + call.name, true), w)
    ensures call.name in reg.tools && reg.parse(call.arguments).Err? ==>
              ExecuteCall(reg, call, w)
              == (ToolResult(call.id, "failed to parse arguments: " + reg.parse(call.arguments).error, true), w)
  {
  }

  /** Calls run left to right: each in the world the calls before it left. */
  lemma {:induction false} SequentialCallByCall<W, O>(reg: Registry<W, O>, calls: seq<ToolCall>, i: nat, w: W)
    requires i < |calls|
    ensures var before := Sequential(reg, calls[..i], w);
            && |Sequential(reg, calls, w).0| == |calls|
            && Sequential(reg, calls, w).0[i] == ExecuteCall(reg, calls[i], before.1).0
            && Sequential(reg, calls[..i + 1], w).1 == ExecuteCall(reg, calls[i], before.1).1
    ensures Sequential(reg, [], w) == ([], w)
  {
    ResultsMatchCalls(reg, calls, w);
    ResultsMatchCalls(reg, calls[..i], w);
    SequentialSplit(reg, calls, i, w);
  }

  lemma SequentialSplit<W, O>(reg: Registry<W, O>, calls: seq<ToolCall>, i: nat, w: W)
    requires i < |calls|
    ensures var (results, middle) := Sequential(reg, calls[..i], w);
            var (result, after) := ExecuteCall(reg, calls[i], middle);
            var (rest, end) := Sequential(reg, calls[i + 1..], after);
            && Sequential(reg, calls[..i + 1], w) == (results + [result], after)
            && Sequential(reg, calls, w) == (results + [result] + rest, end)
  {
    assert calls[..i + 1] == calls[..i] + [calls[i]] && calls == calls[..i + 1] + calls[i + 1..];
    SequentialConcatenation(reg, calls[..i], [calls[i]], w);
    SequentialConcatenation(reg, calls[..i + 1], calls[i + 1..], w);
    SequentialOne(reg, calls[i], Sequential(reg, calls[..i], w).1);
  }

  lemma SequentialOne<W, O>(reg: Registry<W, O>, call: ToolCall, w: W)
    ensures Sequential(reg, [call], w) == ([ExecuteCall(reg, call, w).0], ExecuteCall(reg, call, w).1)
  {
    var result := ExecuteCall(reg, call, w).0;
    assert [call][1..] == [] && [result] + [] == [result];
  }

  /** Read-only is what a registered tool says of itself; every other call, of an unknown
      tool too, is exclusive. */
  lemma ReadOnlyIff<W, O>(reg: Registry<W, O>, calls: seq<ToolCall>, i: nat)
    requires i < |calls|
    ensures reg.ReadOnlyAt(calls, i) <==> calls[i].name in reg.tools && reg.tools[calls[i].name].safety.ReadOnly?
  {
  }

  /** Result `i` answers call `i`. */
  lemma {:induction false} ResultsMatchCalls<W, O>(reg: Registry<W, O>, calls: seq<ToolCall>, w: W)
    ensures var results := Sequential(reg, calls, w).0;
            |results| == |calls| && forall i :: 0 <= i < |calls| ==> results[i].callId == calls[i].id
  {
    if calls != [] {
      ResultCarriesId(reg, calls[0], Begin(reg, calls[0]), w);
      ResultsMatchCalls(reg, calls[1..], ExecuteCall(reg, calls[0], w).1);
    }
  }

  lemma {:induction false} SequentialConcatenation<W, O>(reg: Registry<W, O>, a: seq<ToolCall>, b: seq<ToolCall>, w: W)
    ensures var (ra, wa) := Sequential(reg, a, w);
            var (rb, wb) := Sequential(reg, b, wa);
            Sequential(reg, a + b, w) == (ra + rb, wb)
  {
    if a == [] {
      assert a + b == b;
      assert [] + Sequential(reg, b, w).0 == Sequential(reg, b, w).0;
    } else {
      assert (a + b)[1..] == a[1..] + b;
      var (first, w') := ExecuteCall(reg, a[0], w);
      SequentialConcatenation(reg, a[1..], b, w');
      var (ra, wa) := Sequential(reg, a[1..], w');
      assert [first] + (ra + Sequential(reg, b, wa).0) == ([first] + ra) + Sequential(reg, b, wa).0;
    }
  }

  // ----- A batch as a transition system -----

  datatype Task<O> = Queued | Active(code: Code<O>) | Finished(result: ToolResult)

  datatype Batch<W, O> = Batch(tasks: seq<Task<O>>, world: W)

  function ActiveSet<O>(tasks: seq<Task<O>>): set<nat> {
    set i: nat | i < |tasks| && tasks[i].Active?
  }

  predicate AllFinished<O>(tasks: seq<Task<O>>) {
    forall i :: 0 <= i < |tasks| ==> tasks[i].Finished?
  }

  /** Task `j` can move: it holds a permit, or waits for one and one is free. */
  predicate Enabled<W, O>(permits: nat, s: Batch<W, O>, j: nat) {
    && j < |s.tasks|
    && (s.tasks[j].Active? || (s.tasks[j].Queued? && |ActiveSet(s.tasks)| < permits))
  }

  predicate WellFormed<W, O>(reg: Registry<W, O>, calls: seq<ToolCall>, s: Batch<W, O>) {
    && |s.tasks| == |calls|
    && forall j :: 0 <= j < |calls| && s.tasks[j].Active? ==> ValidCode(reg, calls[j], s.tasks[j].code)
  }

  /** The move of an enabled task: acquire a permit, act once, or finish and release. */
  function Move<W, O>(reg: Registry<W, O>, calls: seq<ToolCall>, permits: nat, s: Batch<W, O>, j: nat): (next: Batch<W, O>)
    requires WellFormed(reg, calls, s) && Enabled(permits, s, j)
    ensures WellFormed(reg, calls, next)
  {
    match s.tasks[j]
    case Queued => s.(tasks := s.tasks[j := Active(Begin(reg, calls[j]))])
    case Active(code) =>
      if code.Ret? then s.(tasks := s.tasks[j := Finished(ToolResult(calls[j].id, code.content, code.isError))])
      else
        var (next, w) := Act(reg, calls[j], code, s.world);
        Batch(s.tasks[j := Active(next)], w)
  }

  /** What holds at every moment of a read-only batch started in world `w`: the world has
      not changed, permits are respected, and every task is on its way to, or has, the
      result its call gives when run alone. */
  ghost predicate BatchInvariant<W, O>(reg: Registry<W, O>, calls: seq<ToolCall>, permits: nat, w: W, s: Batch<W, O>) {
    && WellFormed(reg, calls, s)
    && s.world == w
    && |ActiveSet(s.tasks)| <= permits
    && forall j :: 0 <= j < |calls| ==> OnCourse(reg, calls[j], w, s.tasks[j])
  }

  ghost predicate OnCourse<W, O>(reg: Registry<W, O>, call: ToolCall, w: W, task: Task<O>) {
    match task
    case Queued => true
    case Active(code) => ValidCode(reg, call, code) && Complete(reg, call, code, w) == ExecuteCall(reg, call, w)
    case Finished(result) => result == ExecuteCall(reg, call, w).0
  }

  predicate AllReadOnly<W, O>(reg: Registry<W, O>, calls: seq<ToolCall>) {
    forall i :: 0 <= i < |calls| ==> reg.ReadOnlyAt(calls, i)
  }

  function Initial<W, O>(calls: seq<ToolCall>, w: W): Batch<W, O> {
    Batch(seq(|calls|, _ => Queued), w)
  }

  /** No move takes more permits than there are. */
  lemma MoveRespectsPermits<W, O>(reg: Registry<W, O>, calls: seq<ToolCall>, permits: nat, s: Batch<W, O>, j: nat)
    requires WellFormed(reg, calls, s) && |ActiveSet(s.tasks)| <= permits && Enabled(permits, s, j)
    ensures |ActiveSet(Move(reg, calls, permits, s, j).tasks)| <= permits
  {
    var before, after := ActiveSet(s.tasks), ActiveSet(Move(reg, calls, permits, s, j).tasks);
    if s.tasks[j].Queued? {
      assert after == before + {j};
    } else if s.tasks[j].code.Ret? {
      assert after == before - {j};
    } else {
      assert after == before;
    }
  }

  /** An honest read-only task that moves stays on course and leaves the world alone. */
  lemma MoveStaysOnCourse<W(!new), O(!new)>(
      reg: Registry<W, O>, calls: seq<ToolCall>, permits: nat, s: Batch<W, O>, j: nat)
    requires HonestReadOnly(reg) && WellFormed(reg, calls, s) && Enabled(permits, s, j) && reg.ReadOnlyAt(calls, j)
    requires OnCourse(reg, calls[j], s.world, s.tasks[j])
    ensures OnCourse(reg, calls[j], s.world, Move(reg, calls, permits, s, j).tasks[j])
    ensures Move(reg, calls, permits, s, j).world == s.world
  {
  }

  /** Every move of every schedule keeps the invariant. */
  lemma MoveKeepsInvariant<W(!new), O(!new)>(
      reg: Registry<W, O>, calls: seq<ToolCall>, permits: nat, w: W, s: Batch<W, O>, j: nat)
    requires HonestReadOnly(reg) && AllReadOnly(reg, calls)
    requires BatchInvariant(reg, calls, permits, w, s) && Enabled(permits, s, j)
    ensures BatchInvariant(reg, calls, permits, w, Move(reg, calls, permits, s, j))
  {
    assert reg.ReadOnlyAt(calls, j) && OnCourse(reg, calls[j], w, s.tasks[j]);
    MoveRespectsPermits(reg, calls, permits, s, j);
    MoveStaysOnCourse(reg, calls, permits, s, j);
    var next := Move(reg, calls, permits, s, j);
    hide OnCourse;
    forall k | 0 <= k < |calls| ensures OnCourse(reg, calls[k], w, next.tasks[k]) {
      assert OnCourse(reg, calls[k], w, s.tasks[k]);
    }
  }

  /** Results `r` answer the calls: result `i` carries the identifier of call `i`. */
  predicate Answers(results: seq<ToolResult>, calls: seq<ToolCall>) {
    |results| == |calls| && forall i :: 0 <= i < |calls| ==> results[i].callId == calls[i].id
  }

  /** What holds at every moment of any batch, honest tools or not: permits are respected
      and every result is labelled with its call. */
  ghost predicate Labelled<W, O>(reg: Registry<W, O>, calls: seq<ToolCall>, permits: nat, s: Batch<W, O>) {
    && WellFormed(reg, calls, s)
    && |ActiveSet(s.tasks)| <= permits
    && forall j :: 0 <= j < |calls| && s.tasks[j].Finished? ==> s.tasks[j].result.callId == calls[j].id
  }

  lemma MoveKeepsLabels<W, O>(reg: Registry<W, O>, calls: seq<ToolCall>, permits: nat, s: Batch<W, O>, j: nat)
    requires Labelled(reg, calls, permits, s) && Enabled(permits, s, j)
    ensures Labelled(reg, calls, permits, Move(reg, calls, permits, s, j))
  {
    MoveRespectsPermits(reg, calls, permits, s, j);
  }

  lemma InitialInvariant<W, O>(reg: Registry<W, O>, calls: seq<ToolCall>, permits: nat, w: W)
    ensures BatchInvariant(reg, calls, permits, w, Initial(calls, w))
  {
    assert ActiveSet(Initial<W, O>(calls, w).tasks) == {};
  }

  /** The batch is waiting for nothing that could still happen. */
  ghost predicate Stuck<W, O>(permits: nat, s: Batch<W, O>) {
    !AllFinished(s.tasks) && forall j :: !Enabled(permits, s, j)
  }

  /** No moment of a batch is stuck exactly if it has a permit or no call to run: without
      permits a batch with calls never starts. */
  lemma NeverStuckIff<W(!new), O(!new)>(calls: seq<ToolCall>, permits: nat, w: W)
    ensures (forall s: Batch<W, O> ::
              |s.tasks| == |calls| && s.world == w && |ActiveSet(s.tasks)| <= permits ==> !Stuck(permits, s))
            <==> permits >= 1 || calls == []
  {
    if permits >= 1 {
      forall s: Batch<W, O> | !AllFinished(s.tasks) ensures !Stuck(permits, s) {
        var j := SomeEnabled(permits, s);
      }
    } else if calls != [] {
      var s := Initial<W, O>(calls, w);
      assert ActiveSet(s.tasks) == {};
      assert s.tasks[0].Queued?;
      assert Stuck(permits, s);
    }
  }

  lemma SomeEnabled<W, O>(permits: nat, s: Batch<W, O>) returns (j: nat)
    requires permits >= 1 && !AllFinished(s.tasks)
    ensures Enabled(permits, s, j)
  {
    if k: nat :| k in ActiveSet(s.tasks) {
      j := k;
    } else {
      assert ActiveSet(s.tasks) == {};
      j :| 0 <= j < |s.tasks| && !s.tasks[j].Finished?;
      assert j !in ActiveSet(s.tasks);
    }
  }

  /** Moves left: every move uses one up, so every schedule is finite. */
  function Work<W, O>(reg: Registry<W, O>, calls: seq<ToolCall>, tasks: seq<Task<O>>): nat
    requires |tasks| == |calls|
  {
    if tasks == [] then 0 else TaskWork(reg, calls[0], tasks[0]) + Work(reg, calls[1..], tasks[1..])
  }

  function TaskWork<W, O>(reg: Registry<W, O>, call: ToolCall, task: Task<O>): nat {
    match task
    case Queued => 1 + CodeWork(Begin(reg, call))
    case Active(code) => CodeWork(code)
    case Finished(_) => 0
  }

  lemma {:induction false} WorkUpdate<W, O>(
      reg: Registry<W, O>, calls: seq<ToolCall>, tasks: seq<Task<O>>, j: nat, task: Task<O>)
    requires |tasks| == |calls| && j < |tasks|
    ensures Work(reg, calls, tasks[j := task])
            == Work(reg, calls, tasks) - TaskWork(reg, calls[j], tasks[j]) + TaskWork(reg, calls[j], task)
  {
    if j == 0 {
      assert tasks[j := task][1..] == tasks[1..];
    } else {
      assert tasks[j := task][1..] == tasks[1..][j - 1 := task];
      WorkUpdate(reg, calls[1..], tasks[1..], j - 1, task);
    }
  }

  lemma MoveUsesWork<W, O>(reg: Registry<W, O>, calls: seq<ToolCall>, permits: nat, s: Batch<W, O>, j: nat)
    requires WellFormed(reg, calls, s) && Enabled(permits, s, j)
    ensures Work(reg, calls, Move(reg, calls, permits, s, j).tasks) == Work(reg, calls, s.tasks) - 1
  {
    WorkUpdate(reg, calls, s.tasks, j, Move(reg, calls, permits, s, j).tasks[j]);
  }

  /** A schedule of a batch: which task moves at each step; every move must be enabled. */
  predicate IsSchedule<W, O>(reg: Registry<W, O>, calls: seq<ToolCall>, permits: nat, s: Batch<W, O>, schedule: seq<nat>)
    requires WellFormed(reg, calls, s)
    decreases |schedule|
  {
    schedule == [] ||
    (Enabled(permits, s, schedule[0])
     && IsSchedule(reg, calls, permits, Move(reg, calls, permits, s, schedule[0]), schedule[1..]))
  }

  function Outcome<W, O>(reg: Registry<W, O>, calls: seq<ToolCall>, permits: nat, s: Batch<W, O>, schedule: seq<nat>)
    : (end: Batch<W, O>)
    requires WellFormed(reg, calls, s) && IsSchedule(reg, calls, permits, s, schedule)
    ensures WellFormed(reg, calls, end)
    decreases |schedule|
  {
    if schedule == [] then s
    else Outcome(reg, calls, permits, Move(reg, calls, permits, s, schedule[0]), schedule[1..])
  }

  /** Under every schedule: no more moves than the initial work; and once all tasks are
      finished, results and world are those of the calls run one after the other. */
  lemma EveryScheduleIsSequential<W(!new), O(!new)>(
      reg: Registry<W, O>, calls: seq<ToolCall>, permits: nat, w: W, schedule: seq<nat>)
    requires HonestReadOnly(reg) && AllReadOnly(reg, calls)
    requires IsSchedule(reg, calls, permits, Initial(calls, w), schedule)
    ensures var end := Outcome(reg, calls, permits, Initial(calls, w), schedule);
            && Work(reg, calls, end.tasks) + |schedule| == Work(reg, calls, Initial<W, O>(calls, w).tasks)
            && |ActiveSet(end.tasks)| <= permits
            && (AllFinished(end.tasks) ==>
                  Sequential(reg, calls, w) == (seq(|calls|, i requires 0 <= i < |calls| => end.tasks[i].result), end.world))
  {
    InitialInvariant(reg, calls, permits, w);
    ScheduleKeepsInvariant(reg, calls, permits, w, Initial(calls, w), schedule);
    var end := Outcome(reg, calls, permits, Initial(calls, w), schedule);
    if AllFinished(end.tasks) {
      var results := seq(|calls|, i requires 0 <= i < |calls| => end.tasks[i].result);
      forall i | 0 <= i < |calls| ensures results[i] == ExecuteCall(reg, calls[i], w).0 {
        assert OnCourse(reg, calls[i], w, end.tasks[i]);
      }
      ReadOnlySequential(reg, calls, w, results);
    }
  }

  lemma {:induction false} ScheduleKeepsInvariant<W(!new), O(!new)>(
      reg: Registry<W, O>, calls: seq<ToolCall>, permits: nat, w: W, s: Batch<W, O>, schedule: seq<nat>)
    requires HonestReadOnly(reg) && AllReadOnly(reg, calls)
    requires BatchInvariant(reg, calls, permits, w, s) && IsSchedule(reg, calls, permits, s, schedule)
    ensures var end := Outcome(reg, calls, permits, s, schedule);
            BatchInvariant(reg, calls, permits, w, end)
            && Work(reg, calls, end.tasks) + |schedule| == Work(reg, calls, s.tasks)
    decreases |schedule|
  {
    if schedule != [] {
      MoveKeepsInvariant(reg, calls, permits, w, s, schedule[0]);
      MoveUsesWork(reg, calls, permits, s, schedule[0]);
      ScheduleKeepsInvariant(reg, calls, permits, w, Move(reg, calls, permits, s, schedule[0]), schedule[1..]);
    }
  }

  lemma {:induction false} HonestCallKeepsWorld<W(!new), O(!new)>(reg: Registry<W, O>, call: ToolCall, code: Code<O>, w: W)
    requires HonestReadOnly(reg) && reg.SafetyOf(call.name) == ReadOnly && ValidCode(reg, call, code)
    ensures Complete(reg, call, code, w).1 == w
    decreases CodeWork(code)
  {
    if code.Run? {
      HonestCallKeepsWorld(reg, call, Act(reg, call, code, w).0, w);
    }
  }

  lemma {:induction false} ReadOnlySequential<W(!new), O(!new)>(
      reg: Registry<W, O>, calls: seq<ToolCall>, w: W, results: seq<ToolResult>)
    requires HonestReadOnly(reg) && AllReadOnly(reg, calls) && |results| == |calls|
    requires forall i :: 0 <= i < |calls| ==> results[i] == ExecuteCall(reg, calls[i], w).0
    ensures Sequential(reg, calls, w) == (results, w)
  {
    if calls != [] {
      assert reg.ReadOnlyAt(calls, 0);
      HonestCallKeepsWorld(reg, calls[0], Begin(reg, calls[0]), w);
      forall i | 0 <= i < |calls[1..]| ensures reg.ReadOnlyAt(calls[1..], i) {
        assert reg.ReadOnlyAt(calls, i + 1);
      }
      ReadOnlySequential(reg, calls[1..], w, results[1..]);
      assert [results[0]] + results[1..] == results;
    }
  }

  // ----- The execution loop -----

  /** At one moment either a single call that is not read-only is active, or at most
      `permits` read-only calls with nothing but read-only calls between them. */
  ghost predicate Exclusion<W, O>(reg: Registry<W, O>, calls: seq<ToolCall>, permits: nat, active: set<nat>) {
    && (forall i :: i in active ==> i < |calls|)
    && ((exists i :: active == {i} && i < |calls| && !reg.ReadOnlyAt(calls, i))
        || (|active| <= permits
            && forall i, j, k :: i in active && j in active && i <= k <= j ==> reg.ReadOnlyAt(calls, k)))
  }

  /** `[lo, hi)` is one group: a single call that is not read-only, or a maximal run of
      read-only calls. */
  ghost predicate IsGroup<W, O>(reg: Registry<W, O>, calls: seq<ToolCall>, lo: nat, hi: nat) {
    && lo < hi <= |calls|
    && (if reg.ReadOnlyAt(calls, lo) then
          && (forall k :: lo <= k < hi ==> reg.ReadOnlyAt(calls, k))
          && (lo > 0 ==> !reg.ReadOnlyAt(calls, lo - 1))
          && (hi < |calls| ==> !reg.ReadOnlyAt(calls, hi))
        else hi == lo + 1)
  }

  /** The group bounds are consecutive from zero: no call is skipped or run twice. */
  ghost predicate Tiles<W, O>(reg: Registry<W, O>, calls: seq<ToolCall>, bounds: seq<nat>, end: nat) {
    && bounds != [] && bounds[0] == 0 && bounds[|bounds| - 1] == end <= |calls|
    && forall g :: 0 <= g < |bounds| - 1 ==> IsGroup(reg, calls, bounds[g], bounds[g + 1])
  }

  /** A batch under an arbitrary scheduler. `history` records the active set after
      every move. */
  method RunBatch<W(!new), O(!new)>(reg: Registry<W, O>, calls: seq<ToolCall>, permits: nat, w: W)
    returns (results: seq<ToolResult>, world: W, history: seq<set<nat>>)
    requires AllReadOnly(reg, calls)
    requires permits >= 1
    ensures Answers(results, calls)
    ensures HonestReadOnly(reg) ==> (results, world) == Sequential(reg, calls, w)
    ensures forall t :: 0 <= t < |history| ==> |history[t]| <= permits && forall i :: i in history[t] ==> i < |calls|
  {
    var s: Batch<W, O> := Initial(calls, w);
    history := [];
    InitialInvariant(reg, calls, permits, w);
    while !AllFinished(s.tasks)
      invariant Labelled(reg, calls, permits, s)
      invariant HonestReadOnly(reg) ==> BatchInvariant(reg, calls, permits, w, s)
      invariant forall t :: 0 <= t < |history| ==> |history[t]| <= permits && forall i :: i in history[t] ==> i < |calls|
      decreases Work(reg, calls, s.tasks)
    {
      ghost var movable := SomeEnabled(permits, s);
      var j: nat :| j < |s.tasks| && Enabled(permits, s, j);
      MoveKeepsLabels(reg, calls, permits, s, j);
      if HonestReadOnly(reg) {
        MoveKeepsInvariant(reg, calls, permits, w, s, j);
      }
      MoveUsesWork(reg, calls, permits, s, j);
      s := Move(reg, calls, permits, s, j);
      history := history + [ActiveSet(s.tasks)];
    }
    results := seq(|calls|, i requires 0 <= i < |calls| => s.tasks[i].result);
    world := s.world;
    if HonestReadOnly(reg) {
      forall i | 0 <= i < |calls| ensures results[i] == ExecuteCall(reg, calls[i], w).0 {
        assert OnCourse(reg, calls[i], w, s.tasks[i]);
      }
      ReadOnlySequential(reg, calls, w, results);
    }
  }

  /** What running calls must come to, however they were scheduled. */
  ghost predicate Ran<W(!new), O(!new)>(reg: Registry<W, O>, calls: seq<ToolCall>, w: W, results: seq<ToolResult>, world: W) {
    Answers(results, calls) && (HonestReadOnly(reg) ==> (results, world) == Sequential(reg, calls, w))
  }

  lemma RanConcatenation<W(!new), O(!new)>(reg: Registry<W, O>, a: seq<ToolCall>, b: seq<ToolCall>, w: W,
                                           ra: seq<ToolResult>, wa: W, rb: seq<ToolResult>, wb: W)
    requires Ran(reg, a, w, ra, wa) && Ran(reg, b, wa, rb, wb)
    ensures Ran(reg, a + b, w, ra + rb, wb)
  {
    SequentialConcatenation(reg, a, b, w);
  }

  /** All calls, group by group. Whatever the scheduler of each batch does, result `i`
      answers call `i`; and if read-only tools leave the world alone, results and world are
      those of running the calls one after the other. Without permits the first read-only
      call waits forever: `waits` says so, with what happened before it. */
  method ExecuteWithConcurrency<W(!new), O(!new)>(reg: Registry<W, O>, calls: seq<ToolCall>, maxConcurrency: nat, w: W)
    returns (results: seq<ToolResult>, world: W, bounds: seq<nat>, history: seq<set<nat>>, waits: bool)
    ensures waits <==> maxConcurrency == 0 && exists i :: 0 <= i < |calls| && reg.ReadOnlyAt(calls, i)
    ensures !waits ==> Answers(results, calls)
    ensures !waits && HonestReadOnly(reg) ==> (results, world) == Sequential(reg, calls, w)
    ensures waits ==>
              && |results| < |calls| && reg.ReadOnlyAt(calls, |results|)
              && (forall i :: 0 <= i < |results| ==> !reg.ReadOnlyAt(calls, i))
              && Ran(reg, calls[..|results|], w, results, world)
    ensures Tiles(reg, calls, bounds, |results|)
    ensures forall t :: 0 <= t < |history| ==> Exclusion(reg, calls, maxConcurrency, history[t])
  {
    hide *;
    results, world, bounds, history, waits := [], w, [0], [], false;
    var i := 0;
    NothingRun(reg, calls, w);
    while i < |calls|
      invariant 0 <= i <= |calls|
      invariant |results| == i && Ran(reg, calls[..i], w, results, world)
      invariant Tiles(reg, calls, bounds, i)
      invariant i > 0 && i < |calls| && reg.ReadOnlyAt(calls, i) ==> !reg.ReadOnlyAt(calls, i - 1)
      invariant maxConcurrency == 0 ==> forall k :: 0 <= k < i ==> !reg.ReadOnlyAt(calls, k)
      invariant forall t :: 0 <= t < |history| ==> Exclusion(reg, calls, maxConcurrency, history[t])
    {
      var start := i;
      var groupResults, groupHistory;
      ghost var before := world;
      if !reg.ReadOnlyAt(calls, i) {
        groupResults, world, groupHistory := ExecuteAlone(reg, calls, i, maxConcurrency, world);
        i := i + 1;
      } else {
        if maxConcurrency == 0 {
          waits := true;
          return;
        }
        i := EndOfBatch(reg, calls, i);
        groupResults, world, groupHistory := ExecuteBatch(reg, calls, start, i, maxConcurrency, world);
      }
      assert calls[..i] == calls[..start] + calls[start..i];
      RanConcatenation(reg, calls[..start], calls[start..i], w, results, before, groupResults, world);
      RanMeans(reg, calls[start..i], before, groupResults, world);
      results := results + groupResults;
      history := history + groupHistory;
      TilesNext(reg, calls, bounds, start, i);
      bounds := bounds + [i];
    }
    assert calls[..i] == calls;
    RanMeans(reg, calls, w, results, world);
  }

  lemma NothingRun<W(!new), O(!new)>(reg: Registry<W, O>, calls: seq<ToolCall>, w: W)
    ensures Ran(reg, calls[..0], w, [], w) && Tiles(reg, calls, [0], 0)
  {
  }

  lemma RanMeans<W(!new), O(!new)>(reg: Registry<W, O>, calls: seq<ToolCall>, w: W, results: seq<ToolResult>, world: W)
    requires Ran(reg, calls, w, results, world)
    ensures |results| == |calls| && Answers(results, calls)
    ensures HonestReadOnly(reg) ==> (results, world) == Sequential(reg, calls, w)
  {
  }

  lemma TilesNext<W, O>(reg: Registry<W, O>, calls: seq<ToolCall>, bounds: seq<nat>, start: nat, end: nat)
    requires Tiles(reg, calls, bounds, start) && start < end <= |calls|
    requires if reg.ReadOnlyAt(calls, start)
             then && (forall k :: start <= k < end ==> reg.ReadOnlyAt(calls, k))
                  && (start > 0 ==> !reg.ReadOnlyAt(calls, start - 1))
                  && (end < |calls| ==> !reg.ReadOnlyAt(calls, end))
             else end == start + 1
    ensures Tiles(reg, calls, bounds + [end], end)
  {
    assert IsGroup(reg, calls, start, end);
  }

  /** An exclusive call: the same task as in a batch, with nothing beside it. */
  method RunAlone<W(!new), O(!new)>(reg: Registry<W, O>, call: ToolCall, w: W)
    returns (result: ToolResult, world: W, history: seq<set<nat>>)
    ensures (result, world) == ExecuteCall(reg, call, w)
    ensures forall t :: 0 <= t < |history| ==> history[t] <= {0}
  {
    var s: Batch<W, O> := Initial([call], w);
    history := [];
    assert ActiveSet(s.tasks) == {};
    while !AllFinished(s.tasks)
      invariant WellFormed(reg, [call], s) && |ActiveSet(s.tasks)| == (if s.tasks[0].Active? then 1 else 0)
      invariant AloneOnCourse(reg, call, w, s)
      invariant forall t :: 0 <= t < |history| ==> history[t] <= {0}
      decreases Work(reg, [call], s.tasks)
    {
      MoveUsesWork(reg, [call], 1, s, 0);
      s := Move(reg, [call], 1, s, 0);
      assert ActiveSet(s.tasks) == if s.tasks[0].Active? then {0} else {};
      history := history + [ActiveSet(s.tasks)];
    }
    result, world := s.tasks[0].result, s.world;
  }

  /** The rest of a call that runs alone comes to what the whole call comes to. */
  ghost predicate AloneOnCourse<W, O>(reg: Registry<W, O>, call: ToolCall, w: W, s: Batch<W, O>)
    requires WellFormed(reg, [call], s)
  {
    match s.tasks[0]
    case Queued => s.world == w
    case Active(code) => ValidCode(reg, call, code) && Complete(reg, call, code, s.world) == ExecuteCall(reg, call, w)
    case Finished(result) => (result, s.world) == ExecuteCall(reg, call, w)
  }

  /** One exclusive call, with its active sets as positions in the whole call list. */
  method ExecuteAlone<W(!new), O(!new)>(reg: Registry<W, O>, calls: seq<ToolCall>, i: nat, permits: nat, w: W)
    returns (results: seq<ToolResult>, world: W, history: seq<set<nat>>)
    requires i < |calls| && !reg.ReadOnlyAt(calls, i)
    ensures Ran(reg, calls[i..i + 1], w, results, world)
    ensures forall t :: 0 <= t < |history| ==> Exclusion(reg, calls, permits, history[t])
  {
    RanAlone(reg, calls[i], w);
    var result, after, moments := RunAlone(reg, calls[i], w);
    assert calls[i..i + 1] == [calls[i]];
    results, world, history := [result], after, [];
    for t := 0 to |moments|
      invariant forall u :: 0 <= u < |history| ==> Exclusion(reg, calls, permits, history[u])
    {
      var active := set k | k in moments[t] :: i + k;
      assert moments[t] == {} || moments[t] == {0};
      assert active == {} || active == {i};
      history := history + [active];
    }
  }

  lemma RanAlone<W(!new), O(!new)>(reg: Registry<W, O>, call: ToolCall, w: W)
    ensures Ran(reg, [call], w, [ExecuteCall(reg, call, w).0], ExecuteCall(reg, call, w).1)
  {
    ResultCarriesId(reg, call, Begin(reg, call), w);
    var (result, after) := ExecuteCall(reg, call, w);
    assert [call][1..] == [] && [result] + [] == [result];
  }

  /** The end of the run of read-only calls that starts at `start`. */
  method EndOfBatch<W, O>(reg: Registry<W, O>, calls: seq<ToolCall>, start: nat) returns (end: nat)
    requires start < |calls| && reg.ReadOnlyAt(calls, start)
    ensures start < end <= |calls| && forall k :: start <= k < end ==> reg.ReadOnlyAt(calls, k)
    ensures end < |calls| ==> !reg.ReadOnlyAt(calls, end)
  {
    end := start;
    while end < |calls| && reg.ReadOnlyAt(calls, end)
      invariant start <= end <= |calls|
      invariant forall k :: start <= k < end ==> reg.ReadOnlyAt(calls, k)
    {
      end := end + 1;
    }
  }

  /** One batch, with its active sets as positions in the whole call list. */
  method ExecuteBatch<W(!new), O(!new)>(reg: Registry<W, O>, calls: seq<ToolCall>, start: nat, end: nat, permits: nat, w: W)
    returns (results: seq<ToolResult>, world: W, history: seq<set<nat>>)
    requires start <= end <= |calls| && permits >= 1
    requires forall k :: start <= k < end ==> reg.ReadOnlyAt(calls, k)
    ensures Ran(reg, calls[start..end], w, results, world)
    ensures forall t :: 0 <= t < |history| ==> Exclusion(reg, calls, permits, history[t])
  {
    var batch := calls[start..end];
    forall k | 0 <= k < |batch| ensures reg.ReadOnlyAt(batch, k) {
      assert reg.ReadOnlyAt(calls, start + k);
    }
    results, world, history := RunBatch(reg, batch, permits, w);
    history := Shift(reg, calls, permits, history, start, end);
  }

  /** Batch positions as positions in the whole call list. */
  method Shift<W, O>(reg: Registry<W, O>, calls: seq<ToolCall>, permits: nat, history: seq<set<nat>>, start: nat, end: nat)
    returns (shifted: seq<set<nat>>)
    requires start <= end <= |calls| && forall k :: start <= k < end ==> reg.ReadOnlyAt(calls, k)
    requires forall t :: 0 <= t < |history| ==> |history[t]| <= permits && forall i :: i in history[t] ==> i < end - start
    ensures |shifted| == |history|
    ensures forall t :: 0 <= t < |history| ==> shifted[t] == (set i | i in history[t] :: start + i)
    ensures forall t :: 0 <= t < |history| ==> Exclusion(reg, calls, permits, shifted[t])
  {
    shifted := [];
    for t := 0 to |history|
      invariant |shifted| == t
      invariant forall u :: 0 <= u < t ==> shifted[u] == (set i | i in history[u] :: start + i)
      invariant forall u :: 0 <= u < t ==> Exclusion(reg, calls, permits, shifted[u])
    {
      ShiftKeepsSize(history[t], start);
      var active := set i | i in history[t] :: start + i;
      assert Exclusion(reg, calls, permits, active);
      shifted := shifted + [active];
    }
  }

  lemma {:induction false} ShiftKeepsSize(s: set<nat>, start: nat)
    ensures |set i | i in s :: start + i| == |s|
  {
    if s != {} {
      var x :| x in s;
      ShiftKeepsSize(s - {x}, start);
      var all, rest := set i | i in s :: start + i, set i | i in s - {x} :: start + i;
      forall y | y in all ensures y in rest + {start + x} {
        var i :| i in s && y == start + i;
        assert i == x || i in s - {x};
      }
      assert all == rest + {start + x};
    } else {
      assert (set i | i in s :: start + i) == {};
    }
  }
}
