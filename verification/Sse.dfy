/** Server-Sent-Event lines of a streamed completion and their whole-body collector
    (crates/workflow_engine_llm_openai/src/sse.rs). JSON decoding of a data line is an
    oracle; everything the code decides on the decoded value is here. */
module Sse {
  import opened Common
  import opened Llm

  datatype FunctionDelta = FunctionDelta(name: Option<string>, arguments: Option<string>)
  datatype ToolDelta = ToolDelta(index: Option<nat>, id: Option<string>, func: Option<FunctionDelta>)
  datatype Choice = Choice(content: Option<string>, toolCalls: Option<seq<ToolDelta>>, finishReason: Option<string>)
  datatype UsageCounts = UsageCounts(prompt: Option<nat>, completion: Option<nat>)
  datatype Response = Response(choices: Option<seq<Choice>>, usage: Option<UsageCounts>)

  /** The JSON decoder: the response a data string holds, if it holds one. */
  type Decoder = string -> Option<Response>

  datatype SseChunk =
    | TextDelta(text: string)
    | FinishReason(reason: string)
    | ToolCallStart(id: string, name: string)
    | ToolCallArgsDelta(index: nat, args: string)
    | Usage(prompt: nat, completion: nat)
    | Done

  datatype Event =
    | TextEvent(text: string)
    | ToolUse(call: ToolCall)
    | UsageEvent(prompt: nat, completion: nat)
    | DoneEvent(reason: string)
    | ErrorEvent(message: string)

  function GetOr<T>(o: Option<T>, default: T): T { if o.Some? then o.value else default }

  // ----- One line -----

  predicate IsWhitespace(c: char) {
    || '\t' <= c <= '\r' || c == ' ' || c == '\U{0085}' || c == '\U{00A0}' || c == '\U{1680}'
    || '\U{2000}' <= c <= '\U{200A}' || c == '\U{2028}' || c == '\U{2029}' || c == '\U{202F}'
    || c == '\U{205F}' || c == '\U{3000}'
  }

  function TrimStart(s: string): string {
    if s != "" && IsWhitespace(s[0]) then TrimStart(s[1..]) else s
  }

  function TrimEnd(s: string): string {
    if s != "" && IsWhitespace(s[|s| - 1]) then TrimEnd(s[..|s| - 1]) else s
  }

  function Trim(s: string): string { TrimStart(TrimEnd(s)) }

  /** The chunk a trimmed line stands for; empty, comment and other lines stand for none. */
  function ParseSseChunk(decode: Decoder, line: string): Option<SseChunk> {
    if line == "" || line[0] == ':' || !("data: " <= line) then None
    else
      var data := line[6..];
      if data == "[DONE]" then Some(Done)
      else
        var response := decode(data);
        if response.None? then None else Classify(response.value)
  }

  /** The chunk of a raw line. */
  function LineChunk(decode: Decoder, line: string): Option<SseChunk> { ParseSseChunk(decode, Trim(line)) }

  function Chunks(decode: Decoder, lines: seq<string>): (r: seq<Option<SseChunk>>)
    ensures |r| == |lines| && forall i :: 0 <= i < |lines| ==> r[i] == LineChunk(decode, lines[i])
  {
    seq(|lines|, i requires 0 <= i < |lines| => LineChunk(decode, lines[i]))
  }

  lemma ChunksOfConcatenation(decode: Decoder, a: seq<string>, b: seq<string>)
    ensures Chunks(decode, a + b) == Chunks(decode, a) + Chunks(decode, b)
  {
    assert forall i :: 0 <= i < |a + b| ==> (a + b)[i] == if i < |a| then a[i] else b[i - |a|];
  }

  function Classify(response: Response): Option<SseChunk> {
    if response.choices.None? || response.choices.value == [] then
      if response.usage.Some? then
        Some(Usage(GetOr(response.usage.value.prompt, 0), GetOr(response.usage.value.completion, 0)))
      else None
    else
      var choice := response.choices.value[0];
      var tool := ToolChunk(choice);
      if tool.Some? then tool
      else if choice.finishReason.Some? && choice.finishReason.value != "" then
        var reason := choice.finishReason.value;
        Some(if reason == "stop" || reason == "tool_calls" then Done else FinishReason(reason))
      else Some(TextDelta(GetOr(choice.content, "")))
  }

  /** Only the first tool delta of a choice is looked at. */
  function ToolChunk(choice: Choice): Option<SseChunk> {
    if choice.toolCalls.None? || choice.toolCalls.value == [] || choice.toolCalls.value[0].func.None? then None
    else
      var delta := choice.toolCalls.value[0];
      var f := delta.func.value;
      if f.name.Some? && f.name.value != "" then Some(ToolCallStart(GetOr(delta.id, ""), f.name.value))
      else if f.arguments.Some? then Some(ToolCallArgsDelta(GetOr(delta.index, 0), f.arguments.value))
      else None
  }

  // ----- Tool calls under assembly -----

  type Calls = map<nat, ToolCall>

  /** A start goes to slot zero and is ignored when the slot is taken; an argument delta
      goes to the slot it names and is ignored when the slot is empty. */
  function Accumulate(calls: Calls, chunk: SseChunk): Calls {
    match chunk
    case ToolCallStart(id, name) => if 0 in calls then calls else calls[0 := ToolCall(id, name, "")]
    case ToolCallArgsDelta(index, args) =>
      if index in calls then calls[index := calls[index].(arguments := calls[index].arguments + args)] else calls
    case _ => calls
  }

  function AccumulateAll(calls: Calls, chunks: seq<SseChunk>): Calls
    decreases |chunks|
  {
    if chunks == [] then calls else AccumulateAll(Accumulate(calls, chunks[0]), chunks[1..])
  }

  /** The events of the assembled calls: at most slot zero is ever filled. */
  function Flush(calls: Calls): seq<Event> {
    if 0 in calls then [ToolUse(calls[0])] else []
  }

  /** Emission of the assembled calls in ascending slot order. */
  method FlushInOrder(calls: Calls) returns (events: seq<Event>)
    requires calls.Keys <= {0}
    ensures events == Flush(calls)
  {
    events := [];
    var rest := calls;
    while rest != map[]
      invariant (rest == calls && events == []) || (rest == map[] && events == Flush(calls))
      decreases |rest|
    {
      assert 0 in rest by { assert rest.Keys != {}; }
      var index :| index in rest && forall j :: j in rest ==> index <= j;
      events := events + [ToolUse(rest[index])];
      rest := rest - {index};
    }
  }

  /** Arguments of slot zero: every index-zero delta, in order. */
  function ZeroArguments(chunks: seq<SseChunk>): string {
    if chunks == [] then ""
    else (if chunks[0].ToolCallArgsDelta? && chunks[0].index == 0 then chunks[0].args else "") + ZeroArguments(chunks[1..])
  }

  /** The one call a chunk sequence assembles: named by its first start, with all the
      index-zero argument deltas that follow that start. Nothing else is emitted. */
  lemma {:induction false} AssembledCall(chunks: seq<SseChunk>, first: nat)
    requires first <= |chunks|
    requires forall i :: 0 <= i < first ==> !chunks[i].ToolCallStart?
    requires first < |chunks| ==> chunks[first].ToolCallStart?
    ensures AccumulateAll(map[], chunks) ==
            if first == |chunks| then map[]
            else map[0 := ToolCall(chunks[first].id, chunks[first].name, ZeroArguments(chunks[first + 1..]))]
  {
    if first == 0 {
      if chunks != [] {
        var call := ToolCall(chunks[0].id, chunks[0].name, "");
        assert Accumulate(map[], chunks[0]) == map[0 := call];
        SlotZeroGrows(call, chunks[1..]);
        assert "" + ZeroArguments(chunks[1..]) == ZeroArguments(chunks[1..]);
      }
    } else {
      AssembledCall(chunks[1..], first - 1);
      assert first < |chunks| ==> chunks[1..][first - 1 + 1..] == chunks[first + 1..];
      assert Accumulate(map[], chunks[0]) == map[];
    }
  }

  lemma {:induction false} SlotZeroGrows(call: ToolCall, chunks: seq<SseChunk>)
    ensures AccumulateAll(map[0 := call], chunks) ==
            map[0 := call.(arguments := call.arguments + ZeroArguments(chunks))]
    decreases |chunks|
  {
    if chunks == [] {
      assert call.arguments + "" == call.arguments;
    } else {
      var next := Accumulate(map[0 := call], chunks[0]);
      var args := if chunks[0].ToolCallArgsDelta? && chunks[0].index == 0 then chunks[0].args else "";
      assert call.arguments + "" == call.arguments;
      assert next == map[0 := call.(arguments := call.arguments + args)];
      SlotZeroGrows(next[0], chunks[1..]);
      assert call.arguments + args + ZeroArguments(chunks[1..]) == call.arguments + ZeroArguments(chunks);
    }
  }

  // ----- Lines of a text -----

  function NewlineAt(text: string): (n: nat)
    ensures n <= |text| && '\n' !in text[..n]
    ensures n < |text| ==> text[n] == '\n'
  {
    if text == "" || text[0] == '\n' then 0 else 1 + NewlineAt(text[1..])
  }

  /** The newline-terminated lines of a text, without their newlines. */
  function Terminated(text: string): seq<string>
    decreases |text|
  {
    var n := NewlineAt(text);
    if n == |text| then [] else [text[..n]] + Terminated(text[n + 1..])
  }

  /** What follows the last newline. */
  function Rest(text: string): string
    decreases |text|
  {
    var n := NewlineAt(text);
    if n == |text| then text else Rest(text[n + 1..])
  }

  function StripReturn(line: string): string {
    if line != "" && line[|line| - 1] == '\r' then line[..|line| - 1] else line
  }

  function StripReturns(lines: seq<string>): (r: seq<string>)
    ensures |r| == |lines| && forall i :: 0 <= i < |lines| ==> r[i] == StripReturn(lines[i])
  {
    seq(|lines|, i requires 0 <= i < |lines| => StripReturn(lines[i]))
  }

  /** The lines the whole-body collector visits: the last one need not be terminated. */
  function Lines(text: string): seq<string> {
    StripReturns(Terminated(text)) + (if Rest(text) == "" then [] else [Rest(text)])
  }

  /** A cut never changes the lines, if what follows the last newline is carried over. */
  lemma {:induction false} LinesOfConcatenation(a: string, b: string)
    ensures Terminated(a + b) == Terminated(a) + Terminated(Rest(a) + b)
    ensures Rest(a + b) == Rest(Rest(a) + b)
    decreases |a|
  {
    hide NewlineAt, Terminated, Rest;
    var n := NewlineAt(a);
    if n < |a| {
      NewlineStable(a, b);
      assert (a + b)[..n] == a[..n];
      assert (a + b)[n + 1..] == a[n + 1..] + b;
      LinesOfConcatenation(a[n + 1..], b);
      TerminatedFirst(a);
      TerminatedFirst(a + b);
      assert [a[..n]] + (Terminated(a[n + 1..]) + Terminated(Rest(a) + b))
             == [a[..n]] + Terminated(a[n + 1..]) + Terminated(Rest(a) + b);
    } else {
      NoLines(a);
      assert [] + Terminated(a + b) == Terminated(a + b);
    }
  }

  lemma NoLines(text: string)
    requires NewlineAt(text) == |text|
    ensures Terminated(text) == [] && Rest(text) == text
  {
  }

  lemma TerminatedFirst(text: string)
    requires NewlineAt(text) < |text|
    ensures var n := NewlineAt(text);
            Terminated(text) == [text[..n]] + Terminated(text[n + 1..]) && Rest(text) == Rest(text[n + 1..])
  {
    hide NewlineAt;
  }

  lemma {:induction false} NewlineStable(a: string, b: string)
    requires NewlineAt(a) < |a|
    ensures NewlineAt(a + b) == NewlineAt(a)
  {
    if a[0] != '\n' {
      assert (a + b)[1..] == a[1..] + b;
      NewlineStable(a[1..], b);
    }
  }

  /** The chunk of the first line, then those of the lines behind it. */
  lemma ChunksFirst(decode: Decoder, text: string)
    requires NewlineAt(text) < |text|
    ensures var n := NewlineAt(text);
            && Chunks(decode, Terminated(text)) == [LineChunk(decode, text[..n])] + Chunks(decode, Terminated(text[n + 1..]))
            && Rest(text) == Rest(text[n + 1..])
  {
    hide LineChunk, Terminated, Rest, NewlineAt;
    var n := NewlineAt(text);
    TerminatedFirst(text);
    ChunksOfConcatenation(decode, [text[..n]], Terminated(text[n + 1..]));
    assert Chunks(decode, [text[..n]]) == [LineChunk(decode, text[..n])];
  }

  // ----- The whole-body collector -----

  datatype Collector = Collector(calls: Calls, events: seq<Event>, usage: Option<Event>, done: bool)

  const NOTHING_COLLECTED := Collector(map[], [], None, false)

  function OptionEvent(e: Option<Event>): seq<Event> { if e.Some? then [e.value] else [] }

  function CollectChunk(c: Collector, chunk: Option<SseChunk>): Collector {
    if c.done || chunk.None? then c
    else match chunk.value
      case TextDelta(s) => if s == "" then c else c.(events := c.events + [TextEvent(s)])
      case Usage(p, q) => c.(usage := Some(UsageEvent(p, q)))
      case Done => Collector(map[], c.events + Flush(c.calls) + OptionEvent(c.usage) + [DoneEvent("stop")], None, true)
      case _ => c.(calls := Accumulate(c.calls, chunk.value))
  }

  function CollectAll(c: Collector, chunks: seq<Option<SseChunk>>): Collector
    decreases |chunks|
  {
    if chunks == [] then c else CollectAll(CollectChunk(c, chunks[0]), chunks[1..])
  }

  /** The events of a whole body; collection stops at the first end mark. */
  function Collected(decode: Decoder, body: string): seq<Event> {
    CollectAll(NOTHING_COLLECTED, Chunks(decode, Lines(body))).events
  }

  method CollectEvents(decode: Decoder, body: string) returns (events: seq<Event>)
    ensures events == Collected(decode, body)
  {
    var chunks := Chunks(decode, Lines(body));
    events := CollectLoop(chunks);
  }

  method CollectLoop(chunks: seq<Option<SseChunk>>) returns (events: seq<Event>)
    ensures events == CollectAll(NOTHING_COLLECTED, chunks).events
  {
    var calls: Calls := map[];
    var usage: Option<Event> := None;
    events := [];
    ghost var all := CollectAll(NOTHING_COLLECTED, chunks);
    assert chunks[0..] == chunks;
    var i := 0;
    while i < |chunks|
      invariant 0 <= i <= |chunks|
      invariant calls.Keys <= {0}
      invariant all == CollectAll(Collector(calls, events, usage, false), chunks[i..])
    {
      var chunk := chunks[i];
      assert chunks[i..][1..] == chunks[i + 1..];
      i := i + 1;
      if chunk.Some? {
        match chunk.value {
          case TextDelta(s) =>
            if s != "" {
              events := events + [TextEvent(s)];
            }
          case Usage(p, q) =>
            usage := Some(UsageEvent(p, q));
          case Done =>
            var flushed := FlushInOrder(calls);
            events := events + flushed + OptionEvent(usage) + [DoneEvent("stop")];
            DoneStays(Collector(map[], events, None, true), chunks[i..]);
            return;
          case _ =>
            calls := Accumulate(calls, chunk.value);
        }
      }
    }
  }

  lemma {:induction false} DoneStays(c: Collector, chunks: seq<Option<SseChunk>>)
    requires c.done
    ensures CollectAll(c, chunks) == c
    decreases |chunks|
  {
    if chunks != [] {
      DoneStays(c, chunks[1..]);
    }
  }
}
