/** What a streamed body says, told by its lines and the decoded responses alone
    (crates/workflow_engine_llm_openai/src/sse.rs:77-206,
    crates/workflow_engine_llm_openai/src/streaming.rs:83-154). */
module LineLaws {
  import opened Common
  import opened Llm
  import opened Sse
  import opened Streaming

  // ---- Lines ----

  /** The white space of Unicode, by code point. */
  lemma WhitespaceIs(c: char)
    ensures IsWhitespace(c) <==>
            var n := c as int;
            || 0x09 <= n <= 0x0D || 0x2000 <= n <= 0x200A
            || n in {0x20, 0x85, 0xA0, 0x1680, 0x2028, 0x2029, 0x202F, 0x205F, 0x3000}
  {
  }

  predicate AllWhitespace(s: string) { forall i :: 0 <= i < |s| ==> IsWhitespace(s[i]) }

  /** Trimming takes white space off both ends, and all of it. */
  lemma {:induction false} TrimIs(s: string)
    ensures exists i: nat, j: nat ::
              && i <= j <= |s| && Trim(s) == s[i..j] && AllWhitespace(s[..i]) && AllWhitespace(s[j..])
              && (i < j ==> !IsWhitespace(s[i]) && !IsWhitespace(s[j - 1]))
  {
    var j := TrimEndIs(s);
    var i := TrimStartIs(s[..j]);
    assert s[..j][i..] == s[i..j] && s[..j][..i] == s[..i];
  }

  lemma {:induction false} TrimEndIs(s: string) returns (j: nat)
    ensures j <= |s| && TrimEnd(s) == s[..j] && AllWhitespace(s[j..]) && (j > 0 ==> !IsWhitespace(s[j - 1]))
  {
    if s != "" && IsWhitespace(s[|s| - 1]) {
      j := TrimEndIs(s[..|s| - 1]);
      assert s[j..] == s[..|s| - 1][j..] + [s[|s| - 1]];
    } else {
      j := |s|;
    }
  }

  lemma {:induction false} TrimStartIs(s: string) returns (i: nat)
    ensures i <= |s| && TrimStart(s) == s[i..] && AllWhitespace(s[..i]) && (i < |s| ==> !IsWhitespace(s[i]))
  {
    if s != "" && IsWhitespace(s[0]) {
      i := TrimStartIs(s[1..]);
      i := i + 1;
      assert s[..i] == [s[0]] + s[1..][..i - 1];
    } else {
      i := 0;
    }
  }

  /** The lines, each with its newline. */
  function Unlines(lines: seq<string>): string {
    if lines == [] then "" else lines[0] + "\n" + Unlines(lines[1..])
  }

  /** A text is its lines with their newlines, and then the rest, and neither lines nor rest
      hold a newline. */
  lemma {:induction false} LinesAre(text: string)
    ensures text == Unlines(Terminated(text)) + Rest(text)
    ensures '\n' !in Rest(text) && forall line :: line in Terminated(text) ==> '\n' !in line
    decreases |text|
  {
    hide NewlineAt, Terminated, Rest;
    var n := NewlineAt(text);
    if n == |text| {
      NoLines(text);
      assert text[..n] == text && "" + text == text;
    } else {
      TerminatedFirst(text);
      var tail := text[n + 1..];
      LinesAre(tail);
      assert text == text[..n] + "\n" + tail;
      assert ([text[..n]] + Terminated(tail))[1..] == Terminated(tail);
      assert text[..n] + "\n" + (Unlines(Terminated(tail)) + Rest(tail)) == text[..n] + "\n" + Unlines(Terminated(tail)) + Rest(tail);
    }
  }

  // ---- What a line carries ----

  /** The line is a data line, white space around it aside. */
  predicate Payload(line: string, data: string) { Trim(line) == "data: " + data }

  ghost predicate Carries(decode: Decoder, line: string, response: Response) {
    exists data :: Payload(line, data) && data != "[DONE]" && decode(data) == Some(response)
  }

  /** The first choice of the response on the line. */
  ghost predicate Chooses(decode: Decoder, line: string, choice: Choice) {
    exists r :: Carries(decode, line, r) && r.choices.Some? && 0 < |r.choices.value| && r.choices.value[0] == choice
  }

  predicate FirstTool(choice: Choice, delta: ToolDelta) {
    choice.toolCalls.Some? && 0 < |choice.toolCalls.value| && choice.toolCalls.value[0] == delta && delta.func.Some?
  }

  predicate Names(delta: ToolDelta, name: string) {
    delta.func.Some? && delta.func.value.name == Some(name) && name != ""
  }

  ghost predicate Starts(choice: Choice, id: string, name: string) {
    exists delta :: FirstTool(choice, delta) && Names(delta, name) && (delta.id == Some(id) || (delta.id == None && id == ""))
  }

  ghost predicate AddsArguments(choice: Choice, index: nat, args: string) {
    exists delta :: FirstTool(choice, delta) && (forall name :: !Names(delta, name))
                    && delta.func.value.arguments == Some(args)
                    && (delta.index == Some(index) || (delta.index == None && index == 0))
  }

  /** The choice says nothing about tools. */
  ghost predicate NoTool(choice: Choice) {
    (forall id, name :: !Starts(choice, id, name)) && (forall index, args :: !AddsArguments(choice, index, args))
  }

  predicate Unfinished(choice: Choice) { choice.finishReason.None? || choice.finishReason.value == "" }

  predicate Stops(choice: Choice) {
    choice.finishReason.Some? && (choice.finishReason.value == "stop" || choice.finishReason.value == "tool_calls")
  }

  predicate Holds(choice: Choice, text: string) {
    if choice.content.Some? then choice.content.value == text else text == ""
  }

  /** A text: the content of a first choice without tool and without finish reason. */
  ghost predicate SaysText(decode: Decoder, line: string, text: string) {
    exists c :: Chooses(decode, line, c) && NoTool(c) && Unfinished(c) && Holds(c, text)
  }

  /** An end mark: `[DONE]`, or a first choice without tool that stops or asks for tools. */
  ghost predicate SaysEnd(decode: Decoder, line: string) {
    Payload(line, "[DONE]")
    || exists c :: Chooses(decode, line, c) && NoTool(c) && Stops(c)
  }

  /** Token counts, on a response without choices; a missing count is zero. */
  ghost predicate SaysUsage(decode: Decoder, line: string, prompt: nat, completion: nat) {
    exists r :: Carries(decode, line, r) && (r.choices.None? || r.choices.value == []) && r.usage.Some?
                && (r.usage.value.prompt == Some(prompt) || (r.usage.value.prompt == None && prompt == 0))
                && (r.usage.value.completion == Some(completion) || (r.usage.value.completion == None && completion == 0))
  }

  ghost predicate SaysStart(decode: Decoder, line: string, id: string, name: string) {
    exists c :: Chooses(decode, line, c) && Starts(c, id, name)
  }

  ghost predicate SaysArguments(decode: Decoder, line: string, index: nat, args: string) {
    exists c :: Chooses(decode, line, c) && AddsArguments(c, index, args)
  }

  lemma CarriesIff(decode: Decoder, line: string, response: Response)
    ensures Carries(decode, line, response) <==>
            var t := Trim(line); "data: " <= t && t[6..] != "[DONE]" && decode(t[6..]) == Some(response)
    ensures Payload(line, "[DONE]") <==> var t := Trim(line); "data: " <= t && t[6..] == "[DONE]"
  {
    var t := Trim(line);
    hide Trim;
    if "data: " <= t {
      assert t == "data: " + t[6..] && Payload(line, t[6..]);
    }
    forall data | Payload(line, data) ensures "data: " <= t && t[6..] == data {
      assert t[6..] == data;
    }
  }

  lemma ToolChunkIff(choice: Choice)
    ensures forall id, name :: ToolChunk(choice) == Some(ToolCallStart(id, name)) <==> Starts(choice, id, name)
    ensures forall i, args :: ToolChunk(choice) == Some(ToolCallArgsDelta(i, args)) <==> AddsArguments(choice, i, args)
    ensures ToolChunk(choice).None? <==> NoTool(choice)
  {
    if choice.toolCalls.Some? && choice.toolCalls.value != [] && choice.toolCalls.value[0].func.Some? {
      var delta := choice.toolCalls.value[0];
      var f := delta.func.value;
      assert FirstTool(choice, delta);
      if f.name.Some? && f.name.value != "" {
        assert Names(delta, f.name.value);
        assert Starts(choice, GetOr(delta.id, ""), f.name.value);
      } else if f.arguments.Some? {
        assert AddsArguments(choice, GetOr(delta.index, 0), f.arguments.value);
      }
    }
  }

  lemma ClassifyIff(r: Response, c: Choice)
    requires r.choices.Some? && 0 < |r.choices.value| && r.choices.value[0] == c
    ensures forall chunk :: ToolChunk(c) == Some(chunk) ==> Classify(r) == Some(chunk)
    ensures forall text :: Classify(r) == Some(TextDelta(text)) <==> ToolChunk(c).None? && Unfinished(c) && Holds(c, text)
    ensures Classify(r) == Some(Done) <==> ToolChunk(c).None? && Stops(c)
    ensures forall p, q :: Classify(r) != Some(Usage(p, q))
    ensures forall id, name :: Classify(r) == Some(ToolCallStart(id, name)) <==> ToolChunk(c) == Some(ToolCallStart(id, name))
    ensures forall i, args :: Classify(r) == Some(ToolCallArgsDelta(i, args)) <==> ToolChunk(c) == Some(ToolCallArgsDelta(i, args))
  {
  }

  /** The line carries this response and nothing else. */
  ghost predicate OnlyCarries(decode: Decoder, line: string, response: Response) {
    !Payload(line, "[DONE]") && forall r :: Carries(decode, line, r) <==> r == response
  }

  lemma ChoosesIff(decode: Decoder, line: string, r: Response)
    requires OnlyCarries(decode, line, r)
    ensures forall c :: Chooses(decode, line, c) <==> r.choices.Some? && 0 < |r.choices.value| && r.choices.value[0] == c
  {
    assert Carries(decode, line, r);
    hide Carries, Payload;
  }

  /** What the code makes of a response is what the line says. */
  lemma ResponseIff(decode: Decoder, line: string, r: Response)
    requires OnlyCarries(decode, line, r)
    ensures forall text :: Classify(r) == Some(TextDelta(text)) <==> SaysText(decode, line, text)
    ensures Classify(r) == Some(Done) <==> SaysEnd(decode, line)
    ensures forall p, q :: Classify(r) == Some(Usage(p, q)) <==> SaysUsage(decode, line, p, q)
    ensures forall id, name :: Classify(r) == Some(ToolCallStart(id, name)) <==> SaysStart(decode, line, id, name)
    ensures forall i, args :: Classify(r) == Some(ToolCallArgsDelta(i, args)) <==> SaysArguments(decode, line, i, args)
  {
    ChoosesIff(decode, line, r);
    if r.choices.Some? && 0 < |r.choices.value| {
      var c := r.choices.value[0];
      ClassifyIff(r, c);
      ToolChunkIff(c);
      assert Chooses(decode, line, c);
      assert forall d :: Chooses(decode, line, d) <==> d == c;
      hide Classify, ToolChunk, Starts, AddsArguments, NoTool, Chooses, Payload;
    } else {
      assert Carries(decode, line, r);
      hide Chooses, Carries, Payload;
    }
  }

  lemma NothingSaid(decode: Decoder, line: string)
    requires forall r :: !Carries(decode, line, r)
    ensures forall text :: !SaysText(decode, line, text)
    ensures SaysEnd(decode, line) <==> Payload(line, "[DONE]")
    ensures forall p, q :: !SaysUsage(decode, line, p, q)
    ensures forall id, name :: !SaysStart(decode, line, id, name)
    ensures forall i, args :: !SaysArguments(decode, line, i, args)
  {
    hide Carries, Payload;
  }

  /** What the code makes of a line is exactly what the line says. */
  lemma ChunkIff(decode: Decoder, line: string)
    ensures forall text :: LineChunk(decode, line) == Some(TextDelta(text)) <==> SaysText(decode, line, text)
    ensures LineChunk(decode, line) == Some(Done) <==> SaysEnd(decode, line)
    ensures forall p, q :: LineChunk(decode, line) == Some(Usage(p, q)) <==> SaysUsage(decode, line, p, q)
    ensures forall id, name :: LineChunk(decode, line) == Some(ToolCallStart(id, name)) <==> SaysStart(decode, line, id, name)
    ensures forall i, args :: LineChunk(decode, line) == Some(ToolCallArgsDelta(i, args)) <==> SaysArguments(decode, line, i, args)
  {
    LineChunkIs(decode, line);
    hide LineChunk, Carries, Payload, Classify;
    if r :| Carries(decode, line, r) {
      ResponseIff(decode, line, r);
    } else {
      NothingSaid(decode, line);
    }
  }

  lemma LineChunkIs(decode: Decoder, line: string)
    ensures forall r :: Carries(decode, line, r) ==> OnlyCarries(decode, line, r) && LineChunk(decode, line) == Classify(r)
    ensures (forall r :: !Carries(decode, line, r)) ==>
              LineChunk(decode, line) == if Payload(line, "[DONE]") then Some(Done) else None
  {
    var t := Trim(line);
    forall r ensures Carries(decode, line, r) <==> "data: " <= t && t[6..] != "[DONE]" && decode(t[6..]) == Some(r) {
      CarriesIff(decode, line, r);
    }
    CarriesIff(decode, line, Response(None, None));
    hide Trim, Carries, Payload, Classify;
    if r :| Carries(decode, line, r) {
    } else if "data: " <= t && t[6..] != "[DONE]" {
      assert decode(t[6..]).Some? ==> Carries(decode, line, decode(t[6..]).value);
    }
  }

  // ---- What a body says ----

  /** The event a line sends at once: its text, unless empty, or its token counts. */
  ghost function SentFor(decode: Decoder, line: string): seq<Event> {
    if text :| text != "" && SaysText(decode, line, text) then [TextEvent(text)]
    else if p, q :| SaysUsage(decode, line, p, q) then [UsageEvent(p, q)]
    else []
  }

  ghost function SentForAll(decode: Decoder, lines: seq<string>): seq<Event> {
    if lines == [] then [] else SentFor(decode, lines[0]) + SentForAll(decode, lines[1..])
  }

  ghost function ArgumentsFor(decode: Decoder, line: string): string {
    if args :| SaysArguments(decode, line, 0, args) then args else ""
  }

  /** The arguments for slot zero on the lines, in order. */
  ghost function ArgumentsOn(decode: Decoder, lines: seq<string>): string {
    if lines == [] then ""
    else ArgumentsFor(decode, lines[0]) + ArgumentsOn(decode, lines[1..])
  }

  /** The one tool call: named by the first start, with all later arguments for slot zero. */
  ghost function CallOn(decode: Decoder, lines: seq<string>): seq<Event> {
    if lines == [] then []
    else if id, name :| SaysStart(decode, lines[0], id, name) then
      [ToolUse(ToolCall(id, name, ArgumentsOn(decode, lines[1..])))]
    else CallOn(decode, lines[1..])
  }

  /** The lines before the first end mark. */
  ghost function LinesBeforeEnd(decode: Decoder, lines: seq<string>): (before: seq<string>)
    ensures |before| <= |lines|
  {
    if lines == [] || SaysEnd(decode, lines[0]) then [] else [lines[0]] + LinesBeforeEnd(decode, lines[1..])
  }

  // ---- One line in the feed ----

  function Gather(decode: Decoder, calls: Calls, line: string): Calls {
    var chunk := LineChunk(decode, line);
    if chunk.Some? then Accumulate(calls, chunk.value) else calls
  }

  lemma SentForIs(decode: Decoder, line: string)
    ensures SentFor(decode, line) ==
            match LineChunk(decode, line)
            case Some(TextDelta(text)) => if text == "" then [] else [TextEvent(text)]
            case Some(Usage(p, q)) => [UsageEvent(p, q)]
            case _ => []
  {
    ChunkIff(decode, line);
    hide LineChunk, SaysText, SaysUsage;
    var chunk := LineChunk(decode, line);
    if chunk.Some? && chunk.value.TextDelta? {
      assert SaysText(decode, line, chunk.value.text);
    } else if chunk.Some? && chunk.value.Usage? {
      assert SaysUsage(decode, line, chunk.value.prompt, chunk.value.completion);
    }
  }

  /** A line that is no end mark adds its event and gathers its part of a call. */
  lemma LineFeeds(decode: Decoder, st: Feed, line: string)
    requires !st.done
    ensures FeedChunk(st, LineChunk(decode, line)) ==
            if SaysEnd(decode, line) then Feed(map[], st.sent + Flush(st.calls) + [DoneEvent("stop")], true)
            else Feed(Gather(decode, st.calls, line), st.sent + SentFor(decode, line), false)
  {
    ChunkIff(decode, line);
    SentForIs(decode, line);
    hide LineChunk, SaysText, SaysUsage, SaysStart, SaysArguments, SaysEnd, SentFor, Flush;
    assert st.sent + [] == st.sent;
  }

  lemma LineCollects(decode: Decoder, c: Collector, line: string)
    requires !c.done
    ensures CollectChunk(c, LineChunk(decode, line)) ==
            if SaysEnd(decode, line)
            then Collector(map[], c.events + Flush(c.calls) + OptionEvent(c.usage) + [DoneEvent("stop")], None, true)
            else Collector(Gather(decode, c.calls, line), c.events + Texts(SentFor(decode, line)),
                           LaterUsage(c.usage, SentFor(decode, line)), false)
  {
    ChunkIff(decode, line);
    SentForIs(decode, line);
    hide LineChunk, SaysText, SaysUsage, SaysStart, SaysArguments, SaysEnd, SentFor, Flush, OptionEvent;
    assert c.events + [] == c.events;
    var chunk := LineChunk(decode, line);
    if chunk.Some? && chunk.value.TextDelta? && chunk.value.text != "" {
      assert [TextEvent(chunk.value.text)][1..] == [];
    } else if chunk.Some? && chunk.value.Usage? {
      assert [UsageEvent(chunk.value.prompt, chunk.value.completion)][1..] == [];
    }
  }

  /** The text events of a sequence. */
  function Texts(events: seq<Event>): seq<Event> {
    if events == [] then [] else (if events[0].TextEvent? then [events[0]] else []) + Texts(events[1..])
  }

  /** The last token counts of a sequence, or those from before it. */
  function LaterUsage(usage: Option<Event>, events: seq<Event>): Option<Event>
    decreases |events|
  {
    if events == [] then usage
    else LaterUsage(if events[0].UsageEvent? then Some(events[0]) else usage, events[1..])
  }

  function GatherAll(decode: Decoder, calls: Calls, lines: seq<string>): Calls
    decreases |lines|
  {
    if lines == [] then calls else GatherAll(decode, Gather(decode, calls, lines[0]), lines[1..])
  }

  /** The gathered call is the one the lines say. */
  lemma {:induction false} GatheredCall(decode: Decoder, calls: Calls, lines: seq<string>)
    requires calls == map[] || calls.Keys == {0}
    ensures Flush(GatherAll(decode, calls, lines)) ==
            if calls == map[] then CallOn(decode, lines)
            else [ToolUse(calls[0].(arguments := calls[0].arguments + ArgumentsOn(decode, lines)))]
    decreases |lines|
  {
    hide *;
    if lines == [] {
      NothingGathered(decode, calls);
    } else {
      GatherIs(decode, calls, lines[0]);
      SaidNext(decode, calls, lines);
      var next := Gather(decode, calls, lines[0]);
      GatheredCall(decode, next, lines[1..]);
      var rest := ArgumentsOn(decode, lines[1..]);
      if calls != map[] {
        var args := ArgumentsFor(decode, lines[0]);
        assert calls[0].arguments + args + rest == calls[0].arguments + (args + rest);
      } else if id, name :| SaysStart(decode, lines[0], id, name) {
        assert "" + rest == rest;
      }
    }
  }

  lemma NothingGathered(decode: Decoder, calls: Calls)
    requires calls == map[] || calls.Keys == {0}
    ensures CallOn(decode, []) == [] && ArgumentsOn(decode, []) == "" && GatherAll(decode, calls, []) == calls
    ensures Flush(calls) == if calls == map[] then [] else [ToolUse(calls[0].(arguments := calls[0].arguments + ""))]
  {
    assert calls != map[] ==> calls[0].arguments + "" == calls[0].arguments;
  }

  lemma SaidNext(decode: Decoder, calls: Calls, lines: seq<string>)
    requires lines != []
    ensures GatherAll(decode, calls, lines) == GatherAll(decode, Gather(decode, calls, lines[0]), lines[1..])
    ensures ArgumentsOn(decode, lines) == ArgumentsFor(decode, lines[0]) + ArgumentsOn(decode, lines[1..])
    ensures forall id, name :: SaysStart(decode, lines[0], id, name) ==>
              CallOn(decode, lines) == [ToolUse(ToolCall(id, name, ArgumentsOn(decode, lines[1..])))]
    ensures (forall id, name :: !SaysStart(decode, lines[0], id, name)) ==> CallOn(decode, lines) == CallOn(decode, lines[1..])
  {
    ChunkIff(decode, lines[0]);
    hide LineChunk, SaysText, SaysUsage, SaysStart, SaysArguments, SaysEnd, Gather;
  }

  lemma GatherIs(decode: Decoder, calls: Calls, line: string)
    requires calls == map[] || calls.Keys == {0}
    ensures var next := Gather(decode, calls, line);
            && (next == map[] || next.Keys == {0})
            && (calls == map[] ==>
                  && (next == map[] <==> forall id, name :: !SaysStart(decode, line, id, name))
                  && (forall id, name :: SaysStart(decode, line, id, name) ==> next == map[0 := ToolCall(id, name, "")]))
            && (calls != map[] ==>
                  && next.Keys == {0}
                  && next[0] == calls[0].(arguments := calls[0].arguments + ArgumentsFor(decode, line)))
  {
    ChunkIff(decode, line);
    hide LineChunk, SaysText, SaysUsage, SaysStart, SaysArguments, SaysEnd;
    var chunk := LineChunk(decode, line);
    if chunk.Some? && chunk.value.ToolCallStart? {
      assert SaysStart(decode, line, chunk.value.id, chunk.value.name);
    } else if chunk.Some? && chunk.value.ToolCallArgsDelta? {
      assert SaysArguments(decode, line, chunk.value.index, chunk.value.args);
    }
    assert calls != map[] ==> calls[0].arguments + "" == calls[0].arguments;
  }

  // ---- The whole stream and the whole collection ----

  /** The lines before the first end mark, the call gathered and the events sent on them, one
      line at a time. */
  lemma LinesNext(decode: Decoder, calls: Calls, lines: seq<string>)
    requires lines != []
    ensures var before, tail := LinesBeforeEnd(decode, lines), LinesBeforeEnd(decode, lines[1..]);
            if SaysEnd(decode, lines[0])
            then before == [] && before != lines && GatherAll(decode, calls, before) == calls && SentForAll(decode, before) == []
            else && (before == lines <==> tail == lines[1..])
                 && GatherAll(decode, calls, before) == GatherAll(decode, Gather(decode, calls, lines[0]), tail)
                 && SentForAll(decode, before) == SentFor(decode, lines[0]) + SentForAll(decode, tail)
  {
    hide SaysEnd, Gather, SentFor;
    if !SaysEnd(decode, lines[0]) {
      var tail := LinesBeforeEnd(decode, lines[1..]);
      assert LinesBeforeEnd(decode, lines) == [lines[0]] + tail;
      assert ([lines[0]] + tail)[1..] == tail && lines == [lines[0]] + lines[1..];
    }
  }

  /** Feeding lines: the events of the lines before the first end mark, and there the call and
      Done. */
  lemma {:induction false} FeedSends(decode: Decoder, st: Feed, lines: seq<string>)
    requires !st.done
    ensures var before := LinesBeforeEnd(decode, lines);
            var calls, sent := GatherAll(decode, st.calls, before), st.sent + SentForAll(decode, before);
            FeedLines(decode, st, lines) ==
            if before == lines then Feed(calls, sent, false) else Feed(map[], sent + Flush(calls) + [DoneEvent("stop")], true)
    decreases |lines|
  {
    hide *;
    if lines == [] {
      NoLinesFed(decode, st);
    } else {
      LineFeeds(decode, st, lines[0]);
      LinesNext(decode, st.calls, lines);
      FeedLinesNext(decode, st, lines);
      var next := FeedChunk(st, LineChunk(decode, lines[0]));
      if SaysEnd(decode, lines[0]) {
        FeedLinesDone(decode, next, lines[1..]);
        assert st.sent + [] == st.sent;
      } else {
        FeedSends(decode, next, lines[1..]);
        var here, later := SentFor(decode, lines[0]), SentForAll(decode, LinesBeforeEnd(decode, lines[1..]));
        assert st.sent + (here + later) == st.sent + here + later;
      }
    }
  }

  lemma NoLinesFed(decode: Decoder, st: Feed)
    ensures LinesBeforeEnd(decode, []) == [] && GatherAll(decode, st.calls, []) == st.calls
    ensures st.sent + SentForAll(decode, []) == st.sent && (st.done || FeedLines(decode, st, []) == st)
  {
    assert Chunks(decode, []) == [] && st.sent + [] == st.sent;
  }

  lemma FeedLinesNext(decode: Decoder, st: Feed, lines: seq<string>)
    requires lines != []
    ensures FeedLines(decode, st, lines) == FeedLines(decode, FeedChunk(st, LineChunk(decode, lines[0])), lines[1..])
  {
    hide LineChunk, FeedChunk;
    assert Chunks(decode, lines)[1..] == Chunks(decode, lines[1..]);
  }

  lemma FeedLinesDone(decode: Decoder, st: Feed, lines: seq<string>)
    requires st.done
    ensures FeedLines(decode, st, lines) == st
  {
    DoneIsFinal(st, Chunks(decode, lines));
  }

  /** What a stream sends, told by the lines of its text: the texts and token counts before the
      first end mark, in order; then the tool call, if one was started, and Done; or, if the
      transport breaks before an end mark, the error and nothing else. */
  lemma {:induction false} StreamSays(decode: Decoder, text: string, error: Option<string>)
    ensures var lines := LinesBeforeEnd(decode, Terminated(text));
            StreamEvents(decode, text, error) ==
            SentForAll(decode, lines)
            + if error.Some? && lines == Terminated(text) then [ErrorEvent(error.value)]
              else CallOn(decode, lines) + [DoneEvent("stop")]
  {
    var lines := LinesBeforeEnd(decode, Terminated(text));
    FeedSends(decode, START, Terminated(text));
    GatheredCall(decode, map[], lines);
    hide Flush, Terminated, LinesBeforeEnd, FeedLines, GatherAll, CallOn, SentForAll;
    var sent := SentForAll(decode, lines);
    assert [] + sent == sent;
    assert sent + CallOn(decode, lines) + [DoneEvent("stop")] == sent + (CallOn(decode, lines) + [DoneEvent("stop")]);
  }

  lemma {:induction false} TextsConcatenation(a: seq<Event>, b: seq<Event>)
    ensures Texts(a + b) == Texts(a) + Texts(b)
  {
    if a == [] {
      assert a + b == b;
    } else {
      assert (a + b)[0] == a[0] && (a + b)[1..] == a[1..] + b;
      TextsConcatenation(a[1..], b);
      var first := if a[0].TextEvent? then [a[0]] else [];
      assert first + (Texts(a[1..]) + Texts(b)) == first + Texts(a[1..]) + Texts(b);
    }
  }

  lemma {:induction false} LaterUsageConcatenation(usage: Option<Event>, a: seq<Event>, b: seq<Event>)
    ensures LaterUsage(usage, a + b) == LaterUsage(LaterUsage(usage, a), b)
    decreases |a|
  {
    if a == [] {
      assert a + b == b;
    } else {
      assert (a + b)[0] == a[0] && (a + b)[1..] == a[1..] + b;
      LaterUsageConcatenation(if a[0].UsageEvent? then Some(a[0]) else usage, a[1..], b);
    }
  }

  lemma {:induction false} CollectSays(decode: Decoder, c: Collector, lines: seq<string>)
    requires !c.done
    ensures var before := LinesBeforeEnd(decode, lines);
            var calls, said := GatherAll(decode, c.calls, before), SentForAll(decode, before);
            CollectAll(c, Chunks(decode, lines)) ==
            if before == lines then Collector(calls, c.events + Texts(said), LaterUsage(c.usage, said), false)
            else Collector(map[], c.events + Texts(said) + Flush(calls) + OptionEvent(LaterUsage(c.usage, said)) + [DoneEvent("stop")],
                           None, true)
    decreases |lines|
  {
    hide *;
    if lines == [] {
      NothingCollected(decode, c);
    } else {
      LineCollects(decode, c, lines[0]);
      LinesNext(decode, c.calls, lines);
      CollectNext(decode, c, lines);
      var next := CollectChunk(c, LineChunk(decode, lines[0]));
      if SaysEnd(decode, lines[0]) {
        DoneStays(next, Chunks(decode, lines[1..]));
        NoTexts(c);
      } else {
        CollectSays(decode, next, lines[1..]);
        var here, later := SentFor(decode, lines[0]), SentForAll(decode, LinesBeforeEnd(decode, lines[1..]));
        TextsConcatenation(here, later);
        LaterUsageConcatenation(c.usage, here, later);
        assert c.events + (Texts(here) + Texts(later)) == c.events + Texts(here) + Texts(later);
      }
    }
  }

  lemma NoTexts(c: Collector)
    ensures c.events + Texts([]) == c.events && LaterUsage(c.usage, []) == c.usage
  {
  }

  lemma NothingCollected(decode: Decoder, c: Collector)
    ensures LinesBeforeEnd(decode, []) == [] && GatherAll(decode, c.calls, []) == c.calls && SentForAll(decode, []) == []
    ensures c.events + Texts([]) == c.events && LaterUsage(c.usage, []) == c.usage
    ensures CollectAll(c, Chunks(decode, [])) == c
  {
    assert Chunks(decode, []) == [];
  }

  lemma CollectNext(decode: Decoder, c: Collector, lines: seq<string>)
    requires lines != []
    ensures CollectAll(c, Chunks(decode, lines))
            == CollectAll(CollectChunk(c, LineChunk(decode, lines[0])), Chunks(decode, lines[1..]))
  {
    hide LineChunk, CollectChunk;
    assert Chunks(decode, lines)[1..] == Chunks(decode, lines[1..]);
  }

  /** What the collector gives, told by the body's lines: the texts before the first end mark,
      in order, and, only if there is an end mark, the tool call, the last token counts and
      Done. */
  lemma {:induction false} CollectorSays(decode: Decoder, body: string)
    ensures var lines := LinesBeforeEnd(decode, Lines(body));
            var said := SentForAll(decode, lines);
            Collected(decode, body) ==
            Texts(said) + if lines == Lines(body) then []
                          else CallOn(decode, lines) + OptionEvent(LaterUsage(None, said)) + [DoneEvent("stop")]
  {
    hide *;
    var lines := LinesBeforeEnd(decode, Lines(body));
    CollectedIs(decode, body);
    CollectSays(decode, NOTHING_COLLECTED, Lines(body));
    GatheredCall(decode, map[], lines);
    var said := SentForAll(decode, lines);
    var call, usage := CallOn(decode, lines), OptionEvent(LaterUsage(None, said));
    assert [] + Texts(said) == Texts(said) == Texts(said) + [];
    assert Texts(said) + call + usage + [DoneEvent("stop")] == Texts(said) + (call + usage + [DoneEvent("stop")]);
  }

  lemma CollectedIs(decode: Decoder, body: string)
    ensures Collected(decode, body) == CollectAll(NOTHING_COLLECTED, Chunks(decode, Lines(body))).events
    ensures NOTHING_COLLECTED == Collector(map[], [], None, false)
  {
  }
}
