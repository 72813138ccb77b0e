/** What the streaming decoder promises: independence of chunking, one end event, and
    agreement with the whole-body collector. */
module StreamLaws {
  import opened Common
  import opened Llm
  import opened Sse
  import opened Streaming
  import Utf8

  // ----- Chunk boundaries -----

  /** Cut at character boundaries, a body sends the events of its decoded whole. */
  lemma {:induction false} CleanCutsDoNotMatter(decode: Decoder, pieces: seq<seq<Utf8.byte>>)
    requires Utf8.CutsClean(pieces)
    ensures AllEvents(decode, Body(Good(pieces))) == StreamEvents(decode, Utf8.Decode(Utf8.Join(pieces)), None)
  {
    TextOfBodies(pieces);
    Utf8.DecodeEachIff(pieces);
  }

  /** Two clean ways to cut the same bytes send the same events. */
  lemma {:induction false} ChunkingIsInvisible(decode: Decoder, a: seq<seq<Utf8.byte>>, b: seq<seq<Utf8.byte>>)
    requires Utf8.CutsClean(a) && Utf8.CutsClean(b) && Utf8.Join(a) == Utf8.Join(b)
    ensures AllEvents(decode, Body(Good(a))) == AllEvents(decode, Body(Good(b)))
  {
    CleanCutsDoNotMatter(decode, a);
    CleanCutsDoNotMatter(decode, b);
  }

  lemma {:induction false} TextOfBodies(pieces: seq<seq<Utf8.byte>>)
    ensures TextOf(Good(pieces)) == Utf8.DecodeEach(pieces) && ErrorOf(Good(pieces)) == None
  {
    if pieces != [] {
      assert Good(pieces)[1..] == Good(pieces[1..]);
      TextOfBodies(pieces[1..]);
    }
  }

  // ----- One end event -----

  predicate IsEnd(e: Event) { e.DoneEvent? || e.ErrorEvent? }

  ghost predicate NoEnd(events: seq<Event>) {
    forall e :: e in events ==> !IsEnd(e)
  }

  /** A feed that is not done has sent no end event; a done one has sent one, as its last. */
  ghost predicate EndsProperly(st: Feed) {
    if st.done then st.sent != [] && st.sent[|st.sent| - 1] == DoneEvent("stop") && NoEnd(st.sent[..|st.sent| - 1])
    else NoEnd(st.sent)
  }

  lemma {:induction false} FeedEndsProperly(st: Feed, chunks: seq<Option<SseChunk>>)
    requires EndsProperly(st)
    ensures EndsProperly(FeedAll(st, chunks))
    decreases |chunks|
  {
    if chunks != [] {
      if !st.done && chunks[0] == Some(Done) {
        assert FeedChunk(st, chunks[0]).sent[..|st.sent + Flush(st.calls)|] == st.sent + Flush(st.calls);
      }
      FeedEndsProperly(FeedChunk(st, chunks[0]), chunks[1..]);
    }
  }

  /** The stream documents that its last event is Done or Error. There is exactly one such
      event and it is last, unless the request could not even be sent. */
  lemma OneEndEvent(decode: Decoder, answer: Answer)
    ensures var events := AllEvents(decode, answer);
            && ((events != [] && IsEnd(events[|events| - 1])) <==> !answer.SendFailed?)
            && (events != [] ==> NoEnd(events[..|events| - 1]))
            && (answer.Body? && ErrorOf(answer.chunks) == None ==> events[|events| - 1] == DoneEvent("stop"))
  {
    if answer.Body? {
      var st := FeedLines(decode, START, Terminated(TextOf(answer.chunks)));
      FeedEndsProperly(START, Chunks(decode, Terminated(TextOf(answer.chunks))));
      assert (st.sent + Flush(st.calls) + [DoneEvent("stop")])[..|st.sent + Flush(st.calls)|] == st.sent + Flush(st.calls);
    }
  }

  // ----- Agreement with the collector -----

  function WithoutUsage(events: seq<Event>): seq<Event> {
    if events == [] then []
    else (if events[0].UsageEvent? then [] else [events[0]]) + WithoutUsage(events[1..])
  }

  /** The last usage event of a sequence, if it has one. */
  function LastUsage(events: seq<Event>): Option<Event> {
    if events == [] then None
    else if events[|events| - 1].UsageEvent? then Some(events[|events| - 1])
    else LastUsage(events[..|events| - 1])
  }

  lemma {:induction false} WithoutUsageConcatenation(a: seq<Event>, b: seq<Event>)
    ensures WithoutUsage(a + b) == WithoutUsage(a) + WithoutUsage(b)
  {
    if a == [] {
      assert a + b == b;
    } else {
      assert (a + b)[0] == a[0] && (a + b)[1..] == a[1..] + b;
      WithoutUsageConcatenation(a[1..], b);
      var first := if a[0].UsageEvent? then [] else [a[0]];
      assert first + (WithoutUsage(a[1..]) + WithoutUsage(b)) == first + WithoutUsage(a[1..]) + WithoutUsage(b);
    }
  }

  lemma WithoutUsageSnoc(events: seq<Event>, e: Event)
    ensures WithoutUsage(events + [e]) == WithoutUsage(events) + (if e.UsageEvent? then [] else [e])
    ensures LastUsage(events + [e]) == if e.UsageEvent? then Some(e) else LastUsage(events)
  {
    WithoutUsageConcatenation(events, [e]);
    assert WithoutUsage([e]) == if e.UsageEvent? then [] else [e];
    assert (events + [e])[..|events|] == events;
  }

  /** The collected events are the streamed ones with the usage events gone but for the
      last, which moved to just before the end. */
  ghost predicate EndsAlike(sent: seq<Event>, collected: seq<Event>) {
    && sent != [] && sent[|sent| - 1] == DoneEvent("stop")
    && collected == WithoutUsage(sent[..|sent| - 1]) + OptionEvent(LastUsage(sent)) + [DoneEvent("stop")]
  }

  /** Lock step of the two decoders over the same lines: they assemble the same calls;
      before the end mark the collector holds the text events and the last usage; after it
      it holds the same events with one usage before the end. */
  ghost predicate InStep(st: Feed, c: Collector) {
    && st.done == c.done && st.calls == c.calls
    && if c.done then EndsAlike(st.sent, c.events)
       else c.events == WithoutUsage(st.sent) && c.usage == LastUsage(st.sent)
  }

  lemma {:induction false} DecodersInStep(st: Feed, c: Collector, chunks: seq<Option<SseChunk>>)
    requires InStep(st, c)
    ensures InStep(FeedAll(st, chunks), CollectAll(c, chunks))
    decreases |chunks|
  {
    if chunks != [] {
      StepKeepsStep(st, c, chunks[0]);
      DecodersInStep(FeedChunk(st, chunks[0]), CollectChunk(c, chunks[0]), chunks[1..]);
    }
  }

  lemma StepKeepsStep(st: Feed, c: Collector, chunk: Option<SseChunk>)
    requires InStep(st, c)
    ensures InStep(FeedChunk(st, chunk), CollectChunk(c, chunk))
  {
    hide WithoutUsage, LastUsage, Flush, Accumulate, EndsAlike, OptionEvent;
    if !c.done && chunk.Some? {
      match chunk.value {
        case TextDelta(s) => WithoutUsageSnoc(st.sent, TextEvent(s));
        case Usage(p, q) => WithoutUsageSnoc(st.sent, UsageEvent(p, q));
        case Done => EndKeepsStep(st, c);
        case _ =>
      }
    }
  }

  lemma EndKeepsStep(st: Feed, c: Collector)
    requires InStep(st, c) && !c.done
    ensures EndsAlike(st.sent + Flush(st.calls) + [DoneEvent("stop")],
                      c.events + Flush(c.calls) + OptionEvent(c.usage) + [DoneEvent("stop")])
  {
    var flushed := st.sent + Flush(st.calls);
    if 0 in st.calls {
      WithoutUsageSnoc(st.sent, ToolUse(st.calls[0]));
    } else {
      assert flushed == st.sent;
      assert c.events + Flush(c.calls) == c.events;
    }
    WithoutUsageSnoc(flushed, DoneEvent("stop"));
    assert (flushed + [DoneEvent("stop")])[..|flushed|] == flushed;
  }

  lemma UsageFreeEnds(sent: seq<Event>, collected: seq<Event>)
    requires EndsAlike(sent, collected)
    ensures WithoutUsage(sent) == WithoutUsage(collected)
  {
    var front, usage := sent[..|sent| - 1], OptionEvent(LastUsage(sent));
    assert sent == front + [DoneEvent("stop")];
    assert collected == WithoutUsage(front) + usage + [DoneEvent("stop")];
    hide LastUsage, EndsAlike;
    WithoutUsageSnoc(front, DoneEvent("stop"));
    WithoutUsageIdempotent(front);
    LastUsageIsUsage(sent);
    WithoutUsageConcatenation(WithoutUsage(front), usage);
    assert WithoutUsage(usage) == [] && WithoutUsage(front) + [] == WithoutUsage(front);
    hide WithoutUsage, OptionEvent;
    WithoutUsageSnoc(WithoutUsage(front) + usage, DoneEvent("stop"));
  }

  lemma {:induction false} LastUsageIsUsage(events: seq<Event>)
    ensures LastUsage(events).Some? ==> LastUsage(events).value.UsageEvent?
    decreases |events|
  {
    if events != [] {
      LastUsageIsUsage(events[..|events| - 1]);
    }
  }

  lemma {:induction false} WithoutUsageIdempotent(events: seq<Event>)
    ensures WithoutUsage(WithoutUsage(events)) == WithoutUsage(events)
  {
    if events != [] {
      var rest := WithoutUsage(events[1..]);
      WithoutUsageIdempotent(events[1..]);
      assert !events[0].UsageEvent? ==> ([events[0]] + rest)[1..] == rest;
      assert events[0].UsageEvent? ==> [] + rest == rest;
    }
  }

  lemma {:induction false} WithoutUsageKeeps(events: seq<Event>, e: Event)
    requires !e.UsageEvent?
    ensures e in WithoutUsage(events) <==> e in events
  {
    if events != [] {
      WithoutUsageKeeps(events[1..], e);
    }
  }

  /** Returns are stripped by the collector's line splitter and by trimming alike. */
  lemma StripReturnsInvisible(decode: Decoder, lines: seq<string>)
    ensures Chunks(decode, StripReturns(lines)) == Chunks(decode, lines)
  {
    forall i | 0 <= i < |lines| ensures LineChunk(decode, StripReturn(lines[i])) == LineChunk(decode, lines[i]) {
      TrimStripsReturn(lines[i]);
    }
  }

  lemma TrimStripsReturn(line: string)
    ensures Trim(StripReturn(line)) == Trim(line)
  {
  }

  lemma {:induction false} CollectorDoneIff(c: Collector, chunks: seq<Option<SseChunk>>)
    ensures CollectAll(c, chunks).done <==> c.done || Some(Done) in chunks
    decreases |chunks|
  {
    if chunks != [] {
      CollectorDoneIff(CollectChunk(c, chunks[0]), chunks[1..]);
    }
  }

  lemma {:induction false} CollectAllConcatenation(c: Collector, a: seq<Option<SseChunk>>, b: seq<Option<SseChunk>>)
    ensures CollectAll(c, a + b) == CollectAll(CollectAll(c, a), b)
    decreases |a|
  {
    if a == [] {
      assert a + b == b;
    } else {
      assert (a + b)[1..] == a[1..] + b;
      CollectAllConcatenation(CollectChunk(c, a[0]), a[1..], b);
    }
  }

  /** The collector over a whole body: the terminated lines, then what follows them. */
  function LastChunks(decode: Decoder, body: string): (r: seq<Option<SseChunk>>)
    ensures |r| <= 1
  {
    if Rest(body) == "" then [] else [LineChunk(decode, Rest(body))]
  }

  lemma ChunksOfBody(decode: Decoder, body: string)
    ensures Chunks(decode, Lines(body)) == Chunks(decode, Terminated(body)) + LastChunks(decode, body)
  {
    StripReturnsInvisible(decode, Terminated(body));
    ChunksOfConcatenation(decode, StripReturns(Terminated(body)), if Rest(body) == "" then [] else [Rest(body)]);
  }

  /** Incremental and whole-body decoding send the same events, usage aside, exactly for
      the bodies with an end mark on some line, terminated or not. Without one the stream
      still says Done and hands over its calls, the collector does neither. */
  lemma IncrementalEqualsBatchIff(decode: Decoder, body: string)
    ensures WithoutUsage(StreamEvents(decode, body, None)) == WithoutUsage(Collected(decode, body))
            <==> Some(Done) in Chunks(decode, Lines(body))
    ensures Some(Done) in Chunks(decode, Lines(body)) ==>
              EndsAlike(StreamEvents(decode, body, None), Collected(decode, body))
  {
    var chunks, last := Chunks(decode, Terminated(body)), LastChunks(decode, body);
    ChunksOfBody(decode, body);
    DecodersInStep(START, NOTHING_COLLECTED, chunks);
    CollectAllConcatenation(NOTHING_COLLECTED, chunks, last);
    CollectorDoneIff(NOTHING_COLLECTED, chunks + last);
    FeedEndsProperly(START, chunks);
    AgreeIff(FeedAll(START, chunks), CollectAll(NOTHING_COLLECTED, chunks), last);
  }

  lemma AgreeIff(st: Feed, c: Collector, last: seq<Option<SseChunk>>)
    requires InStep(st, c) && EndsProperly(st) && |last| <= 1
    ensures WithoutUsage(Close(st, None)) == WithoutUsage(CollectAll(c, last).events) <==> CollectAll(c, last).done
    ensures CollectAll(c, last).done ==> EndsAlike(Close(st, None), CollectAll(c, last).events)
  {
    hide WithoutUsage, LastUsage, Accumulate, EndsAlike;
    CollectorDoneIff(c, last);
    if c.done {
      DoneStays(c, last);
      UsageFreeEnds(st.sent, c.events);
    } else if last == [Some(Done)] {
      EndKeepsStep(st, c);
      UsageFreeEnds(Close(st, None), CollectAll(c, last).events);
    } else {
      WithoutUsageKeeps(Close(st, None), DoneEvent("stop"));
      WithoutUsageKeeps(CollectAll(c, last).events, DoneEvent("stop"));
      WithoutUsageKeeps(st.sent, DoneEvent("stop"));
      assert last != [] ==> CollectAll(c, last) == CollectChunk(c, last[0]);
    }
  }

  // ----- The assembled tool call -----

  /** The chunks before the first end mark. */
  function BeforeEnd(chunks: seq<Option<SseChunk>>): seq<SseChunk> {
    if chunks == [] || chunks[0] == Some(Done) then []
    else (if chunks[0].Some? then [chunks[0].value] else []) + BeforeEnd(chunks[1..])
  }

  /** The tool calls of an event sequence. */
  function ToolUses(events: seq<Event>): seq<ToolCall> {
    if events == [] then []
    else (if events[0].ToolUse? then [events[0].call] else []) + ToolUses(events[1..])
  }

  lemma {:induction false} ToolUsesConcatenation(a: seq<Event>, b: seq<Event>)
    ensures ToolUses(a + b) == ToolUses(a) + ToolUses(b)
  {
    if a == [] {
      assert a + b == b;
    } else {
      assert (a + b)[0] == a[0] && (a + b)[1..] == a[1..] + b;
      ToolUsesConcatenation(a[1..], b);
      var first := if a[0].ToolUse? then [a[0].call] else [];
      assert first + (ToolUses(a[1..]) + ToolUses(b)) == first + ToolUses(a[1..]) + ToolUses(b);
    }
  }

  /** A stream without a transport error emits at most one tool call: the one its first
      start names, with the argument deltas of index zero that follow before the end. */
  lemma StreamedToolCall(decode: Decoder, text: string, first: nat)
    requires var chunks := BeforeEnd(Chunks(decode, Terminated(text)));
             && first <= |chunks|
             && (forall i :: 0 <= i < first ==> !chunks[i].ToolCallStart?)
             && (first < |chunks| ==> chunks[first].ToolCallStart?)
    ensures var chunks := BeforeEnd(Chunks(decode, Terminated(text)));
            ToolUses(StreamEvents(decode, text, None)) ==
            if first == |chunks| then []
            else [ToolCall(chunks[first].id, chunks[first].name, ZeroArguments(chunks[first + 1..]))]
  {
    AssembledCall(BeforeEnd(Chunks(decode, Terminated(text))), first);
    ToolUsesOfFeed(START, Chunks(decode, Terminated(text)));
  }

  lemma {:induction false} ToolUsesOfFeed(st: Feed, chunks: seq<Option<SseChunk>>)
    requires !st.done
    ensures ToolUses(Close(FeedAll(st, chunks), None))
            == ToolUses(st.sent) + ToolUses(Flush(AccumulateAll(st.calls, BeforeEnd(chunks))))
    decreases |chunks|
  {
    if chunks == [] || chunks[0] == Some(Done) {
      if chunks != [] {
        DoneIsFinal(FeedChunk(st, chunks[0]), chunks[1..]);
      }
      ToolUsesConcatenation(st.sent + Flush(st.calls), [DoneEvent("stop")]);
      ToolUsesConcatenation(st.sent, Flush(st.calls));
      assert ToolUses([DoneEvent("stop")]) == [];
    } else {
      ToolUsesOfFeed(FeedChunk(st, chunks[0]), chunks[1..]);
      ChunkAccumulates(st, chunks[0], BeforeEnd(chunks[1..]));
    }
  }

  lemma ChunkAccumulates(st: Feed, chunk: Option<SseChunk>, rest: seq<SseChunk>)
    requires !st.done && chunk != Some(Done)
    ensures ToolUses(FeedChunk(st, chunk).sent) == ToolUses(st.sent)
    ensures AccumulateAll(st.calls, (if chunk.Some? then [chunk.value] else []) + rest)
            == AccumulateAll(FeedChunk(st, chunk).calls, rest)
  {
    if chunk.Some? {
      assert ([chunk.value] + rest)[1..] == rest;
      if chunk.value.TextDelta? {
        ToolUsesConcatenation(st.sent, [TextEvent(chunk.value.text)]);
        assert ToolUses([TextEvent(chunk.value.text)]) == [];
      } else if chunk.value.Usage? {
        ToolUsesConcatenation(st.sent, [UsageEvent(chunk.value.prompt, chunk.value.completion)]);
        assert ToolUses([UsageEvent(chunk.value.prompt, chunk.value.completion)]) == [];
      }
    } else {
      assert [] + rest == rest;
    }
  }
}
