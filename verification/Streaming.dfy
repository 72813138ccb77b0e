/** Chunk-fed decoding of a streamed completion
    (crates/workflow_engine_llm_openai/src/streaming.rs). */
module Streaming {
  import opened Common
  import opened Sse
  import Utf8

  // ----- What a stream should send, line by line -----

  datatype Feed = Feed(calls: Calls, sent: seq<Event>, done: bool)

  const START := Feed(map[], [], false)

  function FeedChunk(st: Feed, chunk: Option<SseChunk>): (next: Feed)
    ensures st.sent <= next.sent
  {
    if st.done || chunk.None? then st
    else match chunk.value
      case TextDelta(s) => if s == "" then st else st.(sent := st.sent + [TextEvent(s)])
      case Usage(p, q) => st.(sent := st.sent + [UsageEvent(p, q)])
      case Done => Feed(map[], st.sent + Flush(st.calls) + [DoneEvent("stop")], true)
      case _ => st.(calls := Accumulate(st.calls, chunk.value))
  }

  function FeedAll(st: Feed, chunks: seq<Option<SseChunk>>): (next: Feed)
    ensures st.sent <= next.sent
    decreases |chunks|
  {
    if chunks == [] then st else FeedAll(FeedChunk(st, chunks[0]), chunks[1..])
  }

  function FeedLines(decode: Decoder, st: Feed, lines: seq<string>): (next: Feed)
    ensures st.sent <= next.sent
  {
    FeedAll(st, Chunks(decode, lines))
  }

  /** The end of the body, with the transport error that ended it if there was one. */
  function Close(st: Feed, error: Option<string>): (events: seq<Event>)
    ensures st.sent <= events
  {
    if st.done then st.sent
    else if error.Some? then st.sent + [ErrorEvent(error.value)]
    else st.sent + Flush(st.calls) + [DoneEvent("stop")]
  }

  /** Everything a stream in state `st` will have sent once it is fed a text and ends. */
  function Owed(decode: Decoder, st: Feed, text: string, error: Option<string>): (events: seq<Event>)
    ensures st.sent <= events
  {
    Close(FeedLines(decode, st, Terminated(text)), error)
  }

  function StreamEvents(decode: Decoder, text: string, error: Option<string>): seq<Event> {
    Owed(decode, START, text, error)
  }

  // ----- The stream loop -----

  type Chunk = Result<seq<Utf8.byte>, string>

  /** The text of the chunks up to the first transport error, decoded chunk by chunk. */
  function TextOf(chunks: seq<Chunk>): string {
    if chunks == [] || chunks[0].Err? then "" else Utf8.Decode(chunks[0].value) + TextOf(chunks[1..])
  }

  function ErrorOf(chunks: seq<Chunk>): Option<string> {
    if chunks == [] then None
    else if chunks[0].Err? then Some(chunks[0].error)
    else ErrorOf(chunks[1..])
  }

  /** Of a body the transport breaks off, the text is that of the chunks before the break, and
      the error that of the break, whatever would follow. */
  lemma {:induction false} BrokenBody(pieces: seq<seq<Utf8.byte>>, error: string, rest: seq<Chunk>)
    ensures TextOf(Good(pieces) + [Err(error)] + rest) == Utf8.DecodeEach(pieces) == TextOf(Good(pieces))
    ensures ErrorOf(Good(pieces) + [Err(error)] + rest) == Some(error) && ErrorOf(Good(pieces)) == None
  {
    var chunks := Good(pieces) + [Err(error)] + rest;
    if pieces == [] {
      assert chunks[0] == Err(error);
    } else {
      assert Good(pieces)[1..] == Good(pieces[1..]);
      assert chunks[0] == Ok(pieces[0]) && chunks[1..] == Good(pieces[1..]) + [Err(error)] + rest;
      BrokenBody(pieces[1..], error, rest);
    }
  }

  function Good(pieces: seq<seq<Utf8.byte>>): seq<Chunk> {
    if pieces == [] then [] else [Ok(pieces[0])] + Good(pieces[1..])
  }

  /** A receiver that leaves after `limit` events has received that many. */
  function Received(events: seq<Event>, limit: Option<nat>): seq<Event> {
    if limit.Some? && limit.value < |events| then events[..limit.value] else events
  }

  /** Such a receiver has a beginning of the events, as long as it may be. */
  lemma ReceivedIs(events: seq<Event>, limit: Option<nat>)
    ensures Received(events, limit) <= events
    ensures limit.None? ==> Received(events, limit) == events
    ensures limit.Some? ==> |Received(events, limit)| == if limit.value <= |events| then limit.value else |events|
  {
  }

  /** A request that fails sends nothing and is an error; one that is refused sends its message
      as the only event and is that error. */
  lemma WithoutBody(decode: Decoder, message: string, limit: Option<nat>)
    ensures AllEvents(decode, SendFailed(message)) == [] && ResultOf(decode, SendFailed(message), limit) == Err(message)
    ensures AllEvents(decode, Refused(message)) == [ErrorEvent(message)]
    ensures ResultOf(decode, Refused(message), limit) == Err(message)
  {
  }

  function Send(received: seq<Event>, limit: Option<nat>, events: seq<Event>): seq<Event> {
    Received(received + events, limit)
  }

  /** The answer of the HTTP request: it may fail to be sent, be refused, or have a body. */
  datatype Answer = SendFailed(error: string) | Refused(message: string) | Body(chunks: seq<Chunk>)

  /** The events sent for an answer when the receiver stays. */
  function AllEvents(decode: Decoder, answer: Answer): seq<Event> {
    match answer
    case SendFailed(_) => []
    case Refused(message) => [ErrorEvent(message)]
    case Body(chunks) => StreamEvents(decode, TextOf(chunks), ErrorOf(chunks))
  }

  /** A text event comes when the receiver has left: the one send whose failure the code
      heeds. */
  ghost predicate TextRefused(sent: seq<Event>, limit: Option<nat>) {
    limit.Some? && exists i :: limit.value <= i < |sent| && sent[i].TextEvent?
  }

  /** The result of a stream: an error exactly if the request fails or is refused, or if the
      transport breaks before an end mark and before a text event that is refused. */
  ghost function ResultOf(decode: Decoder, answer: Answer, limit: Option<nat>): Result<(), string> {
    match answer
    case SendFailed(error) => Err(error)
    case Refused(message) => Err(message)
    case Body(chunks) => BodyResult(FeedLines(decode, START, Terminated(TextOf(chunks))), ErrorOf(chunks), limit)
  }

  ghost function BodyResult(st: Feed, error: Option<string>, limit: Option<nat>): Result<(), string> {
    if error.Some? && !st.done && !TextRefused(st.sent, limit) then Err(error.value) else Ok(())
  }

  /** To a receiver that stays to the end the result is Ok exactly if the last event is Done. */
  lemma OkIffDone(decode: Decoder, answer: Answer, limit: Option<nat>)
    requires Received(AllEvents(decode, answer), limit) == AllEvents(decode, answer)
    ensures var events := AllEvents(decode, answer);
            ResultOf(decode, answer, limit).Ok? <==> events != [] && events[|events| - 1].DoneEvent?
  {
    if answer.Body? {
      var st := FeedLines(decode, START, Terminated(TextOf(answer.chunks)));
      DoneIsLast(START, Chunks(decode, Terminated(TextOf(answer.chunks))));
      assert st.sent <= AllEvents(decode, answer);
    }
  }

  lemma {:induction false} DoneIsLast(st: Feed, chunks: seq<Option<SseChunk>>)
    requires st.done ==> st.sent != [] && st.sent[|st.sent| - 1].DoneEvent?
    ensures var end := FeedAll(st, chunks); end.done ==> end.sent != [] && end.sent[|end.sent| - 1].DoneEvent?
    decreases |chunks|
  {
    if chunks != [] {
      DoneIsLast(FeedChunk(st, chunks[0]), chunks[1..]);
    }
  }

  method Stream(decode: Decoder, answer: Answer, limit: Option<nat>)
    returns (received: seq<Event>, result: Result<(), string>)
    ensures received == Received(AllEvents(decode, answer), limit)
    ensures result == ResultOf(decode, answer, limit)
  {
    match answer {
      case SendFailed(error) =>
        return [], Err(error);
      case Refused(message) =>
        return Received([ErrorEvent(message)], limit), Err(message);
      case Body(chunks) =>
        received, result := StreamBody(decode, chunks, limit);
    }
  }

  /** The outer loop over chunks, with the line buffer and the calls under assembly
      carried from chunk to chunk. */
  method StreamBody(decode: Decoder, chunks: seq<Chunk>, limit: Option<nat>)
    returns (received: seq<Event>, result: Result<(), string>)
    ensures received == Received(AllEvents(decode, Body(chunks)), limit)
    ensures result == ResultOf(decode, Body(chunks), limit)
  {
    hide *;
    received := [];
    var buf := "";
    var calls: Calls := map[];
    ghost var all, result0 := AllEvents(decode, Body(chunks)), ResultOf(decode, Body(chunks), limit);
    ghost var st := START;
    var i := 0;
    AtStart(decode, chunks, limit);
    while i < |chunks|
      invariant 0 <= i <= |chunks|
      invariant Terminated(buf) == []
      invariant Tracks(st, calls, received, limit)
      invariant all == Owed(decode, st, buf + TextOf(chunks[i..]), ErrorOf(chunks[i..]))
      invariant result0 == OwedResult(decode, st, buf + TextOf(chunks[i..]), ErrorOf(chunks[i..]), limit)
    {
      TextNext(chunks, i);
      if chunks[i].Err? {
        assert buf + "" == buf;
        OwedNow(decode, st, buf, Some(chunks[i].error), calls, received, limit);
        received := Send(received, limit, [ErrorEvent(chunks[i].error)]);
        return received, Err(chunks[i].error);
      }
      var text := Utf8.Decode(chunks[i].value);
      ghost var rest, error := TextOf(chunks[i + 1..]), ErrorOf(chunks[i + 1..]);
      assert buf + (text + rest) == (buf + text) + rest;
      ghost var fed, before := buf + text, st;
      var ended;
      buf, calls, received, ended, st := DrainLines(decode, buf + text, calls, received, limit, st);
      AfterDrain(decode, before, fed, st, buf, rest, error, limit);
      if ended {
        EndedEarly(decode, st, buf + rest, error, received, limit);
        return received, Ok(());
      }
      i := i + 1;
    }
    TextEnds(chunks);
    assert buf + "" == buf;
    OwedNow(decode, st, buf, None, calls, received, limit);
    TracksMeans(st, calls, received, limit);
    var flushed := FlushInOrder(calls);
    received := Send(received, limit, flushed + [DoneEvent("stop")]);
    return received, Ok(());
  }

  lemma AtStart(decode: Decoder, chunks: seq<Chunk>, limit: Option<nat>)
    ensures Tracks(START, map[], [], limit) && Terminated("") == []
    ensures AllEvents(decode, Body(chunks)) == Owed(decode, START, "" + TextOf(chunks[0..]), ErrorOf(chunks[0..]))
    ensures ResultOf(decode, Body(chunks), limit)
            == OwedResult(decode, START, "" + TextOf(chunks[0..]), ErrorOf(chunks[0..]), limit)
  {
    assert chunks[0..] == chunks && "" + TextOf(chunks) == TextOf(chunks);
  }

  /** The result a stream in state `st` will have once it is fed a text and ends. */
  ghost function OwedResult(decode: Decoder, st: Feed, text: string, error: Option<string>, limit: Option<nat>)
    : Result<(), string>
  {
    BodyResult(FeedLines(decode, st, Terminated(text)), error, limit)
  }

  lemma TextNext(chunks: seq<Chunk>, i: nat)
    requires i < |chunks|
    ensures if chunks[i].Err?
            then TextOf(chunks[i..]) == "" && ErrorOf(chunks[i..]) == Some(chunks[i].error)
            else && TextOf(chunks[i..]) == Utf8.Decode(chunks[i].value) + TextOf(chunks[i + 1..])
                 && ErrorOf(chunks[i..]) == ErrorOf(chunks[i + 1..])
  {
    assert chunks[i..][0] == chunks[i] && chunks[i..][1..] == chunks[i + 1..];
  }

  lemma TextEnds(chunks: seq<Chunk>)
    ensures TextOf(chunks[|chunks|..]) == "" && ErrorOf(chunks[|chunks|..]) == None
  {
  }

  lemma TracksMeans(st: Feed, calls: Calls, received: seq<Event>, limit: Option<nat>)
    requires Tracks(st, calls, received, limit)
    ensures calls.Keys <= {0} && !st.done && received == Received(st.sent, limit)
  {
  }

  /** What is still owed at the end of the body, when no complete line is left. */
  lemma OwedNow(decode: Decoder, st: Feed, buf: string, error: Option<string>,
                calls: Calls, received: seq<Event>, limit: Option<nat>)
    requires Terminated(buf) == [] && Tracks(st, calls, received, limit)
    ensures var events := if error.Some? then [ErrorEvent(error.value)] else Flush(calls) + [DoneEvent("stop")];
            && Send(received, limit, events) == Received(Owed(decode, st, buf, error), limit)
            && OwedResult(decode, st, buf, error, limit) == if error.Some? then Err(error.value) else Ok(())
  {
    var events := if error.Some? then [ErrorEvent(error.value)] else Flush(calls) + [DoneEvent("stop")];
    assert Chunks(decode, []) == [];
    assert Owed(decode, st, buf, error) == st.sent + events;
    assert OwedResult(decode, st, buf, error, limit) == if error.Some? then Err(error.value) else Ok(());
    hide *;
    SendIsReceived(st.sent, received, limit, events);
  }

  /** Sending on top of what was received is receiving the longer sequence. */
  lemma SendIsReceived(sent: seq<Event>, received: seq<Event>, limit: Option<nat>, events: seq<Event>)
    requires received == Received(sent, limit)
    ensures Send(received, limit, events) == Received(sent + events, limit)
  {
  }

  /** What is owed does not change while lines move from the buffer into the feed. */
  lemma AfterDrain(decode: Decoder, st0: Feed, buf0: string, st: Feed, buf: string, rest: string,
                   error: Option<string>, limit: Option<nat>)
    requires FeedLines(decode, st0, Terminated(buf0)) == FeedLines(decode, st, Terminated(buf))
    requires Rest(buf0) == Rest(buf)
    ensures Owed(decode, st0, buf0 + rest, error) == Owed(decode, st, buf + rest, error)
    ensures OwedResult(decode, st0, buf0 + rest, error, limit) == OwedResult(decode, st, buf + rest, error, limit)
  {
    FeedConcatenation(decode, st0, buf0, rest);
    FeedConcatenation(decode, st, buf, rest);
  }

  /** A stream that returns early has delivered everything its receiver would ever take. */
  lemma EndedEarly(decode: Decoder, st: Feed, text: string, error: Option<string>, received: seq<Event>, limit: Option<nat>)
    requires received == Received(st.sent, limit)
    requires st.done || TextRefused(st.sent, limit)
    ensures received == Received(Owed(decode, st, text, error), limit)
    ensures OwedResult(decode, st, text, error, limit) == Ok(())
  {
    if st.done {
      DoneIsFinal(st, Chunks(decode, Terminated(text)));
    }
  }

  /** The real variables agree with the feed they stand for, which is not done. */
  ghost predicate Tracks(st: Feed, calls: Calls, received: seq<Event>, limit: Option<nat>) {
    && calls.Keys <= {0}
    && st == Feed(calls, st.sent, false)
    && received == Received(st.sent, limit)
    && !TextRefused(st.sent, limit)
  }

  /** The inner loop: consume every complete line of the buffer. It ends the stream at
      an end mark, or at a text event the receiver no longer takes. */
  method DrainLines(decode: Decoder, buf0: string, calls0: Calls, received0: seq<Event>, limit: Option<nat>, ghost st0: Feed)
    returns (buf: string, calls: Calls, received: seq<Event>, ended: bool, ghost st: Feed)
    requires Tracks(st0, calls0, received0, limit)
    ensures Rest(buf) == Rest(buf0)
    ensures FeedLines(decode, st0, Terminated(buf0)) == FeedLines(decode, st, Terminated(buf))
    ensures received == Received(st.sent, limit)
    ensures !ended ==> Terminated(buf) == [] && Tracks(st, calls, received, limit)
    ensures ended ==> st.done || TextRefused(st.sent, limit)
  {
    hide *;
    buf, calls, received, ended, st := buf0, calls0, received0, false, st0;
    var n := NewlineAt(buf);
    while n < |buf|
      invariant Tracks(st, calls, received, limit) && n == NewlineAt(buf)
      invariant Rest(buf) == Rest(buf0)
      invariant FeedLines(decode, st0, Terminated(buf0)) == FeedLines(decode, st, Terminated(buf))
      decreases |buf|
    {
      FeedFirst(decode, st, buf);
      calls, received, ended, st := HandleChunk(LineChunk(decode, buf[..n]), calls, received, limit, st);
      buf := buf[n + 1..];
      if ended {
        return;
      }
      n := NewlineAt(buf);
    }
    NoLines(buf);
    TracksMeans(st, calls, received, limit);
  }

  /** What the loop body does with the chunk of one complete line. */
  method HandleChunk(chunk: Option<SseChunk>, calls0: Calls, received0: seq<Event>, limit: Option<nat>, ghost st0: Feed)
    returns (calls: Calls, received: seq<Event>, ended: bool, ghost st: Feed)
    requires Tracks(st0, calls0, received0, limit)
    ensures st == FeedChunk(st0, chunk)
    ensures received == Received(st.sent, limit)
    ensures !ended ==> Tracks(st, calls, received, limit)
    ensures ended ==> st.done || TextRefused(st.sent, limit)
  {
    calls, received, ended, st := calls0, received0, false, FeedChunk(st0, chunk);
    if chunk.None? {
      return;
    }
    match chunk.value {
      case TextDelta(s) =>
        if s != "" {
          ended := limit.Some? && limit.value <= |received|;
          received := Send(received, limit, [TextEvent(s)]);
          assert st.sent[|st0.sent|] == TextEvent(s);
        }
      case Usage(p, q) =>
        received := Send(received, limit, [UsageEvent(p, q)]);
      case Done =>
        var flushed := FlushInOrder(calls);
        received := Send(received, limit, flushed + [DoneEvent("stop")]);
        assert st.sent == st0.sent + (flushed + [DoneEvent("stop")]);
        ended := true;
      case _ =>
        calls := Accumulate(calls, chunk.value);
    }
  }

  /** Feeding a buffer with more text behind it: first its lines, then the rest. */
  lemma FeedConcatenation(decode: Decoder, st: Feed, buf: string, rest: string)
    ensures FeedLines(decode, st, Terminated(buf + rest))
            == FeedLines(decode, FeedLines(decode, st, Terminated(buf)), Terminated(Rest(buf) + rest))
  {
    LinesOfConcatenation(buf, rest);
    FeedLinesConcatenation(decode, st, Terminated(buf), Terminated(Rest(buf) + rest));
  }

  lemma FeedLinesConcatenation(decode: Decoder, st: Feed, a: seq<string>, b: seq<string>)
    ensures FeedLines(decode, st, a + b) == FeedLines(decode, FeedLines(decode, st, a), b)
  {
    ChunksOfConcatenation(decode, a, b);
    FeedAllConcatenation(st, Chunks(decode, a), Chunks(decode, b));
  }

  lemma {:induction false} FeedAllConcatenation(st: Feed, a: seq<Option<SseChunk>>, b: seq<Option<SseChunk>>)
    ensures FeedAll(st, a + b) == FeedAll(FeedAll(st, a), b)
    decreases |a|
  {
    if a == [] {
      assert a + b == b;
    } else {
      assert (a + b)[1..] == a[1..] + b;
      FeedAllConcatenation(FeedChunk(st, a[0]), a[1..], b);
    }
  }

  lemma FeedFirst(decode: Decoder, st: Feed, buf: string)
    requires NewlineAt(buf) < |buf|
    ensures var n := NewlineAt(buf);
            && FeedLines(decode, st, Terminated(buf))
               == FeedLines(decode, FeedChunk(st, LineChunk(decode, buf[..n])), Terminated(buf[n + 1..]))
            && Rest(buf) == Rest(buf[n + 1..])
  {
    hide LineChunk, FeedChunk, FeedAll, Terminated, NewlineAt, Chunks, Rest;
    var n := NewlineAt(buf);
    ChunksFirst(decode, buf);
    FeedNext(st, LineChunk(decode, buf[..n]), Chunks(decode, Terminated(buf[n + 1..])));
  }

  lemma FeedNext(st: Feed, chunk: Option<SseChunk>, rest: seq<Option<SseChunk>>)
    ensures FeedAll(st, [chunk] + rest) == FeedAll(FeedChunk(st, chunk), rest)
  {
    hide FeedChunk;
    assert ([chunk] + rest)[1..] == rest;
  }

  lemma {:induction false} DoneIsFinal(st: Feed, chunks: seq<Option<SseChunk>>)
    requires st.done
    ensures FeedAll(st, chunks) == st
    decreases |chunks|
  {
    if chunks != [] {
      DoneIsFinal(st, chunks[1..]);
    }
  }
}
