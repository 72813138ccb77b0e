/** The model/tool conversation loop (crates/workflow_engine/src/tool_loop.rs). The model
    is an oracle of the round number and the conversation so far. */
module ToolLoop {
  import opened Common
  import opened Llm
  import opened Tools

  datatype Response = Response(content: string, toolCalls: Option<seq<ToolCall>>)
  {
    function Calls(): seq<ToolCall> { if toolCalls.Some? then toolCalls.value else [] }
  }

  type Model = (nat, seq<Message>) -> Result<Response, string>

  /** `WaitsForever` is no error of the code: without permits a read-only call never starts. */
  datatype LoopError = TooManyRounds(maxRounds: nat) | ModelFailed(error: string) | WaitsForever

  datatype LoopResult = LoopResult(finalText: string, messages: seq<Message>, rounds: nat, totalToolCalls: nat)

  /** One round: the model's answer and the results of the calls it asked for. */
  datatype Round = Round(response: Response, results: seq<ToolResult>)

  function AssistantMessage(response: Response): Message {
    Message("assistant", response.content, response.toolCalls, None)
  }

  function ToolMessage(result: ToolResult): Message {
    Message("tool", result.content, None, Some(result.callId))
  }

  function RoundMessages(round: Round): (ms: seq<Message>)
    ensures |ms| == 1 + |round.results|
  {
    [AssistantMessage(round.response)]
    + seq(|round.results|, i requires 0 <= i < |round.results| => ToolMessage(round.results[i]))
  }

  /** The conversation: what it started with, then the rounds. */
  function Transcript(initial: seq<Message>, rounds: seq<Round>): seq<Message> {
    if rounds == [] then initial
    else Transcript(initial, rounds[..|rounds| - 1]) + RoundMessages(rounds[|rounds| - 1])
  }

  function TotalCalls(rounds: seq<Round>): nat {
    if rounds == [] then 0 else TotalCalls(rounds[..|rounds| - 1]) + |rounds[|rounds| - 1].response.Calls()|
  }

  /** The world after the calls of all rounds, run one after the other. */
  function WorldAfter<W, O>(reg: Registry<W, O>, rounds: seq<Round>, w: W): W {
    if rounds == [] then w
    else Sequential(reg, rounds[|rounds| - 1].response.Calls(), WorldAfter(reg, rounds[..|rounds| - 1], w)).1
  }

  /** Round `i` is the model's answer to the conversation before it, with one result per
      call; if read-only tools leave the world alone, exactly the results of running the
      calls left to right in the world the earlier rounds left. */
  ghost predicate IsRound<W(!new), O(!new)>(
      reg: Registry<W, O>, model: Model, initial: seq<Message>, w: W, rounds: seq<Round>, i: nat)
    requires i < |rounds|
  {
    && model(i, Transcript(initial, rounds[..i])) == Ok(rounds[i].response)
    && Answers(rounds[i].results, rounds[i].response.Calls())
    && (HonestReadOnly(reg) ==>
          rounds[i].results == Sequential(reg, rounds[i].response.Calls(), WorldAfter(reg, rounds[..i], w)).0)
  }

  ghost predicate AreRounds<W(!new), O(!new)>(
      reg: Registry<W, O>, model: Model, initial: seq<Message>, w: W, rounds: seq<Round>)
  {
    && (forall i :: 0 <= i < |rounds| ==> IsRound(reg, model, initial, w, rounds, i))
    && (forall i :: 0 <= i < |rounds| - 1 ==> rounds[i].response.Calls() != [])
  }

  method RunToolLoop<W(!new), O(!new)>(
      model: Model, initial: seq<Message>, reg: Registry<W, O>, maxRounds: nat, maxConcurrency: nat, w: W)
    returns (r: Result<LoopResult, LoopError>, rounds: seq<Round>, world: W, modelCalls: nat)
    ensures AreRounds(reg, model, initial, w, rounds)
    ensures HonestReadOnly(reg) && r != Err(WaitsForever) ==> world == WorldAfter(reg, rounds, w)
    ensures |rounds| <= modelCalls <= maxRounds
    ensures r.Ok? ==>
              && rounds != [] && rounds[|rounds| - 1].response.Calls() == [] && modelCalls == |rounds|
              && r.value == LoopResult(rounds[|rounds| - 1].response.content, Transcript(initial, rounds),
                                       |rounds|, TotalCalls(rounds))
    ensures r.Err? ==>
              && (rounds != [] ==> rounds[|rounds| - 1].response.Calls() != [])
              && if |rounds| == maxRounds then r.error == TooManyRounds(maxRounds) && modelCalls == maxRounds
                 else
                   var answer := model(|rounds|, Transcript(initial, rounds));
                   && modelCalls == |rounds| + 1
                   && if answer.Err? then r.error == ModelFailed(answer.error)
                      else r.error == WaitsForever && maxConcurrency == 0 && AsksReadOnly(reg, answer.value.Calls())
    ensures maxRounds > 0 ==> modelCalls > 0
  {
    hide *;
    AtStart(reg, model, initial, w);
    var messages := initial;
    var totalToolCalls := 0;
    rounds, world, modelCalls := [], w, 0;
    while true
      invariant modelCalls == |rounds| <= maxRounds
      invariant AreRounds(reg, model, initial, w, rounds)
      invariant rounds != [] ==> rounds[|rounds| - 1].response.Calls() != []
      invariant messages == Transcript(initial, rounds)
      invariant totalToolCalls == TotalCalls(rounds)
      invariant HonestReadOnly(reg) ==> world == WorldAfter(reg, rounds, w)
      decreases maxRounds - |rounds|
    {
      if |rounds| >= maxRounds {
        r := Err(TooManyRounds(maxRounds));
        return;
      }
      var answer := model(|rounds|, messages);
      modelCalls := modelCalls + 1;
      if answer.Err? {
        r := Err(ModelFailed(answer.error));
        return;
      }
      var response := answer.value;
      var calls := response.Calls();
      if calls == [] {
        RoundWithoutCalls(reg, response, world);
        RoundsExtend(reg, model, initial, w, rounds, Round(response, []));
        messages := messages + [AssistantMessage(response)];
        rounds := rounds + [Round(response, [])];
        r := Ok(LoopResult(response.content, messages, |rounds|, totalToolCalls));
        return;
      }
      var results, after, _, _, waits := ExecuteWithConcurrency(reg, calls, maxConcurrency, world);
      if waits {
        AsksReadOnlyMeans(reg, calls);
        r := Err(WaitsForever);
        world := after;
        return;
      }
      RoundsExtend(reg, model, initial, w, rounds, Round(response, results));
      messages := AppendRound(messages, response, results);
      totalToolCalls := totalToolCalls + |calls|;
      world := after;
      rounds := rounds + [Round(response, results)];
    }
  }

  predicate AsksReadOnly<W, O>(reg: Registry<W, O>, calls: seq<ToolCall>) {
    exists i :: 0 <= i < |calls| && reg.ReadOnlyAt(calls, i)
  }

  lemma AsksReadOnlyMeans<W, O>(reg: Registry<W, O>, calls: seq<ToolCall>)
    ensures AsksReadOnly(reg, calls) <==> exists i :: 0 <= i < |calls| && reg.ReadOnlyAt(calls, i)
  {
  }

  lemma AtStart<W(!new), O(!new)>(reg: Registry<W, O>, model: Model, initial: seq<Message>, w: W)
    ensures AreRounds(reg, model, initial, w, [])
    ensures Transcript(initial, []) == initial && TotalCalls([]) == 0 && WorldAfter(reg, [], w) == w
  {
  }

  lemma RoundWithoutCalls<W, O>(reg: Registry<W, O>, response: Response, w: W)
    ensures Answers([], []) && Sequential(reg, [], w) == ([], w)
    ensures RoundMessages(Round(response, [])) == [AssistantMessage(response)]
  {
  }

  /** The assistant message, then one tool message per result, in order. */
  method AppendRound(messages: seq<Message>, response: Response, results: seq<ToolResult>) returns (extended: seq<Message>)
    ensures extended == messages + RoundMessages(Round(response, results))
  {
    extended := messages + [AssistantMessage(response)];
    for i := 0 to |results|
      invariant extended == messages + RoundMessages(Round(response, results))[..i + 1]
    {
      extended := extended + [ToolMessage(results[i])];
    }
  }

  lemma RoundsExtend<W(!new), O(!new)>(
      reg: Registry<W, O>, model: Model, initial: seq<Message>, w: W, rounds: seq<Round>, round: Round)
    requires AreRounds(reg, model, initial, w, rounds)
    requires rounds != [] ==> rounds[|rounds| - 1].response.Calls() != []
    requires model(|rounds|, Transcript(initial, rounds)) == Ok(round.response)
    requires Answers(round.results, round.response.Calls())
    requires HonestReadOnly(reg) ==>
               round.results == Sequential(reg, round.response.Calls(), WorldAfter(reg, rounds, w)).0
    ensures AreRounds(reg, model, initial, w, rounds + [round])
    ensures Transcript(initial, rounds + [round]) == Transcript(initial, rounds) + RoundMessages(round)
    ensures TotalCalls(rounds + [round]) == TotalCalls(rounds) + |round.response.Calls()|
    ensures WorldAfter(reg, rounds + [round], w) == Sequential(reg, round.response.Calls(), WorldAfter(reg, rounds, w)).1
  {
    hide Sequential, Answers, HonestReadOnly, RoundMessages;
    var all := rounds + [round];
    assert all[..|rounds|] == rounds;
    forall i | 0 <= i < |all| ensures IsRound(reg, model, initial, w, all, i) {
      if i < |rounds| {
        assert all[..i] == rounds[..i];
        SameRound(reg, model, initial, w, rounds, all, i);
      }
    }
  }

  lemma SameRound<W(!new), O(!new)>(
      reg: Registry<W, O>, model: Model, initial: seq<Message>, w: W, rounds: seq<Round>, all: seq<Round>, i: nat)
    requires i < |rounds| && i < |all| && all[..i] == rounds[..i] && all[i] == rounds[i]
    requires IsRound(reg, model, initial, w, rounds, i)
    ensures IsRound(reg, model, initial, w, all, i)
  {
    hide Transcript, WorldAfter, Sequential, Answers, HonestReadOnly;
  }

  /** The conversation grows by one message per round and one per requested call. */
  lemma {:induction false} TranscriptLength<W(!new), O(!new)>(
      reg: Registry<W, O>, model: Model, initial: seq<Message>, w: W, rounds: seq<Round>)
    requires forall i :: 0 <= i < |rounds| ==> IsRound(reg, model, initial, w, rounds, i)
    ensures |Transcript(initial, rounds)| == |initial| + |rounds| + TotalCalls(rounds)
    decreases |rounds|
  {
    if rounds != [] {
      var n := |rounds| - 1;
      assert IsRound(reg, model, initial, w, rounds, n);
      forall i | 0 <= i < n ensures IsRound(reg, model, initial, w, rounds[..n], i) {
        assert IsRound(reg, model, initial, w, rounds, i);
        assert rounds[..n][..i] == rounds[..i];
      }
      TranscriptLength(reg, model, initial, w, rounds[..n]);
    }
  }

  /** Every assistant message is followed by exactly its calls' answers: after the
      conversation before round `i` comes the round's assistant message, then message `k`
      answers call `k` by its identifier, and then the next round begins. */
  lemma RoundIsAnswered<W(!new), O(!new)>(
      reg: Registry<W, O>, model: Model, initial: seq<Message>, w: W, rounds: seq<Round>, i: nat, k: nat)
    requires AreRounds(reg, model, initial, w, rounds) && i < |rounds|
    ensures var response, at, all := rounds[i].response, |Transcript(initial, rounds[..i])|, Transcript(initial, rounds);
            var calls := if response.toolCalls.Some? then response.toolCalls.value else [];
            && at + |calls| < |all| && |rounds[i].results| == |calls|
            && all[at] == Message("assistant", response.content, response.toolCalls, None)
            && |Transcript(initial, rounds[..i + 1])| == at + 1 + |calls|
            && (k < |calls| ==>
                  all[at + 1 + k] == Message("tool", rounds[i].results[k].content, None, Some(calls[k].id)))
            && (i == 0 ==> all[..at] == initial)
  {
    assert IsRound(reg, model, initial, w, rounds, i);
    RoundSpan(initial, rounds, i);
    TranscriptPrefix(initial, rounds, i);
    assert rounds[..0] == [];
    assert rounds[i].response.Calls() ==
      if rounds[i].response.toolCalls.Some? then rounds[i].response.toolCalls.value else [];
    assert i == 0 ==> Transcript(initial, rounds[..i]) == initial;
    hide *;
    RoundMessagesAre(rounds[i], k);
  }

  lemma RoundMessagesAre(round: Round, k: nat)
    ensures RoundMessages(round)[0] == Message("assistant", round.response.content, round.response.toolCalls, None)
    ensures k < |round.results| ==>
              RoundMessages(round)[1 + k] == Message("tool", round.results[k].content, None, Some(round.results[k].callId))
  {
  }

  /** The messages of a round stand right behind the conversation before it. */
  lemma RoundSpan(initial: seq<Message>, rounds: seq<Round>, i: nat)
    requires i < |rounds|
    ensures var before, messages, all := Transcript(initial, rounds[..i]), RoundMessages(rounds[i]), Transcript(initial, rounds);
            && |Transcript(initial, rounds[..i + 1])| == |before| + |messages| <= |all|
            && forall n :: 0 <= n < |messages| ==> all[|before| + n] == messages[n]
  {
    var before, messages := Transcript(initial, rounds[..i]), RoundMessages(rounds[i]);
    assert Transcript(initial, rounds[..i + 1]) == before + messages by {
      assert rounds[..i + 1][..i] == rounds[..i];
    }
    TranscriptPrefix(initial, rounds, i + 1);
    hide *;
    forall n | 0 <= n < |messages| ensures Transcript(initial, rounds)[|before| + n] == messages[n] {
      assert (before + messages)[|before| + n] == messages[n];
    }
  }

  lemma {:induction false} TranscriptPrefix(initial: seq<Message>, rounds: seq<Round>, n: nat)
    requires n <= |rounds|
    ensures Transcript(initial, rounds[..n]) <= Transcript(initial, rounds)
    decreases |rounds|
  {
    if n < |rounds| {
      assert rounds[..|rounds| - 1][..n] == rounds[..n];
      TranscriptPrefix(initial, rounds[..|rounds| - 1], n);
    } else {
      assert rounds[..n] == rounds;
    }
  }
}
