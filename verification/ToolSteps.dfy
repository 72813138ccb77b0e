/** A tool-use loop saved as a checkpoint (crates/workflow_engine/src/context.rs:476-495). */
module ToolSteps {
  import opened Common
  import opened Keys
  import opened Stores
  import opened Context
  import opened Llm
  import opened Tools
  import opened ToolLoop

  datatype ToolStepError = LoopFailed(error: LoopError) | SaveFailed

  /** Runs the loop, whatever is saved, and saves its final text. The documentation has the
      step never executed again once it is saved; that holds exactly if it is not saved yet or
      the loop is given no round. */
  method ToolStep<W(!new), O(!new)>(
      ctx: WorkflowContext, name: string, model: Model, initial: seq<Message>,
      reg: Registry<W, O>, maxRounds: nat, maxConcurrency: nat, w: W)
    returns (r: Result<LoopResult, ToolStepError>, rounds: seq<Round>, world: W, modelCalls: nat)
    modifies ctx`cache, ctx.states`entries, ctx.states`calls
    ensures modelCalls > 0 <==> maxRounds > 0
    ensures var saved := Live(old(ctx.states.entries), ctx.current.caseKey, name).Some?;
            (saved ==> modelCalls == 0) <==> !saved || maxRounds == 0
    ensures AreRounds(reg, model, initial, w, rounds)
    ensures r.Ok? ==> && rounds != [] && rounds[|rounds| - 1].response.Calls() == []
                      && r.value.messages == Transcript(initial, rounds) && r.value.rounds == |rounds|
                      && r.value.finalText == rounds[|rounds| - 1].response.content
    ensures ctx.states.entries ==
            if r.Ok? then old(ctx.states.entries)[(ctx.current.caseKey, CheckpointKey(name)) := Value(r.value.finalText)]
            else old(ctx.states.entries)
    ensures r == Err(SaveFailed) ==> ctx.states.faults(old(ctx.states.calls))
    ensures old(ctx.CaseCoherent()) ==> ctx.CaseCoherent()
  {
    var outcome;
    outcome, rounds, world, modelCalls := RunToolLoop(model, initial, reg, maxRounds, maxConcurrency, w);
    if outcome.Err? {
      return Err(LoopFailed(outcome.error)), rounds, world, modelCalls;
    }
    var ok := ctx.SaveCheckpoint(name, Value(outcome.value.finalText));
    r := if ok then Ok(outcome.value) else Err(SaveFailed);
  }
}
