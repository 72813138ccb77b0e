/** Workflow cases and their transitions (crates/workflow_engine/src/case.rs).
    Timestamps are not modelled. */
module Cases {
  import opened Common

  datatype ExecutionState = Running | Waiting | Finished

  datatype Case = Case(
    caseKey: string,
    sessionId: string,
    workflowCode: string,
    state: ExecutionState,
    finishedType: Option<string>,
    finishedDescription: Option<string>,
    parentKey: Option<string>,
    childKeys: seq<string>,
    lifecycleState: string,
    resourceData: Option<Json>)
  {
    function McRun(): Case { this.(state := Running) }

    function McWait(): Case { this.(state := Waiting) }

    function McFinish(finishedType: string, finishedDescription: string): Case {
      this.(state := Finished, finishedType := Some(finishedType), finishedDescription := Some(finishedDescription))
    }

    predicate IsPaused() { lifecycleState == "pause" }

    predicate IsStopped() { lifecycleState == "stop" }

    predicate IsActive() { !IsPaused() && !IsStopped() && state != Finished }
  }

  /** A case may run exactly if it is neither paused nor stopped nor finished. */
  lemma ActiveIff(c: Case)
    ensures c.IsActive() <==> c.lifecycleState != "pause" && c.lifecycleState != "stop" && c.state != Finished
  {
  }

  /** Each transition sets the state, finishing also the two fields that describe the end, and
      nothing else. */
  lemma TransitionsChangeOnly(c: Case, finishedType: string, finishedDescription: string)
    ensures c.McRun().state == Running && c.McWait().state == Waiting
    ensures var end := c.McFinish(finishedType, finishedDescription);
            && end.state == Finished && end.finishedType == Some(finishedType)
            && end.finishedDescription == Some(finishedDescription)
            && end.(state := c.state, finishedType := c.finishedType, finishedDescription := c.finishedDescription) == c
    ensures c.McRun().(state := c.state) == c && c.McWait().(state := c.state) == c
  {
  }

  /** A new case has the key, session and workflow it is made with, is running and active, and
      has no end, no family and no data. */
  lemma NewCaseIs(caseKey: string, sessionId: string, workflowCode: string)
    ensures var c := NewCase(caseKey, sessionId, workflowCode);
            && c.caseKey == caseKey && c.sessionId == sessionId && c.workflowCode == workflowCode
            && c.state == Running && c.lifecycleState == "normal" && c.IsActive()
            && c.finishedType.None? && c.finishedDescription.None?
            && c.parentKey.None? && c.childKeys == [] && c.resourceData.None?
  {
  }

  function NewCase(caseKey: string, sessionId: string, workflowCode: string): Case {
    Case(caseKey, sessionId, workflowCode, Running, None, None, None, [], "normal", None)
  }
}
