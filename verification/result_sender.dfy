/**
 * The worker's choice of Kafka key for a result, and the result it sends for a critical
 * error. The send itself, its callbacks and the health probe are broker I/O and are not
 * modelled.
 */
module ResultSender {
  import opened Wrappers
  import opened Text
  import TR = TaskResultModel

  const ResultKeyPrefix: string := "result-"

  /** `generateResultKey`: `"result-%s"` of the task id. */
  function ResultKey(r: TR.TaskResult): (key: string) {
    ResultKeyPrefix + JavaString(r.taskId)
  }

  /**
   * Results of one task share a key, results of distinct tasks get distinct keys, and the
   * task id can be read back after the prefix. A null task id and the id "null" collide.
   */
  lemma {:induction false} ResultKeyIdentifiesTask(r1: TR.TaskResult, r2: TR.TaskResult)
    requires r1.taskId.Some? && r2.taskId.Some?
    ensures ResultKey(r1)[..|ResultKeyPrefix|] == ResultKeyPrefix
    ensures ResultKey(r1)[|ResultKeyPrefix|..] == r1.taskId.value
    ensures ResultKey(r1) == ResultKey(r2) <==> r1.taskId == r2.taskId
  {
    var k1, k2 := ResultKey(r1), ResultKey(r2);
    assert k1 == ResultKeyPrefix + r1.taskId.value;
    assert k2 == ResultKeyPrefix + r2.taskId.value;
    if k1 == k2 {
      assert k1[|ResultKeyPrefix|..] == r1.taskId.value;
      assert k2[|ResultKeyPrefix|..] == r2.taskId.value;
    }
  }

  /** A result without a task id is keyed like the task whose id is the text "null". */
  lemma NullTaskIdCollides(r1: TR.TaskResult, r2: TR.TaskResult)
    requires r1.taskId.None? && r2.taskId == Some("null")
    ensures ResultKey(r1) == ResultKey(r2)
  {
  }

  const CriticalSummaryPrefix: string := "Erreur critique: "

  /**
   * The result `sendCriticalError` builds: FAILED, every counter at zero, the task and
   * worker echoed, and the message after the "Erreur critique: " prefix.
   */
  function CriticalErrorResult(taskId: Option<string>, workerId: Option<string>, errorMessage: Option<string>)
    : (r: TR.TaskResult)
    ensures r.status == Some(TR.Failed)
    ensures r.totalLinesProcessed == Some(0) && r.successfulContracts == Some(0)
    ensures r.failedContracts == Some(0) && r.skippedContracts == Some(0)
    ensures r.taskId == taskId && r.workerId == workerId
    ensures r.summary.Some? && |r.summary.value| >= |CriticalSummaryPrefix|
    ensures r.summary.value[..|CriticalSummaryPrefix|] == CriticalSummaryPrefix
    ensures r.summary.value[|CriticalSummaryPrefix|..] == JavaString(errorMessage)
    ensures r.partitionId.None? && r.errors.None?
  {
    TR.Builder().(taskId := taskId, workerId := workerId, status := Some(TR.Failed),
                  summary := Some(CriticalSummaryPrefix + JavaString(errorMessage)),
                  totalLinesProcessed := Some(0), successfulContracts := Some(0),
                  failedContracts := Some(0), skippedContracts := Some(0))
  }

  /** A critical error reads as a failure with a zero success rate, and is keyed by its task. */
  lemma CriticalErrorIsFailure(taskId: string, workerId: Option<string>, errorMessage: Option<string>)
    ensures var r := CriticalErrorResult(Some(taskId), workerId, errorMessage);
            TR.IsFailed(r) && !TR.IsSuccessful(r) && TR.SuccessRate(r) == 0.0
            && ResultKey(r) == ResultKeyPrefix + taskId
  {
    TR.SuccessAndFailureAreExclusive(CriticalErrorResult(Some(taskId), workerId, errorMessage));
  }
}
