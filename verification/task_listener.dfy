/**
 * The worker's handling of one task message: check the task, process its partition,
 * and, if anything was thrown, answer with a FAILED result instead. Kafka delivery,
 * acknowledgement, logging and the processing-time stamps are not modelled.
 */
module TaskListener {
  import opened Wrappers
  import opened Text
  import PT = PartitionTaskModel
  import TR = TaskResultModel
  import P = Processor
  import ContractParsing

  // ---------------------------------------------------------------------------
  // validateTask

  /** What a task must satisfy before its partition is read. */
  predicate TaskIsValid(task: PT.PartitionTask) {
    && !IsBlank(task.taskId)
    && !IsBlank(task.filePath)
    && task.startLine.Some? && task.startLine.value > 0
    && task.endLine.Some? && task.endLine.value >= task.startLine.value
    && (task.timeoutSeconds.None? || task.timeoutSeconds.value > 0)
  }

  /** Java's `s == null || s.trim().isEmpty()`. */
  predicate NullOrEmptyTrimmed(s: Option<string>) {
    s.None? || Trim(s.value) == []
  }

  /** Java's null-or-empty-after-trim test is the blankness test. */
  lemma BlankIffNullOrEmptyTrimmed(s: Option<string>)
    ensures IsBlank(s) <==> NullOrEmptyTrimmed(s)
  {
    if s.Some? {
      BlankIffTrimEmpty(s.value);
    }
  }

  /** `validateTask`: the message of the first check that fails, in the source's order, or nothing. */
  function TaskRejection(task: PT.PartitionTask): (r: Option<string>)
    ensures r.None? <==> TaskIsValid(task)
    ensures IsBlank(task.taskId) ==> r == Some("L'ID de la tâche ne peut pas être vide")
    ensures !IsBlank(task.taskId) && IsBlank(task.filePath) ==>
              r == Some("Le chemin du fichier ne peut pas être vide")
  {
    BlankIffNullOrEmptyTrimmed(task.taskId);
    BlankIffNullOrEmptyTrimmed(task.filePath);
    if NullOrEmptyTrimmed(task.taskId) then Some("L'ID de la tâche ne peut pas être vide")
    else if NullOrEmptyTrimmed(task.filePath) then Some("Le chemin du fichier ne peut pas être vide")
    else if task.startLine.None? || task.startLine.value <= 0 then Some("La ligne de début doit être positive")
    else if task.endLine.None? || task.endLine.value < task.startLine.value then
      Some("La ligne de fin doit être >= ligne de début")
    else if task.timeoutSeconds.Some? && task.timeoutSeconds.value <= 0 then Some("Le timeout doit être positif")
    else None
  }

  /** The range checks: a line range must start at 1 or later and may hold a single line; a null timeout is accepted. */
  lemma RangeChecks(task: PT.PartitionTask)
    requires !IsBlank(task.taskId) && !IsBlank(task.filePath)
    ensures task.startLine.Some? && task.startLine.value <= 0 ==>
              TaskRejection(task) == Some("La ligne de début doit être positive")
    ensures task.startLine.Some? && task.startLine.value > 0 && task.endLine.Some? && task.endLine.value < task.startLine.value ==>
              TaskRejection(task) == Some("La ligne de fin doit être >= ligne de début")
    ensures (task.startLine.Some? && task.startLine.value > 0 && task.endLine == task.startLine
             && task.timeoutSeconds.None?) ==> TaskRejection(task).None?
    ensures (task.startLine.Some? && task.startLine.value > 0 && task.endLine.Some?
             && task.endLine.value >= task.startLine.value
             && task.timeoutSeconds.Some? && task.timeoutSeconds.value <= 0) ==>
              TaskRejection(task) == Some("Le timeout doit être positif")
  {
    BlankIffNullOrEmptyTrimmed(task.taskId);
    BlankIffNullOrEmptyTrimmed(task.filePath);
  }

  // ---------------------------------------------------------------------------
  // createErrorResult and generateWorkerId

  const ErrorSummaryPrefix: string := "Erreur lors du traitement: "

  /** `createErrorResult`: a FAILED result with nothing counted, echoing the task and the worker. */
  function ErrorResult(task: PT.PartitionTask, workerId: string, message: Option<string>): (r: TR.TaskResult)
    ensures r.status == Some(TR.Failed)
    ensures r.totalLinesProcessed == Some(0) && r.successfulContracts == Some(0)
    ensures r.failedContracts == Some(0) && r.skippedContracts == Some(0)
    ensures r.taskId == task.taskId && r.partitionId == task.partitionId && r.workerId == Some(workerId)
    ensures r.summary == Some(ErrorSummaryPrefix + JavaString(message))
  {
    TR.Builder().(taskId := task.taskId, partitionId := task.partitionId, workerId := Some(workerId),
                  status := Some(TR.Failed), totalLinesProcessed := Some(0), successfulContracts := Some(0),
                  failedContracts := Some(0), skippedContracts := Some(0),
                  summary := Some(ErrorSummaryPrefix + JavaString(message)))
  }

  /** An error result reads as failed, never as successful, with a success rate of zero. */
  lemma ErrorResultIsFailure(task: PT.PartitionTask, workerId: string, message: Option<string>)
    ensures TR.IsFailed(ErrorResult(task, workerId, message))
    ensures !TR.IsSuccessful(ErrorResult(task, workerId, message))
    ensures TR.SuccessRate(ErrorResult(task, workerId, message)) == 0.0
  {
    TR.SuccessAndFailureAreExclusive(ErrorResult(task, workerId, message));
  }

  /** `generateWorkerId`: `name-host-port`, the host defaulting to "localhost" when unset or blank. */
  function WorkerId(name: string, hostEnv: Option<string>, port: string): (id: string)
    ensures IsBlank(hostEnv) ==> id == name + "-" + "localhost" + "-" + port
    ensures !IsBlank(hostEnv) ==> id == name + "-" + hostEnv.value + "-" + port
  {
    BlankIffNullOrEmptyTrimmed(hostEnv);
    var host := if NullOrEmptyTrimmed(hostEnv) then "localhost" else hostEnv.value;
    name + "-" + host + "-" + port
  }

  /** For one name and port, distinct non-blank hosts give distinct worker ids. */
  lemma WorkerIdDistinguishesHosts(name: string, h1: string, h2: string, port: string)
    requires !IsBlank(Some(h1)) && !IsBlank(Some(h2))
    ensures WorkerId(name, Some(h1), port) == WorkerId(name, Some(h2), port) ==> h1 == h2
  {
    var a, b := WorkerId(name, Some(h1), port), WorkerId(name, Some(h2), port);
    if a == b {
      var pre := name + "-";
      assert a == pre + h1 + ("-" + port);
      assert b == pre + h2 + ("-" + port);
      assert |h1| == |h2|;
      assert a[|pre|..|pre| + |h1|] == h1;
      assert b[|pre|..|pre| + |h2|] == h2;
    }
  }

  // ---------------------------------------------------------------------------
  // processTask and the completion handler

  /**
   * The message the completion handler sees when `processTask` throws: `supplyAsync`
   * wraps the `RuntimeException` in a `CompletionException`, whose message is the
   * wrapped exception's `toString()`.
   */
  function WrappedFailureMessage(task: PT.PartitionTask): string {
    "java.lang.RuntimeException: Échec du traitement de la tâche: " + JavaString(task.taskId)
  }

  /**
   * The result the worker sends for a task: the partition's result when the task is
   * valid, otherwise the error result (`processPartition` itself catches everything,
   * so only `validateTask` can make `processTask` throw).
   */
  function HandleTask(task: PT.PartitionTask, workerId: string, file: P.CsvFile, env: P.Env): (r: TR.TaskResult)
    ensures TaskIsValid(task) ==> r == P.Process(task, Some(workerId), file, env)
    ensures !TaskIsValid(task) ==> r == ErrorResult(task, workerId, Some(WrappedFailureMessage(task)))
  {
    match TaskRejection(task)
    case Some(_) => ErrorResult(task, workerId, Some(WrappedFailureMessage(task)))
    case None => P.Process(task, Some(workerId), file, env)
  }

  /** A rejected task never reaches `processPartition`: its result ignores the file and counts nothing. */
  lemma RejectedTaskIsNotProcessed(task: PT.PartitionTask, workerId: string, f1: P.CsvFile, f2: P.CsvFile, env: P.Env)
    requires !TaskIsValid(task)
    ensures HandleTask(task, workerId, f1, env) == HandleTask(task, workerId, f2, env)
    ensures var r := HandleTask(task, workerId, f1, env);
            r.status == Some(TR.Failed) && r.totalLinesProcessed == Some(0) && r.successfulContracts == Some(0)
            && r.failedContracts == Some(0) && r.skippedContracts == Some(0)
  {
  }

  /**
   * A task that passes `validateTask` never fails for a null path, start line or end line:
   * it either completes or fails on the file itself.
   */
  lemma ValidTaskFailsOnlyOnTheFile(task: PT.PartitionTask, workerId: string, file: P.CsvFile, env: P.Env)
    requires TaskIsValid(task)
    ensures P.AbortOf(task, file) != Some(P.NullPath) && P.AbortOf(task, file) != Some(P.NullStart)
    ensures P.AbortOf(task, file) != Some(P.NullEnd)
    ensures var r := HandleTask(task, workerId, file, env);
            r.status == Some(TR.Failed) <==>
              file.Unreadable? || |file.rows| == 0 || !ContractParsing.HeadersAccepted(file.rows[0])
              || |file.rows| - 1 < task.startLine.value - 1
  {
    BlankIffNullOrEmptyTrimmed(task.filePath);
  }
}
