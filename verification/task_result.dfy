/**
 * The unit of completion a worker emits for one task. Timestamps, memory and CPU
 * figures and custom metrics are not modelled; the total amount is kept exact.
 */
module TaskResultModel {
  import opened Wrappers
  import ContractModel
  import opened ErrorModel

  datatype ProcessingStatus = Pending | Processing | Completed | Failed | Cancelled | TimedOut

  /**
   * Per-contract-type statistics, keyed by contract type. The source also keeps a running
   * double-precision total and average, which are not modelled; its `uniqueClients` is
   * initialised to 0 and never updated.
   */
  datatype TypeStats = TypeStats(contractType: ContractModel.ContractType, count: nat, uniqueClients: nat)

  datatype TaskResult = TaskResult(
    taskId: Option<string>,
    partitionId: Option<int>,
    workerId: Option<string>,
    status: Option<ProcessingStatus>,
    processingTimeMs: Option<int>,
    totalLinesProcessed: Option<int>,
    successfulContracts: Option<int>,
    failedContracts: Option<int>,
    skippedContracts: Option<int>,
    totalAmount: Option<real>,
    uniqueClientsCount: Option<int>,
    errors: Option<seq<ErrorInfo>>,
    summary: Option<string>,
    contractTypeStats: Option<map<ContractModel.ContractType, TypeStats>>)

  /** `TaskResultDTO.builder().build()`: all counters, the amount and the client count default to zero. */
  function Builder(): (r: TaskResult)
    ensures r.totalLinesProcessed == Some(0) && r.successfulContracts == Some(0)
    ensures r.failedContracts == Some(0) && r.skippedContracts == Some(0)
    ensures r.totalAmount == Some(0.0) && r.uniqueClientsCount == Some(0)
    ensures r.status.None? && r.errors.None? && r.taskId.None?
  {
    TaskResult(None, None, None, None, None, Some(0), Some(0), Some(0), Some(0), Some(0.0), Some(0),
               None, None, None)
  }

  predicate IsSuccessful(r: TaskResult) {
    r.status == Some(Completed)
  }

  predicate IsFailed(r: TaskResult) {
    r.status == Some(Failed)
  }

  /** A result is never both successful and failed; the four other statuses are neither. */
  lemma SuccessAndFailureAreExclusive(r: TaskResult)
    ensures !(IsSuccessful(r) && IsFailed(r))
    ensures r.status.Some? && r.status.value in {Pending, Processing, Cancelled, TimedOut} ==>
              !IsSuccessful(r) && !IsFailed(r)
  {
  }

  /** The source dereferences `successfulContracts` whenever the line total is a non-zero number. */
  predicate SuccessRateDefined(r: TaskResult) {
    r.totalLinesProcessed.None? || r.totalLinesProcessed == Some(0) || r.successfulContracts.Some?
  }

  /** `getSuccessRate`: successful lines as a percentage of processed lines, 0 when nothing was processed. */
  function SuccessRate(r: TaskResult): (rate: real)
    requires SuccessRateDefined(r)
    ensures r.totalLinesProcessed.None? || r.totalLinesProcessed == Some(0) ==> rate == 0.0
    ensures r.totalLinesProcessed.Some? && r.totalLinesProcessed.value != 0 ==>
              rate * (r.totalLinesProcessed.value as real) == (r.successfulContracts.value as real) * 100.0
    ensures r.totalLinesProcessed.Some? && r.successfulContracts.Some?
            && 0 <= r.successfulContracts.value <= r.totalLinesProcessed.value ==>
              0.0 <= rate <= 100.0
  {
    if r.totalLinesProcessed.None? || r.totalLinesProcessed.value == 0 then 0.0
    else (r.successfulContracts.value as real) / (r.totalLinesProcessed.value as real) * 100.0
  }
}
