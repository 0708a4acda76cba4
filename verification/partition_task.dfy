/**
 * The unit of dispatch: one task names an inclusive, 1-based line range of one file.
 * The creation timestamp is a clock read and is not modelled.
 */
module PartitionTaskModel {
  import opened Wrappers

  /** Partitions of more than this many lines count as large. */
  const LargePartitionThreshold: int := 10000

  datatype PartitionTask = PartitionTask(
    taskId: Option<string>,
    fileName: Option<string>,
    filePath: Option<string>,
    startLine: Option<int>,
    endLine: Option<int>,
    partitionId: Option<int>,
    jobId: Option<string>,
    jobExecutionId: Option<int>,
    estimatedLineCount: Option<int>,
    priority: Option<int>,
    metadata: Option<string>,
    timeoutSeconds: Option<int>)

  /** `PartitionTaskDTO.builder().build()`: priority 5, a 300-second timeout, everything else null. */
  function Builder(): (t: PartitionTask)
    ensures t.priority == Some(5) && t.timeoutSeconds == Some(300)
    ensures t.taskId.None? && t.startLine.None? && t.endLine.None? && t.estimatedLineCount.None?
  {
    PartitionTask(None, None, None, None, None, None, None, None, None, Some(5), None, Some(300))
  }

  /** `getPartitionSize`: the inclusive range length when both bounds are known, else the estimate. */
  function PartitionSize(t: PartitionTask): (r: Option<int>)
    ensures t.startLine.Some? && t.endLine.Some? ==>
              r.Some? && t.startLine.value + r.value == t.endLine.value + 1
    ensures t.startLine.None? || t.endLine.None? ==> r == t.estimatedLineCount
    ensures t.startLine.Some? && t.endLine.Some? && 1 <= t.startLine.value <= t.endLine.value ==>
              r.Some? && r.value >= 1
  {
    if t.startLine.Some? && t.endLine.Some? then Some(t.endLine.value - t.startLine.value + 1)
    else t.estimatedLineCount
  }

  /** `isLargePartition`: the size is known and above 10,000 lines. */
  predicate IsLargePartition(t: PartitionTask) {
    var size := PartitionSize(t);
    size.Some? && size.value > LargePartitionThreshold
  }

  /** A task is large exactly when its known range, or failing that its estimate, exceeds 10,000 lines. */
  lemma LargePartitionIff(t: PartitionTask)
    ensures t.startLine.Some? && t.endLine.Some? ==>
              (IsLargePartition(t) <==> t.endLine.value - t.startLine.value >= LargePartitionThreshold)
    ensures t.startLine.None? || t.endLine.None? ==>
              (IsLargePartition(t) <==> t.estimatedLineCount.Some? && t.estimatedLineCount.value > LargePartitionThreshold)
  {
  }
}
