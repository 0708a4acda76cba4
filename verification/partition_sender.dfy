/**
 * The task master's choice of Kafka key for a partition task. The send itself, its
 * callbacks and the health probe are broker I/O and are not modelled.
 */
module PartitionSender {
  import opened Wrappers
  import opened Text
  import PT = PartitionTaskModel

  /** `%d` applied to a boxed `Integer`: its decimal rendering, or "null". */
  function FormatInteger(i: Option<int>): (r: string)
    ensures i.Some? ==> r == IntToString(i.value)
    ensures i.None? ==> r == "null"
  {
    match i
    case Some(v) => IntToString(v)
    case None => "null"
  }

  /** `generatePartitionKey`: `"%s-p%d"` of the task's job id and partition id. */
  function PartitionKey(task: PT.PartitionTask): (key: string) {
    JavaString(task.jobId) + "-p" + FormatInteger(task.partitionId)
  }

  /** The job id opens the key, followed by "-p". */
  lemma KeyStartsWithJob(t: PT.PartitionTask)
    requires t.jobId.Some?
    ensures PartitionKey(t)[..|t.jobId.value|] == t.jobId.value
    ensures PartitionKey(t)[|t.jobId.value|..|t.jobId.value| + 2] == "-p"
  {
  }

  /** Rendering a boxed integer loses nothing: distinct partition ids, including null, render differently. */
  lemma FormatIntegerInjective(a: Option<int>, b: Option<int>)
    ensures FormatInteger(a) == FormatInteger(b) ==> a == b
  {
    if FormatInteger(a) == FormatInteger(b) {
      if a.Some? && b.Some? {
        IntToStringInjective(a.value, b.value);
      } else if a.Some? {
        NullIsNotANumber(a.value);
      } else if b.Some? {
        NullIsNotANumber(b.value);
      }
    }
  }

  /** No integer renders as "null": its first character is a digit or a minus sign. */
  lemma NullIsNotANumber(i: int)
    ensures IntToString(i) != "null"
  {
    if i >= 0 {
      assert AllDigits(NatToString(i));
      assert !IsDigit("null"[0]);
    }
  }

  /** Within one job, distinct partition ids give distinct keys. */
  lemma {:induction false} KeysDistinguishPartitions(t1: PT.PartitionTask, t2: PT.PartitionTask)
    requires t1.jobId == t2.jobId
    ensures PartitionKey(t1) == PartitionKey(t2) <==> t1.partitionId == t2.partitionId
  {
    var prefix := JavaString(t1.jobId) + "-p";
    var k1, k2 := PartitionKey(t1), PartitionKey(t2);
    assert k1 == prefix + FormatInteger(t1.partitionId);
    assert k2 == prefix + FormatInteger(t2.partitionId);
    if k1 == k2 {
      assert k1[|prefix|..] == FormatInteger(t1.partitionId);
      assert k2[|prefix|..] == FormatInteger(t2.partitionId);
      FormatIntegerInjective(t1.partitionId, t2.partitionId);
    }
  }
}
