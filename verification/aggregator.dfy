/**
 * The task master's running totals per job: a map from job key to counters, created on
 * the first result for a key, added to by every later one, and evicted by age. The map
 * is folded sequentially; the per-job locking, atomic counters and 64-bit wrap-around
 * are not modelled, and times are ticks supplied by the caller.
 */
module Aggregator {
  import opened Wrappers
  import opened Text
  import TR = TaskResultModel

  /** `JobExecutionResults`: one job's counters, without the last-update clock read. */
  datatype JobAggregate = JobAggregate(
    jobExecutionId: int,
    startTime: int,
    completedTasks: int,
    totalSuccessful: int,
    totalFailed: int,
    totalSkipped: int,
    totalProcessingTimeMs: int)

  /** The constructor: every counter starts at zero. */
  function NewAggregate(jobExecutionId: int, now: int): (a: JobAggregate)
    ensures a.jobExecutionId == jobExecutionId && a.startTime == now
    ensures a.completedTasks == 0 && a.totalSuccessful == 0 && a.totalFailed == 0
    ensures a.totalSkipped == 0 && a.totalProcessingTimeMs == 0
  {
    JobAggregate(jobExecutionId, now, 0, 0, 0, 0, 0)
  }

  /** The aggregate after `addTaskResult`, and whether it threw on a null counter. */
  datatype Added = Added(aggregate: JobAggregate, threw: bool)

  /** A result whose three counters can be unboxed. */
  predicate HasCounters(r: TR.TaskResult) {
    r.successfulContracts.Some? && r.failedContracts.Some? && r.skippedContracts.Some?
  }

  /**
   * `addTaskResult`: count the task, then add its successful, failed and skipped
   * counters and, when present, its processing time. Unboxing a null counter throws
   * after the earlier additions have happened.
   */
  function AddTaskResult(a: JobAggregate, r: TR.TaskResult): (x: Added)
    ensures x.aggregate.completedTasks == a.completedTasks + 1
    ensures x.aggregate.jobExecutionId == a.jobExecutionId && x.aggregate.startTime == a.startTime
    ensures x.threw <==> !HasCounters(r)
    ensures HasCounters(r) ==>
              && x.aggregate.totalSuccessful == a.totalSuccessful + r.successfulContracts.value
              && x.aggregate.totalFailed == a.totalFailed + r.failedContracts.value
              && x.aggregate.totalSkipped == a.totalSkipped + r.skippedContracts.value
              && x.aggregate.totalProcessingTimeMs
                 == a.totalProcessingTimeMs + (if r.processingTimeMs.Some? then r.processingTimeMs.value else 0)
    ensures r.successfulContracts.None? ==> x.aggregate == a.(completedTasks := a.completedTasks + 1)
  {
    var counted := a.(completedTasks := a.completedTasks + 1);
    if r.successfulContracts.None? then Added(counted, true)
    else
      var s := counted.(totalSuccessful := counted.totalSuccessful + r.successfulContracts.value);
      if r.failedContracts.None? then Added(s, true)
      else
        var f := s.(totalFailed := s.totalFailed + r.failedContracts.value);
        if r.skippedContracts.None? then Added(f, true)
        else
          var k := f.(totalSkipped := f.totalSkipped + r.skippedContracts.value);
          if r.processingTimeMs.Some? then
            Added(k.(totalProcessingTimeMs := k.totalProcessingTimeMs + r.processingTimeMs.value), false)
          else Added(k, false)
  }

  /** Adding the same result twice counts it twice: the fold is not idempotent. */
  lemma AddingTwiceCountsTwice(a: JobAggregate, r: TR.TaskResult)
    requires HasCounters(r)
    ensures var twice := AddTaskResult(AddTaskResult(a, r).aggregate, r).aggregate;
            && twice.completedTasks == a.completedTasks + 2
            && twice.totalSuccessful == a.totalSuccessful + 2 * r.successfulContracts.value
            && twice.totalFailed == a.totalFailed + 2 * r.failedContracts.value
            && twice.totalSkipped == a.totalSkipped + 2 * r.skippedContracts.value
    ensures AddTaskResult(AddTaskResult(a, r).aggregate, r).aggregate != AddTaskResult(a, r).aggregate
  {
  }

  // ---------------------------------------------------------------------------
  // the map of jobs

  type Jobs = map<int, JobAggregate>

  /** `extractJobExecutionId`: the task id's `String.hashCode`, widened to a long. */
  function JobKey(taskId: string): (k: int)
    ensures MinInt32 <= k <= MaxInt32
  {
    HashCode(taskId)
  }

  /**
   * `aggregateResult`: find or create the job's aggregate, then add the result to it.
   * A null task id throws before the map is touched; a null counter throws after the
   * aggregate has been created and partly updated, and that partial update stays.
   */
  function AggregateResult(jobs: Jobs, r: TR.TaskResult, now: int): (jobs': Jobs)
    ensures r.taskId.None? ==> jobs' == jobs
    ensures r.taskId.Some? ==> jobs'.Keys == jobs.Keys + {JobKey(r.taskId.value)}
  {
    if r.taskId.None? then jobs
    else
      var key := JobKey(r.taskId.value);
      var current := if key in jobs then jobs[key] else NewAggregate(key, now);
      jobs[key := AddTaskResult(current, r).aggregate]
  }

  /**
   * The first result for a key creates its aggregate at `now` and later ones reuse it,
   * keeping its start time; the aggregates under every other key are untouched.
   */
  lemma AggregateTouchesOnlyItsKey(jobs: Jobs, r: TR.TaskResult, now: int)
    requires r.taskId.Some?
    ensures var key, jobs' := JobKey(r.taskId.value), AggregateResult(jobs, r, now);
            && (key in jobs ==> jobs'[key] == AddTaskResult(jobs[key], r).aggregate
                                && jobs'[key].startTime == jobs[key].startTime)
            && (key !in jobs ==> jobs'[key] == AddTaskResult(NewAggregate(key, now), r).aggregate
                                 && jobs'[key].startTime == now && jobs'[key].completedTasks == 1)
            && forall k :: k in jobs && k != key ==> k in jobs' && jobs'[k] == jobs[k]
  {
  }

  /** Results with the same task id always land in the same aggregate. */
  lemma SameTaskSameAggregate(jobs: Jobs, r1: TR.TaskResult, r2: TR.TaskResult, now: int)
    requires r1.taskId.Some? && r1.taskId == r2.taskId
    ensures JobKey(r1.taskId.value) in AggregateResult(jobs, r1, now)
    ensures JobKey(r1.taskId.value) in AggregateResult(AggregateResult(jobs, r1, now), r2, now)
    ensures AggregateResult(AggregateResult(jobs, r1, now), r2, now)[JobKey(r1.taskId.value)].completedTasks
            == (if JobKey(r1.taskId.value) in jobs then jobs[JobKey(r1.taskId.value)].completedTasks else 0) + 2
  {
  }

  /** Distinct task ids can share an aggregate: "Aa" and "BB" have the same hash. */
  lemma DistinctTasksCanShareAnAggregate()
    ensures "Aa" != "BB" && JobKey("Aa") == JobKey("BB")
  {
    HashCodeOfAaAndBB();
  }

  // ---------------------------------------------------------------------------
  // folding a stream of results

  /** The map after the listener has aggregated `rs` in order, starting from `jobs`, all at `now`. */
  function AggregateAll(jobs: Jobs, rs: seq<TR.TaskResult>, now: int): Jobs {
    if |rs| == 0 then jobs else AggregateResult(AggregateAll(jobs, rs[..|rs| - 1], now), rs[|rs| - 1], now)
  }

  /** Whether result `r` is aggregated under `key`. */
  predicate LandsOn(r: TR.TaskResult, key: int) {
    r.taskId.Some? && JobKey(r.taskId.value) == key
  }

  /** How many of `rs` land on `key`. */
  function CountOn(rs: seq<TR.TaskResult>, key: int): nat {
    if |rs| == 0 then 0 else (if LandsOn(rs[0], key) then 1 else 0) + CountOn(rs[1..], key)
  }

  /** The three per-task counters a job totals. */
  datatype Counter = Successful | Failed | Skipped

  function CounterOf(r: TR.TaskResult, c: Counter): int
    requires HasCounters(r)
  {
    match c
    case Successful => r.successfulContracts.value
    case Failed => r.failedContracts.value
    case Skipped => r.skippedContracts.value
  }

  /** The aggregate's running total for one counter. */
  function TotalOf(a: JobAggregate, c: Counter): int {
    match c
    case Successful => a.totalSuccessful
    case Failed => a.totalFailed
    case Skipped => a.totalSkipped
  }

  /** The sum of counter `c` over the results that land on `key`. */
  function SumOn(rs: seq<TR.TaskResult>, key: int, c: Counter): int
    requires forall i :: 0 <= i < |rs| ==> HasCounters(rs[i])
  {
    if |rs| == 0 then 0
    else
      assert HasCounters(rs[0]);
      (if LandsOn(rs[0], key) then CounterOf(rs[0], c) else 0) + SumOn(rs[1..], key, c)
  }

  /** Dropping the last result from a count. */
  lemma {:induction false} CountOnSnoc(rs: seq<TR.TaskResult>, key: int)
    requires |rs| > 0
    ensures CountOn(rs, key) == CountOn(rs[..|rs| - 1], key) + (if LandsOn(rs[|rs| - 1], key) then 1 else 0)
  {
    if |rs| > 1 {
      assert rs[1..][..|rs[1..]| - 1] == rs[..|rs| - 1][1..];
      CountOnSnoc(rs[1..], key);
    }
  }

  /** Dropping the last result from a sum. */
  lemma {:induction false} SumOnSnoc(rs: seq<TR.TaskResult>, key: int, c: Counter)
    requires |rs| > 0 && forall i :: 0 <= i < |rs| ==> HasCounters(rs[i])
    ensures SumOn(rs, key, c) == SumOn(rs[..|rs| - 1], key, c)
              + (if LandsOn(rs[|rs| - 1], key) then CounterOf(rs[|rs| - 1], c) else 0)
  {
    if |rs| > 1 {
      assert rs[1..][..|rs[1..]| - 1] == rs[..|rs| - 1][1..];
      SumOnSnoc(rs[1..], key, c);
    }
  }

  /**
   * Starting from an empty map, a key holds an aggregate exactly when some result landed
   * on it, and that aggregate has counted every such result and summed each of their
   * successful, failed and skipped counters.
   */
  lemma {:induction false} FoldCountsEveryResult(rs: seq<TR.TaskResult>, now: int, key: int, c: Counter)
    requires forall i :: 0 <= i < |rs| ==> HasCounters(rs[i])
    ensures var jobs := AggregateAll(map[], rs, now);
            && (key in jobs <==> CountOn(rs, key) > 0)
            && (key in jobs ==> jobs[key].completedTasks == CountOn(rs, key)
                                && TotalOf(jobs[key], c) == SumOn(rs, key, c))
            && (key !in jobs ==> SumOn(rs, key, c) == 0)
  {
    if |rs| > 0 {
      var init := rs[..|rs| - 1];
      assert forall i :: 0 <= i < |init| ==> init[i] == rs[i];
      FoldCountsEveryResult(init, now, key, c);
      CountOnSnoc(rs, key);
      SumOnSnoc(rs, key, c);
      var last := rs[|rs| - 1];
      assert HasCounters(last);
      var before := AggregateAll(map[], init, now);
      assert AggregateAll(map[], rs, now) == AggregateResult(before, last, now);
    }
  }

  // ---------------------------------------------------------------------------
  // queries and eviction

  /** `getJobResults`: the aggregate under `id`, or null. */
  function GetJobResults(jobs: Jobs, id: int): (r: Option<JobAggregate>)
    ensures r.Some? <==> id in jobs
    ensures r.Some? ==> r.value == jobs[id]
  {
    if id in jobs then Some(jobs[id]) else None
  }

  /** `cleanupOldResults`: drop the aggregates started strictly before the cutoff. */
  function CleanupOldResults(jobs: Jobs, before: int): (jobs': Jobs)
    ensures forall k :: k in jobs' <==> k in jobs && jobs[k].startTime >= before
    ensures forall k :: k in jobs' ==> jobs'[k] == jobs[k]
  {
    map k | k in jobs && !(jobs[k].startTime < before) :: jobs[k]
  }

  /** Cleaning up twice with the same cutoff removes nothing more. */
  lemma CleanupIsIdempotent(jobs: Jobs, before: int)
    ensures CleanupOldResults(CleanupOldResults(jobs, before), before) == CleanupOldResults(jobs, before)
  {
  }

  /** `getOverallSuccessRate`: successful contracts as a percentage of all counted ones, 0 when none were. */
  function OverallSuccessRate(a: JobAggregate): (rate: real)
    ensures a.totalSuccessful + a.totalFailed + a.totalSkipped <= 0 ==> rate == 0.0
    ensures a.totalSuccessful + a.totalFailed + a.totalSkipped > 0 ==>
              rate * ((a.totalSuccessful + a.totalFailed + a.totalSkipped) as real) == (a.totalSuccessful as real) * 100.0
  {
    var total := a.totalSuccessful + a.totalFailed + a.totalSkipped;
    if total > 0 then (a.totalSuccessful as real * 100.0) / (total as real) else 0.0
  }

  /** With non-negative counters the overall rate is a percentage. */
  lemma OverallRateIsPercentage(a: JobAggregate)
    requires a.totalSuccessful >= 0 && a.totalFailed >= 0 && a.totalSkipped >= 0
    ensures 0.0 <= OverallSuccessRate(a) <= 100.0
  {
    var total := a.totalSuccessful + a.totalFailed + a.totalSkipped;
    if total > 0 {
      var rate := OverallSuccessRate(a);
      assert rate * (total as real) == (a.totalSuccessful as real) * 100.0;
      assert (a.totalSuccessful as real) * 100.0 <= (total as real) * 100.0;
    }
  }

  /** `getAverageProcessingTimePerTask`: total time over completed tasks, 0 when there are none. */
  function AveragePerTask(a: JobAggregate): (avg: real)
    ensures a.completedTasks <= 0 ==> avg == 0.0
    ensures a.completedTasks > 0 ==> avg * (a.completedTasks as real) == a.totalProcessingTimeMs as real
  {
    if a.completedTasks > 0 then (a.totalProcessingTimeMs as real) / (a.completedTasks as real) else 0.0
  }
}
