/**
 * The file partitioner: counts the data lines of the input file, chooses how many
 * partitions to cut, and splits `[1, totalLines]` into contiguous inclusive ranges,
 * one task per range, each with a timeout derived from its size.
 * The job context (file path and name, job ids) and the random task ids are inputs.
 */
module Partitioner {
  import opened Wrappers
  import opened PartitionTaskModel

  const DefaultLinesPerPartition: nat := 10000
  const MaxPartitions: nat := 50
  const BaseTimeoutSeconds: nat := 60

  /** The input file as the partitioner sees it: absent, or present with its physical line count. */
  datatype SourceFile = Missing | Present(physicalLines: nat)

  /** What the job supplies to every task, and the source of fresh task ids. */
  datatype JobContext = JobContext(
    filePath: string,
    fileName: string,
    jobId: string,
    jobExecutionId: int,
    newTaskId: nat -> string)

  /** `countLines`: the physical line count less the header line, or an I/O error for a missing file. */
  function CountLines(path: string, file: SourceFile): (r: Result<nat, string>)
    ensures r.Failure? <==> file.Missing?
    ensures r.Failure? ==> r.error == "Le fichier n'existe pas: " + path
    ensures file.Present? && file.physicalLines >= 1 ==> r == Success(file.physicalLines - 1)
    ensures file == Present(0) ==> r == Success(0)
  {
    match file
    case Missing => Failure("Le fichier n'existe pas: " + path)
    case Present(lines) => Success(if lines - 1 > 0 then lines - 1 else 0)
  }

  /** `Math.ceil(totalLines / 10000.0)`, exact for every line count the model admits. */
  function PartitionsNeeded(totalLines: nat): nat {
    (totalLines + DefaultLinesPerPartition - 1) / DefaultLinesPerPartition
  }

  /**
   * `calculateOptimalPartitions`: one partition for small files, otherwise as many
   * 10,000-line partitions as needed, capped by the grid size and by 50, and at least 1.
   */
  function OptimalPartitions(totalLines: nat, gridSize: int): (n: nat)
    ensures 1 <= n <= MaxPartitions
    ensures totalLines <= DefaultLinesPerPartition ==> n == 1
    ensures gridSize <= 1 ==> n == 1
    ensures totalLines >= 1 ==> n <= totalLines
    ensures n <= PartitionsNeeded(totalLines) || n == 1
    ensures gridSize >= 1 ==> n <= gridSize
    ensures (totalLines > DefaultLinesPerPartition && gridSize >= MaxPartitions
             && PartitionsNeeded(totalLines) >= MaxPartitions) ==> n == MaxPartitions
    ensures totalLines > DefaultLinesPerPartition && gridSize >= 1 ==>
              n == PartitionsNeeded(totalLines) || n == gridSize || n == MaxPartitions
  {
    if totalLines <= DefaultLinesPerPartition then 1
    else
      var calculated := PartitionsNeeded(totalLines);
      var capped := if calculated < gridSize then calculated else gridSize;
      var capped' := if capped < MaxPartitions then capped else MaxPartitions;
      if capped' < 1 then 1 else capped'
  }

  /**
   * For a file of more than 10,000 lines the count is the largest one allowed: no count
   * of at least 1 that respects the need, the grid size and the maximum exceeds it.
   */
  lemma OptimalPartitionsIsLargestAllowed(totalLines: nat, gridSize: int, m: int)
    requires totalLines > DefaultLinesPerPartition
    requires 1 <= m <= MaxPartitions && m <= gridSize && m <= PartitionsNeeded(totalLines)
    ensures m <= OptimalPartitions(totalLines, gridSize)
  {
  }

  /** 35,000 lines need four partitions, so grid sizes 4 and 8 both give four. */
  lemma ExampleThirtyFiveThousandLines()
    ensures OptimalPartitions(35000, 4) == 4
    ensures OptimalPartitions(35000, 8) == 4
    ensures OptimalPartitions(35000, 3) == 3
  {
  }

  /** More than 10,000 lines and a grid of at least 2 always give at least two partitions. */
  lemma LargeFilesAreSplit(totalLines: nat, gridSize: int)
    requires totalLines > DefaultLinesPerPartition && gridSize >= 2
    ensures OptimalPartitions(totalLines, gridSize) >= 2
  {
  }

  /** `calculateTimeout`: 60 seconds plus one second per 100 lines. */
  function TimeoutSeconds(lineCount: nat): (t: nat)
    ensures t >= BaseTimeoutSeconds
    ensures (t - BaseTimeoutSeconds) * 100 <= lineCount < (t - BaseTimeoutSeconds + 1) * 100
  {
    var additional := lineCount / 100;
    if BaseTimeoutSeconds + additional > BaseTimeoutSeconds then BaseTimeoutSeconds + additional
    else BaseTimeoutSeconds
  }

  /** A larger partition never gets a shorter timeout. */
  lemma TimeoutIsMonotone(a: nat, b: nat)
    requires a <= b
    ensures TimeoutSeconds(a) <= TimeoutSeconds(b)
  {
    assert a / 100 <= b / 100;
  }

  /** First line of range `i` when `totalLines` lines are cut into `n` ranges. */
  function StartLine(totalLines: nat, n: nat, i: nat): int
    requires n >= 1
  {
    i * (totalLines / n) + 1
  }

  /** Last line of range `i`: the last range absorbs the remainder. */
  function EndLine(totalLines: nat, n: nat, i: nat): int
    requires n >= 1
  {
    if i == n - 1 then totalLines else (i + 1) * (totalLines / n)
  }

  /** The task the partitioner builds for range `i`, spanning lines `s` to `e`. */
  function MakeTask(ctx: JobContext, i: nat, s: int, e: int): PartitionTask {
    var size := e - s + 1;
    Builder().(taskId := Some(ctx.newTaskId(i)), fileName := Some(ctx.fileName),
               filePath := Some(ctx.filePath), startLine := Some(s), endLine := Some(e),
               partitionId := Some(i), jobId := Some(ctx.jobId),
               jobExecutionId := Some(ctx.jobExecutionId), estimatedLineCount := Some(size),
               timeoutSeconds := Some(if size >= 0 then TimeoutSeconds(size) else BaseTimeoutSeconds))
  }

  function TaskFor(ctx: JobContext, totalLines: nat, n: nat, i: nat): PartitionTask
    requires 1 <= n
  {
    MakeTask(ctx, i, StartLine(totalLines, n, i), EndLine(totalLines, n, i))
  }

  /** What each built task carries: its range, its number, its size and its timeout. */
  lemma TaskForFacts(ctx: JobContext, totalLines: nat, n: nat, i: nat)
    requires 1 <= n && i < n
    ensures var t := TaskFor(ctx, totalLines, n, i);
      && t.startLine == Some(StartLine(totalLines, n, i)) && t.endLine == Some(EndLine(totalLines, n, i))
      && t.partitionId == Some(i) && t.taskId == Some(ctx.newTaskId(i))
      && t.jobId == Some(ctx.jobId) && t.filePath == Some(ctx.filePath)
      && t.jobExecutionId == Some(ctx.jobExecutionId)
      && t.estimatedLineCount == Some(t.endLine.value - t.startLine.value + 1)
      && t.estimatedLineCount.value >= 0
      && t.timeoutSeconds == Some(TimeoutSeconds(t.estimatedLineCount.value))
      && (i < n - 1 ==> t.estimatedLineCount == Some(totalLines / n))
      && (i < n - 1 ==> StartLine(totalLines, n, i + 1) == t.endLine.value + 1)
  {
    RangeArithmetic(totalLines, n, i);
  }

  /**
   * Ranges that chain: the first starts at line 1, each next one starts right after
   * the previous end, none has negative length, and the last ends at `totalLines`.
   */
  ghost predicate Contiguous(tasks: seq<PartitionTask>, totalLines: nat) {
    && |tasks| >= 1
    && (forall i :: 0 <= i < |tasks| ==> tasks[i].startLine.Some? && tasks[i].endLine.Some?)
    && tasks[0].startLine == Some(1)
    && (forall i :: 0 <= i < |tasks| - 1 ==> tasks[i + 1].startLine.value == tasks[i].endLine.value + 1)
    && (forall i :: 0 <= i < |tasks| ==> tasks[i].startLine.value <= tasks[i].endLine.value + 1)
    && tasks[|tasks| - 1].endLine == Some(totalLines)
  }

  ghost predicate InRange(t: PartitionTask, line: int) {
    t.startLine.Some? && t.endLine.Some? && t.startLine.value <= line <= t.endLine.value
  }

  /** In a contiguous chain, every range ends before any later range starts. */
  lemma {:induction false} ContiguousIsOrdered(tasks: seq<PartitionTask>, totalLines: nat, i: nat, j: nat)
    requires Contiguous(tasks, totalLines)
    requires i < j < |tasks|
    ensures tasks[i].endLine.value < tasks[j].startLine.value
    decreases j - i
  {
    if j > i + 1 {
      ContiguousIsOrdered(tasks, totalLines, i, j - 1);
    }
  }

  /** Coverage without gaps or overlaps: each line of `[1, totalLines]` lies in exactly one range. */
  lemma ContiguousCoversEachLineOnce(tasks: seq<PartitionTask>, totalLines: nat, line: int)
    requires Contiguous(tasks, totalLines)
    requires 1 <= line <= totalLines
    ensures exists i :: 0 <= i < |tasks| && InRange(tasks[i], line)
    ensures forall i, j ::
              (0 <= i < |tasks| && 0 <= j < |tasks| && InRange(tasks[i], line) && InRange(tasks[j], line))
              ==> i == j
  {
    var i := 0;
    while tasks[i].endLine.value < line
      invariant 0 <= i < |tasks|
      invariant tasks[i].startLine.value <= line
      decreases |tasks| - i
    {
      i := i + 1;
    }
    assert InRange(tasks[i], line);
    forall a, b | 0 <= a < |tasks| && 0 <= b < |tasks| && InRange(tasks[a], line) && InRange(tasks[b], line)
      ensures a == b
    {
      if a < b {
        ContiguousIsOrdered(tasks, totalLines, a, b);
      } else if b < a {
        ContiguousIsOrdered(tasks, totalLines, b, a);
      }
    }
  }

  /** Range `i + 1` starts where range `i` ends, and range sizes are never negative. */
  lemma RangeArithmetic(totalLines: nat, n: nat, i: nat)
    requires 1 <= n && i < n
    ensures i < n - 1 ==> StartLine(totalLines, n, i + 1) == EndLine(totalLines, n, i) + 1
    ensures i < n - 1 ==> EndLine(totalLines, n, i) - StartLine(totalLines, n, i) + 1 == totalLines / n
    ensures StartLine(totalLines, n, i) <= EndLine(totalLines, n, i) + 1
    ensures i == n - 1 ==>
              EndLine(totalLines, n, i) - StartLine(totalLines, n, i) + 1 == totalLines - (n - 1) * (totalLines / n)
  {
    var q := totalLines / n;
    if i == n - 1 {
      assert i * q <= n * q <= totalLines by {
        assert i * q <= n * q;
      }
    } else {
      assert (i + 1) * q == i * q + q;
    }
  }

  /** Each task is numbered by its position and carries the job's identity. */
  ghost predicate Labelled(tasks: seq<PartitionTask>, ctx: JobContext) {
    && (forall i :: 0 <= i < |tasks| ==> tasks[i].partitionId == Some(i))
    && (forall i :: 0 <= i < |tasks| ==> tasks[i].taskId == Some(ctx.newTaskId(i)))
    && (forall i :: 0 <= i < |tasks| ==>
          (tasks[i].jobId == Some(ctx.jobId) && tasks[i].filePath == Some(ctx.filePath)
           && tasks[i].jobExecutionId == Some(ctx.jobExecutionId)))
  }

  /**
   * Each task's estimate is its range length, its timeout follows from that length, every
   * range but the last has `totalLines / |tasks|` lines and the last takes the remainder.
   */
  ghost predicate Sized(tasks: seq<PartitionTask>, totalLines: nat)
    requires |tasks| >= 1
  {
    && (forall i :: 0 <= i < |tasks| ==>
          (tasks[i].startLine.Some? && tasks[i].endLine.Some? && tasks[i].estimatedLineCount.Some?
           && tasks[i].estimatedLineCount.value == tasks[i].endLine.value - tasks[i].startLine.value + 1
           && tasks[i].estimatedLineCount.value >= 0
           && tasks[i].timeoutSeconds == Some(TimeoutSeconds(tasks[i].estimatedLineCount.value))))
    && (forall i :: 0 <= i < |tasks| - 1 ==> tasks[i].estimatedLineCount == Some(totalLines / |tasks|))
    && tasks[|tasks| - 1].estimatedLineCount == Some(totalLines - (|tasks| - 1) * (totalLines / |tasks|))
  }

  /** The facts every task list built range by range satisfies. */
  ghost predicate WellBuilt(tasks: seq<PartitionTask>, totalLines: nat, ctx: JobContext) {
    && |tasks| >= 1
    && Contiguous(tasks, totalLines)
    && Labelled(tasks, ctx)
    && Sized(tasks, totalLines)
  }

  lemma TaskForListIsContiguous(tasks: seq<PartitionTask>, totalLines: nat, n: nat, ctx: JobContext)
    requires 1 <= n && |tasks| == n
    requires forall j :: 0 <= j < n ==> tasks[j] == TaskFor(ctx, totalLines, n, j)
    ensures Contiguous(tasks, totalLines)
  {
    forall j | 0 <= j < n
      ensures tasks[j].startLine.Some? && tasks[j].endLine.Some?
      ensures tasks[j].startLine.value <= tasks[j].endLine.value + 1
      ensures j < n - 1 ==> tasks[j + 1].startLine.value == tasks[j].endLine.value + 1
    {
      TaskForFacts(ctx, totalLines, n, j);
      if j < n - 1 {
        TaskForFacts(ctx, totalLines, n, j + 1);
      }
    }
  }

  lemma TaskForListIsLabelled(tasks: seq<PartitionTask>, totalLines: nat, n: nat, ctx: JobContext)
    requires 1 <= n && |tasks| == n
    requires forall j :: 0 <= j < n ==> tasks[j] == TaskFor(ctx, totalLines, n, j)
    ensures Labelled(tasks, ctx)
  {
    forall j | 0 <= j < n
      ensures tasks[j].partitionId == Some(j) && tasks[j].taskId == Some(ctx.newTaskId(j))
      ensures tasks[j].jobId == Some(ctx.jobId) && tasks[j].filePath == Some(ctx.filePath)
      ensures tasks[j].jobExecutionId == Some(ctx.jobExecutionId)
    {
      TaskForFacts(ctx, totalLines, n, j);
    }
  }

  lemma TaskForListIsSized(tasks: seq<PartitionTask>, totalLines: nat, n: nat, ctx: JobContext)
    requires 1 <= n && |tasks| == n
    requires forall j :: 0 <= j < n ==> tasks[j] == TaskFor(ctx, totalLines, n, j)
    ensures Sized(tasks, totalLines)
  {
    forall j | 0 <= j < n
      ensures tasks[j].startLine.Some? && tasks[j].endLine.Some? && tasks[j].estimatedLineCount.Some?
      ensures tasks[j].estimatedLineCount.value == tasks[j].endLine.value - tasks[j].startLine.value + 1
      ensures tasks[j].estimatedLineCount.value >= 0
      ensures tasks[j].timeoutSeconds == Some(TimeoutSeconds(tasks[j].estimatedLineCount.value))
      ensures j < n - 1 ==> tasks[j].estimatedLineCount == Some(totalLines / n)
    {
      TaskForFacts(ctx, totalLines, n, j);
    }
    RangeArithmetic(totalLines, n, n - 1);
  }

  /**
   * The range loop of `partition`: one task per range, numbered from 0, each carrying
   * its size as the estimated line count and a timeout derived from that size.
   */
  method BuildTasks(totalLines: nat, gridSize: int, ctx: JobContext) returns (tasks: seq<PartitionTask>)
    ensures |tasks| == OptimalPartitions(totalLines, gridSize)
    ensures WellBuilt(tasks, totalLines, ctx)
    ensures totalLines == 0 ==> |tasks| == 1 && tasks[0].startLine == Some(1) && tasks[0].endLine == Some(0)
  {
    var n := OptimalPartitions(totalLines, gridSize);
    var linesPerPartition := totalLines / n;
    tasks := [];
    var i := 0;
    while i < n
      invariant 0 <= i <= n
      invariant |tasks| == i
      invariant forall j :: 0 <= j < i ==> tasks[j] == TaskFor(ctx, totalLines, n, j)
    {
      var startLine := i * linesPerPartition + 1;
      var endLine := if i == n - 1 then totalLines else (i + 1) * linesPerPartition;
      tasks := tasks + [MakeTask(ctx, i, startLine, endLine)];
      i := i + 1;
    }
    TaskForListIsContiguous(tasks, totalLines, n, ctx);
    TaskForListIsLabelled(tasks, totalLines, n, ctx);
    TaskForListIsSized(tasks, totalLines, n, ctx);
  }

  /**
   * `partition`: count the data lines, then build the tasks; a missing file aborts
   * partitioning with the wrapped I/O error instead of producing tasks.
   */
  method Partition(file: SourceFile, gridSize: int, ctx: JobContext)
    returns (r: Result<seq<PartitionTask>, string>)
    ensures r.Failure? <==> file.Missing?
    ensures r.Failure? ==> r.error == "Impossible de partitionner le fichier: " + ctx.filePath
    ensures r.Success? ==> WellBuilt(r.value, CountLines(ctx.filePath, file).value, ctx)
    ensures r.Success? ==>
              |r.value| == OptimalPartitions(CountLines(ctx.filePath, file).value, gridSize)
    ensures r.Success? && file.physicalLines <= DefaultLinesPerPartition + 1 ==> |r.value| == 1
  {
    var count := CountLines(ctx.filePath, file);
    if count.Failure? {
      return Failure("Impossible de partitionner le fichier: " + ctx.filePath);
    }
    var tasks := BuildTasks(count.value, gridSize, ctx);
    return Success(tasks);
  }

  /** A 25,000-line file with grid size 4 becomes [1,8333] [8334,16666] [16667,25000]. */
  lemma ExampleTwentyFiveThousandLines()
    ensures OptimalPartitions(25000, 4) == 3
    ensures StartLine(25000, 3, 0) == 1 && EndLine(25000, 3, 0) == 8333
    ensures StartLine(25000, 3, 1) == 8334 && EndLine(25000, 3, 1) == 16666
    ensures StartLine(25000, 3, 2) == 16667 && EndLine(25000, 3, 2) == 25000
  {
  }
}
