/**
 * `processPartition`: read the header row, position the reader on the task's first
 * line, then parse, validate and count every row up to the task's last line.
 * The file is given by its rows (the header first); clocks, logging and the
 * double-precision per-type totals are not modelled.
 */
module Processor {
  import opened Wrappers
  import opened Text
  import CM = ContractModel
  import EM = ErrorModel
  import PT = PartitionTaskModel
  import TR = TaskResultModel
  import V = Validator
  import opened ContractParsing

  /** The task's file as the CSV reader sees it: unopenable, or its records, header first. */
  datatype CsvFile = Unreadable(reason: Option<string>) | Csv(rows: seq<seq<string>>)

  /**
   * What the processor takes from its surroundings: the validation day, the two text
   * grammars, the `%.2f` rendering of a percentage, the stack frames of a thrown
   * exception by its class (the short-row `IllegalArgumentException` and the wrapping
   * `RuntimeException` are thrown at different lines), and the messages the JVM gives
   * the NullPointerException of unboxing a null start line or a null end line.
   */
  datatype Env = Env(today: int, grammars: Grammars, percent: real -> string,
                     frames: string -> seq<string>,
                     nullStartMessage: Option<string>, nullEndMessage: Option<string>)

  // ---------------------------------------------------------------------------
  // one row

  /** The fate of one data row: counted as successful, skipped with its validation errors, or failed. */
  datatype RowOutcome =
    | Processed(contract: CM.Contract)
    | Rejected(errors: seq<EM.ErrorInfo>)
    | Broken(error: EM.ErrorInfo)

  /** The technical error recorded for a row whose parsing threw. */
  function RowError(line: seq<string>, lineNumber: int, thrown: Thrown, env: Env): (e: EM.ErrorInfo)
    ensures e.errorType == Some(EM.Technical) && e.recoverable == Some(true)
    ensures e.message == Some("Erreur ligne " + IntToString(lineNumber) + ": " + thrown.message)
    ensures e.detailedMessage == Some(thrown.message)
    ensures e.lineNumber == Some(lineNumber) && e.lineData == Some(Join(",", line))
  {
    EM.TechnicalError("Erreur ligne " + IntToString(lineNumber) + ": " + thrown.message,
                      EM.Exception(thrown.className, Some(thrown.message), env.frames(thrown.className)))
      .(lineNumber := Some(lineNumber), lineData := Some(Join(",", line)))
  }

  /** The body of the row loop: parse, validate, and sort the row into one of three outcomes. */
  function Classify(line: seq<string>, lineNumber: int, env: Env): (o: RowOutcome)
    ensures o.Broken? <==> !RowIsWellFormed(line, env.grammars)
    ensures o.Broken? ==> o.error.errorType == Some(EM.Technical) && o.error.lineNumber == Some(lineNumber)
                          && o.error.lineData == Some(Join(",", line))
    ensures o.Processed? ==> ParseContract(line, lineNumber, env.grammars) == Success(o.contract)
                             && IsParsedShape(o.contract) && V.IsAcceptable(o.contract, env.today)
    ensures o.Rejected? ==> RowIsWellFormed(line, env.grammars)
                            && !V.IsAcceptable(ParseContract(line, lineNumber, env.grammars).value, env.today)
                            && |o.errors| >= 1 && V.AllValidationErrorsAt(o.errors, Some(lineNumber))
    ensures o.Rejected? ==>
              o.errors == V.Validate(Some(ParseContract(line, lineNumber, env.grammars).value), Some(lineNumber), env.today)
  {
    match ParseContract(line, lineNumber, env.grammars)
    case Failure(thrown) => Broken(RowError(line, lineNumber, thrown, env))
    case Success(c) =>
      var errors := V.Validate(Some(c), Some(lineNumber), env.today);
      if errors == [] then Processed(c) else Rejected(errors)
  }

  // ---------------------------------------------------------------------------
  // the counters of a run

  /** The accumulators of the row loop. */
  datatype Tally = Tally(
    lines: nat, successful: nat, failed: nat, skipped: nat, amount: real,
    clients: set<Option<string>>, stats: map<CM.ContractType, TR.TypeStats>, errors: seq<EM.ErrorInfo>)

  const EmptyTally: Tally := Tally(0, 0, 0, 0, 0.0, {}, map[], [])

  /** The invariants the counters keep from one row to the next. */
  predicate Consistent(t: Tally) {
    && t.lines == t.successful + t.failed + t.skipped
    && |t.errors| >= t.failed + t.skipped
    && (t.failed + t.skipped == 0 ==> t.errors == [])
    && |t.clients| <= t.successful
    && forall ty :: ty in t.stats ==>
         t.stats[ty].contractType == ty && 1 <= t.stats[ty].count <= t.successful && t.stats[ty].uniqueClients == 0
  }

  /** `computeIfAbsent` then `count + 1`: a new type starts at one contract. */
  function CountType(stats: map<CM.ContractType, TR.TypeStats>, ty: CM.ContractType): (r: map<CM.ContractType, TR.TypeStats>)
    ensures r.Keys == stats.Keys + {ty}
    ensures r[ty].count == (if ty in stats then stats[ty].count + 1 else 1)
    ensures forall other :: other in stats && other != ty ==> r[other] == stats[other]
  {
    if ty in stats then stats[ty := stats[ty].(count := stats[ty].count + 1)]
    else stats[ty := TR.TypeStats(ty, 1, 0)]
  }

  lemma AddOneClient(clients: set<Option<string>>, c: Option<string>)
    ensures |clients + {c}| <= |clients| + 1
  {
  }

  /** What `Record` relies on and `Classify` guarantees: a counted contract has a type and an amount. */
  predicate WellShaped(o: RowOutcome) {
    && (o.Processed? ==> o.contract.contractType.Some? && o.contract.amount.Some?)
    && (o.Rejected? ==> |o.errors| >= 1)
  }

  /** One pass of the loop body over the counters; every row adds exactly one to exactly one counter. */
  function Record(t: Tally, o: RowOutcome): (r: Tally)
    ensures r.lines == t.lines + 1
    ensures r.successful == t.successful + (if o.Processed? then 1 else 0)
    ensures r.skipped == t.skipped + (if o.Rejected? then 1 else 0)
    ensures r.failed == t.failed + (if o.Broken? then 1 else 0)
    ensures r.errors == t.errors + (match o
                                    case Processed(_) => []
                                    case Rejected(errors) => errors
                                    case Broken(error) => [error])
  {
    match o
    case Processed(c) =>
      t.(lines := t.lines + 1, successful := t.successful + 1,
         amount := t.amount + (if c.amount.Some? then c.amount.value else 0.0),
         clients := t.clients + {c.clientId},
         stats := if c.contractType.Some? then CountType(t.stats, c.contractType.value) else t.stats)
    case Rejected(errors) =>
      t.(lines := t.lines + 1, skipped := t.skipped + 1, errors := t.errors + errors)
    case Broken(error) =>
      t.(lines := t.lines + 1, failed := t.failed + 1, errors := t.errors + [error])
  }

  /** Recording a well-shaped outcome keeps the counters' invariants. */
  lemma RecordKeepsConsistent(t: Tally, o: RowOutcome)
    requires Consistent(t) && WellShaped(o)
    ensures Consistent(Record(t, o))
  {
    if o.Processed? {
      AddOneClient(t.clients, o.contract.clientId);
    }
  }

  /** The loop body's verdict on a row and its line number. */
  type Classifier = (seq<string>, int) -> RowOutcome

  function ClassifierOf(env: Env): Classifier {
    (line, lineNumber) => Classify(line, lineNumber, env)
  }

  /** The verdicts of `classify` on `rows`, the first of them numbered `first`. */
  function OutcomesBy(rows: seq<seq<string>>, first: int, classify: Classifier): (os: seq<RowOutcome>)
    ensures |os| == |rows|
    ensures forall i :: 0 <= i < |os| ==> os[i] == classify(rows[i], first + i)
  {
    seq(|rows|, i requires 0 <= i < |rows| => classify(rows[i], first + i))
  }

  /** The outcomes of `rows`, the first of them numbered `first`. */
  function Outcomes(rows: seq<seq<string>>, first: int, env: Env): seq<RowOutcome> {
    OutcomesBy(rows, first, ClassifierOf(env))
  }

  /** Every outcome `Classify` produces is one the counters can record. */
  lemma ClassifierIsWellShaped(env: Env)
    ensures forall line, lineNumber :: WellShaped(ClassifierOf(env)(line, lineNumber))
  {
    forall line, lineNumber
      ensures WellShaped(ClassifierOf(env)(line, lineNumber))
    {
      var o := Classify(line, lineNumber, env);
    }
  }

  lemma OutcomesAreWellShaped(rows: seq<seq<string>>, first: int, classify: Classifier)
    requires forall line, lineNumber :: WellShaped(classify(line, lineNumber))
    ensures AllWellShaped(OutcomesBy(rows, first, classify))
  {
  }

  predicate AllWellShaped(os: seq<RowOutcome>) {
    forall i :: 0 <= i < |os| ==> WellShaped(os[i])
  }

  /** The counters after the loop has met the outcomes `os[lo..hi]`, in order. */
  function TallyRange(os: seq<RowOutcome>, lo: nat, hi: nat): (t: Tally)
    requires lo <= hi <= |os|
    ensures t.lines == hi - lo
    decreases hi
  {
    if hi == lo then EmptyTally
    else Record(TallyRange(os, lo, hi - 1), os[hi - 1])
  }

  /** The counters after the loop has met every outcome of `os`. */
  function TallyOf(os: seq<RowOutcome>): Tally {
    TallyRange(os, 0, |os|)
  }

  /** The counters keep their invariants over any run of rows. */
  lemma {:induction false} TallyIsConsistent(os: seq<RowOutcome>, lo: nat, hi: nat)
    requires AllWellShaped(os) && lo <= hi <= |os|
    ensures Consistent(TallyRange(os, lo, hi))
    decreases hi
  {
    if hi > lo {
      TallyIsConsistent(os, lo, hi - 1);
      RecordKeepsConsistent(TallyRange(os, lo, hi - 1), os[hi - 1]);
    }
  }

  /** The counters of two consecutive stretches of rows laid end to end; the per-type statistics are the first's. */
  function Plus(a: Tally, b: Tally): Tally {
    Tally(a.lines + b.lines, a.successful + b.successful, a.failed + b.failed, a.skipped + b.skipped,
          a.amount + b.amount, a.clients + b.clients, a.stats, a.errors + b.errors)
  }

  /** Equal counters, amount, clients and errors; the per-type statistics may differ. */
  predicate SameCounts(a: Tally, b: Tally) {
    && a.lines == b.lines && a.successful == b.successful && a.failed == b.failed && a.skipped == b.skipped
    && a.amount == b.amount && a.clients == b.clients && a.errors == b.errors
  }

  /** Recording a row after two stretches is recording it at the end of the second one. */
  lemma RecordAfterPlus(a: Tally, b: Tally, o: RowOutcome)
    ensures SameCounts(Record(Plus(a, b), o), Plus(a, Record(b, o)))
  {
    match o
    case Processed(c) =>
      assert (a.clients + b.clients) + {c.clientId} == a.clients + (b.clients + {c.clientId});
    case Rejected(errors) =>
      assert (a.errors + b.errors) + errors == a.errors + (b.errors + errors);
    case Broken(error) =>
      assert (a.errors + b.errors) + [error] == a.errors + (b.errors + [error]);
  }

  /** Recording the same row keeps two tallies' counts equal. */
  lemma RecordKeepsSameCounts(a: Tally, b: Tally, o: RowOutcome)
    requires SameCounts(a, b)
    ensures SameCounts(Record(a, o), Record(b, o))
  {
  }

  /**
   * Counting is additive over consecutive stretches of rows: the counters of `lo..hi`
   * are those of `lo..mid` plus those of `mid..hi`.
   */
  lemma {:induction false} TallySplit(os: seq<RowOutcome>, lo: nat, mid: nat, hi: nat)
    requires lo <= mid <= hi <= |os|
    ensures SameCounts(TallyRange(os, lo, hi), Plus(TallyRange(os, lo, mid), TallyRange(os, mid, hi)))
    decreases hi
  {
    var left := TallyRange(os, lo, mid);
    if hi == mid {
      assert left.errors + [] == left.errors;
      assert left.clients + {} == left.clients;
    } else {
      TallySplit(os, lo, mid, hi - 1);
      var r' := TallyRange(os, mid, hi - 1);
      RecordKeepsSameCounts(TallyRange(os, lo, hi - 1), Plus(left, r'), os[hi - 1]);
      RecordAfterPlus(left, r', os[hi - 1]);
    }
  }

  /** The counters of a prefix depend only on the outcomes in it. */
  lemma {:induction false} TallyOfSamePrefix(a: seq<RowOutcome>, b: seq<RowOutcome>, n: nat)
    requires n <= |a| && n <= |b| && forall i :: 0 <= i < n ==> a[i] == b[i]
    ensures TallyRange(a, 0, n) == TallyRange(b, 0, n)
  {
    if n > 0 {
      TallyOfSamePrefix(a, b, n - 1);
    }
  }

  // ---------------------------------------------------------------------------
  // what the counters hold, stated independently of the loop

  /** Counting from `lo` is counting the suffix that starts there. */
  lemma {:induction false} TallyShift(os: seq<RowOutcome>, lo: nat, hi: nat)
    requires lo <= hi <= |os|
    ensures TallyRange(os, lo, hi) == TallyRange(os[lo..], 0, hi - lo)
    decreases hi
  {
    if hi > lo {
      TallyShift(os, lo, hi - 1);
      assert os[lo..][hi - 1 - lo] == os[hi - 1];
    }
  }

  /** The amount a counted contract adds to the total. */
  function AmountOf(o: RowOutcome): real {
    if o.Processed? && o.contract.amount.Some? then o.contract.amount.value else 0.0
  }

  /** The sum of the amounts of the counted contracts, first to last. */
  function ProcessedAmount(os: seq<RowOutcome>): real {
    if |os| == 0 then 0.0 else AmountOf(os[0]) + ProcessedAmount(os[1..])
  }

  /** The total amount is the sum of the counted contracts' amounts; rejected and failed rows add nothing. */
  lemma {:induction false} AmountIsSumOfCounted(os: seq<RowOutcome>)
    ensures TallyOf(os).amount == ProcessedAmount(os)
    decreases |os|
  {
    if |os| > 0 {
      TallySplit(os, 0, 1, |os|);
      TallyShift(os, 1, |os|);
      AmountIsSumOfCounted(os[1..]);
    }
  }

  /** The client ids of the counted contracts among the first `hi` outcomes. */
  function CountedClients(os: seq<RowOutcome>, hi: nat): set<Option<string>>
    requires hi <= |os|
  {
    set i | 0 <= i < hi && os[i].Processed? :: os[i].contract.clientId
  }

  /** The distinct clients are exactly those of the counted contracts, a null id included. */
  lemma {:induction false} ClientsAreThoseCounted(os: seq<RowOutcome>, hi: nat)
    requires hi <= |os|
    ensures TallyRange(os, 0, hi).clients == CountedClients(os, hi)
  {
    if hi > 0 {
      ClientsAreThoseCounted(os, hi - 1);
      var o := os[hi - 1];
      if o.Processed? {
        assert CountedClients(os, hi) == CountedClients(os, hi - 1) + {o.contract.clientId};
      } else {
        assert CountedClients(os, hi) == CountedClients(os, hi - 1);
      }
    }
  }

  /** Whether an outcome is a counted contract of type `ty`. */
  predicate OfType(o: RowOutcome, ty: CM.ContractType) {
    o.Processed? && o.contract.contractType == Some(ty)
  }

  /** The positions of the counted contracts of type `ty` among the first `hi` outcomes. */
  function RowsOfType(os: seq<RowOutcome>, hi: nat, ty: CM.ContractType): set<nat>
    requires hi <= |os|
  {
    set i: nat | i < hi && OfType(os[i], ty)
  }

  /** One more outcome adds its position to the rows of its type, if it is a counted contract of that type. */
  lemma RowsOfTypeStep(os: seq<RowOutcome>, hi: nat, ty: CM.ContractType)
    requires 0 < hi <= |os|
    ensures |RowsOfType(os, hi, ty)| == |RowsOfType(os, hi - 1, ty)| + (if OfType(os[hi - 1], ty) then 1 else 0)
  {
    RowsOfTypeExtend(os, hi, ty);
    var before, extra := RowsOfType(os, hi - 1, ty), if OfType(os[hi - 1], ty) then {hi - 1} else {};
    assert before !! extra;
  }

  lemma RowsOfTypeExtend(os: seq<RowOutcome>, hi: nat, ty: CM.ContractType)
    requires 0 < hi <= |os|
    ensures RowsOfType(os, hi, ty) == RowsOfType(os, hi - 1, ty) + if OfType(os[hi - 1], ty) then {hi - 1} else {}
  {
  }

  /** A type's count in the statistics, zero when it has no entry. */
  function CountOf(stats: map<CM.ContractType, TR.TypeStats>, ty: CM.ContractType): nat {
    if ty in stats then stats[ty].count else 0
  }

  /** Recording an outcome bumps the statistics of the counted contract's type, and only then. */
  lemma RecordStats(t: Tally, o: RowOutcome)
    ensures Record(t, o).stats ==
              if o.Processed? && o.contract.contractType.Some? then CountType(t.stats, o.contract.contractType.value)
              else t.stats
  {
  }

  lemma CountOfCountType(stats: map<CM.ContractType, TR.TypeStats>, bumped: CM.ContractType, ty: CM.ContractType)
    ensures CountOf(CountType(stats, bumped), ty) == CountOf(stats, ty) + (if bumped == ty then 1 else 0)
    ensures ty in CountType(stats, bumped) <==> ty in stats || bumped == ty
  {
  }

  /** A type has a statistics entry exactly when some counted contract has it, and its count is how many do. */
  lemma {:induction false} StatsCountEachType(os: seq<RowOutcome>, hi: nat, ty: CM.ContractType)
    requires hi <= |os|
    ensures CountOf(TallyRange(os, 0, hi).stats, ty) == |RowsOfType(os, hi, ty)|
    ensures ty in TallyRange(os, 0, hi).stats <==> |RowsOfType(os, hi, ty)| > 0
  {
    if hi > 0 {
      StatsCountEachType(os, hi - 1, ty);
      var o := os[hi - 1];
      RowsOfTypeStep(os, hi, ty);
      RecordStats(TallyRange(os, 0, hi - 1), o);
      if o.Processed? && o.contract.contractType.Some? {
        CountOfCountType(TallyRange(os, 0, hi - 1).stats, o.contract.contractType.value, ty);
      }
    }
  }

  /** Every contract type, each once. */
  const AllTypes: seq<CM.ContractType> :=
    [CM.Mobile, CM.Fixe, CM.Internet, CM.Adsl, CM.Fibre, CM.Satellite, CM.Enterprise, CM.Government]

  function SumCounts(stats: map<CM.ContractType, TR.TypeStats>, types: seq<CM.ContractType>): nat {
    if |types| == 0 then 0 else CountOf(stats, types[0]) + SumCounts(stats, types[1..])
  }

  /** How many times `ty` occurs in `types`. */
  function Occurrences(types: seq<CM.ContractType>, ty: CM.ContractType): nat {
    if |types| == 0 then 0 else (if types[0] == ty then 1 else 0) + Occurrences(types[1..], ty)
  }

  /** Counting one more contract of type `ty` raises a sum over types by the number of times `ty` is among them. */
  lemma {:induction false} SumCountsBump(stats: map<CM.ContractType, TR.TypeStats>, types: seq<CM.ContractType>,
                                         ty: CM.ContractType)
    ensures SumCounts(CountType(stats, ty), types) == SumCounts(stats, types) + Occurrences(types, ty)
  {
    if |types| > 0 {
      SumCountsBump(stats, types[1..], ty);
      CountOfCountType(stats, ty, types[0]);
    }
  }

  /** A type absent from a list occurs in it zero times. */
  lemma {:induction false} OccurrencesOfAbsent(types: seq<CM.ContractType>, ty: CM.ContractType)
    requires forall j :: 0 <= j < |types| ==> types[j] != ty
    ensures Occurrences(types, ty) == 0
  {
    if |types| > 0 {
      OccurrencesOfAbsent(types[1..], ty);
    }
  }

  /** A type found at exactly one index of a list occurs in it once. */
  lemma {:induction false} OccurrencesOfUnique(types: seq<CM.ContractType>, i: nat, ty: CM.ContractType)
    requires i < |types| && types[i] == ty
    requires forall j :: 0 <= j < |types| && j != i ==> types[j] != ty
    ensures Occurrences(types, ty) == 1
  {
    if i == 0 {
      OccurrencesOfAbsent(types[1..], ty);
    } else {
      OccurrencesOfUnique(types[1..], i - 1, ty);
    }
  }

  /** Each contract type is listed exactly once. */
  lemma AllTypesListsEachOnce(ty: CM.ContractType)
    ensures Occurrences(AllTypes, ty) == 1
  {
    var i: nat := match ty
      case Mobile => 0 case Fixe => 1 case Internet => 2 case Adsl => 3
      case Fibre => 4 case Satellite => 5 case Enterprise => 6 case Government => 7;
    OccurrencesOfUnique(AllTypes, i, ty);
  }

  /** The per-type counts add up to the number of counted contracts. */
  lemma {:induction false} TypeCountsAddUp(os: seq<RowOutcome>, hi: nat)
    requires AllWellShaped(os) && hi <= |os|
    ensures SumCounts(TallyRange(os, 0, hi).stats, AllTypes) == TallyRange(os, 0, hi).successful
  {
    if hi > 0 {
      TypeCountsAddUp(os, hi - 1);
      var o := os[hi - 1];
      if o.Processed? {
        assert WellShaped(o);
        var ty := o.contract.contractType.value;
        AllTypesListsEachOnce(ty);
        RecordStats(TallyRange(os, 0, hi - 1), o);
        SumCountsBump(TallyRange(os, 0, hi - 1).stats, AllTypes, ty);
      }
    }
  }

  // ---------------------------------------------------------------------------
  // the rows a task reads

  function Max0(x: int): nat {
    if x > 0 then x else 0
  }

  function Min(a: int, b: int): int {
    if a < b then a else b
  }

  /** The index in `rows` of the first data row the loop reads: past the header and the `start - 1` skipped rows. */
  function FirstRead(start: int): nat {
    1 + Max0(start - 1)
  }

  /**
   * The rows the loop processes: from the first one read, while the line number,
   * starting at `start`, has not passed `end`, and while rows remain.
   */
  function Window(rows: seq<seq<string>>, start: int, end: int): (w: seq<seq<string>>)
    requires FirstRead(start) <= |rows|
    ensures |w| == Min(|rows| - FirstRead(start), Max0(end - start + 1))
    ensures forall i :: 0 <= i < |w| ==> w[i] == rows[FirstRead(start) + i] && start + i <= end
  {
    rows[FirstRead(start)..FirstRead(start) + Min(|rows| - FirstRead(start), Max0(end - start + 1))]
  }

  /** For a task starting at line 1 or later, the row processed as line `n` is physical row `n`, the header being row 0. */
  lemma WindowRowsAreTheirLines(rows: seq<seq<string>>, start: int, end: int)
    requires start >= 1 && FirstRead(start) <= |rows|
    ensures forall i :: 0 <= i < |Window(rows, start, end)| ==> Window(rows, start, end)[i] == rows[start + i]
    ensures |Window(rows, start, end)| == Min(|rows| - start, Max0(end - start + 1))
  {
  }

  // ---------------------------------------------------------------------------
  // the whole partition

  /** Why a partition fails before or instead of counting rows. */
  datatype Abort =
    | NullPath               // `new FileReader(null)`
    | NullStart              // unboxing a null start line
    | NullEnd                // unboxing a null end line, once a row is left to read
    | CannotOpen(reason: Option<string>)
    | BadHeaders             // no header row, or one `validateHeaders` rejects
    | CannotPosition(line: int)

  /** The first exception `processPartition` would catch before the row loop settles, if any. */
  function AbortOf(task: PT.PartitionTask, file: CsvFile): (a: Option<Abort>)
    ensures a.None? ==> task.filePath.Some? && file.Csv? && |file.rows| >= 1 && HeadersAccepted(file.rows[0])
                        && task.startLine.Some? && FirstRead(task.startLine.value) <= |file.rows|
                        && (task.endLine.None? ==> FirstRead(task.startLine.value) == |file.rows|)
  {
    if task.filePath.None? then Some(NullPath)
    else if file.Unreadable? then Some(CannotOpen(file.reason))
    else if |file.rows| == 0 || !HeadersAccepted(file.rows[0]) then Some(BadHeaders)
    else if task.startLine.None? then Some(NullStart)
    else if FirstRead(task.startLine.value) > |file.rows| then Some(CannotPosition(task.startLine.value))
    else if task.endLine.None? && FirstRead(task.startLine.value) < |file.rows| then Some(NullEnd)
    else None
  }

  const FailurePrefix: string := "Échec du traitement: "
  const BadHeadersMessage: string := "En-têtes CSV invalides ou manquants"
  const PositioningMessage: string := "Impossible de se positionner à la ligne "

  /**
   * The caught exception's message. `FileInputStream` throws a NullPointerException
   * without a message for a null path, so that summary always ends in "null".
   */
  function AbortMessage(a: Abort, env: Env): string {
    match a
    case NullPath => JavaString(None)
    case NullStart => JavaString(env.nullStartMessage)
    case NullEnd => JavaString(env.nullEndMessage)
    case CannotOpen(reason) => JavaString(reason)
    case BadHeaders => BadHeadersMessage
    case CannotPosition(line) => PositioningMessage + IntToString(line)
  }

  /** The result builder as the method starts it. */
  function Started(task: PT.PartitionTask, workerId: Option<string>): (r: TR.TaskResult)
    ensures r.taskId == task.taskId && r.partitionId == task.partitionId && r.workerId == workerId
  {
    TR.Builder().(taskId := task.taskId, partitionId := task.partitionId, workerId := workerId,
                  status := Some(TR.Processing))
  }

  /** The FAILED result of the outer `catch`: no row was counted, the summary names the exception. */
  function Aborted(base: TR.TaskResult, a: Abort, env: Env): (r: TR.TaskResult)
    ensures r.status == Some(TR.Failed) && r.taskId == base.taskId && r.partitionId == base.partitionId
    ensures r.summary == Some(FailurePrefix + AbortMessage(a, env))
  {
    base.(status := Some(TR.Failed), totalLinesProcessed := Some(0), successfulContracts := Some(0),
          failedContracts := Some(0), skippedContracts := Some(0),
          summary := Some(FailurePrefix + AbortMessage(a, env)))
  }

  /** `(success * 100.0) / total`, or 0 when no line was read. */
  function SuccessPercent(t: Tally): (p: real)
    ensures t.lines == 0 ==> p == 0.0
    ensures t.lines > 0 ==> p * (t.lines as real) == (t.successful as real) * 100.0
  {
    if t.lines > 0 then (t.successful as real * 100.0) / (t.lines as real) else 0.0
  }

  /** `generateSummary` */
  function Summary(t: Tally, env: Env): string {
    "Traitement terminé: " + IntToString(t.lines) + " lignes (" + env.percent(SuccessPercent(t))
      + "% succès, " + IntToString(t.failed) + " échecs, " + IntToString(t.skipped) + " ignorés)"
  }

  /** The COMPLETED result built from the counters; an empty error list is reported as null. */
  function Finished(base: TR.TaskResult, t: Tally, env: Env): (r: TR.TaskResult)
    ensures r.status == Some(TR.Completed) && r.taskId == base.taskId && r.partitionId == base.partitionId
  {
    base.(status := Some(TR.Completed), totalLinesProcessed := Some(t.lines),
          successfulContracts := Some(t.successful), failedContracts := Some(t.failed),
          skippedContracts := Some(t.skipped), totalAmount := Some(t.amount),
          uniqueClientsCount := Some(|t.clients|), errors := if t.errors == [] then None else Some(t.errors),
          contractTypeStats := Some(t.stats), summary := Some(Summary(t, env)))
  }

  /** The number of rows a task that does not abort processes. */
  function LinesToProcess(task: PT.PartitionTask, file: CsvFile): nat
    requires AbortOf(task, file).None?
  {
    |Window(file.rows, task.startLine.value, EndOf(task))|
  }

  /** The result of a partition that does not abort: every row of the window counted once. */
  function Completed(task: PT.PartitionTask, workerId: Option<string>, file: CsvFile, env: Env): (r: TR.TaskResult)
    requires AbortOf(task, file).None?
    ensures r.taskId == task.taskId && r.partitionId == task.partitionId && r.workerId == workerId
    ensures r.status == Some(TR.Completed)
    ensures r.totalLinesProcessed == Some(LinesToProcess(task, file))
    ensures r.successfulContracts.Some? && r.failedContracts.Some? && r.skippedContracts.Some?
    ensures r.successfulContracts.value + r.failedContracts.value + r.skippedContracts.value
              == LinesToProcess(task, file)
    ensures r.errors.None? <==> r.failedContracts == Some(0) && r.skippedContracts == Some(0)
    ensures r.uniqueClientsCount.Some? && r.uniqueClientsCount.value <= r.successfulContracts.value
    ensures r.errors.Some? ==> |r.errors.value| >= r.failedContracts.value + r.skippedContracts.value
  {
    var start := task.startLine.value;
    var end := EndOf(task);
    var os := Outcomes(Window(file.rows, start, end), start, env);
    ClassifierIsWellShaped(env);
    OutcomesAreWellShaped(Window(file.rows, start, end), start, ClassifierOf(env));
    TallyIsConsistent(os, 0, |os|);
    Finished(Started(task, workerId), TallyOf(os), env)
  }

  /** `processPartition` as a function of the task, the worker, the file's contents and the environment. */
  function Process(task: PT.PartitionTask, workerId: Option<string>, file: CsvFile, env: Env): (r: TR.TaskResult)
    ensures r.taskId == task.taskId && r.partitionId == task.partitionId && r.workerId == workerId
    ensures r.status == Some(TR.Failed) <==> AbortOf(task, file).Some?
    ensures r.status == Some(TR.Completed) <==> AbortOf(task, file).None?
    ensures AbortOf(task, file).Some? ==>
              && r.totalLinesProcessed == Some(0) && r.successfulContracts == Some(0)
              && r.failedContracts == Some(0) && r.skippedContracts == Some(0) && r.errors.None?
              && r.summary == Some(FailurePrefix + AbortMessage(AbortOf(task, file).value, env))
    ensures AbortOf(task, file).None? ==>
              && r.totalLinesProcessed == Some(LinesToProcess(task, file))
              && r.successfulContracts.Some? && r.failedContracts.Some? && r.skippedContracts.Some?
              && r.successfulContracts.value + r.failedContracts.value + r.skippedContracts.value
                 == LinesToProcess(task, file)
              && (r.errors.None? <==> r.failedContracts == Some(0) && r.skippedContracts == Some(0))
              && r.uniqueClientsCount.Some? && r.uniqueClientsCount.value <= r.successfulContracts.value
              && (r.errors.Some? ==> |r.errors.value| >= r.failedContracts.value + r.skippedContracts.value)
  {
    match AbortOf(task, file)
    case Some(a) => Aborted(Started(task, workerId), a, env)
    case None => Completed(task, workerId, file, env)
  }

  /** A null path fails the task with the same summary in every environment: the exception has no message. */
  lemma NullPathSummary(task: PT.PartitionTask, workerId: Option<string>, file: CsvFile, env: Env)
    requires task.filePath.None?
    ensures Process(task, workerId, file, env).status == Some(TR.Failed)
    ensures Process(task, workerId, file, env).summary == Some("Échec du traitement: null")
    ensures Process(task, workerId, file, env).totalLinesProcessed == Some(0)
  {
    assert AbortMessage(NullPath, env) == "null";
    assert FailurePrefix + "null" == "Échec du traitement: null";
  }

  // ---------------------------------------------------------------------------
  // what a run reports

  /** A missing header row, or one `validateHeaders` rejects, fails the task with nothing counted. */
  lemma BadHeadersFailTheTask(task: PT.PartitionTask, workerId: Option<string>, file: CsvFile, env: Env)
    requires task.filePath.Some? && file.Csv?
    requires |file.rows| == 0 || !HeadersAccepted(file.rows[0])
    ensures var r := Process(task, workerId, file, env);
            && r.status == Some(TR.Failed)
            && r.totalLinesProcessed == Some(0) && r.successfulContracts == Some(0)
            && r.failedContracts == Some(0) && r.skippedContracts == Some(0)
            && r.summary == Some(FailurePrefix + BadHeadersMessage)
  {
    assert AbortOf(task, file) == Some(BadHeaders);
  }

  /**
   * Positioning on line `start` needs `start - 1` data rows: with fewer the task fails,
   * with exactly that many it completes having read nothing.
   */
  lemma PositioningBoundary(task: PT.PartitionTask, workerId: Option<string>, file: CsvFile, env: Env)
    requires task.filePath.Some? && file.Csv? && |file.rows| >= 1 && HeadersAccepted(file.rows[0])
    requires task.startLine.Some? && task.startLine.value >= 1 && task.endLine.Some?
    ensures var dataRows, start := |file.rows| - 1, task.startLine.value;
            var r := Process(task, workerId, file, env);
            && (dataRows < start - 1 ==>
                  && r.status == Some(TR.Failed) && r.totalLinesProcessed == Some(0)
                  && r.summary == Some(FailurePrefix + (PositioningMessage + IntToString(start))))
            && (dataRows == start - 1 ==> r.status == Some(TR.Completed) && r.totalLinesProcessed == Some(0))
  {
    if |file.rows| - 1 < task.startLine.value - 1 {
      assert AbortOf(task, file) == Some(CannotPosition(task.startLine.value));
    }
  }

  /**
   * A task that positions itself reads `end - start + 1` lines, or the rows that are left
   * when the file is shorter; a short file still completes.
   */
  lemma CompletedLineCount(task: PT.PartitionTask, workerId: Option<string>, file: CsvFile, env: Env)
    requires AbortOf(task, file).None? && task.startLine.value >= 1 && task.endLine.Some?
    ensures Process(task, workerId, file, env).totalLinesProcessed ==
              Some(Min(Max0(task.endLine.value - task.startLine.value + 1), (|file.rows| - 1) - (task.startLine.value - 1)))
  {
    LinesToProcessCount(task, file);
  }

  lemma LinesToProcessCount(task: PT.PartitionTask, file: CsvFile)
    requires AbortOf(task, file).None? && task.startLine.value >= 1 && task.endLine.Some?
    ensures LinesToProcess(task, file) ==
              Min(Max0(task.endLine.value - task.startLine.value + 1), (|file.rows| - 1) - (task.startLine.value - 1))
  {
    assert FirstRead(task.startLine.value) == task.startLine.value;
  }

  /**
   * On completion the total amount, the distinct clients and the per-type counts are those
   * of the contracts counted among the task's rows, and the per-type counts add up to the
   * successful ones.
   */
  lemma CompletedTotals(task: PT.PartitionTask, workerId: Option<string>, file: CsvFile, env: Env)
    requires AbortOf(task, file).None?
    ensures var os := Outcomes(Window(file.rows, task.startLine.value, EndOf(task)), task.startLine.value, env);
            var r := Process(task, workerId, file, env);
            && r.totalAmount == Some(ProcessedAmount(os))
            && r.uniqueClientsCount == Some(|CountedClients(os, |os|)|)
            && r.contractTypeStats.Some? && r.successfulContracts.Some?
            && SumCounts(r.contractTypeStats.value, AllTypes) == r.successfulContracts.value
            && forall ty :: CountOf(r.contractTypeStats.value, ty) == |RowsOfType(os, |os|, ty)|
  {
    var start := task.startLine.value;
    var w := Window(file.rows, start, EndOf(task));
    var os := Outcomes(w, start, env);
    AmountIsSumOfCounted(os);
    ClientsAreThoseCounted(os, |os|);
    ClassifierIsWellShaped(env);
    OutcomesAreWellShaped(w, start, ClassifierOf(env));
    TypeCountsAddUp(os, |os|);
    forall ty {
      StatsCountEachType(os, |os|, ty);
    }
  }

  /** `skipToStartLine`: reading `start - 1` rows past the header succeeds exactly when that many rows exist. */
  method SkipToStart(rows: seq<seq<string>>, start: int) returns (ok: bool, pos: nat)
    requires |rows| >= 1
    ensures ok <==> FirstRead(start) <= |rows|
    ensures ok ==> pos == FirstRead(start)
  {
    pos := 1;
    while pos < FirstRead(start)
      invariant 1 <= pos <= FirstRead(start) && pos <= |rows|
    {
      if pos >= |rows| {
        return false, pos;
      }
      pos := pos + 1;
    }
    return true, pos;
  }

  /** The last line as the loop compares it; an absent one only matters once a row is read. */
  function EndOf(task: PT.PartitionTask): int {
    if task.endLine.Some? then task.endLine.value else 0
  }

  /**
   * The row loop of `processPartition`: a row is read before its line number is compared
   * with the last line, so a null last line fails only when a row is left to read.
   */
  method CountRows(rows: seq<seq<string>>, start: int, endLine: Option<int>, classify: Classifier)
    returns (ok: bool, tally: Tally)
    requires FirstRead(start) <= |rows|
    ensures ok <==> endLine.Some? || FirstRead(start) == |rows|
    ensures ok ==> tally == TallyOf(OutcomesBy(Window(rows, start, if endLine.Some? then endLine.value else 0), start, classify))
  {
    var pos := FirstRead(start);
    var line := start;
    var taken := 0;
    tally := EmptyTally;
    ghost var ahead := OutcomesBy(rows[FirstRead(start)..], start, classify);
    while pos < |rows|
      invariant FirstRead(start) <= pos <= |rows| && pos == FirstRead(start) + taken
      invariant line == start + taken
      invariant endLine.Some? ==> taken <= Max0(endLine.value - start + 1)
      invariant endLine.None? ==> taken == 0
      invariant tally == TallyRange(ahead, 0, taken)
    {
      var row := rows[pos];
      if endLine.None? {
        return false, tally;
      }
      if line > endLine.value {
        break;
      }
      assert ahead[taken] == classify(row, line);
      tally := Record(tally, classify(row, line));
      pos := pos + 1;
      line := line + 1;
      taken := taken + 1;
    }
    ghost var window := OutcomesBy(Window(rows, start, if endLine.Some? then endLine.value else 0), start, classify);
    assert |window| == taken;
    TallyOfSamePrefix(window, ahead, taken);
    return true, tally;
  }

  /** `processPartition` as written: open, check the header, skip to the first line, count the rows. */
  method ProcessPartition(task: PT.PartitionTask, workerId: Option<string>, file: CsvFile, env: Env)
    returns (r: TR.TaskResult)
    ensures r == Process(task, workerId, file, env)
    ensures r.status == Some(TR.Completed) ==>
              r.totalLinesProcessed == Some(LinesToProcess(task, file))
  {
    var base := Started(task, workerId);
    if task.filePath.None? {
      return Aborted(base, NullPath, env);
    }
    if file.Unreadable? {
      return Aborted(base, CannotOpen(file.reason), env);
    }
    var rows := file.rows;
    if |rows| == 0 {
      return Aborted(base, BadHeaders, env);
    }
    var accepted := ValidateHeaders(rows[0]);
    if !accepted {
      return Aborted(base, BadHeaders, env);
    }
    if task.startLine.None? {
      return Aborted(base, NullStart, env);
    }
    var start := task.startLine.value;
    var positioned, _ := SkipToStart(rows, start);
    if !positioned {
      return Aborted(base, CannotPosition(start), env);
    }
    var counted, tally := CountRows(rows, start, task.endLine, ClassifierOf(env));
    if !counted {
      return Aborted(base, NullEnd, env);
    }
    return Finished(base, tally, env);
  }
}
