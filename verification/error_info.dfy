/**
 * Structured error records attached to task results, their three factory functions,
 * and the bounded rendering of an exception's stack trace.
 * Timestamps are clock reads and are not modelled; a JVM exception is reduced to
 * its simple class name, its message and its already-rendered stack frames.
 */
module ErrorModel {
  import opened Wrappers
  import opened Text

  datatype ErrorType =
    | Validation | Parsing | BusinessLogic | Technical | Timeout
    | Network | Database | Kafka | Unknown

  /**
   * The offending value of an error. The source stores its `toString()`; strings and
   * enum names are kept as text, while decimals and dates keep the value they render.
   */
  datatype FieldValue = TextValue(text: string) | DecimalValue(amount: real) | DateValue(day: int)

  datatype ErrorInfo = ErrorInfo(
    errorType: Option<ErrorType>,
    errorCode: Option<string>,
    message: Option<string>,
    detailedMessage: Option<string>,
    lineNumber: Option<int>,
    lineData: Option<string>,
    fieldName: Option<string>,
    fieldValue: Option<FieldValue>,
    stackTrace: Option<string>,
    recoverable: Option<bool>,
    retryCount: Option<int>,
    recommendedAction: Option<string>)

  /** A thrown exception as the error factories see it. */
  datatype Exception = Exception(simpleName: string, message: Option<string>, frames: seq<string>)

  /** `ErrorInfo.builder().build()`: not recoverable, no retries, everything else null. */
  function Builder(): (e: ErrorInfo)
    ensures e.recoverable == Some(false) && e.retryCount == Some(0)
    ensures e.errorType.None? && e.fieldName.None? && e.lineNumber.None? && e.stackTrace.None?
    ensures e.errorCode.None? && e.message.None? && e.detailedMessage.None?
    ensures e.lineData.None? && e.fieldValue.None? && e.recommendedAction.None?
  {
    ErrorInfo(None, None, None, None, None, None, None, None, None, Some(false), Some(0), None)
  }

  /** `validationError`: a non-recoverable VALIDATION_ERROR echoing the field, its value and the line. */
  function ValidationError(fieldName: string, fieldValue: Option<FieldValue>, message: string,
                           lineNumber: Option<int>): (e: ErrorInfo)
    ensures e.errorType == Some(Validation) && e.errorCode == Some("VALIDATION_FAILED")
    ensures e.recoverable == Some(false) && e.retryCount == Some(0)
    ensures e.fieldName == Some(fieldName) && e.fieldValue == fieldValue
    ensures e.message == Some(message) && e.lineNumber == lineNumber
  {
    Builder().(errorType := Some(Validation), errorCode := Some("VALIDATION_FAILED"),
               message := Some(message), fieldName := Some(fieldName), fieldValue := fieldValue,
               lineNumber := lineNumber, recoverable := Some(false),
               recommendedAction := Some("Corriger les données d'entrée"))
  }

  /** `parsingError`: a non-recoverable PARSING_ERROR echoing the raw line and its number. */
  function ParsingError(lineData: Option<string>, message: string, lineNumber: Option<int>): (e: ErrorInfo)
    ensures e.errorType == Some(Parsing) && e.errorCode == Some("PARSING_FAILED")
    ensures e.recoverable == Some(false) && e.fieldName.None?
    ensures e.lineData == lineData && e.message == Some(message) && e.lineNumber == lineNumber
  {
    Builder().(errorType := Some(Parsing), errorCode := Some("PARSING_FAILED"),
               message := Some(message), lineData := lineData, lineNumber := lineNumber,
               recoverable := Some(false),
               recommendedAction := Some("Vérifier le format des données"))
  }

  /** `technicalError`: a recoverable TECHNICAL_ERROR carrying the exception's message and stack trace. */
  function TechnicalError(message: string, ex: Exception): (e: ErrorInfo)
    ensures e.errorType == Some(Technical) && e.errorCode == Some("TECHNICAL_ERROR")
    ensures e.recoverable == Some(true) && e.fieldName.None? && e.lineNumber.None?
    ensures e.detailedMessage == ex.message && e.message == Some(message)
    ensures e.stackTrace.Some? && e.stackTrace == StackTrace(Some(ex))
  {
    Builder().(errorType := Some(Technical), errorCode := Some("TECHNICAL_ERROR"),
               message := Some(message), detailedMessage := ex.message,
               stackTrace := StackTrace(Some(ex)), recoverable := Some(true),
               recommendedAction := Some("Retry ou investigation technique"))
  }

  /** The three factories never produce the same kind of error, and only technical errors are retryable. */
  lemma FactoriesAreDistinguishable(field: string, value: Option<FieldValue>, data: Option<string>,
                                    message: string, line: Option<int>, ex: Exception)
    ensures ValidationError(field, value, message, line).errorType != ParsingError(data, message, line).errorType
    ensures ParsingError(data, message, line).errorType != TechnicalError(message, ex).errorType
    ensures ValidationError(field, value, message, line).errorType != TechnicalError(message, ex).errorType
    ensures TechnicalError(message, ex).recoverable == Some(true)
    ensures ValidationError(field, value, message, line).recoverable == Some(false)
    ensures ParsingError(data, message, line).recoverable == Some(false)
  {
  }

  // ---------------------------------------------------------------------------
  // stack trace rendering

  /** Once the text grows past this many UTF-16 units (`StringBuilder.length()`), no further frame is appended. */
  const TruncationLimit: nat := 2000
  const TruncationMarker: string := "\t... (truncated)\n"

  function TraceHeader(ex: Exception): string {
    ex.simpleName + ": " + JavaString(ex.message) + "\n"
  }

  function FrameLine(frame: string): string {
    "\tat " + frame + "\n"
  }

  /** All frame lines, in frame order. */
  function Lines(frames: seq<string>): string {
    if |frames| == 0 then "" else FrameLine(frames[0]) + Lines(frames[1..])
  }

  /** Appending one more frame line extends the rendering of the preceding frames. */
  lemma {:induction false} LinesSnoc(frames: seq<string>, i: nat)
    requires i < |frames|
    ensures Lines(frames[..i + 1]) == Lines(frames[..i]) + FrameLine(frames[i])
  {
    if i > 0 {
      assert frames[..i + 1][1..] == frames[1..][..i];
      assert frames[..i][1..] == frames[1..][..i - 1];
      LinesSnoc(frames[1..], i - 1);
    }
  }

  /** The loop of `getStackTrace`: append a frame line, stop with the marker right after the text passes the limit. */
  function AppendFrames(acc: string, frames: seq<string>): string
    decreases |frames|
  {
    if |frames| == 0 then acc
    else
      var next := acc + FrameLine(frames[0]);
      if JavaLength(next) > TruncationLimit then next + TruncationMarker
      else AppendFrames(next, frames[1..])
  }

  /** `getStackTrace`: null for a null exception, otherwise the header followed by the bounded frame lines. */
  function StackTrace(ex: Option<Exception>): (r: Option<string>)
    ensures r.None? <==> ex.None?
  {
    if ex.None? then None else Some(AppendFrames(TraceHeader(ex.value), ex.value.frames))
  }

  /**
   * The frame loop stopped right after frame `k` (counting from 1): the first `k` frame
   * lines are followed by the marker, frame `k` took the text past the limit, and the
   * text before it was still within the limit.
   */
  predicate StopsAfter(acc: string, frames: seq<string>, k: int) {
    && 1 <= k <= |frames|
    && AppendFrames(acc, frames) == acc + Lines(frames[..k]) + TruncationMarker
    && JavaLength(acc + Lines(frames[..k])) > TruncationLimit
    && (k == 1 || JavaLength(acc + Lines(frames[..k - 1])) <= TruncationLimit)
  }

  /** A stop after frame `k` of the remaining frames is a stop after frame `k + 1` of all of them. */
  lemma StopsAfterShift(acc: string, frames: seq<string>, k: int)
    requires |frames| > 0 && JavaLength(acc + FrameLine(frames[0])) <= TruncationLimit
    requires StopsAfter(acc + FrameLine(frames[0]), frames[1..], k)
    ensures StopsAfter(acc, frames, k + 1)
  {
    var next := acc + FrameLine(frames[0]);
    assert frames[..k + 1][1..] == frames[1..][..k];
    assert acc + Lines(frames[..k + 1]) == next + Lines(frames[1..][..k]);
    assert frames[..k][1..] == frames[1..][..k - 1];
    assert acc + Lines(frames[..k]) == next + Lines(frames[1..][..k - 1]);
    if k == 1 {
      assert next + Lines(frames[1..][..0]) == next;
    }
  }

  /**
   * The shape of the frame loop: either every frame line is present (nothing was ever
   * over the limit after an append) or the text stops with the marker after the first
   * frame whose line took it over the limit.
   */
  lemma {:induction false} AppendFramesShape(acc: string, frames: seq<string>)
    ensures |frames| == 0 || JavaLength(acc + Lines(frames)) <= TruncationLimit ==>
              AppendFrames(acc, frames) == acc + Lines(frames)
    ensures |frames| > 0 && JavaLength(acc + Lines(frames)) > TruncationLimit ==>
              exists k :: StopsAfter(acc, frames, k)
    decreases |frames|
  {
    if |frames| > 0 {
      var next := acc + FrameLine(frames[0]);
      assert acc + Lines(frames) == next + Lines(frames[1..]);
      Utf16Append(next, Lines(frames[1..]));
      if JavaLength(next) > TruncationLimit {
        assert frames[..1][1..] == [];
        assert acc + Lines(frames[..1]) == next;
        assert StopsAfter(acc, frames, 1);
      } else {
        AppendFramesShape(next, frames[1..]);
        if JavaLength(acc + Lines(frames)) > TruncationLimit {
          var k :| StopsAfter(next, frames[1..], k);
          StopsAfterShift(acc, frames, k);
        }
      }
    }
  }

  /** `getStackTrace` as the source writes it: a loop over the frames with an early exit. */
  method BuildStackTrace(ex: Option<Exception>) returns (r: Option<string>)
    ensures r == StackTrace(ex)
    ensures ex.None? <==> r.None?
    ensures ex.Some? ==> |r.value| >= |TraceHeader(ex.value)|
                         && r.value[..|TraceHeader(ex.value)|] == TraceHeader(ex.value)
  {
    if ex.None? {
      return None;
    }
    var e := ex.value;
    var sb := TraceHeader(e);
    var i := 0;
    while i < |e.frames|
      invariant 0 <= i <= |e.frames|
      invariant |sb| >= |TraceHeader(e)| && sb[..|TraceHeader(e)|] == TraceHeader(e)
      invariant AppendFrames(sb, e.frames[i..]) == AppendFrames(TraceHeader(e), e.frames)
    {
      assert e.frames[i..][1..] == e.frames[i + 1..];
      sb := sb + FrameLine(e.frames[i]);
      if JavaLength(sb) > TruncationLimit {
        sb := sb + TruncationMarker;
        break;
      }
      i := i + 1;
    }
    return Some(sb);
  }
}
