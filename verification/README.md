# Contract partition processing — a Dafny model

This project models the pure core of a Spring Batch / Kafka pipeline that processes Maroc
Telecom contract files. It covers the five stages below.

1. **Partitioning.** The task master counts the data lines of a CSV file. It then cuts them
   into contiguous line ranges, one partition task per range (`FilePartitioner`).
2. **Processing a partition.** A worker checks a task (`PartitionTaskListener`). It reads the
   task's header and rows and parses each row into a `Contract` (`ContractProcessor`). It
   validates the contract with about twenty-six business checks (`ContractValidator`). It
   counts each row as successful, skipped or failed, and builds a `TaskResultDTO`.
3. **Error records.** An `ErrorInfo` is built by the validation, parsing and technical
   factories. A technical error carries a bounded stack trace.
4. **Aggregation.** The task master folds incoming results into per-job totals, keyed by
   the hash of the task id (`ResultListener`).
5. **Routing keys.** Tasks and results are sent to Kafka under keys derived from their ids
   (`KafkaPartitionSender`, `ResultSender`).

One Dafny module stands for each source file:

- `ContractModel`, `ErrorModel`, `PartitionTaskModel` and `TaskResultModel` model the DTOs.
- `Partitioner`, `ContractParsing`, `Validator`, `Processor`, `TaskListener`, `Aggregator`,
  `PartitionSender` and `ResultSender` model the services.
- `Text` models the parts of `java.lang.String` the code relies on:
  - `trim` and blankness;
  - ASCII case;
  - `String.join`;
  - decimal rendering and `Integer.parseInt`;
  - `hashCode`.
- `Wrappers` provides `Option` and `Result`.

The model follows these conventions:

- Nullable Java fields become `Option`.
- Thrown exceptions become `Result` failures or an explicit `Thrown(className, message)`.
- `BigDecimal` becomes `real`, and `LocalDate` becomes an `int` day number.
- The two text grammars the parser delegates to (`new BigDecimal(text)` and
  `LocalDate.parse(text, "yyyy-MM-dd")`) are parameters.
- "Today", the `%.2f` rendering, the JVM's stack frames per exception class and the JVM's
  messages for unboxing a null start or end line are parameters too. A null file path
  throws a `NullPointerException` without a message, so its summary is fixed.

The partitioner gives each range `totalLines / n` lines and lets the last range take the
remainder. So 25,000 lines with grid size 4 give the ranges [1, 8333], [8334, 16666] and
[16667, 25000] (`Partitioner.ExampleTwentyFiveThousandLines`).

## Model

| member | source | states |
|---|---|---|
| Text.JavaString | worker-node/src/main/java/com/maroctelecom/worker/service/ResultSender.java:83 | `%s` and `+` render a null string as "null" and a present one as itself |
| Text.TrimStartFacts | worker-node/src/main/java/com/maroctelecom/worker/validator/ContractValidator.java:261-263 | the left trim removes exactly the leading chars at or below U+0020 and stops at the first other char |
| Text.TrimEndFacts | worker-node/src/main/java/com/maroctelecom/worker/validator/ContractValidator.java:261-263 | the right trim removes exactly the trailing chars at or below U+0020 |
| Text.TrimIsSlice | worker-node/src/main/java/com/maroctelecom/worker/processor/ContractProcessor.java:285-287 | `trim` keeps the contiguous slice between the first and last non-blank chars, and everything cut off is blank |
| Text.BlankIffTrimEmpty | worker-node/src/main/java/com/maroctelecom/worker/validator/ContractValidator.java:261-263 | a present string is blank exactly when `trim` leaves it empty |
| Text.TrimOfUntrimmed | worker-node/src/main/java/com/maroctelecom/worker/processor/ContractProcessor.java:285-287 | a string that neither starts nor ends with a blank char is its own trim |
| Text.TrimIsIdempotent | worker-node/src/main/java/com/maroctelecom/worker/processor/ContractProcessor.java:285-287 | trimming twice is trimming once |
| Text.Join | worker-node/src/main/java/com/maroctelecom/worker/processor/ContractProcessor.java:119 | `String.join(",", line)`: empty for no parts, the part itself for one part, and it always starts with the first part |
| Text.EqualsIgnoreCaseIff | worker-node/src/main/java/com/maroctelecom/worker/processor/ContractProcessor.java:180 | comparing two strings ignoring ASCII case is the same as comparing their upper-cased forms |
| Text.NatToStringRoundTrip | worker-node/src/main/java/com/maroctelecom/worker/processor/ContractProcessor.java:210 | reading back the digits of a rendered non-negative number gives that number |
| Text.IntToStringInjective | task-master/src/main/java/com/maroctelecom/taskmaster/service/KafkaPartitionSender.java:83 | distinct integers render to distinct `%d` strings |
| Text.IntToStringIsTrimmed | worker-node/src/main/java/com/maroctelecom/worker/processor/ContractProcessor.java:285-287 | a rendered integer has no surrounding blanks |
| Text.ParseInt | worker-node/src/main/java/com/maroctelecom/worker/processor/ContractProcessor.java:337-341 | `Integer.parseInt` accepts only values in the 32-bit range |
| Text.ParseIntRoundTrip | worker-node/src/main/java/com/maroctelecom/worker/processor/ContractProcessor.java:337-341 | every 32-bit integer survives rendering and re-parsing |
| Text.Utf16 | task-master/src/main/java/com/maroctelecom/taskmaster/listener/ResultListener.java:127 | a string's UTF-16 units are 16-bit values, at least one per char |
| Text.HashCode | task-master/src/main/java/com/maroctelecom/taskmaster/listener/ResultListener.java:127 | `String.hashCode` is a signed 32-bit value |
| Text.HashUnitsIsPolynomial | task-master/src/main/java/com/maroctelecom/taskmaster/listener/ResultListener.java:127 | the running `31 * h + unit` hash equals the documented polynomial `s[0]*31^(n-1) + … + s[n-1]` reduced modulo 2^32 |
| Text.HashCodeOfPair | task-master/src/main/java/com/maroctelecom/taskmaster/listener/ResultListener.java:127 | a two-char string within the Basic Multilingual Plane hashes to 31 × first + second |
| Text.HashCodeOfAaAndBB | task-master/src/main/java/com/maroctelecom/taskmaster/listener/ResultListener.java:127 | "Aa" and "BB" have the same hash code, 2112 |
| Text.JavaLengthOfBmp | spring-batch-common/src/main/java/com/maroctelecom/common/dto/ErrorInfo.java:185 | `length()` of a string with no char above U+FFFF is its number of chars |
| Text.JavaLengthOfSupplementary | spring-batch-common/src/main/java/com/maroctelecom/common/dto/ErrorInfo.java:185 | a char above U+FFFF counts as two units of `length()` |
| Text.Utf16Append | spring-batch-common/src/main/java/com/maroctelecom/common/dto/ErrorInfo.java:183-185 | appending to a `StringBuilder` adds the appended text's UTF-16 units to its length |
| ContractModel.TypeFromName | spring-batch-common/src/main/java/com/maroctelecom/common/model/Contract.java:175-197 | `ContractType.valueOf` returns only a constant whose name is exactly the text |
| ContractModel.StatusFromName | spring-batch-common/src/main/java/com/maroctelecom/common/model/Contract.java:199-226 | `ContractStatus.valueOf` returns only a constant whose name is exactly the text |
| ContractModel.ChannelFromName | spring-batch-common/src/main/java/com/maroctelecom/common/model/Contract.java:230-246 | `SalesChannel.valueOf` returns only a constant whose name is exactly the text |
| ContractModel.EnumNamesRoundTrip | spring-batch-common/src/main/java/com/maroctelecom/common/model/Contract.java:175-246 | `valueOf(name())` gives back every constant of the three enumerations |
| ContractModel.ActiveAndInactiveAreExclusive | spring-batch-common/src/main/java/com/maroctelecom/common/model/Contract.java:218-224 | no status is both active and inactive; DRAFT, PENDING and RENEWED are neither |
| ContractModel.Builder | spring-batch-common/src/main/java/com/maroctelecom/common/model/Contract.java:155-170 | a built contract has version 1, is not prepaid and has a 0 discount, with every other field null |
| ContractModel.DiscountedAmount | spring-batch-common/src/main/java/com/maroctelecom/common/model/Contract.java:251-259 | a null amount or discount leaves the amount; otherwise the result is amount × (100 − d) / 100, so a 0% discount keeps it, 100% gives 0, and a discount in [0, 100] stays within [0, amount] |
| ContractModel.AgeInDays | spring-batch-common/src/main/java/com/maroctelecom/common/model/Contract.java:273-278 | the age is 0 without a creation date, otherwise the days from creation to today |
| ContractModel.ValidityWindow | spring-batch-common/src/main/java/com/maroctelecom/common/model/Contract.java:263-268 | a contract is valid exactly when it has no expiration date or today is not past it |
| ContractModel.RenewalWindow | spring-batch-common/src/main/java/com/maroctelecom/common/model/Contract.java:283-288 | renewal eligibility is exactly expiration in [today, today + 30), and it implies validity |
| ErrorModel.Builder | spring-batch-common/src/main/java/com/maroctelecom/common/dto/ErrorInfo.java:85-92 | a built error is not recoverable and has no retries, with its other ten fields (type, code, message, detail, line, line data, field, value, trace, action) null |
| ErrorModel.ValidationError | spring-batch-common/src/main/java/com/maroctelecom/common/dto/ErrorInfo.java:127-139 | a non-recoverable VALIDATION_ERROR / VALIDATION_FAILED echoing the field, value, message and line |
| ErrorModel.ParsingError | spring-batch-common/src/main/java/com/maroctelecom/common/dto/ErrorInfo.java:144-155 | a non-recoverable PARSING_ERROR / PARSING_FAILED echoing the raw line, message and line number, with no field |
| ErrorModel.TechnicalError | spring-batch-common/src/main/java/com/maroctelecom/common/dto/ErrorInfo.java:160-171 | a recoverable TECHNICAL_ERROR carrying the exception's message as detail and the bounded stack trace of that exception |
| ErrorModel.FactoriesAreDistinguishable | spring-batch-common/src/main/java/com/maroctelecom/common/dto/ErrorInfo.java:127-171 | the three factories produce pairwise different error types, and only technical errors are recoverable |
| ErrorModel.StackTrace | spring-batch-common/src/main/java/com/maroctelecom/common/dto/ErrorInfo.java:176-177 | the trace is null exactly for a null exception |
| ErrorModel.AppendFramesShape | spring-batch-common/src/main/java/com/maroctelecom/common/dto/ErrorInfo.java:181-188 | the trace holds every frame line while it stays within 2,000 UTF-16 units (`StringBuilder.length()`); otherwise it stops with the truncation marker after the first frame that takes it past 2,000 |
| ErrorModel.BuildStackTrace | spring-batch-common/src/main/java/com/maroctelecom/common/dto/ErrorInfo.java:176-191 | the frame loop with its early exit computes the trace, which starts with "SimpleName: message" |
| PartitionTaskModel.Builder | spring-batch-common/src/main/java/com/maroctelecom/common/dto/PartitionTaskDTO.java:89-101 | a built task has priority 5 and a 300-second timeout, with no range |
| PartitionTaskModel.PartitionSize | spring-batch-common/src/main/java/com/maroctelecom/common/dto/PartitionTaskDTO.java:106-111 | the size is the inclusive range length when both bounds are known, otherwise the estimate |
| PartitionTaskModel.LargePartitionIff | spring-batch-common/src/main/java/com/maroctelecom/common/dto/PartitionTaskDTO.java:116-119 | a task is large exactly when its known range, or else its estimate, exceeds 10,000 lines |
| TaskResultModel.Builder | spring-batch-common/src/main/java/com/maroctelecom/common/dto/TaskResultDTO.java:70-102 | a built result has every counter, the amount and the client count at zero |
| TaskResultModel.SuccessAndFailureAreExclusive | spring-batch-common/src/main/java/com/maroctelecom/common/dto/TaskResultDTO.java:157-166 | no result is both successful and failed; the other four statuses are neither |
| TaskResultModel.SuccessRate | spring-batch-common/src/main/java/com/maroctelecom/common/dto/TaskResultDTO.java:137-142 | the rate is 0 for a null or zero line total, otherwise successful × 100 / total, and it lies in [0, 100] when successful ≤ total |
| Partitioner.CountLines | task-master/src/main/java/com/maroctelecom/taskmaster/partitioner/FilePartitioner.java:107-122 | a missing file is an I/O error naming the path; otherwise the count is the physical lines less the header, never below 0 |
| Partitioner.OptimalPartitions | task-master/src/main/java/com/maroctelecom/taskmaster/partitioner/FilePartitioner.java:127-140 | the partition count lies in [1, 50], is 1 for small files or grid sizes up to 1, never exceeds the grid size, the line count or the 10,000-line ceiling, and for a larger file with a positive grid size equals one of the ceiling, the grid size or 50 |
| Partitioner.LargeFilesAreSplit | task-master/src/main/java/com/maroctelecom/taskmaster/partitioner/FilePartitioner.java:127-140 | more than 10,000 lines with a grid of at least 2 gives at least two partitions |
| Partitioner.OptimalPartitionsIsLargestAllowed | task-master/src/main/java/com/maroctelecom/taskmaster/partitioner/FilePartitioner.java:133-139 | for more than 10,000 lines no count from 1 to 50 within the ceiling and the grid size exceeds the chosen one |
| Partitioner.ExampleThirtyFiveThousandLines | task-master/src/main/java/com/maroctelecom/taskmaster/partitioner/FilePartitioner.java:133-139 | 35,000 lines give 4 partitions with grid sizes 4 and 8, and 3 with grid size 3 |
| Partitioner.TimeoutSeconds | task-master/src/main/java/com/maroctelecom/taskmaster/partitioner/FilePartitioner.java:145-152 | the timeout is 60 s plus one second per full 100 lines |
| Partitioner.TimeoutIsMonotone | task-master/src/main/java/com/maroctelecom/taskmaster/partitioner/FilePartitioner.java:145-152 | a larger partition never gets a shorter timeout |
| Partitioner.TaskForFacts | task-master/src/main/java/com/maroctelecom/taskmaster/partitioner/FilePartitioner.java:53-79 | each task carries its range, number, job, size and size-derived timeout; every non-last range holds `total / n` lines and the next range starts right after it |
| Partitioner.ContiguousIsOrdered | task-master/src/main/java/com/maroctelecom/taskmaster/partitioner/FilePartitioner.java:53-58 | every range ends before any later range starts |
| Partitioner.ContiguousCoversEachLineOnce | task-master/src/main/java/com/maroctelecom/taskmaster/partitioner/FilePartitioner.java:53-58 | every data line lies in exactly one range: no gap, no overlap |
| Partitioner.RangeArithmetic | task-master/src/main/java/com/maroctelecom/taskmaster/partitioner/FilePartitioner.java:50-58 | consecutive ranges touch, non-last ranges hold `total / n` lines and the last takes the remainder |
| Partitioner.TaskForListIsContiguous | task-master/src/main/java/com/maroctelecom/taskmaster/partitioner/FilePartitioner.java:53-58 | the built tasks start at line 1, chain without gaps and end at the last data line |
| Partitioner.TaskForListIsLabelled | task-master/src/main/java/com/maroctelecom/taskmaster/partitioner/FilePartitioner.java:61-72 | the built tasks are numbered 0.. in order and carry the job's path, name and ids |
| Partitioner.TaskForListIsSized | task-master/src/main/java/com/maroctelecom/taskmaster/partitioner/FilePartitioner.java:72-73 | each task's estimate is its range length and its timeout is derived from it |
| Partitioner.BuildTasks | task-master/src/main/java/com/maroctelecom/taskmaster/partitioner/FilePartitioner.java:47-93 | the range loop builds as many tasks as the optimal count, contiguous, labelled and sized; an empty file gives the single range [1, 0] |
| Partitioner.Partition | task-master/src/main/java/com/maroctelecom/taskmaster/partitioner/FilePartitioner.java:33-101 | a missing file fails with "Impossible de partitionner le fichier: path"; otherwise the tasks cover the data lines, and a file of at most 10,001 lines gives one task |
| Partitioner.ExampleTwentyFiveThousandLines | task-master/src/main/java/com/maroctelecom/taskmaster/partitioner/FilePartitioner.java:47-58 | 25,000 lines with grid size 4 give [1,8333] [8334,16666] [16667,25000] |
| Validator.LocalPartLength | worker-node/src/main/java/com/maroctelecom/worker/validator/ContractValidator.java:24 | the longest prefix of local-part chars of the email pattern |
| Validator.EmailFormatIff | worker-node/src/main/java/com/maroctelecom/worker/validator/ContractValidator.java:24 | the email predicate accepts exactly `^[A-Za-z0-9+_.-]+@(.+)$`: a non-empty local part, an '@', and a non-empty single-line rest |
| Validator.RegionExamples | worker-node/src/main/java/com/maroctelecom/worker/validator/ContractValidator.java:193-194 | regions are compared after upper-casing but without trimming |
| Validator.FieldNamesAreDistinct | worker-node/src/main/java/com/maroctelecom/worker/validator/ContractValidator.java:80-256 | an error's field name identifies its field |
| Validator.EveryCheckRuns | worker-node/src/main/java/com/maroctelecom/worker/validator/ContractValidator.java:57-67 | every kind of check is among the ones `validate` runs |
| Validator.Emit | worker-node/src/main/java/com/maroctelecom/worker/validator/ContractValidator.java:80-256 | running checks in order reports one error per failing check and nothing else, all at the given line |
| Validator.AcceptableFailsNoCheck | worker-node/src/main/java/com/maroctelecom/worker/validator/ContractValidator.java:80-256 | an acceptable contract fails none of the checks |
| Validator.NoFailureMeansAcceptable | worker-node/src/main/java/com/maroctelecom/worker/validator/ContractValidator.java:80-256 | a contract that fails no check is acceptable |
| Validator.NoCheckFailsIff | worker-node/src/main/java/com/maroctelecom/worker/validator/ContractValidator.java:57-67 | no check of the run fails exactly when the contract is acceptable |
| Validator.Validate | worker-node/src/main/java/com/maroctelecom/worker/validator/ContractValidator.java:48-75 | a null contract gives the single "contract" error; otherwise the error list is empty exactly when the contract is acceptable |
| Validator.ErrorsAreFailingChecks | worker-node/src/main/java/com/maroctelecom/worker/validator/ContractValidator.java:48-75 | each reported error comes from a failing check, and each failing check is reported |
| Validator.FlagsIff | worker-node/src/main/java/com/maroctelecom/worker/validator/ContractValidator.java:48-75 | a field is named by some error exactly when one of its checks fails |
| Validator.AmountFlaggedIff | worker-node/src/main/java/com/maroctelecom/worker/validator/ContractValidator.java:101-177 | the amount is flagged exactly when it is null or outside [0, 1,000,000] |
| Validator.SalesChannelFlaggedIff | worker-node/src/main/java/com/maroctelecom/worker/validator/ContractValidator.java:251-255 | the sales channel is flagged exactly for ENTERPRISE contracts sold ONLINE |
| Validator.BlankContractIdIsOnlyMandatory | worker-node/src/main/java/com/maroctelecom/worker/validator/ContractValidator.java:81-84 | a blank contract id gets the mandatory error and never the format error |
| Validator.BlankClientIdIsOnlyMandatory | worker-node/src/main/java/com/maroctelecom/worker/validator/ContractValidator.java:86-89 | a blank client id gets the mandatory error and never the format error |
| Validator.ActiveNeedsActivationDate | worker-node/src/main/java/com/maroctelecom/worker/validator/ContractValidator.java:238-242 | an ACTIVE contract without an activation date is flagged on activationDate |
| Validator.ErrorsAccumulate | worker-node/src/main/java/com/maroctelecom/worker/validator/ContractValidator.java:165-190 | checks do not stop at the first failure: a negative amount and a too-long duration are both reported |
| Validator.FullValidationImpliesBasic | worker-node/src/main/java/com/maroctelecom/worker/validator/ContractValidator.java:268-276 | a contract the full validation accepts passes `isValidBasic` exactly when its amount is not zero |
| Validator.CriticalFieldsAre | worker-node/src/main/java/com/maroctelecom/worker/validator/ContractValidator.java:291-293 | the critical fields are exactly contractId, clientId, amount, contractType and status |
| Validator.CountCriticalErrors | worker-node/src/main/java/com/maroctelecom/worker/validator/ContractValidator.java:281-286 | the count is at most the list length, 0 exactly when no error is critical, the length exactly when all are, and 1 for a single critical error |
| Validator.CountCriticalErrorsIsCardinality | worker-node/src/main/java/com/maroctelecom/worker/validator/ContractValidator.java:281-286 | the count is the number of positions in the list holding a VALIDATION_ERROR on a critical field |
| Validator.CountCriticalErrorsAppend | worker-node/src/main/java/com/maroctelecom/worker/validator/ContractValidator.java:281-286 | the count over two concatenated lists is the sum of their counts |
| Validator.CriticalChecksFailIff | worker-node/src/main/java/com/maroctelecom/worker/validator/ContractValidator.java:80-256 | some check about a critical field fails exactly when the critical fields are not acceptable |
| Validator.NoCriticalErrorsIff | worker-node/src/main/java/com/maroctelecom/worker/validator/ContractValidator.java:281-293 | a validation has no critical error exactly when the critical fields are acceptable |
| ContractParsing.MatchHeaders | worker-node/src/main/java/com/maroctelecom/worker/processor/ContractProcessor.java:179-185 | the scan stops at the first mismatch and accepts exactly when every expected column matches |
| ContractParsing.ValidateHeaders | worker-node/src/main/java/com/maroctelecom/worker/processor/ContractProcessor.java:174-188 | the header check accepts exactly the rows with the 17 expected names, ignoring case and surrounding blanks |
| ContractParsing.HeadersIgnoreExtraColumns | worker-node/src/main/java/com/maroctelecom/worker/processor/ContractProcessor.java:175-179 | extra columns never change the verdict and fewer than 17 columns always reject |
| ContractParsing.ReplaceCommas | worker-node/src/main/java/com/maroctelecom/worker/processor/ContractProcessor.java:305 | replacing commas keeps the length, leaves no comma, and changes nothing in comma-free text |
| ContractParsing.ParseContractType | worker-node/src/main/java/com/maroctelecom/worker/processor/ContractProcessor.java:289-298 | a type parses exactly when it is non-blank and its upper-case form names a constant |
| ContractParsing.ParseAmount | worker-node/src/main/java/com/maroctelecom/worker/processor/ContractProcessor.java:300-309 | an amount parses exactly when it is non-blank and the decimal grammar accepts it with commas read as points |
| ContractParsing.ParseDate | worker-node/src/main/java/com/maroctelecom/worker/processor/ContractProcessor.java:311-320 | a blank date is null; otherwise it parses exactly when the date grammar accepts it |
| ContractParsing.ParseContractStatus | worker-node/src/main/java/com/maroctelecom/worker/processor/ContractProcessor.java:322-331 | a status parses exactly when it is non-blank and its upper-case form names a constant |
| ContractParsing.ParseInteger | worker-node/src/main/java/com/maroctelecom/worker/processor/ContractProcessor.java:333-342 | a blank number is null; otherwise it parses exactly when `Integer.parseInt` accepts it |
| ContractParsing.ParseSalesChannel | worker-node/src/main/java/com/maroctelecom/worker/processor/ContractProcessor.java:344-353 | a blank channel is null; otherwise it parses exactly when its upper-case form names a constant |
| ContractParsing.ParseFields | worker-node/src/main/java/com/maroctelecom/worker/processor/ContractProcessor.java:214-238 | the builder chain succeeds exactly when every typed column parses |
| ContractParsing.ParseContract | worker-node/src/main/java/com/maroctelecom/worker/processor/ContractProcessor.java:208-239 | a short row throws "Ligne incomplète"; any other failure is a RuntimeException prefixed "Erreur de parsing ligne N: "; success happens exactly for well-formed rows, and its fields are the trimmed cells |
| ContractParsing.BlankTypeReportedFirst | worker-node/src/main/java/com/maroctelecom/worker/processor/ContractProcessor.java:219 | a blank type column is reported whatever the other columns hold |
| ContractParsing.BlankAmountReportedSecond | worker-node/src/main/java/com/maroctelecom/worker/processor/ContractProcessor.java:219-220 | a valid type with a blank amount reports the missing amount whatever comes later |
| ContractParsing.ParseRowOfRoundTrip | worker-node/src/main/java/com/maroctelecom/worker/processor/ContractProcessor.java:208-239 | writing a contract as a row and parsing it back gives the same contract, whenever the printers and the grammars agree |
| Processor.RowError | worker-node/src/main/java/com/maroctelecom/worker/processor/ContractProcessor.java:114-122 | a broken row's technical error reads "Erreur ligne N: message" and carries the line number and the comma-joined line |
| Processor.Classify | worker-node/src/main/java/com/maroctelecom/worker/processor/ContractProcessor.java:89-125 | a row fails exactly when it is not well formed; it is counted only when it parses to an acceptable contract, and skipped otherwise, carrying exactly the validator's non-empty error list for that contract at that line |
| Processor.CountType | worker-node/src/main/java/com/maroctelecom/worker/processor/ContractProcessor.java:252-261 | a type's statistics entry is created at count 1 or bumped by 1, and the other types' entries are untouched |
| Processor.Record | worker-node/src/main/java/com/maroctelecom/worker/processor/ContractProcessor.java:86-127 | every row adds 1 to the line count and to exactly one of successful, skipped and failed, and appends its errors |
| Processor.RecordKeepsConsistent | worker-node/src/main/java/com/maroctelecom/worker/processor/ContractProcessor.java:86-127 | one row keeps the loop invariants: lines = successful + failed + skipped, and no errors unless some row failed or was skipped |
| Processor.OutcomesBy | worker-node/src/main/java/com/maroctelecom/worker/processor/ContractProcessor.java:83-127 | the k-th row is classified with line number start + k |
| Processor.TallyIsConsistent | worker-node/src/main/java/com/maroctelecom/worker/processor/ContractProcessor.java:86-127 | the counters keep their invariants over any run of rows |
| Processor.TallySplit | worker-node/src/main/java/com/maroctelecom/worker/processor/ContractProcessor.java:86-127 | counting is additive over consecutive stretches of rows |
| Processor.AmountIsSumOfCounted | worker-node/src/main/java/com/maroctelecom/worker/processor/ContractProcessor.java:100 | the total amount is the sum of the counted contracts' amounts |
| Processor.ClientsAreThoseCounted | worker-node/src/main/java/com/maroctelecom/worker/processor/ContractProcessor.java:249 | the distinct clients are exactly those of the counted contracts |
| Processor.StatsCountEachType | worker-node/src/main/java/com/maroctelecom/worker/processor/ContractProcessor.java:252-261 | a type has an entry exactly when some counted contract has it, and its count is how many do |
| Processor.TypeCountsAddUp | worker-node/src/main/java/com/maroctelecom/worker/processor/ContractProcessor.java:252-261 | the per-type counts add up to the successful count |
| Processor.Window | worker-node/src/main/java/com/maroctelecom/worker/processor/ContractProcessor.java:80-86 | the rows read are those after the header and the skipped rows, up to the last line or the end of the file |
| Processor.WindowRowsAreTheirLines | worker-node/src/main/java/com/maroctelecom/worker/processor/ContractProcessor.java:80-86 | the row processed as line n is physical row n, the header being row 0 |
| Processor.AbortOf | worker-node/src/main/java/com/maroctelecom/worker/processor/ContractProcessor.java:65-86 | a partition aborts unless the file opens, its header is accepted, positioning succeeds, and the last line is known whenever a row is left |
| Processor.Aborted | worker-node/src/main/java/com/maroctelecom/worker/processor/ContractProcessor.java:155-167 | the caught exception gives a FAILED result whose summary is "Échec du traitement: " and the message, which is "null" for a null path |
| Processor.SuccessPercent | worker-node/src/main/java/com/maroctelecom/worker/processor/ContractProcessor.java:278 | the percentage is 0 for no lines, otherwise successful × 100 / lines |
| Processor.Completed | worker-node/src/main/java/com/maroctelecom/worker/processor/ContractProcessor.java:84-152 | a partition that positions itself completes: every line read is counted exactly once as successful, failed or skipped, errors are null exactly when none failed or were skipped and otherwise number at least one per failed or skipped row, and distinct clients never outnumber successful contracts |
| Processor.Process | worker-node/src/main/java/com/maroctelecom/worker/processor/ContractProcessor.java:45-169 | FAILED exactly when the partition aborts before a row is counted, with nothing counted; otherwise COMPLETED with successful + failed + skipped = lines read, null errors exactly when none failed or were skipped, at least one error per failed or skipped row, and at most one distinct client per counted contract |
| Processor.NullPathSummary | worker-node/src/main/java/com/maroctelecom/worker/processor/ContractProcessor.java:65 | a null file path fails the task with nothing counted and the summary "Échec du traitement: null" in every environment |
| Processor.BadHeadersFailTheTask | worker-node/src/main/java/com/maroctelecom/worker/processor/ContractProcessor.java:75-77 | a missing or rejected header fails the task with "Échec du traitement: En-têtes CSV invalides ou manquants" |
| Processor.PositioningBoundary | worker-node/src/main/java/com/maroctelecom/worker/processor/ContractProcessor.java:193-203 | fewer than start − 1 data rows fails with "Impossible de se positionner à la ligne start"; exactly that many completes with nothing read |
| Processor.CompletedLineCount | worker-node/src/main/java/com/maroctelecom/worker/processor/ContractProcessor.java:83-128 | a completed task reads end − start + 1 lines, or the rows left when the file is shorter |
| Processor.CompletedTotals | worker-node/src/main/java/com/maroctelecom/worker/processor/ContractProcessor.java:134-147 | the reported amount, distinct clients and per-type counts are those of the counted contracts, and the type counts add up to the successful count |
| Processor.SkipToStart | worker-node/src/main/java/com/maroctelecom/worker/processor/ContractProcessor.java:193-203 | skipping start − 1 rows succeeds exactly when that many rows follow the header |
| Processor.CountRows | worker-node/src/main/java/com/maroctelecom/worker/processor/ContractProcessor.java:82-131 | the loop fails on a null last line exactly when a row is left to read, and otherwise computes the counters of the window |
| Processor.ProcessPartition | worker-node/src/main/java/com/maroctelecom/worker/processor/ContractProcessor.java:45-169 | the imperative method computes what `Process` specifies |
| TaskListener.BlankIffNullOrEmptyTrimmed | worker-node/src/main/java/com/maroctelecom/worker/listener/PartitionTaskListener.java:130 | the null-or-empty-after-trim test is the blankness test |
| TaskListener.TaskRejection | worker-node/src/main/java/com/maroctelecom/worker/listener/PartitionTaskListener.java:125-152 | a task is rejected exactly when it is invalid, and a blank id or path is reported first |
| TaskListener.RangeChecks | worker-node/src/main/java/com/maroctelecom/worker/listener/PartitionTaskListener.java:138-149 | the start must be at least 1, the end at least the start, and a present timeout positive; a one-line range with a null timeout passes |
| TaskListener.ErrorResult | worker-node/src/main/java/com/maroctelecom/worker/listener/PartitionTaskListener.java:157-172 | an error result is FAILED with nothing counted, echoes the task and worker, and has summary "Erreur lors du traitement: " and the message |
| TaskListener.ErrorResultIsFailure | worker-node/src/main/java/com/maroctelecom/worker/listener/PartitionTaskListener.java:157-172 | an error result reads as failed, never successful, with a 0 success rate |
| TaskListener.WorkerId | worker-node/src/main/java/com/maroctelecom/worker/listener/PartitionTaskListener.java:191-197 | the worker id is name-host-port, the host being "localhost" when unset or blank |
| TaskListener.WorkerIdDistinguishesHosts | worker-node/src/main/java/com/maroctelecom/worker/listener/PartitionTaskListener.java:191-197 | for one name and port, distinct non-blank hosts give distinct ids |
| TaskListener.HandleTask | worker-node/src/main/java/com/maroctelecom/worker/listener/PartitionTaskListener.java:62-75 | a valid task gets the partition's result; an invalid one gets the error result with the wrapped failure message |
| TaskListener.RejectedTaskIsNotProcessed | worker-node/src/main/java/com/maroctelecom/worker/listener/PartitionTaskListener.java:93-120 | a rejected task's result does not depend on the file and counts nothing |
| TaskListener.ValidTaskFailsOnlyOnTheFile | worker-node/src/main/java/com/maroctelecom/worker/listener/PartitionTaskListener.java:97-101 | a valid task never fails on a null value; it fails exactly when the file is unreadable, its header is bad, or it has too few rows |
| Aggregator.NewAggregate | task-master/src/main/java/com/maroctelecom/taskmaster/listener/ResultListener.java:153-164 | a fresh aggregate starts with all five counters at 0 |
| Aggregator.AddTaskResult | task-master/src/main/java/com/maroctelecom/taskmaster/listener/ResultListener.java:166-177 | the task is counted once, its three counters are added, and its time only when present; a null counter throws after the earlier additions |
| Aggregator.AddingTwiceCountsTwice | task-master/src/main/java/com/maroctelecom/taskmaster/listener/ResultListener.java:166-177 | folding the same result twice doubles its contribution, so the fold is not idempotent |
| Aggregator.JobKey | task-master/src/main/java/com/maroctelecom/taskmaster/listener/ResultListener.java:124-128 | the job key is a 32-bit value |
| Aggregator.AggregateResult | task-master/src/main/java/com/maroctelecom/taskmaster/listener/ResultListener.java:76-92 | a null task id leaves the map unchanged; otherwise the map gains exactly the task's key |
| Aggregator.AggregateTouchesOnlyItsKey | task-master/src/main/java/com/maroctelecom/taskmaster/listener/ResultListener.java:80-84 | the first result for a key creates its aggregate, later ones reuse it, and the other keys are untouched |
| Aggregator.SameTaskSameAggregate | task-master/src/main/java/com/maroctelecom/taskmaster/listener/ResultListener.java:124-128 | results with the same task id always land in the same aggregate |
| Aggregator.DistinctTasksCanShareAnAggregate | task-master/src/main/java/com/maroctelecom/taskmaster/listener/ResultListener.java:127 | tasks "Aa" and "BB" share an aggregate |
| Aggregator.FoldCountsEveryResult | task-master/src/main/java/com/maroctelecom/taskmaster/listener/ResultListener.java:76-92 | after folding a stream, a key holds an aggregate exactly when some result landed on it, counting every such result and summing their successful, failed and skipped contracts |
| Aggregator.GetJobResults | task-master/src/main/java/com/maroctelecom/taskmaster/listener/ResultListener.java:133-135 | the lookup is null exactly for an absent key, and otherwise the stored aggregate |
| Aggregator.CleanupOldResults | task-master/src/main/java/com/maroctelecom/taskmaster/listener/ResultListener.java:140-142 | cleanup removes exactly the aggregates started before the cutoff and leaves the others untouched |
| Aggregator.CleanupIsIdempotent | task-master/src/main/java/com/maroctelecom/taskmaster/listener/ResultListener.java:140-142 | cleaning up twice with one cutoff removes nothing more |
| Aggregator.OverallSuccessRate | task-master/src/main/java/com/maroctelecom/taskmaster/listener/ResultListener.java:189-192 | the rate is 0 when nothing was counted, otherwise successful × 100 / total |
| Aggregator.OverallRateIsPercentage | task-master/src/main/java/com/maroctelecom/taskmaster/listener/ResultListener.java:189-192 | with non-negative counters the rate lies in [0, 100] |
| Aggregator.AveragePerTask | task-master/src/main/java/com/maroctelecom/taskmaster/listener/ResultListener.java:194-197 | the average is 0 with no tasks, otherwise total time / tasks |
| PartitionSender.KeyStartsWithJob | task-master/src/main/java/com/maroctelecom/taskmaster/service/KafkaPartitionSender.java:80-84 | the job id opens the key, followed by "-p" |
| PartitionSender.FormatIntegerInjective | task-master/src/main/java/com/maroctelecom/taskmaster/service/KafkaPartitionSender.java:83 | `%d` renders distinct boxed integers, null included, to distinct text |
| PartitionSender.KeysDistinguishPartitions | task-master/src/main/java/com/maroctelecom/taskmaster/service/KafkaPartitionSender.java:77-84 | within one job, two tasks share a key exactly when they share a partition id |
| ResultSender.ResultKeyIdentifiesTask | worker-node/src/main/java/com/maroctelecom/worker/service/ResultSender.java:80-84 | the key is "result-" followed by the task id, and two results share a key exactly when they share a task id |
| ResultSender.NullTaskIdCollides | worker-node/src/main/java/com/maroctelecom/worker/service/ResultSender.java:83 | a null task id is keyed like the id "null" |
| ResultSender.CriticalErrorResult | worker-node/src/main/java/com/maroctelecom/worker/service/ResultSender.java:107-117 | a critical error result is FAILED with all four counters 0, echoes task and worker, and its summary is "Erreur critique: " and the message |
| ResultSender.CriticalErrorIsFailure | worker-node/src/main/java/com/maroctelecom/worker/service/ResultSender.java:107-117 | a critical error reads as failed with a 0 success rate and is keyed by its task |

## Left out

- Kafka and the file system are not modelled. That covers sends and their callbacks, the listener entry points, acknowledgements and health probes, and opening and reading files. The partitioner is given the physical line count, and the processor is given the already-split CSV rows or the reason the file could not be opened.
- Concurrency is not modelled. The `ConcurrentHashMap`, the per-job `synchronized` block, the atomic counters and the asynchronous `supplyAsync` hand-off are replaced by a sequential fold.
- Clock reads are not modelled: timestamps, durations, `lastModified`, `lastUpdateTime` and `processingTimeMs` stamping. "Today" and the aggregator's "now" are parameters.
- Floating point is replaced by `real`. `totalAmount.doubleValue()`, the per-type totals and averages, and `getThroughput` are left out. The `%.2f` percentage in the summary is a parameter.
- The `BigDecimal` and `LocalDate.parse` text grammars are parameters. Stack frames, chosen by the thrown exception's class, and the JVM's messages for the two unboxing `NullPointerException`s are parameters too.
- `String.toUpperCase`, `equalsIgnoreCase` and `Character` digit classes are modelled for ASCII only. Java also folds non-ASCII letters and `Integer.parseInt` accepts non-ASCII digits.
- CSV quoting and escaping are left to the reader, which is not modelled. A cell is never null.
- 64-bit `long` overflow of the counters and of `endLine - startLine + 1` is not modelled; integers are unbounded.
- `FilePartitioner`'s job-parameter getters and `UUID.randomUUID` are not modelled. The path, name and job ids are inputs, and task ids come from a supplied function.
- A null task reaching `validateTask` is not modelled. The listener dereferences the task while logging before it validates, so that check is unreachable.
- `ResultSender.sendResultSync`, `sendCriticalError`'s send step, and `KafkaConfig` are left out, as are the application bootstraps.
- TaskResultModel.TypeStats: the source's `uniqueClients` per type is never updated and stays 0. The model keeps it at 0 and does not model per-type amounts.
- TaskResultModel.SuccessRate: requires a non-null successful count whenever the line total is non-zero. The source throws a `NullPointerException` there.
- Validator.CountCriticalErrors: requires every validation-typed error to name its field. `List.of(...).contains(null)` throws in the source, and `validate` always names the field.
- Processor.Record: treats a counted contract without a type or amount as adding nothing to the statistics or the total. `Classify` never produces one, and the source would throw.
- Processor.Process: does not state the summary text of a completed task, which depends on the `%.2f` rendering passed in.
- Processor.Process: reader failures after the header are not modelled. The rows arrive already split. In the source, a `CsvValidationException` rethrown at ContractProcessor.java:129-131, or an `IOException` from `readNext`, reaches the catch at :155-167. It then reports FAILED with the counters as they stood, possibly non-zero.
- Processor.Completed: assumes the reader never fails after the header, as under Processor.Process above.
- Partitioner.TimeoutSeconds: does not model the `(int)` cast of `lineCount / 100` or the `int` addition at FilePartitioner.java:149-151. The model agrees with the source only while `lineCount / 100 + 60` fits in 32 bits, that is below about 2.1e11 lines, since a partition that size is far beyond any real file.
- ErrorModel.ValidationError: keeps the offending value typed, as a decimal `real` or a day number, where the source stores its `toString()` text. The scale and exponent notation of a `BigDecimal` and the rendering of a `LocalDate` are therefore not modelled.
- Aggregator.JobKey: follows `String.hashCode` exactly. It is a placeholder key, so collisions between tasks are possible.
