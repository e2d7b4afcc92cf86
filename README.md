# dotnet-test-rerun: the rerun controller, modelled in Dafny

`dotnet-test-rerun` runs `dotnet test` on a compiled test assembly. After the
first run it reads the newest TRX result file, and while it still has attempts
left it runs the tests again whenever that file reports failed tests. This
project models that controller, `RerunCommand` in `src/Rerun.cs`, and proves
what it does:

- `Rerun.RerunCommand.Run` is the loop. It makes one baseline run, then loops
  while `attempt < RerunMaxAttempts`. On each pass it picks the latest `*.trx`
  file, derives a filter, and either reruns and increments `attempt` or jumps
  `attempt` to the maximum.
- `Rerun.RerunCommand.GetFailedTestsFilter` builds the filter string clause by
  clause. It is proved equal to the function `FailureFilter.FailedTestsFilterOf`.
- `ResultFiles.LatestTrx` is the choice of the latest `*.trx` file by name.
- `Trx.FailedTests` is the case-insensitive selection of records whose outcome
  is `Failed`.

The external pieces become values:
- The test executor is the class `Rerun.Dotnet`. It records each call's
  arguments in `trace`.
- The file system is the value `Rerun.FileSystem`. It holds two functions. One
  resolves a path to its full name. The other gives a directory's listing after
  a given history of executor calls, or says that the directory is missing.
- The TRX decoder is a field of each listed file, `FileEntry.document`. It holds
  the decoded records, or `None` when decoding throws.

Each method is proved against a specification function: `Run` against
`Rerun.RerunSpec`, and `GetFailedTestsFilter` against
`FailureFilter.FailedTestsFilterOf`. The properties are lemmas about those
functions.

The code departs from its evident intent in places, and the model follows the
code:
- Every clause of the filter names the first failed test
  (`tests[0].TestName`, `src/Rerun.cs:77`), not its own record's test. So
  three failures t1, t2, t3 give `FullyQualifiedName~t1` three times, not a
  filter that names t1, t2 and t3. `FailureFilter.IntendedFilter` is the
  filter that names each failed record's own test. It serves only as a
  reference to compare against.
- Every rerun passes the configured filter (`config.Filter`, line 47), not the
  derived failure filter. The derived filter only decides whether a rerun
  happens.
- The code gives no separate signal when it gives up. A run that used every
  attempt and a run that stopped because nothing failed both end with
  `Completed`. They can be told apart by the number of calls, as
  `Rerun.LoopReasons` states.

## Model

| member | source | states |
|---|---|---|
| `Trx.FailedTestsMembers` | src/Rerun.cs:67 | a record is selected if and only if it is in the document and its outcome equals "Failed" ignoring case |
| `Trx.FailedTestsCount` | src/Rerun.cs:67 | each record occurs in the selection as often as in the document when failed and never otherwise, so N failed and M other records give exactly N selected |
| `Trx.FailedTestsAppend` | src/Rerun.cs:67 | selection keeps document order: it distributes over concatenation |
| `Trx.FailedTestsSkipsOthers` | src/Rerun.cs:67 | inserting a record that is not failed anywhere in the document leaves the selection unchanged |
| `Trx.FailedTestsEmpty` | src/Rerun.cs:67-69 | the selection is empty if and only if no record's outcome is "Failed" ignoring case |
| `Text.OrdinalTotal` | src/Rerun.cs:42 | any two file names are ordered one way or the other by the name order used to sort result files |
| `Text.OrdinalTransitive` | src/Rerun.cs:42 | the name order is transitive |
| `Text.OrdinalAntisymmetric` | src/Rerun.cs:42 | two names that sort at or before each other are equal |
| `ResultFiles.LatestTrxIsMaximum` | src/Rerun.cs:42 | the chosen file is a listed `*.trx` file whose name no other listed `*.trx` name sorts after, and there is none if and only if no listed file matches `*.trx` |
| `ResultFiles.LatestTrxExamples` | src/Rerun.cs:42 | among a.trx, c.trx, b.trx the file c.trx is chosen; a listing without `*.trx` files, or an empty one, gives none |
| `FailureFilter.PartialFilterStep` | src/Rerun.cs:75-78 | each pass of the building loop appends the clause and, on every pass but the last, " \| ", so after pass i the string is the first i clauses followed by a separator unless all are written |
| `FailureFilter.JoinOfCopies` | src/Rerun.cs:75-78 | joining a sequence whose parts are all one clause gives the same string as joining that many copies of it |
| `FailureFilter.JoinCopiesLayout` | src/Rerun.cs:75-78 | n >= 1 copies of a clause joined by a separator consist of exactly n copies, each but the last followed by the separator, and end where the last copy ends |
| `FailureFilter.JoinCopiesNonEmpty` | src/Rerun.cs:75-78 | a filter built from at least one clause is never empty |
| `FailureFilter.FailedTestsFilterEmpty` | src/Rerun.cs:60-82 | the filter is empty if and only if no record of the document is failed |
| `FailureFilter.FailedTestsFilterDependence` | src/Rerun.cs:67-78 | two documents with the same number of failed records and the same first failed name give the same filter, whatever else they contain |
| `FailureFilter.FailedTestsFilterLayout` | src/Rerun.cs:75-78 | with n >= 1 failed records the filter is n copies of `FullyQualifiedName~` plus the first failed name, with " \| " after every copy but the last and nothing else |
| `FailureFilter.FilterRepeatsFirstName` | src/Rerun.cs:77 | failed records A then B give `FullyQualifiedName~A \| FullyQualifiedName~A`, which differs from the per-record filter naming A then B |
| `FailureFilter.FilterMatchesIntendedForOneName` | src/Rerun.cs:77 | when all failed records share the first one's name, the filter equals the per-record filter |
| `Rerun.Dotnet.Run` | src/Rerun.cs:34 | an executor call appends its arguments to the trace and changes nothing else |
| `Rerun.RerunCommand.constructor` | src/Rerun.cs:15-20 | the command keeps the configuration, executor and file system it is given |
| `Rerun.RerunCommand.GetFailedTestsFilter` | src/Rerun.cs:58-83 | the filter built clause by clause in the loop equals the filter function: empty for no file or no failures, the decoding error for a malformed file |
| `Rerun.RerunCommand.Run` | src/Rerun.cs:32-56 | the executor calls made and the way the run ends are exactly those of the loop specification, from the calls made before it |
| `Rerun.LoopTrace` | src/Rerun.cs:39-55 | the loop only appends calls, each a rerun of the target's full name with the configured arguments, at most one per attempt left |
| `Rerun.RerunCalls` | src/Rerun.cs:34-55 | the baseline call with the configured path and filter comes first and once; every later call is a rerun; all reuse the configured filter, settings, logger and results directory; there are between 1 and max(1, RerunMaxAttempts) calls |
| `Rerun.SingleCallWhenNoReruns` | src/Rerun.cs:34-40 | with RerunMaxAttempts <= 1 the baseline call is the only one and the run completes |
| `Rerun.LoopReasons` | src/Rerun.cs:39-55 | every rerun follows a non-empty filter derived after the calls before it; an aborted run stopped at the error of its last inspection with attempts left; a completed run with attempts left stopped at an empty filter |
| `Rerun.RerunStopsWhenNothingFailed` | src/Rerun.cs:42-53 | a completed run that did not use every attempt last found the results directory present and its latest `*.trx` file absent or free of failed records |
| `Rerun.CleanBaselineRunsOnce` | src/Rerun.cs:39-53 | when the first inspection finds nothing to rerun, the baseline call is the only one and the run completes |
| `Rerun.PersistentFailuresLoop` | src/Rerun.cs:39-49 | when every inspection finds failures, the loop makes one rerun per attempt left and completes |
| `Rerun.PersistentFailuresThreeCalls` | src/Rerun.cs:39-49 | with RerunMaxAttempts = 3 and failures that persist there are exactly three calls, the baseline and two reruns |

## Left out

- `RerunCommandConfiguration` (`src/Rerun.cs:86-161`) and the `SetHandler` wiring (lines 23-29) are command-line parsing. They become the immutable value `Rerun.Configuration`.
- Logging (lines 46, 52, 71, 79) does not affect control flow and is not modelled. This includes the `Logger` passed to the command.
- The external `dotnet test` process is not modelled. Each call is only a trace entry.
- The result files it writes are not derived from anything. The directory listing after each history of calls is a given function.
- `TrxDeserializer.Deserialize` is an external XML parser and is not part of this model. Its result is given per file. Every exception it raises becomes one error, `MalformedTrx`. That includes a document with no results section.
- `IFileSystem` and `dll.FullName` (lines 36-37, 47) are not modelled beyond what the loop uses. The full-name resolution is a given function.
- A missing results directory becomes the `DirectoryNotFound` error. It is raised where the files are enumerated (line 42), so only when a rerun is possible.
- `Trx.IsFailed`: case is folded for ASCII letters only. The invariant-culture comparison of line 67 also folds other letters. Outcomes that differ only in non-ASCII letters are not covered. Characters that the comparison ignores, such as the soft hyphen U+00AD, are not modelled either: `Fai\u00ADled` counts as failed in the C# code, while the model requires equal lengths and rejects it.
- `Text.OrdinalLessEq`: result files are ordered by code point. The culture-aware default comparer behind `OrderBy` (line 42) can order some names differently.
- `ResultFiles.IsTrx`: the `*.trx` pattern is a check that the name ends in `.trx`. On Windows the pattern also ignores case, so `RUN.TRX` is enumerated, and a legacy quirk also matches longer extensions starting with `trx`. Neither is modelled.
- A `null` outcome, which throws a NullReferenceException at `t.Outcome.Equals` (line 67), is not modelled: strings here are values. A `null` test name does not throw: interpolation at line 77 gives the clause `FullyQualifiedName~`, which the model produces for an empty test name.
- `attempt` and `RerunMaxAttempts` are unbounded integers. The loop increments `attempt` only while it is below `RerunMaxAttempts`, so the source's 32-bit counter cannot overflow and nothing is lost.
