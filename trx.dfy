/** The parts of a TRX test-result document that the rerun controller reads,
    and the selection of its failed records. */
module Trx {
  import opened Wrappers
  import Text

  /** One row of the document's unit-test results. */
  datatype UnitTestResult = UnitTestResult(testName: string, outcome: string)

  /** A file as listed in the results directory: its name, and what the TRX
      decoder makes of its content (`None` when decoding throws). */
  datatype FileEntry = FileEntry(name: string, document: Option<seq<UnitTestResult>>)

  /** The failures that escape the rerun controller unhandled. */
  datatype Error = DirectoryNotFound(path: string) | MalformedTrx(name: string)

  /** The outcome text that marks a failed test. */
  const FailedOutcome := "Failed"

  /** Decodes a result file; a malformed file raises an error. */
  function Deserialize(file: FileEntry): Result<seq<UnitTestResult>, Error>
  {
    match file.document
    case Some(results) => Success(results)
    case None => Failure(MalformedTrx(file.name))
  }

  /** A record counts as failed when its outcome equals "Failed" ignoring case. */
  predicate IsFailed(t: UnitTestResult)
  {
    Text.EqualsIgnoreCase(t.outcome, FailedOutcome)
  }

  /** The failed records, in their original order. */
  function FailedTests(results: seq<UnitTestResult>): seq<UnitTestResult>
  {
    if results == [] then []
    else (if IsFailed(results[0]) then [results[0]] else []) + FailedTests(results[1..])
  }

  /** A record is selected exactly when it is present and failed. */
  lemma {:induction false} FailedTestsMembers(results: seq<UnitTestResult>, t: UnitTestResult)
    ensures t in FailedTests(results) <==> t in results && IsFailed(t)
  {
    if results != [] {
      FailedTestsMembers(results[1..], t);
      assert results == [results[0]] + results[1..];
    }
  }

  /** Each record occurs in the selection as often as it occurs in the
      document when it is failed, and not at all otherwise: with N failed and
      M other records the selection has exactly N entries. */
  lemma {:induction false} FailedTestsCount(results: seq<UnitTestResult>, t: UnitTestResult)
    ensures multiset(FailedTests(results))[t] == if IsFailed(t) then multiset(results)[t] else 0
  {
    if results != [] {
      FailedTestsCount(results[1..], t);
      assert results == [results[0]] + results[1..];
    }
  }

  /** Selection keeps the order of the document: it distributes over concatenation. */
  lemma {:induction false} FailedTestsAppend(a: seq<UnitTestResult>, b: seq<UnitTestResult>)
    ensures FailedTests(a + b) == FailedTests(a) + FailedTests(b)
  {
    if a == [] {
      assert a + b == b;
    } else {
      assert (a + b)[0] == a[0];
      assert (a + b)[1..] == a[1..] + b;
      FailedTestsAppend(a[1..], b);
    }
  }

  /** A record that is not failed, wherever it is inserted, changes nothing. */
  lemma FailedTestsSkipsOthers(a: seq<UnitTestResult>, t: UnitTestResult, b: seq<UnitTestResult>)
    requires !IsFailed(t)
    ensures FailedTests(a + [t] + b) == FailedTests(a + b)
  {
    FailedTestsAppend(a + [t], b);
    FailedTestsAppend(a, [t]);
    FailedTestsAppend(a, b);
  }

  /** The selection is empty exactly when no record is failed. */
  lemma {:induction false} FailedTestsEmpty(results: seq<UnitTestResult>)
    ensures FailedTests(results) == [] <==> forall i :: 0 <= i < |results| ==> !IsFailed(results[i])
  {
    if results != [] {
      FailedTestsEmpty(results[1..]);
      assert forall i :: 1 <= i < |results| ==> results[i] == results[1..][i - 1];
    }
  }
}
