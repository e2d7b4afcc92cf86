/** The test filter the rerun controller derives from a result file: one
    `FullyQualifiedName~<name>` clause per failed record, joined by " | ". */
module FailureFilter {
  import opened Wrappers
  import opened Trx

  const ClausePrefix := "FullyQualifiedName~"
  const Separator := " | "

  /** The clause that selects one test by name. */
  function Clause(name: string): string
  {
    ClausePrefix + name
  }

  /** `parts` in order, with `sep` between neighbours and nowhere else. */
  function Join(parts: seq<string>, sep: string): string
    decreases |parts|
  {
    if |parts| == 0 then ""
    else if |parts| == 1 then parts[0]
    else Join(parts[..|parts| - 1], sep) + sep + parts[|parts| - 1]
  }

  /** `n` copies of `part`, with `sep` between neighbours and nowhere else. */
  function JoinCopies(part: string, sep: string, n: nat): string
  {
    if n == 0 then ""
    else if n == 1 then part
    else JoinCopies(part, sep, n - 1) + (sep + part)
  }

  /** The filter as the program builds it from the selected failed records:
      every clause names the FIRST selected test, once per selected record. */
  function FilterFor(tests: seq<UnitTestResult>): string
  {
    if tests == [] then "" else JoinCopies(Clause(tests[0].testName), Separator, |tests|)
  }

  /** The filter for a decoded document: empty when nothing failed. */
  function FailedTestsFilter(results: seq<UnitTestResult>): string
  {
    FilterFor(FailedTests(results))
  }

  /** The filter for the result file chosen after a run, or the error that
      decoding it raises; no file gives the empty filter. */
  function FailedTestsFilterOf(trxFile: Option<FileEntry>): Result<string, Error>
  {
    match trxFile
    case None => Success("")
    case Some(file) =>
      match Deserialize(file)
      case Failure(e) => Failure(e)
      case Success(results) => Success(FailedTestsFilter(results))
  }

  /** The filter that names each failed record's own test, one clause per
      record. Kept as a reference to compare the program against. */
  function IntendedFilter(tests: seq<UnitTestResult>): string
  {
    Join(seq(|tests|, i requires 0 <= i < |tests| => Clause(tests[i].testName)), Separator)
  }

  /** Joining parts that are all the same string is joining copies of it. */
  lemma {:induction false} JoinOfCopies(parts: seq<string>, part: string, sep: string)
    requires forall i :: 0 <= i < |parts| ==> parts[i] == part
    ensures Join(parts, sep) == JoinCopies(part, sep, |parts|)
    decreases |parts|
  {
    if |parts| >= 2 {
      var front := parts[..|parts| - 1];
      JoinOfCopies(front, part, sep);
      assert Join(parts, sep) == Join(front, sep) + sep + part;
    }
  }

  /** The filter after the first `i` of `n` passes of the loop that builds it
      from `clause`: the first `i` clauses, followed by a separator unless the
      last clause has been written. */
  ghost function PartialFilter(clause: string, i: nat, n: nat): string
  {
    if i == 0 then "" else JoinCopies(clause, Separator, i) + (if i < n then Separator else "")
  }

  /** Pass `i` of that loop appends the clause and, unless it is the last
      pass, a separator. */
  lemma PartialFilterStep(clause: string, i: nat, n: nat)
    requires i < n
    ensures PartialFilter(clause, i, n) + clause + (if n - 1 != i then Separator else "")
         == PartialFilter(clause, i + 1, n)
  {
    var tail := if n - 1 != i then Separator else "";
    if i == 0 {
      assert "" + clause + tail == clause + tail;
    } else {
      var front := JoinCopies(clause, Separator, i);
      assert PartialFilter(clause, i, n) == front + Separator;
      assert front + Separator + clause + tail == front + (Separator + clause) + tail;
    }
  }

  /** Where slot `k` of a join begins when every part is `width` long and
      every separator `gap` long. */
  function SlotStart(width: nat, gap: nat, k: nat): nat
  {
    if k == 0 then 0 else SlotStart(width, gap, k - 1) + width + gap
  }

  /** Slot `k` of `f` holds `part`. */
  ghost predicate PartAt(f: string, part: string, sep: string, k: nat)
  {
    var s := SlotStart(|part|, |sep|, k);
    s + |part| <= |f| && f[s .. s + |part|] == part
  }

  /** Right after the part in slot `k` of `f` comes `sep`. */
  ghost predicate SepAfter(f: string, part: string, sep: string, k: nat)
  {
    var s := SlotStart(|part|, |sep|, k) + |part|;
    s + |sep| <= |f| && f[s .. s + |sep|] == sep
  }

  /** Extending a string keeps what its existing slots hold. */
  lemma SlotsSurviveExtension(prev: string, rest: string, part: string, sep: string, k: nat)
    ensures PartAt(prev, part, sep, k) ==> PartAt(prev + rest, part, sep, k)
    ensures SepAfter(prev, part, sep, k) ==> SepAfter(prev + rest, part, sep, k)
  {
    var f := prev + rest;
    var s := SlotStart(|part|, |sep|, k);
    if s + |part| <= |prev| {
      assert f[s .. s + |part|] == prev[s .. s + |part|];
    }
    if s + |part| + |sep| <= |prev| {
      assert f[s + |part| .. s + |part| + |sep|] == prev[s + |part| .. s + |part| + |sep|];
    }
  }

  /** Appending a separator and a part to a string whose slots end at slot
      `m - 1` fills slot `m` and puts the separator after slot `m - 1`. */
  lemma AppendedSlot(prev: string, part: string, sep: string, m: nat)
    requires m >= 1 && |prev| == SlotStart(|part|, |sep|, m - 1) + |part|
    ensures PartAt(prev + (sep + part), part, sep, m)
    ensures SepAfter(prev + (sep + part), part, sep, m - 1)
    ensures |prev + (sep + part)| == SlotStart(|part|, |sep|, m) + |part|
  {
    var tail := sep + part;
    var f := prev + tail;
    var s := SlotStart(|part|, |sep|, m);
    assert s == |prev| + |sep|;
    assert f[|prev|..] == tail;
    assert tail[|sep|..] == part && tail[..|sep|] == sep;
    assert f[s .. s + |part|] == tail[|sep|..];
    assert f[|prev| .. |prev| + |sep|] == tail[..|sep|];
  }

  /** Layout of `n >= 1` copies of `part` joined by `sep`: exactly `n` copies,
      a separator after each but the last, and nothing else (the length ends
      where the last copy ends, so no separator trails). */
  lemma {:induction false} JoinCopiesLayout(part: string, sep: string, n: nat)
    requires n >= 1
    ensures |JoinCopies(part, sep, n)| == SlotStart(|part|, |sep|, n - 1) + |part|
    ensures forall k :: 0 <= k < n ==> PartAt(JoinCopies(part, sep, n), part, sep, k)
    ensures forall k :: 0 <= k < n - 1 ==> SepAfter(JoinCopies(part, sep, n), part, sep, k)
  {
    if n == 1 {
      assert PartAt(JoinCopies(part, sep, 1), part, sep, 0);
    } else {
      JoinCopiesLayout(part, sep, n - 1);
      var prev := JoinCopies(part, sep, n - 1);
      AppendedSlot(prev, part, sep, n - 1);
      forall k | 0 <= k < n - 1
        ensures PartAt(prev + (sep + part), part, sep, k)
        ensures k < n - 2 ==> SepAfter(prev + (sep + part), part, sep, k)
      {
        SlotsSurviveExtension(prev, sep + part, part, sep, k);
      }
    }
  }

  /** A join of `n >= 1` clauses is never empty. */
  lemma JoinCopiesNonEmpty(name: string, n: nat)
    requires n >= 1
    ensures JoinCopies(Clause(name), Separator, n) != ""
  {
    JoinCopiesLayout(Clause(name), Separator, n);
    assert |Clause(name)| >= |ClausePrefix|;
  }

  /** The filter is empty exactly when no record of the document is failed,
      so a rerun is requested exactly when there are failures. */
  lemma FailedTestsFilterEmpty(results: seq<UnitTestResult>)
    ensures FailedTestsFilter(results) == "" <==> forall i :: 0 <= i < |results| ==> !IsFailed(results[i])
  {
    FailedTestsEmpty(results);
    var tests := FailedTests(results);
    if tests != [] {
      JoinCopiesNonEmpty(tests[0].testName, |tests|);
    }
  }

  /** The filter depends only on how many records failed and on the name of
      the first of them: two documents that agree on these give the same filter,
      whatever their passed or other records. */
  lemma FailedTestsFilterDependence(a: seq<UnitTestResult>, b: seq<UnitTestResult>)
    requires |FailedTests(a)| == |FailedTests(b)|
    requires FailedTests(a) != [] ==> FailedTests(a)[0].testName == FailedTests(b)[0].testName
    ensures FailedTestsFilter(a) == FailedTestsFilter(b)
  {
  }

  /** With `n >= 1` failed records the filter is `n` copies of the first failed
      test's clause, with " | " after every copy but the last and nothing else. */
  lemma FailedTestsFilterLayout(results: seq<UnitTestResult>)
    requires FailedTests(results) != []
    ensures var tests := FailedTests(results);
            var f := FailedTestsFilter(results);
            var c := Clause(tests[0].testName);
            |f| == SlotStart(|c|, |Separator|, |tests| - 1) + |c|
            && (forall k :: 0 <= k < |tests| ==> PartAt(f, c, Separator, k))
            && (forall k :: 0 <= k < |tests| - 1 ==> SepAfter(f, c, Separator, k))
  {
    var tests := FailedTests(results);
    JoinCopiesLayout(Clause(tests[0].testName), Separator, |tests|);
  }

  /** As written, the filter repeats the first failed name: with failed records
      named A then B it selects A twice and never B, unlike the reference. */
  lemma FilterRepeatsFirstName()
    ensures var tests := [UnitTestResult("A", "Failed"), UnitTestResult("B", "failed")];
            FailedTests(tests) == tests
            && FailedTestsFilter(tests) == Clause("A") + Separator + Clause("A")
            && IntendedFilter(tests) == Clause("A") + Separator + Clause("B")
            && FailedTestsFilter(tests) != IntendedFilter(tests)
  {
    var tests := [UnitTestResult("A", "Failed"), UnitTestResult("B", "failed")];
    assert IsFailed(tests[0]) && IsFailed(tests[1]);
    assert FailedTests(tests[1..]) == [tests[1]];
    assert FailedTests(tests) == tests;
    assert JoinCopies(Clause("A"), Separator, 2) == Clause("A") + (Separator + Clause("A"));
    var intended := seq(2, i requires 0 <= i < 2 => Clause(tests[i].testName));
    assert intended[..1] == [Clause("A")];
    assert intended[1] == Clause("B");
    assert Join(intended[..1], Separator) == Clause("A");
    assert IntendedFilter(tests) == Join(intended, Separator) == Clause("A") + Separator + Clause("B");
    var w := Clause("A") + Separator + Clause("A");
    var v := Clause("A") + Separator + Clause("B");
    assert w[|w| - 1] == 'A' && v[|v| - 1] == 'B';
  }

  /** When every selected record carries the first one's name, the program's
      filter and the reference filter agree. */
  lemma FilterMatchesIntendedForOneName(tests: seq<UnitTestResult>)
    requires tests != []
    requires forall i :: 0 <= i < |tests| ==> tests[i].testName == tests[0].testName
    ensures FilterFor(tests) == IntendedFilter(tests)
  {
    var clauses := seq(|tests|, i requires 0 <= i < |tests| => Clause(tests[i].testName));
    JoinOfCopies(clauses, Clause(tests[0].testName), Separator);
  }
}
