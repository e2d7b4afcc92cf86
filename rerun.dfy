/** The rerun controller: one baseline run of the test executor, then, while
    attempts remain, inspect the latest result file and run again when it
    shows failed tests. */
module Rerun {
  import opened Wrappers
  import opened Trx
  import opened FailureFilter
  import opened ResultFiles

  /** The parsed command line, fixed before the controller starts. */
  datatype Configuration = Configuration(
    path: string,
    filter: string,
    settings: string,
    logger: string,
    resultsDirectory: string,
    rerunMaxAttempts: int)

  /** The arguments of one call of the external test executor. */
  datatype Invocation = Invocation(
    path: string,
    filter: string,
    settings: string,
    logger: string,
    resultsDirectory: string)

  /** What the controller observes through the file system: how a path
      resolves to a full name, and the content of a directory after a given
      history of executor calls (the executor writes its result files there). */
  datatype FileSystem = FileSystem(
    fullName: string -> string,
    listing: (string, seq<Invocation>) -> Directory)

  /** A directory listing, or the fact that the directory does not exist. */
  datatype Directory = Missing | Present(files: seq<FileEntry>)

  /** How a run of the controller ends: normally, or by an escaping error. */
  datatype Outcome = Completed | Aborted(error: Error)

  /** The executor calls a run made and how it ended. */
  datatype Execution = Execution(trace: seq<Invocation>, outcome: Outcome)

  /** The external test executor; each call is recorded, in order. */
  class Dotnet {
    var trace: seq<Invocation>

    constructor ()
      ensures trace == []
    {
      trace := [];
    }

    method Run(path: string, filter: string, settings: string, logger: string, resultsDirectory: string)
      modifies this
      ensures trace == old(trace) + [Invocation(path, filter, settings, logger, resultsDirectory)]
    {
      trace := trace + [Invocation(path, filter, settings, logger, resultsDirectory)];
    }
  }

  /** The baseline call: the configured target and filter. */
  function Baseline(config: Configuration): Invocation
  {
    Invocation(config.path, config.filter, config.settings, config.logger, config.resultsDirectory)
  }

  /** Every later call: the target's full name and, again, the configured filter. */
  function Rerun(config: Configuration, fs: FileSystem): Invocation
  {
    Invocation(fs.fullName(config.path), config.filter, config.settings, config.logger, config.resultsDirectory)
  }

  /** The filter one loop iteration derives after the calls in `trace`, or the
      error it raises. */
  function Evaluate(config: Configuration, fs: FileSystem, trace: seq<Invocation>): Result<string, Error>
  {
    match fs.listing(config.resultsDirectory, trace)
    case Missing => Failure(DirectoryNotFound(config.resultsDirectory))
    case Present(files) => FailedTestsFilterOf(LatestTrx(files))
  }

  /** The loop from attempt number `attempt` on, after the calls in `trace`. */
  function RerunLoop(config: Configuration, fs: FileSystem, trace: seq<Invocation>, attempt: int): Execution
    decreases config.rerunMaxAttempts - attempt
  {
    if attempt >= config.rerunMaxAttempts then Execution(trace, Completed)
    else
      match Evaluate(config, fs, trace)
      case Failure(e) => Execution(trace, Aborted(e))
      case Success(testsToRun) =>
        if testsToRun != "" then RerunLoop(config, fs, trace + [Rerun(config, fs)], attempt + 1)
        else Execution(trace, Completed)
  }

  /** A whole run of the controller, after the executor calls in `before`. */
  function RerunSpec(config: Configuration, fs: FileSystem, before: seq<Invocation>): Execution
  {
    RerunLoop(config, fs, before + [Baseline(config)], 1)
  }

  /** The attempts left when the loop is at attempt number `attempt`. */
  function AttemptsLeft(config: Configuration, attempt: int): nat
  {
    if attempt < config.rerunMaxAttempts then config.rerunMaxAttempts - attempt else 0
  }

  /** The loop only appends calls, each a rerun with the configured filter,
      at most one per attempt left. */
  lemma {:induction false} LoopTrace(config: Configuration, fs: FileSystem, trace: seq<Invocation>, attempt: int)
    ensures var r := RerunLoop(config, fs, trace, attempt);
            |trace| <= |r.trace| <= |trace| + AttemptsLeft(config, attempt)
            && r.trace[..|trace|] == trace
            && forall j :: |trace| <= j < |r.trace| ==> r.trace[j] == Rerun(config, fs)
    decreases config.rerunMaxAttempts - attempt
  {
    if attempt < config.rerunMaxAttempts {
      var e := Evaluate(config, fs, trace);
      if e.Success? && e.value != "" {
        var next := trace + [Rerun(config, fs)];
        LoopTrace(config, fs, next, attempt + 1);
        var r := RerunLoop(config, fs, next, attempt + 1);
        assert r.trace[..|next|][..|trace|] == r.trace[..|trace|];
      }
    }
  }

  /** A run makes the baseline call first, exactly once, with the configured
      target and filter; every later call reruns the target's full name with
      the same filter, settings, logger and results directory; and there are
      between 1 and max(1, RerunMaxAttempts) calls. */
  lemma RerunCalls(config: Configuration, fs: FileSystem, before: seq<Invocation>)
    ensures |before| < |RerunSpec(config, fs, before).trace|
    ensures var r := RerunSpec(config, fs, before);
            var calls := r.trace[|before|..];
            r.trace[..|before|] == before
            && calls[0] == Baseline(config)
            && 1 <= |calls| <= (if config.rerunMaxAttempts > 1 then config.rerunMaxAttempts else 1)
            && (forall j :: 1 <= j < |calls| ==> calls[j] == Rerun(config, fs))
            && (forall j :: 0 <= j < |calls| ==>
                  calls[j].filter == config.filter && calls[j].settings == config.settings
                  && calls[j].logger == config.logger && calls[j].resultsDirectory == config.resultsDirectory)
  {
    var start := before + [Baseline(config)];
    LoopTrace(config, fs, start, 1);
    var r := RerunSpec(config, fs, before);
    assert r.trace[..|start|] == start;
    assert r.trace[..|before|] == start[..|before|] == before;
    assert r.trace[|before|] == start[|before|];
  }

  /** With RerunMaxAttempts at most 1 the baseline call is the only one and
      the result directory is never inspected. */
  lemma SingleCallWhenNoReruns(config: Configuration, fs: FileSystem, before: seq<Invocation>)
    requires config.rerunMaxAttempts <= 1
    ensures RerunSpec(config, fs, before) == Execution(before + [Baseline(config)], Completed)
  {
  }

  /** Why the loop made each call and why it stopped: each rerun followed a
      non-empty filter computed from the calls before it; an aborted run stopped at the error the last
      inspection raised; a completed run that had attempts left stopped at an
      empty filter. A completed run that used every attempt gave up. */
  lemma {:induction false} LoopReasons(config: Configuration, fs: FileSystem, trace: seq<Invocation>, attempt: int)
    requires attempt >= 1
    ensures var r := RerunLoop(config, fs, trace, attempt);
            var reruns := |r.trace| - |trace|;
            reruns >= 0
            && (forall j :: |trace| <= j < |r.trace| ==>
                  Evaluate(config, fs, r.trace[..j]).Success? && Evaluate(config, fs, r.trace[..j]).value != "")
            && (r.outcome.Aborted? ==>
                  attempt + reruns < config.rerunMaxAttempts && Evaluate(config, fs, r.trace) == Failure(r.outcome.error))
            && (r.outcome.Completed? && attempt + reruns < config.rerunMaxAttempts ==>
                  Evaluate(config, fs, r.trace) == Success(""))
    decreases config.rerunMaxAttempts - attempt
  {
    if attempt < config.rerunMaxAttempts {
      var e := Evaluate(config, fs, trace);
      if e.Success? && e.value != "" {
        var next := trace + [Rerun(config, fs)];
        LoopReasons(config, fs, next, attempt + 1);
        LoopTrace(config, fs, next, attempt + 1);
        var r := RerunLoop(config, fs, next, attempt + 1);
        assert r.trace[..|trace|] == r.trace[..|next|][..|trace|] == trace;
      }
    }
  }

  /** A run stops early exactly when an inspection finds nothing to rerun: the
      last inspection of a completed run that did not use every attempt found
      a results directory whose latest result file is absent or has no failed
      record. */
  lemma RerunStopsWhenNothingFailed(config: Configuration, fs: FileSystem, before: seq<Invocation>)
    requires var r := RerunSpec(config, fs, before);
             r.outcome.Completed? && |r.trace| - |before| < config.rerunMaxAttempts
    ensures var r := RerunSpec(config, fs, before);
            fs.listing(config.resultsDirectory, r.trace).Present?
            && var latest := LatestTrx(fs.listing(config.resultsDirectory, r.trace).files);
               latest.None? || (latest.value.document.Some? &&
                 forall i :: 0 <= i < |latest.value.document.value| ==> !IsFailed(latest.value.document.value[i]))
  {
    var start := before + [Baseline(config)];
    LoopReasons(config, fs, start, 1);
    var r := RerunSpec(config, fs, before);
    var dir := fs.listing(config.resultsDirectory, r.trace);
    if dir.Present? {
      var latest := LatestTrx(dir.files);
      if latest.Some? && latest.value.document.Some? {
        FailedTestsFilterEmpty(latest.value.document.value);
      }
    }
  }

  /** When the first inspection finds nothing failed, the baseline call is
      the only one and the run completes. */
  lemma CleanBaselineRunsOnce(config: Configuration, fs: FileSystem, before: seq<Invocation>)
    requires config.rerunMaxAttempts > 1
    requires Evaluate(config, fs, before + [Baseline(config)]) == Success("")
    ensures RerunSpec(config, fs, before) == Execution(before + [Baseline(config)], Completed)
  {
  }

  /** An inspection that always finds failures. */
  ghost predicate AlwaysFailing(config: Configuration, fs: FileSystem)
  {
    forall trace :: Evaluate(config, fs, trace).Success? && Evaluate(config, fs, trace).value != ""
  }

  /** With failures that persist the loop uses every attempt: the calls are
      the baseline and `RerunMaxAttempts - attempt` reruns, and it completes. */
  lemma {:induction false} PersistentFailuresLoop(config: Configuration, fs: FileSystem, trace: seq<Invocation>, attempt: int)
    requires AlwaysFailing(config, fs)
    ensures RerunLoop(config, fs, trace, attempt)
         == Execution(trace + seq(AttemptsLeft(config, attempt), _ => Rerun(config, fs)), Completed)
    decreases config.rerunMaxAttempts - attempt
  {
    if attempt < config.rerunMaxAttempts {
      var next := trace + [Rerun(config, fs)];
      PersistentFailuresLoop(config, fs, next, attempt + 1);
      var k := AttemptsLeft(config, attempt);
      assert next + seq(k - 1, _ => Rerun(config, fs)) == trace + seq(k, _ => Rerun(config, fs));
    } else {
      assert trace + seq(0, _ => Rerun(config, fs)) == trace;
    }
  }

  /** The default maximum of 3 attempts with failures that persist: exactly
      three calls (the baseline and two reruns), and the run completes. */
  lemma PersistentFailuresThreeCalls(config: Configuration, fs: FileSystem, before: seq<Invocation>)
    requires config.rerunMaxAttempts == 3 && AlwaysFailing(config, fs)
    ensures RerunSpec(config, fs, before)
         == Execution(before + [Baseline(config), Rerun(config, fs), Rerun(config, fs)], Completed)
  {
    PersistentFailuresLoop(config, fs, before + [Baseline(config)], 1);
    assert seq(2, _ => Rerun(config, fs)) == [Rerun(config, fs), Rerun(config, fs)];
  }

  class RerunCommand {
    const config: Configuration
    const dotnet: Dotnet
    const fileSystem: FileSystem

    constructor (config: Configuration, dotnet: Dotnet, fileSystem: FileSystem)
      ensures this.config == config && this.dotnet == dotnet && this.fileSystem == fileSystem
    {
      this.config := config;
      this.dotnet := dotnet;
      this.fileSystem := fileSystem;
    }

    /** Runs the tests, then reruns them while the latest result file shows
        failures and attempts remain. */
    method Run() returns (outcome: Outcome)
      modifies dotnet
      ensures Execution(dotnet.trace, outcome) == RerunSpec(config, fileSystem, old(dotnet.trace))
    {
      dotnet.Run(config.path, config.filter, config.settings, config.logger, config.resultsDirectory);

      var dll := fileSystem.fullName(config.path);

      var attempt := 1;
      while attempt < config.rerunMaxAttempts
        invariant RerunLoop(config, fileSystem, dotnet.trace, attempt) == RerunSpec(config, fileSystem, old(dotnet.trace))
        decreases config.rerunMaxAttempts - attempt
      {
        var resultsDirectory := fileSystem.listing(config.resultsDirectory, dotnet.trace);
        if resultsDirectory.Missing? {
          return Aborted(DirectoryNotFound(config.resultsDirectory));
        }
        var trxFile := LatestTrx(resultsDirectory.files);
        var testsToRun := GetFailedTestsFilter(trxFile);
        if testsToRun.Failure? {
          return Aborted(testsToRun.error);
        }
        if testsToRun.value != "" {
          dotnet.Run(dll, config.filter, config.settings, config.logger, config.resultsDirectory);
          attempt := attempt + 1;
        } else {
          attempt := config.rerunMaxAttempts;
        }
      }
      return Completed;
    }

    /** The filter for the failed records of `trxFile`, built clause by clause;
        decoding errors escape. */
    method GetFailedTestsFilter(trxFile: Option<FileEntry>) returns (r: Result<string, Error>)
      ensures r == FailedTestsFilterOf(trxFile)
    {
      var testFilter := "";
      if trxFile.Some? {
        var trx := Deserialize(trxFile.value);
        if trx.Failure? {
          return Failure(trx.error);
        }
        var tests := FailedTests(trx.value);
        if |tests| != 0 {
          ghost var clause := Clause(tests[0].testName);
          var i := 0;
          while i < |tests|
            invariant 0 <= i <= |tests|
            invariant testFilter == PartialFilter(clause, i, |tests|)
          {
            PartialFilterStep(clause, i, |tests|);
            testFilter := testFilter + (ClausePrefix + tests[0].testName) + (if |tests| - 1 != i then Separator else "");
            i := i + 1;
          }
        }
        assert testFilter == FailedTestsFilter(trx.value);
      }
      return Success(testFilter);
    }
  }
}
