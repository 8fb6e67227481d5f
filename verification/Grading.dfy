/**
 * Grading one submission: what a verdict means, and the executor's grading loop proved to report it.
 * The sandbox is a parameter: a job carries the result that each run has when it is executed.
 */
module Grading {
  import opened Common
  import opened Judging

  /** The `status` of a sandbox result; `RanClean` is the sandbox's own SUCCESS. */
  datatype RunStatus =
    | RanClean | RanTle | RanMle | RanMemoryLimit | RanRuntimeError | RanCompilationError | RanSystemError

  /** A sandbox run: a result dictionary, or an exception. */
  datatype RunResult = Ran(status: RunStatus, output: string, timeMs: nat) | Threw

  /** The statuses of the dictionaries that preparation returns. */
  type PrepareStatus = s: RunStatus | s == RanSystemError || s == RanCompilationError witness RanSystemError

  datatype Preparation = Ready | NotReady(status: PrepareStatus, output: string, timeMs: nat) | PrepareThrew

  /** The `status` of a submission. */
  datatype Status =
    | Pending | Success | Passed | WrongAnswer | Tle | Mle | RuntimeError | CompilationError | SystemError

  /** A result as the executor sends it to the web tier. */
  datatype Report = Report(status: Status, output: string, timeMs: nat, passed: RawInt, total: RawInt)

  /** What one grading needs and what the sandbox does with it: `runs` for the judge cases, `single` for a plain run. */
  datatype Job = Job(
    cases: seq<Testcase>, timeLimitMs: nat, preparation: Preparation, runs: seq<RunResult>, single: RunResult)
  {
    predicate Valid() {
      |runs| == |cases|
    }
  }

  const TLE_OUTPUT := "Time Limit Exceeded"

  // ----- what a verdict means

  /** The run raised no error and printed the expected output, up to normalisation. */
  predicate CleanMatch(testcase: Testcase, run: RunResult) {
    run.Ran? && run.status.RanClean?
    && NormalizeJudgeOutput(run.output) == NormalizeJudgeOutput(testcase.expectedOutput)
  }

  /** The number of cases before the first that is not a clean match. */
  function CleanPrefix(cases: seq<Testcase>, runs: seq<RunResult>): (k: nat)
    requires |runs| == |cases|
    ensures k <= |cases|
    ensures forall i :: 0 <= i < k ==> CleanMatch(cases[i], runs[i])
    ensures k < |cases| ==> !CleanMatch(cases[k], runs[k])
  {
    if cases == [] || !CleanMatch(cases[0], runs[0]) then 0
    else
      var k := CleanPrefix(cases[1..], runs[1..]);
      assert forall i :: 1 <= i < k + 1 ==> cases[i] == cases[1..][i - 1] && runs[i] == runs[1..][i - 1];
      k + 1
  }

  function TimeOf(run: RunResult): nat {
    if run.Ran? then run.timeMs else 0
  }

  function TimeThrough(runs: seq<RunResult>, n: nat): nat
    requires n <= |runs|
  {
    if n == 0 then 0 else TimeThrough(runs, n - 1) + TimeOf(runs[n - 1])
  }

  /** Status, output and counts, without the time. */
  datatype Judgement = Judgement(status: Status, output: string, passed: RawInt, total: RawInt)

  function FailureStatus(status: RunStatus): Status {
    match status
    case RanClean => Success
    case RanTle => Tle
    case RanMle => Mle
    case RanMemoryLimit => Mle
    case RanRuntimeError => RuntimeError
    case RanCompilationError => CompilationError
    case RanSystemError => SystemError
  }

  function OutputOf(status: RunStatus, output: string): string {
    if status.RanTle? then TLE_OUTPUT else output
  }

  /** The judgement of a job with judge cases, read off the first case that is not a clean match. */
  function JudgeCases(job: Job): Option<Judgement>
    requires job.Valid() && job.cases != []
  {
    var n := |job.cases|;
    match job.preparation
    case PrepareThrew => None
    case NotReady(status, output, _) => Some(Judgement(FailureStatus(status), output, Number(0), Number(n)))
    case Ready =>
      var k := CleanPrefix(job.cases, job.runs);
      if k == n then
        Some(Judgement(Success, job.runs[n - 1].output, Number(n), Number(n)))
      else if job.runs[k].Threw? then None
      else
        var run := job.runs[k];
        Some(Judgement(FailureStatus(run.status), OutputOf(run.status, run.output), Number(k), Number(n)))
  }

  /** The judgement of a plain run; preparation is part of `run_code_in_sandbox`. */
  function JudgeSingle(job: Job): Option<Judgement> {
    match job.preparation
    case PrepareThrew => None
    case NotReady(status, output, _) => Some(Judgement(FailureStatus(status), output, Missing, Missing))
    case Ready =>
      if job.single.Threw? then None
      else
        var run := job.single;
        Some(Judgement(FailureStatus(run.status), OutputOf(run.status, run.output), Missing, Missing))
  }

  /** The judgement of a job; none when grading ends in an exception. */
  function Judge(job: Job): Option<Judgement>
    requires job.Valid()
  {
    if job.cases != [] then JudgeCases(job) else JudgeSingle(job)
  }

  /** The execution time of the runs that a judge-case grading makes. */
  function CasesTime(job: Job): nat
    requires job.Valid() && job.cases != []
  {
    match job.preparation
    case PrepareThrew => 0
    case NotReady(_, _, timeMs) => timeMs
    case Ready => TimeThrough(job.runs, Min(CleanPrefix(job.cases, job.runs) + 1, |job.cases|))
  }

  function SandboxResult(job: Job): RunResult {
    match job.preparation
    case PrepareThrew => Threw
    case NotReady(status, output, timeMs) => Ran(status, output, timeMs)
    case Ready => job.single
  }

  function ExecutorTime(job: Job): nat
    requires job.Valid()
  {
    if job.cases != [] then CasesTime(job)
    else
      var result := SandboxResult(job);
      if result.Ran? && result.status.RanTle? then job.timeLimitMs else TimeOf(result)
  }

  function MakeReport(j: Judgement, timeMs: nat): Report {
    Report(j.status, j.output, timeMs, j.passed, j.total)
  }

  /** The report that grading a job sends; none when grading ends in an exception. */
  function ExecutorReport(job: Job): Option<Report>
    requires job.Valid()
  {
    var j := Judge(job);
    if j.None? then None else Some(MakeReport(j.value, ExecutorTime(job)))
  }

  /** `prepared.cleanup()` runs in a `finally` once preparation succeeded, and it may raise. */
  predicate CleanupRaises(job: Job, cleanupThrows: bool) {
    job.preparation.Ready? && cleanupThrows
  }

  /** The report that a grading sends: the cleanup of a plain run comes before it, that of judge cases after it. */
  function SentBy(job: Job, cleanupThrows: bool): Option<Report>
    requires job.Valid()
  {
    if job.cases == [] && CleanupRaises(job, cleanupThrows) then None else ExecutorReport(job)
  }

  // ----- the executor's loop

  /** What is sent when the loop stops: at the first case that is not a clean match, or after the last case. */
  lemma StopsAt(job: Job, i: nat)
    requires job.Valid() && job.cases != [] && job.preparation.Ready?
    requires i <= CleanPrefix(job.cases, job.runs)
    requires i < |job.cases| ==> !CleanMatch(job.cases[i], job.runs[i])
    ensures var n := Number(|job.cases|);
      ExecutorReport(job) ==
        if i == |job.cases| then Some(Report(Success, job.runs[i - 1].output, TimeThrough(job.runs, i), n, n))
        else if job.runs[i].Threw? then None
        else
          var run := job.runs[i];
          Some(Report(FailureStatus(run.status), OutputOf(run.status, run.output),
            TimeThrough(job.runs, i + 1), Number(i), n))
  {
    assert CleanPrefix(job.cases, job.runs) == i;
  }

  lemma GoesOn(job: Job, i: nat)
    requires job.Valid() && i < |job.cases| && i <= CleanPrefix(job.cases, job.runs)
    requires CleanMatch(job.cases[i], job.runs[i])
    ensures i + 1 <= CleanPrefix(job.cases, job.runs)
  {
  }

  /** The loop of `grade_submission` over the judge cases of a prepared job; none when a run raises. */
  method RunCases(job: Job) returns (sent: Option<Report>)
    requires job.Valid() && job.cases != [] && job.preparation.Ready?
    ensures sent == ExecutorReport(job)
  {
    hide NormalizeJudgeOutput;
    var passedTestcases := 0;
    var totalTestcases := Number(|job.cases|);
    var totalTimeMs: nat := 0;
    var lastOutput := "";
    for i := 0 to |job.cases|
      invariant passedTestcases == i <= CleanPrefix(job.cases, job.runs)
      invariant totalTimeMs == TimeThrough(job.runs, i)
      invariant i > 0 ==> job.runs[i - 1].Ran? && lastOutput == job.runs[i - 1].output
    {
      var testcase, result := job.cases[i], job.runs[i];
      if result.Threw? {
        StopsAt(job, i);
        return None;
      }
      totalTimeMs := totalTimeMs + result.timeMs;
      lastOutput := result.output;

      if result.status == RanTle {
        StopsAt(job, i);
        return Some(Report(Tle, TLE_OUTPUT, totalTimeMs, Number(passedTestcases), totalTestcases));
      }
      if result.status == RanMemoryLimit || result.status == RanMle {
        StopsAt(job, i);
        return Some(Report(Mle, result.output, totalTimeMs, Number(passedTestcases), totalTestcases));
      }
      if result.status == RanRuntimeError || result.status == RanCompilationError || result.status == RanSystemError {
        StopsAt(job, i);
        return Some(
          Report(FailureStatus(result.status), result.output, totalTimeMs, Number(passedTestcases), totalTestcases));
      }

      var matches := NormalizeJudgeOutput(result.output) == NormalizeJudgeOutput(testcase.expectedOutput);
      assert matches == CleanMatch(testcase, result);
      if matches {
        GoesOn(job, i);
        passedTestcases := passedTestcases + 1;
        continue;
      }
      StopsAt(job, i);
      return Some(Report(Success, result.output, totalTimeMs, Number(passedTestcases), totalTestcases));
    }
    StopsAt(job, |job.cases|);
    return Some(Report(Success, lastOutput, totalTimeMs, Number(passedTestcases), totalTestcases));
  }

  /** The `try` and `finally` around that loop: the box is cleaned up after the report was sent, and that may raise. */
  method GradePrepared(job: Job, ack: bool, cleanupThrows: bool) returns (sent: Option<Report>, raised: bool)
    requires job.Valid() && job.cases != [] && job.preparation.Ready?
    ensures sent == ExecutorReport(job)
    ensures raised <==> sent.None? || !ack || cleanupThrows
  {
    sent := RunCases(job);
    raised := sent.None? || !ack;
    if cleanupThrows {
      raised := true;
    }
  }

  /**
   * `grade_submission`: the one report it sends to the web tier, if any, and whether it ends in an exception.
   * `ack` tells that the web tier acknowledges a report.
   */
  method GradeSubmission(job: Job, ack: bool, cleanupThrows: bool) returns (sent: Option<Report>, raised: bool)
    requires job.Valid()
    ensures sent == SentBy(job, cleanupThrows)
    ensures raised <==> sent.None? || !ack || CleanupRaises(job, cleanupThrows)
  {
    if job.cases != [] {
      match job.preparation {
        case PrepareThrew => sent, raised := None, true;
        case NotReady(status, output, timeMs) =>
          sent := Some(Report(FailureStatus(status), output, timeMs, Number(0), Number(|job.cases|)));
          raised := !ack;
        case Ready => sent, raised := GradePrepared(job, ack, cleanupThrows);
      }
      return;
    }

    // `run_code_in_sandbox` cleans up before it returns
    var result := if CleanupRaises(job, cleanupThrows) then Threw else SandboxResult(job);
    if result.Threw? {
      return None, true;
    }
    var s, text := result.status, result.output;
    if s == RanTle {
      sent := Some(Report(Tle, TLE_OUTPUT, job.timeLimitMs, Missing, Missing));
    } else if s == RanMemoryLimit || s == RanMle {
      sent := Some(Report(Mle, text, result.timeMs, Missing, Missing));
    } else if s == RanRuntimeError || s == RanCompilationError || s == RanSystemError {
      sent := Some(Report(FailureStatus(s), text, result.timeMs, Missing, Missing));
    } else {
      sent := Some(Report(Success, text, result.timeMs, Missing, Missing));
    }
    raised := !ack;
  }

  // ----- what a report says

  /** What decided the job: preparation, the first run that is no clean match, or the last run. */
  function Ending(job: Job): RunResult
    requires job.Valid() && job.preparation != PrepareThrew
  {
    match job.preparation
    case NotReady(status, output, timeMs) => Ran(status, output, timeMs)
    case Ready =>
      if job.cases == [] then job.single
      else
        var k := CleanPrefix(job.cases, job.runs);
        if k < |job.cases| then job.runs[k] else job.runs[k - 1]
  }

  /** A report names how its job ended, status by status, and shows that run's output except after a timeout. */
  lemma ReportNamesTheEnding(job: Job, report: Report)
    requires job.Valid() && ExecutorReport(job) == Some(report)
    ensures job.preparation != PrepareThrew && Ending(job).Ran?
    ensures var status := Ending(job).status;
      && (report.status == Success <==> status == RanClean)
      && (report.status == Tle <==> status == RanTle)
      && (report.status == Mle <==> status == RanMle || status == RanMemoryLimit)
      && (report.status == RuntimeError <==> status == RanRuntimeError)
      && (report.status == CompilationError <==> status == RanCompilationError)
      && (report.status == SystemError <==> status == RanSystemError)
      && report.output == if status == RanTle then "Time Limit Exceeded" else Ending(job).output
  {
    hide NormalizeJudgeOutput, CleanPrefix;
    if job.cases != [] && CleanPrefix(job.cases, job.runs) == |job.cases| { LastIsClean(job); }
  }

  /** There is a report unless preparing, or the run that decides, raised. */
  lemma ReportsIff(job: Job)
    requires job.Valid()
    ensures ExecutorReport(job).Some? <==> job.preparation != PrepareThrew && Ending(job).Ran?
  {
    hide NormalizeJudgeOutput, CleanPrefix;
    if job.cases != [] && CleanPrefix(job.cases, job.runs) == |job.cases| { LastIsClean(job); }
  }

  /** Counts go with judge cases: the clean matches before the end, and the number of cases. */
  lemma ReportCounts(job: Job, report: Report)
    requires job.Valid() && ExecutorReport(job) == Some(report)
    ensures job.cases == [] ==> report.passed == Missing && report.total == Missing
    ensures job.cases != [] ==>
      && report.total == Number(|job.cases|)
      && report.passed == Number(if job.preparation.Ready? then CleanPrefix(job.cases, job.runs) else 0)
  {
    hide NormalizeJudgeOutput, CleanPrefix;
  }

  /** The time of runs, added up from the first. */
  function Spent(runs: seq<RunResult>): nat {
    if runs == [] then 0 else (if runs[0].Ran? then runs[0].timeMs else 0) + Spent(runs[1..])
  }

  lemma {:induction false} TimeIsSpent(runs: seq<RunResult>, n: nat)
    requires n <= |runs|
    ensures TimeThrough(runs, n) == Spent(runs[..n])
  {
    if n == 0 {
      assert runs[..0] == [];
    } else {
      TimeIsSpent(runs, n - 1);
      assert runs[..n] == runs[..n - 1] + [runs[n - 1]];
      SpentSnoc(runs[..n - 1], runs[n - 1]);
    }
  }

  lemma {:induction false} SpentSnoc(runs: seq<RunResult>, run: RunResult)
    ensures Spent(runs + [run]) == Spent(runs) + (if run.Ran? then run.timeMs else 0)
  {
    if runs == [] {
      assert [] + [run] == [run] && [run][1..] == [];
    } else {
      assert (runs + [run])[1..] == runs[1..] + [run];
      SpentSnoc(runs[1..], run);
    }
  }

  /**
   * The time in a report: that of all the runs made up to the deciding one, of a failed preparation, or of a plain run;
   * a plain run that times out counts its limit.
   */
  lemma ReportedTime(job: Job, report: Report)
    requires job.Valid() && ExecutorReport(job) == Some(report)
    ensures job.preparation.NotReady? ==> report.timeMs == job.preparation.timeMs
    ensures job.preparation.Ready? && job.cases != [] ==>
      var k := CleanPrefix(job.cases, job.runs);
      report.timeMs == Spent(job.runs[..if k < |job.cases| then k + 1 else k])
    ensures job.preparation.Ready? && job.cases == [] ==>
      report.timeMs == if job.single.status == RanTle then job.timeLimitMs else job.single.timeMs
  {
    hide NormalizeJudgeOutput, CleanPrefix;
    if job.preparation.Ready? && job.cases != [] {
      var k := CleanPrefix(job.cases, job.runs);
      TimeIsSpent(job.runs, if k < |job.cases| then k + 1 else k);
    }
  }

  // ----- edits of program output

  /** Two runs that differ at most in output that the judge does not tell apart. */
  predicate SameUpToOutputEdits(a: RunResult, b: RunResult) {
    && a.Ran? == b.Ran?
    && (a.Ran? ==> a.status == b.status && NormalizeJudgeOutput(a.output) == NormalizeJudgeOutput(b.output))
  }

  lemma {:induction false} CleanPrefixIgnoresEdits(cases: seq<Testcase>, runs: seq<RunResult>, runs': seq<RunResult>)
    requires |runs| == |cases| == |runs'|
    requires forall i :: 0 <= i < |runs| ==> SameUpToOutputEdits(runs[i], runs'[i])
    ensures CleanPrefix(cases, runs) == CleanPrefix(cases, runs')
  {
    if cases != [] {
      forall i | 0 <= i < |runs[1..]| ensures SameUpToOutputEdits(runs[1..][i], runs'[1..][i]) {
        assert runs[1..][i] == runs[i + 1] && runs'[1..][i] == runs'[i + 1];
      }
      CleanPrefixIgnoresEdits(cases[1..], runs[1..], runs'[1..]);
    }
  }

  /** The same job, but its runs print something else. */
  function WithOutputs(job: Job, runs: seq<RunResult>, single: RunResult): Job {
    job.(runs := runs, single := single)
  }

  /** Output edits that normalisation forgives change neither the reported status nor the counts. */
  lemma OutputEditsKeepTheJudgement(job: Job, runs': seq<RunResult>, single': RunResult)
    requires job.Valid() && |runs'| == |job.runs| && SameUpToOutputEdits(job.single, single')
    requires forall i :: 0 <= i < |runs'| ==> SameUpToOutputEdits(job.runs[i], runs'[i])
    ensures var a, b := Judge(job), Judge(WithOutputs(job, runs', single'));
      && a.Some? == b.Some?
      && (a.Some? ==>
        && a.value.status == b.value.status && a.value.passed == b.value.passed && a.value.total == b.value.total
        && NormalizeJudgeOutput(a.value.output) == NormalizeJudgeOutput(b.value.output))
  {
    hide NormalizeJudgeOutput, CleanPrefix, CleanMatch;
    CleanPrefixIgnoresEdits(job.cases, job.runs, runs');
    var k := CleanPrefix(job.cases, job.runs);
    assert k < |runs'| ==> SameUpToOutputEdits(job.runs[k], runs'[k]);
    assert |runs'| > 0 ==> SameUpToOutputEdits(job.runs[|runs'| - 1], runs'[|runs'| - 1]);
    if job.cases != [] && job.preparation.Ready? && k == |job.cases| {
      assert CleanMatch(job.cases[k - 1], job.runs[k - 1]) && job.runs[k - 1].Ran? by { LastIsClean(job); }
    }
  }

  lemma LastIsClean(job: Job)
    requires job.Valid() && job.cases != [] && CleanPrefix(job.cases, job.runs) == |job.cases|
    ensures var last := job.runs[|job.cases| - 1];
      CleanMatch(job.cases[|job.cases| - 1], last) && last.Ran? && last.status == RanClean
  {
  }
}
