/** The web tier: how a report becomes the stored verdict, and the inline twin of the executor's grading. */
module Verdicts {
  import opened Common
  import opened Judging
  import opened Grading

  datatype Question = Question(testcaseInput: string, expectedOutput: string, totalMarks: int)

  /** The stored fields of a submission that grading touches. */
  datatype Row = Row(
    question: Option<Question>, status: Status, output: string, awardedMarks: int,
    passed: nat, total: nat, timeMs: Option<nat>)

  /** The stored verdict, without the execution time. */
  datatype Verdict = Verdict(status: Status, output: string, awardedMarks: int, passed: nat, total: nat)

  function VerdictOf(row: Row): Verdict {
    Verdict(row.status, row.output, row.awardedMarks, row.passed, row.total)
  }

  function CountOf(q: Question): (n: nat)
    ensures n >= 1
  {
    TestcaseCount(q.testcaseInput, q.expectedOutput)
  }

  predicate OutputMatches(q: Question, output: string) {
    NormalizeJudgeOutput(q.expectedOutput) == NormalizeJudgeOutput(output)
  }

  datatype Decision = Decision(status: Status, awardedMarks: int, passed: nat, total: nat)

  /** The branches of `finalize_submission_result` once the counts are parsed and clamped. */
  function Decide(question: Option<Question>, status: Status, output: string, passed: nat, total: nat): Decision {
    if status == Success && question.Some? then
      var q := question.value;
      if passed > 0 || total > 0 then
        var n := if total == 0 then CountOf(q) else total;
        if passed == n then Decision(Passed, q.totalMarks, passed, n) else Decision(WrongAnswer, 0, passed, n)
      else
        var n := CountOf(q);
        if OutputMatches(q, output) then Decision(Passed, q.totalMarks, n, n) else Decision(WrongAnswer, 0, 0, n)
    else if question.Some? && total == 0 then Decision(status, 0, passed, CountOf(question.value))
    else Decision(status, 0, passed, total)
  }

  /** The row after `finalize_submission_result`. */
  function Finalized(row: Row, report: Report): Row {
    var total := ParseNonNegativeInt(report.total, row.total);
    var given := ParseNonNegativeInt(report.passed, row.passed);
    var passed := if total > 0 && given > total then total else given;
    var d := Decide(row.question, report.status, report.output, passed, total);
    Row(row.question, d.status, report.output, d.awardedMarks, d.passed, d.total,
        if report.timeMs != 0 then Some(report.timeMs) else row.timeMs)
  }

  // ----- the inline judge

  /** The time the inline judge records: a timed-out job whose runs took no measurable time counts its limit. */
  function InlineTime(job: Job): nat
    requires job.Valid()
  {
    var timedOut := Judge(job).Some? && Judge(job).value.status == Tle;
    var spent := if job.cases != [] then CasesTime(job) else TimeOf(SandboxResult(job));
    if timedOut && spent == 0 then job.timeLimitMs else spent
  }

  function InlineReport(job: Job): Option<Report>
    requires job.Valid()
  {
    var j := Judge(job);
    if j.None? then None else Some(MakeReport(j.value, InlineTime(job)))
  }

  /** The report that the inline judge files: the cleanup of a plain run comes before it, that of judge cases after. */
  function FiledInline(job: Job, cleanupThrows: bool): Option<Report>
    requires job.Valid()
  {
    if job.cases == [] && CleanupRaises(job, cleanupThrows) then None else InlineReport(job)
  }

  class Submission {
    const question: Option<Question>
    var status: Status
    var output: string
    var awardedMarks: int
    var passedTestcases: nat
    var totalTestcases: nat
    var executionTimeMs: Option<nat>

    /** A submission as the web tier creates it for `totalTestcases` judge cases. */
    constructor (question: Option<Question>, totalTestcases: nat)
      ensures Stored() == NewRow(question, totalTestcases)
    {
      this.question := question;
      status, output, awardedMarks := Pending, "", 0;
      passedTestcases := 0;
      this.totalTestcases := totalTestcases;
      executionTimeMs := None;
    }

    ghost function Stored(): Row
      reads this
    {
      Row(question, status, output, awardedMarks, passedTestcases, totalTestcases, executionTimeMs)
    }

    /** `finalize_submission_result` */
    method Finalize(report: Report)
      modifies this
      ensures Stored() == Finalized(old(Stored()), report)
    {
      hide NormalizeJudgeOutput, TestcaseCount;
      var passed := ParseNonNegativeInt(report.passed, passedTestcases);
      var total := ParseNonNegativeInt(report.total, totalTestcases);
      if total > 0 && passed > total {
        passed := total;
      }

      var finalStatus := report.status;
      var marks := 0;
      if report.status == Success && question.Some? {
        var q := question.value;
        var count := TestcaseCount(q.testcaseInput, q.expectedOutput);
        assert count == CountOf(q);
        if passed > 0 || total > 0 {
          if total == 0 {
            total := Max(count, 1);
          }
          if passed == total {
            finalStatus, marks := Passed, q.totalMarks;
          } else {
            finalStatus, marks := WrongAnswer, 0;
          }
        } else {
          var expected := NormalizeJudgeOutput(q.expectedOutput);
          var actual := NormalizeJudgeOutput(report.output);
          total := Max(total, Max(count, 1));
          if expected == actual {
            passed := total;
            finalStatus, marks := Passed, q.totalMarks;
          } else {
            passed := 0;
            finalStatus, marks := WrongAnswer, 0;
          }
        }
      } else if question.Some? && total == 0 {
        total := TestcaseCount(question.value.testcaseInput, question.value.expectedOutput);
      }

      status := finalStatus;
      output := report.output;
      awardedMarks := marks;
      passedTestcases := passed;
      totalTestcases := total;
      if report.timeMs != 0 {
        executionTimeMs := Some(report.timeMs);
      }
    }

    /** The judge-case loop of `execute_submission_inline`. */
    method RunCasesInline(job: Job) returns (raised: bool)
      requires job.Valid() && job.cases != [] && job.preparation.Ready?
      modifies this
      ensures raised == InlineReport(job).None?
      ensures Stored() == if raised then old(Stored()) else Finalized(old(Stored()), InlineReport(job).value)
    {
      hide NormalizeJudgeOutput, Finalized;
      var passed := 0;
      var total := Number(|job.cases|);
      var totalTimeMs: nat := 0;
      var lastOutput := "";
      for i := 0 to |job.cases|
        invariant Stored() == old(Stored())
        invariant passed == i <= CleanPrefix(job.cases, job.runs)
        invariant totalTimeMs == TimeThrough(job.runs, i)
        invariant i > 0 ==> job.runs[i - 1].Ran? && lastOutput == job.runs[i - 1].output
      {
        var testcase, result := job.cases[i], job.runs[i];
        if result.Threw? {
          StopsAt(job, i);
          return true;
        }
        totalTimeMs := totalTimeMs + result.timeMs;
        lastOutput := result.output;

        if result.status == RanTle {
          StopsAt(job, i);
          var timeMs := if totalTimeMs != 0 then totalTimeMs else job.timeLimitMs;
          Finalize(Report(Tle, TLE_OUTPUT, timeMs, Number(passed), total));
          return false;
        }
        if result.status == RanMemoryLimit || result.status == RanMle {
          StopsAt(job, i);
          Finalize(Report(Mle, result.output, totalTimeMs, Number(passed), total));
          return false;
        }
        if result.status == RanRuntimeError || result.status == RanCompilationError || result.status == RanSystemError {
          StopsAt(job, i);
          Finalize(Report(FailureStatus(result.status), result.output, totalTimeMs, Number(passed), total));
          return false;
        }

        var matches := NormalizeJudgeOutput(result.output) == NormalizeJudgeOutput(testcase.expectedOutput);
        assert matches == CleanMatch(testcase, result);
        if matches {
          GoesOn(job, i);
          passed := passed + 1;
          continue;
        }
        StopsAt(job, i);
        Finalize(Report(Success, result.output, totalTimeMs, Number(passed), total));
        return false;
      }
      StopsAt(job, |job.cases|);
      Finalize(Report(Success, lastOutput, totalTimeMs, Number(passed), total));
      return false;
    }

    /** The `try` and `finally` around that loop: cleaning up comes after the row is finalised, and may raise. */
    method ExecuteCasesInline(job: Job, cleanupThrows: bool) returns (raised: bool)
      requires job.Valid() && job.cases != [] && job.preparation.Ready?
      modifies this
      ensures raised <==> InlineReport(job).None? || cleanupThrows
      ensures Stored() == var filed := InlineReport(job);
        if filed.None? then old(Stored()) else Finalized(old(Stored()), filed.value)
    {
      hide Finalized, InlineReport;
      raised := RunCasesInline(job);
      if cleanupThrows {
        raised := true;
      }
    }

    /** `execute_submission_inline` */
    method ExecuteInline(job: Job, cleanupThrows: bool) returns (raised: bool)
      requires job.Valid()
      modifies this
      ensures raised <==> FiledInline(job, cleanupThrows).None? || CleanupRaises(job, cleanupThrows)
      ensures Stored() == var filed := FiledInline(job, cleanupThrows);
        if filed.None? then old(Stored()) else Finalized(old(Stored()), filed.value)
    {
      hide NormalizeJudgeOutput, Finalized;
      raised := false;
      if job.cases != [] {
        match job.preparation {
          case PrepareThrew => raised := true;
          case NotReady(s, text, timeMs) =>
            Finalize(Report(FailureStatus(s), text, timeMs, Number(0), Number(|job.cases|)));
          case Ready => raised := ExecuteCasesInline(job, cleanupThrows);
        }
        return;
      }

      // `run_code_in_sandbox` cleans up before it returns
      var result := if CleanupRaises(job, cleanupThrows) then Threw else SandboxResult(job);
      if result.Threw? {
        return true;
      }
      var s, text := result.status, result.output;
      if s == RanTle {
        var timeMs := if result.timeMs != 0 then result.timeMs else job.timeLimitMs;
        Finalize(Report(Tle, TLE_OUTPUT, timeMs, Missing, Missing));
      } else if s == RanMemoryLimit || s == RanMle {
        Finalize(Report(Mle, text, result.timeMs, Missing, Missing));
      } else if s == RanRuntimeError || s == RanCompilationError || s == RanSystemError {
        Finalize(Report(FailureStatus(s), text, result.timeMs, Missing, Missing));
      } else {
        Finalize(Report(Success, text, result.timeMs, Missing, Missing));
      }
    }
  }

  function NewRow(question: Option<Question>, total: nat): Row {
    Row(question, Pending, "", 0, 0, total, None)
  }
}
