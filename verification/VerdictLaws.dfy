/** What the stored verdict says about the runs, and when applying a report again changes it. */
module VerdictLaws {
  import opened Common
  import opened Judging
  import opened Grading
  import opened Verdicts

  // ----- soundness, end to end

  /** The run ended without error, and its lines are the expected ones up to trailing whitespace and blank ends. */
  predicate PrintsExpected(testcase: Testcase, run: RunResult) {
    match run
    case Ran(RanClean, output, _) => NormalizeJudgeOutput(output) == NormalizeJudgeOutput(testcase.expectedOutput)
    case _ => false
  }

  /** Preparation succeeded and every case ran without error and printed the expected output. */
  predicate AllCasesMatch(job: Job)
    requires job.Valid()
  {
    job.preparation.Ready? && forall i :: 0 <= i < |job.cases| ==> PrintsExpected(job.cases[i], job.runs[i])
  }

  function MatchedPrefix(job: Job): nat
    requires job.Valid()
  {
    if job.preparation.Ready? then CleanPrefix(job.cases, job.runs) else 0
  }

  /**
   * For a question with judge cases the stored status is PASSED exactly when preparation succeeded and
   * every case ran cleanly and matched. Full marks go with PASSED and no others; the stored counts are
   * the longest clean matching prefix and the number of cases.
   */
  lemma StoredVerdictIsSound(row: Row, job: Job, report: Report)
    requires job.Valid() && job.cases != [] && row.question.Some? && ExecutorReport(job) == Some(report)
    ensures var v := VerdictOf(Finalized(row, report));
      && (v.status == Passed <==> AllCasesMatch(job))
      && v.awardedMarks == (if v.status == Passed then row.question.value.totalMarks else 0)
      && v.passed == MatchedPrefix(job) && v.total == |job.cases| && v.passed <= v.total
      && (v.passed == v.total <==> v.status == Passed)
  {
    hide NormalizeJudgeOutput, TestcaseCount;
    if job.preparation.Ready? {
      var k := CleanPrefix(job.cases, job.runs);
      assert k < |job.cases| ==> !CleanMatch(job.cases[k], job.runs[k]);
    }
  }

  /** A verdict short of PASSED names the first case that failed, and how. */
  lemma FailureNamesTheFirstBadCase(row: Row, job: Job, report: Report)
    requires job.Valid() && job.cases != [] && row.question.Some? && ExecutorReport(job) == Some(report)
    requires job.preparation.Ready? && !AllCasesMatch(job)
    ensures var v := VerdictOf(Finalized(row, report));
      && v.passed < |job.cases|
      && (forall i :: 0 <= i < v.passed ==> PrintsExpected(job.cases[i], job.runs[i]))
      && var run := job.runs[v.passed];
        && run.Ran? && !PrintsExpected(job.cases[v.passed], run)
        && v.output == (if run.status == RanTle then "Time Limit Exceeded" else run.output)
        && v.status == match run.status
          case RanClean => WrongAnswer
          case RanTle => Tle
          case RanMle => Mle
          case RanMemoryLimit => Mle
          case RanRuntimeError => RuntimeError
          case RanCompilationError => CompilationError
          case RanSystemError => SystemError
  {
    hide NormalizeJudgeOutput, TestcaseCount;
  }

  /** A job that did not end in a clean run is stored with the status and output of its ending, and earns nothing. */
  lemma FailureIsStored(row: Row, job: Job, report: Report)
    requires job.Valid() && ExecutorReport(job) == Some(report) && report.status != Success
    ensures job.preparation != PrepareThrew && Ending(job).Ran?
    ensures var v, status := VerdictOf(Finalized(row, report)), Ending(job).status;
      && v.awardedMarks == 0
      && (v.status == Tle <==> status == RanTle)
      && (v.status == Mle <==> status == RanMle || status == RanMemoryLimit)
      && (v.status == RuntimeError <==> status == RanRuntimeError)
      && (v.status == CompilationError <==> status == RanCompilationError)
      && (v.status == SystemError <==> status == RanSystemError)
      && v.output == if status == RanTle then "Time Limit Exceeded" else Ending(job).output
  {
    hide ExecutorReport, Ending, TestcaseCount, NormalizeJudgeOutput;
    ReportNamesTheEnding(job, report);
  }

  /** The counts that a report or the row brings: a given number, not below 0, or the stored one. */
  lemma CountsAreParsed(value: RawInt, stored: nat)
    ensures value.Number? && value.n >= 0 ==> ParseNonNegativeInt(value, stored) == value.n
    ensures value.Number? && value.n < 0 ==> ParseNonNegativeInt(value, stored) == 0
    ensures !value.Number? ==> ParseNonNegativeInt(value, stored) == stored
  {
  }

  /**
   * The stored counts, for every row and report: a positive total is kept and caps the passed count; without one a
   * question's case count stands in. A clean run of a question without any counts passes all or none, by its output.
   */
  lemma StoredCounts(row: Row, report: Report)
    ensures var row' := Finalized(row, report);
      var passed, total := ParseNonNegativeInt(report.passed, row.passed), ParseNonNegativeInt(report.total, row.total);
      && (total > 0 ==> row'.total == total && row'.passed == Min(passed, total))
      && (total == 0 && row.question.None? ==> row'.total == 0 && row'.passed == passed)
      && (total == 0 && row.question.Some? ==>
        var q := row.question.value;
        var cases := |BuildTestcases(q.testcaseInput, q.expectedOutput)|;
        && row'.total == cases
        && (passed > 0 || report.status != Success ==> row'.passed == passed)
        && (passed == 0 && report.status == Success ==>
          row'.passed == if NormalizeJudgeOutput(q.expectedOutput) == NormalizeJudgeOutput(report.output)
            then cases else 0))
  {
    hide NormalizeJudgeOutput, BuildTestcases;
  }

  /** A reported time replaces the stored one; 0 counts as none. */
  lemma StoredTime(row: Row, report: Report)
    ensures report.timeMs > 0 ==> Finalized(row, report).timeMs == Some(report.timeMs)
    ensures report.timeMs == 0 ==> Finalized(row, report).timeMs == row.timeMs
  {
    hide NormalizeJudgeOutput, TestcaseCount;
  }

  /** Both judges report the same time, but a timeout counts the limit in a plain run or when nothing was spent. */
  lemma TimesOfTheJudges(job: Job, sent: Report, filed: Report)
    requires job.Valid() && ExecutorReport(job) == Some(sent) && InlineReport(job) == Some(filed)
    ensures sent.status != Tle ==> filed.timeMs == sent.timeMs
    ensures sent.status == Tle && job.cases != [] ==>
      filed.timeMs == if sent.timeMs > 0 then sent.timeMs else job.timeLimitMs
    ensures sent.status == Tle && job.cases == [] ==>
      sent.timeMs == job.timeLimitMs
      && filed.timeMs == if job.single.timeMs > 0 then job.single.timeMs else job.timeLimitMs
  {
    hide NormalizeJudgeOutput, CleanPrefix;
  }

  /**
   * For every row and report: marks are earned exactly by a clean run of a question with all counts in. That run is
   * stored as PASSED, and so is a report that says PASSED itself, without marks.
   */
  lemma OnlyPassedEarnsMarks(row: Row, report: Report)
    ensures var v := VerdictOf(Finalized(row, report));
      var judged := report.status == Success && row.question.Some?;
      var earned := judged && v.passed == v.total;
      && v.output == report.output
      && (v.status == Passed <==> report.status == Passed || earned)
      && (v.status == WrongAnswer <==> report.status == WrongAnswer || (judged && !earned))
      && (!judged ==> v.status == report.status)
      && v.awardedMarks == (if earned then row.question.value.totalMarks else 0)
      && (judged ==> v.total >= 1)
  {
    hide NormalizeJudgeOutput, TestcaseCount;
  }

  /** Two reports that differ only in output with one normal form store the same but for the output. */
  lemma OutputEditsKeepTheVerdict(row: Row, report: Report, output: string)
    requires NormalizeJudgeOutput(report.output) == NormalizeJudgeOutput(output)
    ensures VerdictOf(Finalized(row, report.(output := output))) == VerdictOf(Finalized(row, report)).(output := output)
  {
    hide NormalizeJudgeOutput, TestcaseCount;
  }

  /**
   * From the program's output to the database: edits that normalisation forgives, in any run of a job, change nothing
   * that is stored but the output, with judge cases and without.
   */
  lemma ForgivenEditsKeepTheVerdict(row: Row, job: Job, runs': seq<RunResult>, single': RunResult)
    requires job.Valid() && |runs'| == |job.runs| && SameUpToOutputEdits(job.single, single')
    requires forall i :: 0 <= i < |runs'| ==> SameUpToOutputEdits(job.runs[i], runs'[i])
    ensures var a, b := ExecutorReport(job), ExecutorReport(WithOutputs(job, runs', single'));
      && a.Some? == b.Some?
      && (a.Some? ==>
        VerdictOf(Finalized(row, b.value)) == VerdictOf(Finalized(row, a.value)).(output := b.value.output))
  {
    hide Finalized, Judge, ExecutorTime, NormalizeJudgeOutput;
    OutputEditsKeepTheJudgement(job, runs', single');
    var a, b := ExecutorReport(job), ExecutorReport(WithOutputs(job, runs', single'));
    if a.Some? {
      OutputEditsKeepTheVerdict(row, a.value, b.value.output);
      TimeIsIrrelevant(row, row, a.value.(output := b.value.output), b.value.timeMs);
    }
  }

  /** A report that says PASSED itself: stored as PASSED for a new submission, with no case passed and no marks. */
  lemma PassedWithoutARun(q: Question, output: string)
    ensures var row := Finalized(NewRow(Some(q), CountOf(q)), Report(Passed, output, 0, Missing, Missing));
      row.status == Passed && row.awardedMarks == 0 && row.passed == 0 < row.total
  {
    hide NormalizeJudgeOutput, TestcaseCount;
  }

  /** The stored passed count stays within the stored total, except for one family of counts that the clamp misses. */
  lemma CountsInStepIff(row: Row, report: Report)
    ensures var row' := Finalized(row, report);
      var passed := ParseNonNegativeInt(report.passed, row.passed);
      var total := ParseNonNegativeInt(report.total, row.total);
      row'.passed <= row'.total <==>
        !(total == 0 && passed > (if row.question.Some? then CountOf(row.question.value) else 0))
  {
    hide NormalizeJudgeOutput, TestcaseCount;
  }

  /** One that gets out of step: a submission with no question and no cases, updated with a passed count alone. */
  lemma CountsOutOfStep()
    ensures var row' := Finalized(NewRow(None, 0), Report(Success, "", 0, Number(1), Missing));
      row'.passed == 1 && row'.total == 0
  {
  }

  // ----- the two judges

  /** For the same job and cleanup both judges report or neither does, and their reports store the same verdict. */
  lemma TwoJudgesAgree(row: Row, job: Job, cleanupThrows: bool)
    requires job.Valid()
    ensures var sent, filed := SentBy(job, cleanupThrows), FiledInline(job, cleanupThrows);
      && sent.None? == filed.None?
      && (sent.Some? ==> VerdictOf(Finalized(row, sent.value)) == VerdictOf(Finalized(row, filed.value)))
  {
    hide NormalizeJudgeOutput, TestcaseCount, CleanPrefix;
  }

  /**
   * Run on equal rows, the two imperative judges leave equal verdicts, and each raises exactly when its sandbox or its
   * cleanup does. Only in a plain run, where cleaning up comes first, does it matter which of the cleanups raised.
   */
  method RunBothJudges(
      executorSide: Submission, inlineSide: Submission, job: Job, executorCleanup: bool, inlineCleanup: bool)
      returns (executorRaised: bool, inlineRaised: bool)
    requires job.Valid() && executorSide != inlineSide && executorSide.Stored() == inlineSide.Stored()
    modifies executorSide, inlineSide
    ensures job.cases != [] || executorCleanup == inlineCleanup ==>
      VerdictOf(executorSide.Stored()) == VerdictOf(inlineSide.Stored())
    ensures executorRaised <==> Judge(job).None? || CleanupRaises(job, executorCleanup)
    ensures inlineRaised <==> Judge(job).None? || CleanupRaises(job, inlineCleanup)
  {
    hide Finalized, Judge;
    ghost var row := executorSide.Stored();
    TwoJudgesAgree(row, job, executorCleanup);
    var sent: Option<Report>;
    sent, executorRaised := GradeSubmission(job, true, executorCleanup);
    if sent.Some? {
      executorSide.Finalize(sent.value);
    }
    inlineRaised := inlineSide.ExecuteInline(job, inlineCleanup);
  }

  // ----- applying a report again

  /**
   * The reports that a second application can change: the stored total is 0, the report brings no total, and
   * the first application replaces that 0 by the question's case count after the clamp was passed.
   */
  predicate Drifts(row: Row, report: Report) {
    && row.question.Some? && row.total == 0 && !report.total.Number?
    && var q := row.question.value;
      var passed := ParseNonNegativeInt(report.passed, row.passed);
      || passed > CountOf(q)
      || (report.passed.Number? && passed == 0 && report.status == Success && OutputMatches(q, report.output))
  }

  /** Applying a report twice is the same as applying it once, exactly when it does not drift. */
  lemma FinalizeIdempotentIff(row: Row, report: Report)
    ensures Finalized(Finalized(row, report), report) == Finalized(row, report) <==> !Drifts(row, report)
  {
    hide NormalizeJudgeOutput, TestcaseCount;
  }

  /** No row of a question drifts if it was created with a case count, or once it was finalised. */
  lemma DriftsOnlyAtFirst(row: Row, report: Report, again: Report)
    requires row.question.Some?
    ensures row.total >= 1 ==> !Drifts(row, report)
    ensures !Drifts(Finalized(row, report), again)
  {
    hide NormalizeJudgeOutput, TestcaseCount;
  }

  /** A report that drifts: a question row stored with total 0, updated with passed 0 and a matching output. */
  lemma DriftingReport(q: Question)
    ensures var row, report := NewRow(Some(q), 0), Report(Success, q.expectedOutput, 0, Number(0), Missing);
      var once := Finalized(row, report);
      var twice := Finalized(once, report);
      once.status == Passed && twice.status == WrongAnswer && twice.passed == 0 && once.passed == once.total >= 1
  {
    hide NormalizeJudgeOutput, TestcaseCount;
  }

  /** A stored row whose counts are in step, as the web tier creates it. */
  predicate Steady(row: Row) {
    row.passed <= row.total
  }

  /** A report carries both counts or neither. */
  predicate BothOrNeither(report: Report) {
    report.passed.Number? <==> report.total.Number?
  }

  /** A report with both counts or neither never drifts on a steady row, and leaves the row's verdict settled. */
  lemma SecondApplicationChangesNothing(row: Row, report: Report)
    requires Steady(row) && BothOrNeither(report)
    ensures Finalized(Finalized(row, report), report) == Finalized(row, report)
  {
    hide NormalizeJudgeOutput, TestcaseCount;
    FinalizeIdempotentIff(row, report);
  }

  /** Applies a report `n` times. */
  function Repeated(row: Row, report: Report, n: nat): Row {
    if n == 0 then row else Finalized(Repeated(row, report, n - 1), report)
  }

  /** Any positive number of deliveries of one report leaves the row that one delivery leaves. */
  lemma {:induction false} RepeatedDelivery(row: Row, report: Report, n: nat)
    requires Steady(row) && BothOrNeither(report) && n > 0
    ensures Repeated(row, report, n) == Finalized(row, report)
  {
    hide Finalized;
    if n > 1 {
      RepeatedDelivery(row, report, n - 1);
      SecondApplicationChangesNothing(row, report);
    }
  }

  /** The verdict that a report stores depends on the row's verdict and question only, and on no recorded time. */
  lemma TimeIsIrrelevant(row: Row, row': Row, report: Report, timeMs: nat)
    requires row.question == row'.question && VerdictOf(row) == VerdictOf(row')
    ensures VerdictOf(Finalized(row, report.(timeMs := timeMs))) == VerdictOf(Finalized(row', report))
    ensures Finalized(row, report).question == row.question
  {
    hide NormalizeJudgeOutput, TestcaseCount;
  }

  /** Reports as the executor sends them: both counts with a positive total, or neither. */
  predicate WellCounted(report: Report) {
    BothOrNeither(report) && (report.total.Number? ==> report.total.n > 0)
  }

  lemma ReportsAreWellCounted(job: Job)
    requires job.Valid() && ExecutorReport(job).Some?
    ensures WellCounted(ExecutorReport(job).value)
  {
    hide NormalizeJudgeOutput, CleanPrefix;
  }

  lemma FinalizedIsSteady(row: Row, report: Report)
    requires Steady(row) && WellCounted(report)
    ensures Steady(Finalized(row, report))
  {
    hide NormalizeJudgeOutput, TestcaseCount;
  }

  /**
   * A row that no report has touched, or that some deliveries of `report` have, ends with the verdict of
   * a single delivery however many more deliveries follow.
   */
  lemma MoreDeliveries(first: Row, row: Row, report: Report, timeMs: nat, n: nat)
    requires Steady(first) && WellCounted(report) && n > 0 && row.question == first.question
    requires VerdictOf(row) == VerdictOf(first) || VerdictOf(row) == VerdictOf(Finalized(first, report))
    ensures VerdictOf(Repeated(row, report.(timeMs := timeMs), n)) == VerdictOf(Finalized(first, report))
    ensures Repeated(row, report.(timeMs := timeMs), n).question == first.question
  {
    hide Finalized, Repeated;
    var sent := report.(timeMs := timeMs);
    FinalizedIsSteady(first, report);
    RepeatedDelivery(row, sent, n);
    TimeIsIrrelevant(first, first, report, timeMs);
    TimeIsIrrelevant(row, row, sent, timeMs);
    if VerdictOf(row) == VerdictOf(first) {
      TimeIsIrrelevant(row, first, report, timeMs);
    } else {
      TimeIsIrrelevant(row, Finalized(first, report), report, timeMs);
      SecondApplicationChangesNothing(first, report);
    }
  }
}
