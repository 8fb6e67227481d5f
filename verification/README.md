# Verification of Judge Vortex's judging path

This Dafny project models the path that a submission takes in Judge Vortex from the Kafka log to the
stored verdict, and proves what that path promises. `dafny verify dfyconfig.toml` checks all of it.

## What is modelled

- **Commit tracking** (`CommitTracking`, `CommitSafety`): the executor's `CommitTracker`, as a class over
  maps and sets proved equal to one function per partition (`Mark`), and what any sequence of completions does
  to the broker's committed offset when commits succeed, fail, or fail after being applied.
- **Delivery** (`Callbacks`, `Delivery`, `DeliverySafety`, `DeliveryEffects`, `Retries`, `GradeTask`): a step system of logs,
  broker offsets, trackers, gradings in flight, database rows and dead letters, with crashes at any point.
  `GradeTask` is `run_grade_task` as code, proved to move only along legal runs of that system.
- **Grading and verdicts** (`Grading`, `Verdicts`, `VerdictLaws`): the executor's loop, the web tier's inline
  twin and `finalize_submission_result`, as methods proved against one definition of a job's judgement.
- **Testcase text** (`Text`, `LineEndings`, `Judging`, `CaseBlocks`, `Testcases`, `OutputEdits`): output normalisation,
  block splitting by regex, testcase building, the teacher dashboard's serialiser that prints what the builder parses,
  and the edits of output that a verdict forgives.
- **Sandbox boxes** (`BoxPool`): every exit path of preparing and running one execution, as code that moves the pool of
  boxes, and that pool under every interleaving of such code.
- **Workspaces** (`Workspace`, `WorkspaceLaws`): path sanitising and file normalisation in the web tier and again
  in the sandbox.
- **Main loop and autoscaler** (`Worker`, `Autoscaler`): pause and resume backpressure, lag, replica counts, cooldown.

Outcomes of Kafka, HTTP, subprocesses and the clock are parameters: every event, script or reply that the source
could see is quantified over. The assumptions are: offsets of a partition are contiguous; a partition has one owner
per incarnation and its cached offset is never invalidated by a rebalance; one send appends at most one message; a
completion runs under the tracker's lock, so it is one step; sandbox results are a function of the job, but whether
cleaning up after it raises may differ from grading to grading; a submission's question does not change between
deliveries; creating a submission's row and appending its first message are one step.

## Where the code does not do what it says

- The docstring of `CommitTracker` (executor_service/main.py:42) promises commits only after grading is durably
  finished. On a partition with no committed offset the baseline is the first offset to *complete*
  (executor_service/main.py:55-57), not the first delivered. `DeliverySafety.NeverLosesIffSeeded` is the exact
  condition, at the start and in every state that satisfies the invariant: no legal continuation loses a submission if
  and only if every partition has a committed offset. `DeliverySafety.UnseededCanLose` gives the run that loses one, on
  any partition that has none; `CommitSafety.BaselineCharacterised` says the same of one tracker. Without that
  condition `DeliverySafety.NoSubmissionIsLost` covers the runs called disciplined below: a completion that fixes a
  baseline with nothing committed comes after everything below it is resolved.
- A verdict that was acknowledged is not always the last word. `prepared.cleanup()` runs in a `finally` after the callback
  (executor_service/grader.py:132-133), and when it raises the handler publishes the message again although the verdict
  is stored: `DeliveryEffects.AcknowledgedIsOverwritten` is the run that replaces an acknowledged PASSED by SYSTEM_ERROR
  at the attempt limit, `DeliveryEffects.AcknowledgedIsRetried` the one that sends it once more below the limit. A first
  mark that raises leads there too (`DeliveryEffects.FailedMarkForgets`), and a crash between callback and commit has
  the message delivered again (`DeliverySafety.RestartRedelivers`). `GradeTask.Executor.RunGradeTask` says exactly when
  a message is published again, and the exactly-once results hold through all of this. The inline judge raises after
  the row was finalised in the same way (`Verdicts.Submission.ExecuteInline`).
- A report that says PASSED itself is stored as PASSED without a run, with no marks (`VerdictLaws.PassedWithoutARun`);
  the update endpoint takes any status (core_api/views.py:1422). `VerdictLaws.OnlyPassedEarnsMarks` is the exact law for
  all reports.
- Applying one report twice is not always the same as applying it once: `VerdictLaws.FinalizeIdempotentIff` says exactly
  when it is. `VerdictLaws.DriftingReport` is one that drifts: an update with a passed count alone, on a question's row
  whose stored total is 0. The column defaults to 0 (core_api/models.py:154) and older rows have it, but
  `VerdictLaws.DriftsOnlyAtFirst` shows that no row drifts that was created with a case count, as the web tier creates a
  question's rows, or that was finalised before.
- The stored passed count can exceed the stored total; `VerdictLaws.CountsInStepIff` says exactly when. In
  `VerdictLaws.CountsOutOfStep` an update brings a passed count alone for a submission with no question and no cases.
- A path such as `/ a` is accepted as ` a`, which the sandbox then sanitises to `a`
  (`WorkspaceLaws.SlashHidesWhitespace`); `WorkspaceLaws.AcceptedWorkspaceReachesSandboxIff` says exactly when the sandbox
  writes the workspace that the web tier accepted.
- A lone carriage return before an empty line that ends in a newline reads as one line ending
  (`LineEndings.SameLinesIff`): the three lines of `LineEndings.FusedEndings` are read as two.
  `OutputEdits.OutputEditsAreForgivenIff` says exactly when the judge still compares the same text, and
  `VerdictLaws.ForgivenEditsKeepTheVerdict` that then nothing stored changes but the output.
- One testcase is not always saved as one: input and output with the same number of blocks, two or more, are built as
  that many cases (`Testcases.OneCaseReadAsTwo`). `Testcases.CaseRoundTripIff` says for every list of cases whether it comes back.

## Model

| member | source | states |
|---|---|---|
| CommitTracking.CommitTracker.GetNextCommitOffset | executor_service/main.py:50-60 | the cached next offset, else the broker's committed offset, else the completing offset itself; the answer is cached, a failed lookup changes nothing |
| CommitTracking.CommitTracker.ScanFrom | executor_service/main.py:69-71 | the scan ends at the least offset from `next` on that is not completed |
| CommitTracking.CommitTracker.DiscardRange | executor_service/main.py:81-82 | exactly the committed range leaves the completed set, other partitions keep theirs |
| CommitTracking.CommitTracker.MarkCompleted | executor_service/main.py:62-83 | moves its partition's view by `Mark` for every broker reply, raises exactly when a needed lookup or a due commit fails, and touches no other partition |
| CommitTracking.MarkRaisesIff | executor_service/main.py:50-79 | a completion raises if and only if there is no cached offset and the lookup fails, or a commit is due and does not succeed; one that fills no gap returns normally |
| CommitTracking.MarkMoves | executor_service/main.py:64-83 | what every completion does to next offset, recorded set and broker, in terms of the counting offset and the first gap, for each way the broker answers |
| CommitSafety.MarkTracks | executor_service/main.py:62-83 | one completion keeps the tracker equal to what was recorded, never moves the broker back, and catches up when its commit succeeds |
| CommitSafety.RunTracks | executor_service/main.py:41-83 | after any completions the retained set is the recorded offsets from `next` on, and the broker stands between `next` and the first gap |
| CommitSafety.CommitIsSafe | executor_service/main.py:42-83 | with a committed offset at first use, the broker's offset is never below it and never above the first offset not completed, whatever commits fail or are applied but lost |
| CommitSafety.CommitIsMonotone | executor_service/main.py:62-83 | one more completion never lowers the committed offset |
| CommitSafety.SuccessCatchesUp | executor_service/main.py:69-83 | a successful commit makes good all failed ones: broker and tracker stand at the least offset not completed and exactly the completed offsets above it are retained |
| CommitSafety.CompletionHistoryIsIrrelevant | executor_service/main.py:62-83 | two runs that recorded the same offsets and end in a successful commit leave the same view, whatever failed before and in whatever order |
| CommitSafety.CompletionOrderIsIrrelevant | executor_service/main.py:62-83 | with successful commits, two completion orders of the same offsets end in the same view |
| CommitSafety.BaselineCharacterised | executor_service/main.py:50-66 | with no committed offset, every continuation is safe if and only if the first offset to complete is the lowest delivered |
| GradeTask.Executor.RunGradeTask | executor_service/main.py:190-259 | for every outcome script, grading to its end is a legal run that ends final and consists of exactly the steps of `Task`; it publishes again exactly when the callback failed, the sandbox's cleanup raised, a needed lookup failed or a due commit failed: a retry below the limit and a dead letter at it |
| GradeTask.Executor.HandleError | executor_service/main.py:239-247 | the handler does exactly the steps of `Handling`: a retry if and only if the attempt is below the limit, else a dead letter, which then holds the message, and the SYSTEM_ERROR callback; a mark only when all of that succeeded |
| GradeTask.OthersLeaveTask | executor_service/main.py:297-321 | no step of another task, of the web tier or of the consumer changes a delivered task's message, stage or row's presence |
| GradeTask.TasksRunTheCode | executor_service/main.py:190-259 | in every legal run, until its partition is restarted, each task's steps are a prefix of one `run_grade_task`, for some script, and all of it when it is over |
| GradeTask.TaskCanGoOn | executor_service/main.py:213-256 | no delivered task is stuck: until it is over it has a next step even when all that it awaits fails |
| Callbacks.PatchDjango | executor_service/grader.py:15-30 | the loop of three requests: how often the callback is applied, and whether it is acknowledged |
| Callbacks.CalledIsPossible | executor_service/grader.py:15-30 | whatever three requests meet, the callback is one that the protocol allows |
| Callbacks.PossibleIsCalled | executor_service/grader.py:15-30 | and each callback that the protocol allows can come of three requests |
| DeliverySafety.MarkLocal | executor_service/main.py:62-83 | inside the protocol a mark keeps the tracker's numbers, never lowers the committed offset, and lets nothing new pass but the marked offset and, when it fixes the baseline with nothing committed, the offsets below it |
| DeliverySafety.RetryKeeps | executor_service/main.py:137-149 | a retry, on any partition and confirmed or not, keeps the invariant; it is what resolves the message it repeats |
| DeliverySafety.CrashKeeps | executor_service/main.py:261-272 | a restart of any set of partitions keeps the invariant and every committed offset |
| DeliverySafety.StepKeeps | executor_service/main.py:129-259 | every step of the protocol keeps the invariant, and logs, acknowledgements and created submissions only grow |
| DeliverySafety.ChainIsAlive | executor_service/main.py:137-149 | following retries across partitions from any message ends at an acknowledged verdict or a message still to be consumed |
| DeliverySafety.NoSubmissionIsLost | executor_service/main.py:213-246 | in every state that a disciplined run reaches each created submission has an acknowledged verdict or a message at or above its partition's committed offset |
| DeliverySafety.RestartRedelivers | executor_service/main.py:105-120 | after a restart every message at or above the committed offset is delivered again, unchanged |
| DeliverySafety.EverySubmissionCanBeGraded | executor_service/main.py:190-246 | from every state that a disciplined run reaches, a submission without an acknowledged verdict still has a continuation that delivers it for grading with its original work |
| DeliverySafety.CommittedOffsetsAreResolved | executor_service/main.py:42-83 | in disciplined runs every offset below a committed offset has an acknowledged verdict or a later attempt |
| DeliverySafety.CommittedNeverMovesBack | executor_service/main.py:62-83 | no legal run, disciplined or not, lowers a committed offset or commits past what was delivered, through crashes and lost replies |
| DeliverySafety.StepAdvances | executor_service/main.py:62-259 | every step keeps the tracker's numbers on every partition and lowers no committed offset |
| DeliverySafety.SeededNeverLoses | executor_service/main.py:50-60 | from every state that satisfies the invariant with a committed offset on every partition, no legal continuation at all loses a submission |
| DeliverySafety.NeverLosesIffSeeded | executor_service/main.py:50-83 | from every state that satisfies the invariant, the start included, no legal continuation loses a submission if and only if every partition has a committed offset |
| DeliverySafety.UnseededCanLose | executor_service/main.py:55-57 | on any partition with nothing committed, whatever its log, a concrete legal run loses a submission: the last offset finishes first after a restart and its commit passes the one before it |
| DeliveryEffects.StepKeepsEffect | executor_service/main.py:137-246 | every step leaves each row as created or with the verdict of one grading, unless a dead-letter callback reached it; retries carry the work unchanged |
| DeliveryEffects.ExactlyOnceEffect | executor_service/main.py:139-246 | redeliveries, retries, lost callbacks and crashes leave the stored verdict of a single grading; an acknowledged verdict is that one |
| DeliveryEffects.DeliveredVerdictIsSound | core_api/views.py:1415-1434 | over whole runs, an acknowledged verdict not replaced by a dead-letter callback is PASSED exactly when every case ran cleanly and matched, with matching marks and counts |
| DeliveryEffects.CreatedArePending | core_api/views.py:1273-1283 | every submission was created pending, with its cases counted, none passed and nothing earned |
| DeliveryEffects.RejectedVerdict | executor_service/main.py:213-224 | over whole runs, an acknowledged submission in a language that the executor does not take is stored as SYSTEM_ERROR without marks |
| DeliveryEffects.AcceptedLanguage | executor_service/main.py:214-226 | any other language is graded: what is sent is the job's own report, if its cleanup leaves one |
| DeliveryEffects.DeadLetterStep | executor_service/main.py:163-176 | a step appends exactly its message to the dead letters when it is a dead-letter send that reached the log, and nothing otherwise |
| DeliveryEffects.OverwrittenIsDeadLettered | executor_service/main.py:239-246 | through crashes and lost replies, dead letters are last attempts of created submissions with their own work, and every submission that a dead-letter callback reached is among them |
| DeliveryEffects.EverySubmissionCanBeAcknowledged | executor_service/main.py:190-246 | from every state that a disciplined run reaches, a submission without an acknowledged verdict has a continuation that acknowledges it with the verdict of a single grading |
| DeliveryEffects.AcknowledgedIsOverwritten | executor_service/grader.py:132-133 | at the attempt limit, a concrete legal run in which a verdict is stored as PASSED and acknowledged, the cleanup raises, and SYSTEM_ERROR without marks replaces it |
| DeliveryEffects.AcknowledgedIsRetried | executor_service/grader.py:132-133 | below the limit, the same ends with the submission's next attempt in the log |
| DeliveryEffects.FailedMarkForgets | executor_service/main.py:226-229 | a first mark that raises hands the acknowledged message to the same handler |
| Retries.StepSpends | executor_service/main.py:129-259 | every step of a crash-free run other than a submission strictly lowers the steps still to come |
| Retries.StepPaysForGradings | executor_service/main.py:138-149 | a delivery for grading is paid from the attempts still to come, which only a submission adds to |
| Retries.RunSpends | executor_service/main.py:190-259 | a crash-free run without submissions is no longer than the steps its start state allows |
| Retries.GradedAtMostTheLimit | executor_service/main.py:239-246 | without crashes a submission is delivered for grading at most MAX_DELIVERY_ATTEMPTS times |
| Retries.LimitIsNeverPassed | executor_service/main.py:129-146 | in every reachable state no message is past the limit and none at the limit can be re-published |
| Grading.CleanPrefix | executor_service/grader.py:100-126 | the number of leading cases that ran cleanly and matched, characterised by its first failure |
| Grading.RunCases | executor_service/grader.py:100-131 | the loop's report: status, output and counts of the first case that is not a clean match, and the time of the runs made |
| Grading.GradePrepared | executor_service/grader.py:99-133 | judge cases send the judgement read off the first case that is not a clean match; an exception leaves exactly when a run or the callback raised, or the cleanup in the `finally` did |
| Grading.GradeSubmission | executor_service/grader.py:52-157 | both branches send exactly the job's report or none; an exception leaves exactly when there is none, it is not acknowledged or the cleanup raises, which in a plain run comes before the report |
| Grading.ReportNamesTheEnding | executor_service/grader.py:87-157 | status by status, a report names how preparation, the first run that is no clean match or the plain run ended, with its output or the timeout text |
| Grading.ReportsIff | executor_service/grader.py:79-143 | there is a report unless preparing or the deciding run raised |
| Grading.ReportCounts | executor_service/grader.py:32-39 | counts go with judge cases only: clean matches before the end, and the number of cases |
| Grading.ReportedTime | executor_service/grader.py:102-149 | the reported time adds up all runs made; a plain timeout counts its limit |
| Grading.OutputEditsKeepTheJudgement | executor_service/grader.py:118-157 | output edits that normalisation forgives, in judge cases or a plain run, change neither status nor counts nor the normalised output of the report |
| Verdicts.Submission.Finalize | core_api/views.py:345-409 | the stored row after a report, in all branches: counts parsed with the stored ones as default, clamp, verdict, marks, time kept when none is reported |
| Verdicts.Submission.ExecuteCasesInline | core_api/views.py:493-557 | the inline loop stores the same judgement as the definition shared with the executor, with its own time, and may raise in its `finally` after storing it |
| Verdicts.Submission.ExecuteInline | core_api/views.py:467-595 | every branch of the inline judge finalises that judgement once or not at all; it raises exactly when nothing could be judged or the cleanup raised |
| VerdictLaws.StoredVerdictIsSound | core_api/views.py:346-409 | PASSED if and only if preparation succeeded and every case ran cleanly and matched; marks go with PASSED only; counts are the clean matching prefix and the number of cases |
| VerdictLaws.FailureNamesTheFirstBadCase | executor_service/grader.py:105-126 | any other verdict names the first case that failed, with every earlier case clean: its output or the timeout text, and its status by the table of run statuses |
| VerdictLaws.FailureIsStored | core_api/views.py:345-409 | a job that did not end in a clean run is stored with the status and output of its ending, status by status, and earns nothing |
| VerdictLaws.StoredCounts | core_api/views.py:346-401 | the stored counts for every row and report: a positive total kept and capping the passed count, else the question's number of cases, all or none when a clean run brings no counts |
| VerdictLaws.CountsAreParsed | core_api/views.py:346-353 | a given number counts, not below 0; what is missing or unreadable leaves the stored count |
| VerdictLaws.StoredTime | core_api/views.py:408 | a reported time replaces the stored one, and 0 does not |
| VerdictLaws.TimesOfTheJudges | core_api/views.py:500-575 | both judges report one time, but a timeout counts the limit in a plain run or when nothing was spent |
| VerdictLaws.OnlyPassedEarnsMarks | core_api/views.py:358-401 | for every row and report, marks are earned exactly by a clean run of a question with all counts in; PASSED is stored for such a run and for a report that says so itself |
| VerdictLaws.PassedWithoutARun | core_api/views.py:358-406 | a concrete report that is stored as PASSED with no case passed and no marks |
| VerdictLaws.OutputEditsKeepTheVerdict | core_api/views.py:378-389 | two reports that differ in output with equal normal forms store the same status, marks and counts, with and without counts |
| VerdictLaws.ForgivenEditsKeepTheVerdict | core_api/views.py:345-409 | forgiven edits of the output of any runs of a job change nothing that is stored but the output |
| VerdictLaws.CountsInStepIff | core_api/views.py:355-401 | the stored passed count is within the stored total except exactly when the effective total is 0 and the passed count exceeds the case count |
| VerdictLaws.CountsOutOfStep | core_api/views.py:355-401 | a concrete update that stores one passed case of none |
| VerdictLaws.RunBothJudges | executor_service/grader.py:52-157 | the two imperative judges, run on equal rows, leave equal verdicts, and each raises exactly when its sandbox or cleanup does |
| VerdictLaws.FinalizeIdempotentIff | core_api/views.py:346-408 | applying a report twice equals applying it once if and only if it is not one of the drifting count combinations |
| VerdictLaws.DriftsOnlyAtFirst | core_api/views.py:361-401 | a question's row never drifts if it was created with a case count, or once any report has finalised it |
| VerdictLaws.DriftingReport | core_api/views.py:377-391 | a concrete report that stores PASSED when applied once and WRONG_ANSWER when applied twice |
| VerdictLaws.RepeatedDelivery | executor_service/grader.py:15-30 | any positive number of deliveries of a report with both counts or neither leaves the row that one leaves |
| VerdictLaws.MoreDeliveries | core_api/views.py:1415-1434 | after earlier deliveries, more of them leave the verdict of a single delivery, whatever time they report |
| Judging.TrimLinesIsSplitJoin | shared/judging.py:8-9 | splitting into lines, right-stripping each and joining is one pass that drops whitespace before line ends |
| Judging.NormalizeIdempotent | shared/judging.py:4-9 | output normalisation is idempotent |
| Judging.NormalizeKeepsInk | shared/judging.py:4-9 | normalisation drops and replaces whitespace only; all other characters stay, in order |
| Judging.NormalFormIff | shared/judging.py:4-9 | output is left alone if and only if it has no carriage return, no surrounding whitespace and no whitespace before a line end; normalised output always is such |
| CaseBlocks.SeparatorLengthIsLongestMatch | shared/judging.py:19 | the scanned separator is the longest prefix in the language of the regex, and absent exactly when no prefix is |
| CaseBlocks.ParsedBlocksAreClean | shared/judging.py:12-21 | whatever the text, the parsed blocks have no separator, no blank block and no stray newline at the ends |
| CaseBlocks.BlocksRoundTripIff | shared/judging.py:12-21 | printing blocks with blank lines between and parsing gives them back if and only if the list is clean |
| CaseBlocks.NormalizedBlocksAreClean | shared/judging.py:26-29 | normalised output blocks are clean again and already normalised |
| Testcases.OutputBlocksOfNormalized | shared/judging.py:26-29 | an expected output and its normalised form have the same normalised blocks |
| Testcases.ResaveIsStable | templates/teacher-dashboard.html:463-468 | for every question text, building, printing with the dashboard's two serialiser functions and building again gives the same testcases, in both branches |
| Testcases.NoCasesAreOneBlankCase | templates/teacher-dashboard.html:417-420 | a question without testcases is shown, printed and built as one blank case |
| Testcases.CaseRoundTrip | templates/teacher-dashboard.html:463-468 | two or more cases without carriage returns and blank lines come back in order, outputs normalised |
| Testcases.CaseRoundTripIff | shared/judging.py:24-43 | for every list of cases, printing and building gives it back, outputs normalised, if and only if one case does not look like several, or two or more have clean inputs and outputs of one block each |
| Testcases.PrintedOutputsIff | shared/judging.py:12-29 | printed outputs come back normalised, one block each, if and only if each output is one block |
| Testcases.OutputBlocksOfTwo | shared/judging.py:12-29 | the blocks of two outputs with a blank line between are those of the first and then those of the second, for all texts |
| Testcases.OneCaseReadAsTwo | shared/judging.py:30-38 | a concrete case that is built as two |
| LineEndings.SameLinesIff | shared/judging.py:8 | any mix of line endings reads as the same lines if and only if no carriage return fuses with a later newline |
| LineEndings.FusedEndings | shared/judging.py:8 | three written lines that are read as two |
| LineEndings.NewlinesConcat | shared/judging.py:8 | the line endings of two texts are replaced on their own unless one ending lies across the seam |
| OutputEdits.OutputEditsAreForgivenIff | shared/judging.py:4-9 | changed line endings and trailing whitespace added to any lines leave the normalised output as it was if and only if no line inside the output is lost to fused endings |
| BoxPool.TryPrepare | executor_service/sandbox.py:539-613 | inside the `try` the box is put back exactly on the paths that return an error, and on no path that raises |
| BoxPool.ExitsByCause | executor_service/sandbox.py:539-619 | each way out of preparation happens exactly for its own cause, and an execution is prepared exactly when nothing failed |
| BoxPool.PrepareIsolate | executor_service/sandbox.py:527-619 | the code moves the pool by steps of its task alone; success holds the first free box, and whichever way out its script takes, the queue then has the pool's free boxes again |
| BoxPool.RunInSandbox | executor_service/sandbox.py:729-744 | whatever raises, the task does the steps of its script and is over, the queue has the pool's free boxes, which are the same ids as before, the used one last |
| BoxPool.TasksRunTheCode | executor_service/sandbox.py:527-619 | in every interleaving of a pool each task's steps are a prefix of one execution of that code, for some script, and all of it when the task is over |
| BoxPool.StepConserves | executor_service/sandbox.py:112-142 | every step of any task keeps every id free once or held by one task |
| BoxPool.BoxesAreConserved | executor_service/sandbox.py:112-114 | under every interleaving, free and held ids are exactly 0 to ISOLATE_BOXES - 1, each once |
| BoxPool.NoSharedBox | executor_service/sandbox.py:527-619 | two executions that hold the same box are the same execution |
| BoxPool.GetNeverWaits | executor_service/sandbox.py:537 | with at least as many boxes as executor slots, asking for a box never waits |
| BoxPool.IdlePoolIsFull | executor_service/sandbox.py:126-142 | when no execution holds a box, all boxes are free again |
| Workspace.LastWinsSpec | core_api/views.py:269-273 | the surviving files are the last occurrences of their paths, in the order of those occurrences |
| Workspace.CollectFiles | core_api/views.py:259-273 | the in-place loop yields exactly the last occurrences, or the failure of the first refused file |
| Workspace.NormalizeSubmissionFiles | core_api/views.py:245-294 | result in terms of last occurrences among the first 32 files, pinned by the laws below; the "not found" error is never raised |
| Workspace.NormalizeWorkspaceFiles | executor_service/sandbox.py:372-395 | the sandbox's loop yields the last occurrences of the usable files, with the entry file in front when missing |
| WorkspaceLaws.SanitizedIsSafe | executor_service/sandbox.py:361-369 | a path is accepted if and only if its stripped form is safe, and then that form is returned |
| WorkspaceLaws.SafePathIff | core_api/views.py:230-237 | safe means: not empty, no backslash, neither `.` nor `~` in front, no part empty, `.` or `..` |
| WorkspaceLaws.CandidateIsAStretch | executor_service/sandbox.py:362 | a candidate is a stretch of the given path with backslashes read as slashes; only whitespace and slashes are cut off around it |
| WorkspaceLaws.BackslashesAreSlashes | executor_service/sandbox.py:362 | both sanitisers treat a backslash as a slash |
| WorkspaceLaws.WebSanitizerIsTheShorterOne | core_api/views.py:228-242 | the web sanitiser is the sandbox's with a limit of 180 characters |
| WorkspaceLaws.SanitizedFixedPointIff | core_api/views.py:228-242 | a sanitised path sanitises to itself if and only if it has no surrounding whitespace |
| WorkspaceLaws.SlashHidesWhitespace | core_api/views.py:229 | a concrete accepted path that is not a fixed point |
| WorkspaceLaws.AcceptedWorkspace | core_api/views.py:245-294 | accepted paths are distinct, the entry file is among them and the code is its content |
| WorkspaceLaws.AcceptedIff | core_api/views.py:246-267 | a payload is accepted if and only if it is a list whose first 32 entries are objects with a safe path within the limit; otherwise the failure names what is wrong, for the first such entry |
| WorkspaceLaws.NoFilesKeepTheCode | core_api/views.py:284-294 | with no files the code is the one file and the returned code, under the sanitised request or else the default |
| WorkspaceLaws.EntryIsChosen | core_api/views.py:275-284 | with files the entry is the requested one if it is among them, else the default if that is, else the first |
| WorkspaceLaws.EntryFields | core_api/views.py:265-269 | an entry's path is its path, else its name; absent content is empty |
| WorkspaceLaws.SandboxEntry | executor_service/sandbox.py:372-395 | the sandbox's entry is the sanitised request or else the default, and the code is put in front under it when no usable file has it |
| WorkspaceLaws.DefaultFitsItsLanguage | core_api/views.py:66-94 | every language's default entry file passes the check that its suffix fits the language |
| WorkspaceLaws.AcceptedFilesAreLastOccurrences | core_api/views.py:261-273 | each accepted file is the last occurrence of its path among the first 32, with its content, in order |
| WorkspaceLaws.SandboxKeepsWorkspaceIff | executor_service/sandbox.py:372-395 | the sandbox reproduces files, order and entry file if and only if no path has surrounding whitespace |
| WorkspaceLaws.AcceptedWorkspaceReachesSandboxIff | executor_service/sandbox.py:398-412 | the same for every workspace that the web tier accepts |
| Worker.Executor.Iterate | executor_service/main.py:283-321 | one turn keeps the bound on active gradings, pauses exactly at the limit and receives messages exactly when below it with something on offer, one grading per message |
| Worker.ArrivalsOnlyBelowLimit | executor_service/main.py:284-295 | messages arrive if and only if fewer gradings than the limit are active and an assigned partition offers one |
| Worker.ArrivesInOrder | executor_service/main.py:284-298 | below the limit the loop receives the assigned records on offer, in order, up to a full poll |
| Worker.TasksAreCounted | executor_service/main.py:195-320 | over every run, active tasks are those that arrived and did not finish, and tasks inside the semaphore those that entered and did not |
| Worker.PauseIsLeft | executor_service/main.py:284-298 | from every bounded state the tasks can finish, and then the next turn resumes and receives what is on offer |
| Worker.BackpressureHolds | executor_service/main.py:283-321 | in every reachable state at most 2 * MAX - 1 are active and at most MAX are inside the semaphore |
| Worker.BoundIsReached | executor_service/main.py:283-321 | that bound is reached |
| Autoscaler.GetRouteLag | infrastructure/autoscaler/autoscale_executors.py:55-77 | the loop sums the non-negative distances from committed offset to end |
| Autoscaler.LagCountsOffsets | infrastructure/autoscaler/autoscale_executors.py:69-77 | whatever the brokers answer, the lag is exactly the number of offsets from the committed one up to the end, a missing or negative number counting as 0 |
| Autoscaler.LagCountsUncommitted | infrastructure/autoscaler/autoscale_executors.py:55-77 | on a state of the delivery protocol the lag is exactly the number of messages at or above their partition's committed offset |
| Autoscaler.LagBoundsUnresolvedMessages | infrastructure/autoscaler/autoscale_executors.py:69-77 | in every state that a disciplined run reaches the lag is at least the number of unresolved messages |
| Autoscaler.DesiredIsLeastCovering | infrastructure/autoscaler/autoscale_executors.py:120-125 | the desired count is within the limits and the least there that covers the lag, or the upper limit when none does |
| Autoscaler.DesiredIsMonotone | infrastructure/autoscaler/autoscale_executors.py:120-125 | more lag never asks for fewer replicas |
| Autoscaler.LimitsAreRead | infrastructure/autoscaler/autoscale_executors.py:113-122 | the limits are the environment's numbers, none below 0, the upper not below the lower, 1 and 4 when unreadable |
| Autoscaler.Scaler.Evaluate | infrastructure/autoscaler/autoscale_executors.py:139-153 | a scaling means that the count was off and the cooldown over, and notes its time; without one nothing is noted and, if the count was off, the cooldown was still running; other services keep theirs |
| Autoscaler.ScalingsAreApart | infrastructure/autoscaler/autoscale_executors.py:139-153 | two scalings of one service are at least the cooldown apart, even with a clock set back in between |
| Autoscaler.ScalesExactlyWhenCooledDown | infrastructure/autoscaler/autoscale_executors.py:139-153 | a service is scaled if and only if its count is off and the cooldown has passed since each earlier scaling of it, or since the clock's zero when it had none |

## Left out

- Kafka, HTTP, subprocess, filesystem and asyncio internals; only how each awaited action ends is modelled.
- Partition rebalances, offset gaps from compaction, cancellation and thread-safety of the consumer; the code does not handle them.
- Liveness: a callback that never succeeds (a deleted submission answers 404) leaves its offset uncompleted.
- Permanence of PASSED: a commit failure or a raising cleanup on the last attempt dead-letters the message and overwrites the row with SYSTEM_ERROR, so the exactly-once results exclude submissions that a dead-letter callback reached.
- The fields that a retry or dead letter adds for diagnosis (last error, topic, partition, offset, times); nothing reads them.
- The queue-failed branch of `perform_create` (core_api/views.py:1372-1394), which can store SYSTEM_ERROR over a row whose message was appended all the same.
- A teacher's change to the question between two deliveries.
- Delivery to two topics: one topic with its partitions is modelled; the two executor families do not share one.
- The exact text of the route-mismatch output, which names the executor and the language; one constant stands for it.
- `_meta_time_ms` raising on an infinite time after a compile timeout, which would put one box back twice; the times in the metadata are assumed finite.
- Worker.Executor.Iterate: counts active gradings instead of holding their set, and the assignment is fixed and non-empty.
- Testcases.ResaveIsStable: does not model the textareas and `collectQuestionTestcases` (templates/teacher-dashboard.html:428-461), where the browser replaces carriage returns and drops a leading newline, outputs are trimmed and blank cases filtered before printing.
- Verdicts.Submission.Finalize: metrics, the audit event, suspicion detection and the websocket message are not modelled.
- Non-string path, name and content values of a file entry, which the source turns into strings first.
- Autoscaler.DesiredIsLeastCovering: the division is exact; Python divides in floating point before rounding up.
- Lower-casing of an entry file before its suffix is looked up; `Inferred` takes the path as it is.
- Throttling, configuration, room codes, participant locks, routing tables, health checks, metrics and the templates apart from the dashboard's two serialiser functions; short guards or finite tables.
