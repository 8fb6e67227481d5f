/** Exactly-once effect: redeliveries, retries and crashes leave the stored verdict of a single grading. */
module DeliveryEffects {
  import opened Common
  import opened CommitTracking
  import opened Judging
  import opened Grading
  import opened Verdicts
  import opened VerdictLaws
  import opened Delivery
  import opened DeliverySafety

  /** The row is as created and unacknowledged, or holds the verdict of one delivery of its report. */
  predicate GradedAtMostOnce(cfg: Config, s: State, sid: SubmissionId)
    requires sid in s.created && sid in s.rows && s.created[sid].work.job.Valid()
  {
    var first, row := s.created[sid].row, s.rows[sid];
    var sent := SentReport(cfg, s.created[sid].work);
    || (VerdictOf(row) == VerdictOf(first) && sid !in s.acked)
    || (sent.Some? && VerdictOf(row) == VerdictOf(Finalized(first, sent.value)))
  }

  predicate RowInv(cfg: Config, s: State, sid: SubmissionId)
    requires sid in s.created
  {
    var c := s.created[sid];
    && sid in s.rows && c.work.job.Valid() && s.rows[sid].question == c.row.question
    && c.row == NewRow(c.row.question, |c.work.job.cases|)
    && (sid !in s.overwritten ==> GradedAtMostOnce(cfg, s, sid))
  }

  ghost predicate EffectInv(cfg: Config, s: State) {
    && MessageInv(cfg, s) && cfg.Valid()
    && (forall sid :: sid in s.created ==> RowInv(cfg, s, sid))
    && s.acked <= s.created.Keys
  }

  lemma SentIsWellCounted(cfg: Config, work: Work)
    requires work.job.Valid() && SentReport(cfg, work).Some?
    ensures WellCounted(SentReport(cfg, work).value)
  {
    hide ExecutorReport;
    if SentReport(cfg, work) == ExecutorReport(work.job) { ReportsAreWellCounted(work.job); }
  }

  // ----- messages

  /** A step's logs hold the old messages, a new submission's first message, or a retry of an old message. */
  lemma NewMessages(cfg: Config, s: State, e: Event, p: nat, off: nat)
    requires Enabled(cfg, s, e) && At(Apply(cfg, s, e), p, off)
    ensures var m := MsgAt(Apply(cfg, s, e), p, off);
      || (At(s, p, off) && m == MsgAt(s, p, off))
      || (e.Submit? && m == Message(e.sid, Number(1), e.work))
      || (e.Requeue? && m == Retry(MsgAt(s, e.p, e.off)))
  {
    hide SentReport, Repeated, NewRow, Mark, Retry;
  }

  lemma CreatedGrows(cfg: Config, s: State, e: Event)
    requires Enabled(cfg, s, e)
    ensures var s' := Apply(cfg, s, e);
      s'.created == if e.Submit? then
          s.created[e.sid := Created(NewRow(e.question, |e.work.job.cases|), e.work)]
        else s.created
  {
    hide SentReport, Repeated, NewRow, Mark;
  }

  lemma StepKeepsMessages(cfg: Config, s: State, e: Event)
    requires cfg.Valid() && MessageInv(cfg, s) && Enabled(cfg, s, e)
    ensures MessageInv(cfg, Apply(cfg, s, e))
  {
    hide NewRow, Apply;
    var s' := Apply(cfg, s, e);
    CreatedGrows(cfg, s, e);
    forall p, off | At(s', p, off) ensures GoodMessage(cfg, s', MsgAt(s', p, off)) {
      NewMessages(cfg, s, e, p, off);
      if At(s, p, off) { assert GoodMessage(cfg, s, MsgAt(s, p, off)); }
      if e.Requeue? { assert GoodMessage(cfg, s, MsgAt(s, e.p, e.off)); }
    }
  }

  // ----- rows

  /** A step that changes no table of submissions. */
  lemma OtherTablesStay(cfg: Config, s: State, e: Event)
    requires Enabled(cfg, s, e) && !e.Submit? && !e.Grade? && !e.Overwrite?
    ensures var s' := Apply(cfg, s, e);
      s'.created == s.created && s'.rows == s.rows && s'.acked == s.acked && s'.overwritten == s.overwritten
  {
    hide Mark;
  }

  /** One submission's tables changed. */
  lemma RowChanged(cfg: Config, s: State, s': State, sid: SubmissionId)
    requires EffectInv(cfg, s) && MessageInv(cfg, s')
    requires s'.created == s.created || (sid !in s.created && s'.created.Keys == s.created.Keys + {sid})
    requires forall x :: x in s.created && x != sid ==>
      && s'.created[x] == s.created[x] && x in s'.rows && s'.rows[x] == s.rows[x]
      && (x in s'.acked <==> x in s.acked) && (x in s'.overwritten <==> x in s.overwritten)
    requires sid in s'.created && RowInv(cfg, s', sid)
    requires s'.acked <= s.acked + {sid}
    ensures EffectInv(cfg, s')
  {
    hide SentReport, Finalized;
    forall x | x in s'.created ensures RowInv(cfg, s', x) {
      if x != sid { assert RowInv(cfg, s, x); }
    }
  }

  lemma GradeStep(cfg: Config, s: State, e: Event)
    requires EffectInv(cfg, s) && Enabled(cfg, s, e) && e.Grade? && MessageInv(cfg, Apply(cfg, s, e))
    ensures EffectInv(cfg, Apply(cfg, s, e))
  {
    hide SentReport, Finalized, Repeated;
    var m := MsgAt(s, e.p, e.off);
    var s' := Apply(cfg, s, e);
    assert GoodMessage(cfg, s, m) && RowInv(cfg, s, m.sid);
    if e.applied > 0 {
      var sent := SentReport(cfg, m.work).value;
      QuestionStays(s.rows[m.sid], sent.(timeMs := e.timeMs), e.applied);
      if m.sid !in s.overwritten {
        SentIsWellCounted(cfg, m.work);
        MoreDeliveries(s.created[m.sid].row, s.rows[m.sid], sent, e.timeMs, e.applied);
      }
    }
    RowChanged(cfg, s, s', m.sid);
  }

  lemma {:induction false} QuestionStays(row: Row, report: Report, n: nat)
    ensures Repeated(row, report, n).question == row.question
  {
    hide NormalizeJudgeOutput, TestcaseCount;
    if n > 0 { QuestionStays(row, report, n - 1); }
  }

  lemma OverwriteStep(cfg: Config, s: State, e: Event)
    requires EffectInv(cfg, s) && Enabled(cfg, s, e) && e.Overwrite? && MessageInv(cfg, Apply(cfg, s, e))
    ensures EffectInv(cfg, Apply(cfg, s, e))
  {
    hide SentReport, Finalized, Repeated;
    var m := MsgAt(s, e.p, e.off);
    assert GoodMessage(cfg, s, m) && RowInv(cfg, s, m.sid);
    QuestionStays(s.rows[m.sid], SystemErrorReport(e.error), e.applied);
    RowChanged(cfg, s, Apply(cfg, s, e), m.sid);
  }

  lemma SubmitStep(cfg: Config, s: State, e: Event)
    requires EffectInv(cfg, s) && Enabled(cfg, s, e) && e.Submit? && MessageInv(cfg, Apply(cfg, s, e))
    ensures EffectInv(cfg, Apply(cfg, s, e))
  {
    hide SentReport, Finalized;
    RowChanged(cfg, s, Apply(cfg, s, e), e.sid);
  }

  /** Every step, disciplined or not, keeps each row untouched or graded once. */
  lemma StepKeepsEffect(cfg: Config, s: State, e: Event)
    requires EffectInv(cfg, s) && Enabled(cfg, s, e)
    ensures EffectInv(cfg, Apply(cfg, s, e))
  {
    hide SentReport, Finalized, Apply, RowInv;
    StepKeepsMessages(cfg, s, e);
    match e
    case Submit(_, _, _, _) => SubmitStep(cfg, s, e);
    case Grade(_, _, _, _, _, _) => GradeStep(cfg, s, e);
    case Overwrite(_, _, _, _, _) => OverwriteStep(cfg, s, e);
    case _ =>
      OtherTablesStay(cfg, s, e);
      var s' := Apply(cfg, s, e);
      forall sid | sid in s'.created ensures RowInv(cfg, s', sid) {
        assert RowInv(cfg, s, sid);
        RowInvStays(cfg, s, s', sid);
      }
  }

  lemma RowInvStays(cfg: Config, s: State, s': State, sid: SubmissionId)
    requires sid in s.created && RowInv(cfg, s, sid)
    requires s'.created == s.created && s'.rows == s.rows && s'.acked == s.acked && s'.overwritten == s.overwritten
    ensures RowInv(cfg, s', sid)
  {
    hide SentReport, Finalized;
  }

  lemma {:induction false} RunKeepsEffect(cfg: Config, s: State, es: seq<Event>)
    requires EffectInv(cfg, s) && Legal(cfg, s, es)
    ensures EffectInv(cfg, Exec(cfg, s, es))
    decreases |es|
  {
    hide EffectInv, Apply;
    if es != [] {
      StepKeepsEffect(cfg, s, es[0]);
      RunKeepsEffect(cfg, Apply(cfg, s, es[0]), es[1..]);
    }
  }

  // ----- what a reader of the database may rely on

  /**
   * However often a submission is redelivered, retried or regraded across crashes, while no dead-letter
   * callback reached it its row is as created or holds exactly the verdict of one grading; once a
   * verdict is acknowledged it is the latter.
   */
  lemma ExactlyOnceEffect(cfg: Config, s0: State, es: seq<Event>, sid: SubmissionId)
    requires cfg.Valid() && Initial(s0) && Legal(cfg, s0, es)
    requires var s := Exec(cfg, s0, es); sid in s.created && sid !in s.overwritten
    ensures var s := Exec(cfg, s0, es);
      && sid in s.rows && s.created[sid].work.job.Valid()
      && var first, sent := s.created[sid].row, SentReport(cfg, s.created[sid].work);
        && (VerdictOf(s.rows[sid]) == VerdictOf(first)
          || (sent.Some? && VerdictOf(s.rows[sid]) == VerdictOf(Finalized(first, sent.value))))
        && (sid in s.acked ==> sent.Some? && VerdictOf(s.rows[sid]) == VerdictOf(Finalized(first, sent.value)))
  {
    hide SentReport, Finalized;
    assert EffectInv(cfg, s0);
    RunKeepsEffect(cfg, s0, es);
    assert RowInv(cfg, Exec(cfg, s0, es), sid);
  }

  /** Every submission was created pending, with its cases counted, none of them passed and nothing earned. */
  lemma CreatedArePending(cfg: Config, s0: State, es: seq<Event>, sid: SubmissionId)
    requires cfg.Valid() && Initial(s0) && Legal(cfg, s0, es) && sid in Exec(cfg, s0, es).created
    ensures var c := Exec(cfg, s0, es).created[sid];
      && c.row.status == Pending && c.row.output == "" && c.row.awardedMarks == 0
      && c.row.passed == 0 && c.row.total == |c.work.job.cases| && c.row.timeMs == None
  {
    hide SentReport, Finalized;
    assert EffectInv(cfg, s0);
    RunKeepsEffect(cfg, s0, es);
    assert RowInv(cfg, Exec(cfg, s0, es), sid);
  }

  /**
   * From the queue to the database: an acknowledged verdict that no dead-letter callback replaced says PASSED
   * exactly when every case ran cleanly and matched, with the marks and counts that go with it.
   */
  lemma DeliveredVerdictIsSound(cfg: Config, s0: State, es: seq<Event>, sid: SubmissionId)
    requires cfg.Valid() && Initial(s0) && Legal(cfg, s0, es)
    requires var s := Exec(cfg, s0, es); sid in s.created && sid in s.acked && sid !in s.overwritten
    requires var c := Exec(cfg, s0, es).created[sid];
      c.row.question.Some? && c.work.job.cases != [] && (cfg.supported == {} || c.work.language in cfg.supported)
    ensures var s := Exec(cfg, s0, es);
      && sid in s.rows && s.created[sid].work.job.Valid()
      && var v, job := VerdictOf(s.rows[sid]), s.created[sid].work.job;
        && (v.status == Passed <==> AllCasesMatch(job))
        && v.awardedMarks == (if v.status == Passed then s.created[sid].row.question.value.totalMarks else 0)
        && v.passed == MatchedPrefix(job) && v.total == |job.cases| && v.passed <= v.total
  {
    hide Finalized, ExecutorReport, AllCasesMatch, MatchedPrefix;
    ExactlyOnceEffect(cfg, s0, es, sid);
    var c := Exec(cfg, s0, es).created[sid];
    StoredVerdictIsSound(c.row, c.work.job, ExecutorReport(c.work.job).value);
  }

  /** An acknowledged grading leaves its submission acknowledged. */
  lemma GradeAcknowledges(cfg: Config, s: State, p: nat, off: nat)
    requires InStage(s, p, off, Running) && MsgAt(s, p, off).work.job.Valid() && MsgAt(s, p, off).sid in s.rows
    requires SentReport(cfg, MsgAt(s, p, off).work).Some?
    ensures var e := Grade(p, off, 1, true, false, 0);
      && Enabled(cfg, s, e) && MsgAt(s, p, off).sid in Apply(cfg, s, e).acked
      && Apply(cfg, s, e).overwritten == s.overwritten && Apply(cfg, s, e).created == s.created
  {
    hide SentReport, Repeated;
  }

  lemma {:induction false} RestartOverwritesNothing(cfg: Config, s: State, es: seq<Event>)
    requires Legal(cfg, s, es) && forall i :: 0 <= i < |es| ==> es[i].Crash? || es[i].Deliver?
    ensures Exec(cfg, s, es).overwritten == s.overwritten && Exec(cfg, s, es).created == s.created
    decreases |es|
  {
    hide Apply;
    if es != [] {
      OtherTablesStay(cfg, s, es[0]);
      RestartOverwritesNothing(cfg, Apply(cfg, s, es[0]), es[1..]);
    }
  }

  /**
   * No submission is stuck: from every state that a disciplined run reaches, one without an acknowledged verdict has a
   * continuation that acknowledges it, if its work can be graded at all; unless a dead-letter callback had reached it,
   * the stored verdict is then that of a single grading.
   */
  lemma EverySubmissionCanBeAcknowledged(cfg: Config, s0: State, es: seq<Event>, sid: SubmissionId)
      returns (more: seq<Event>)
    requires cfg.Valid() && Initial(s0) && Legal(cfg, s0, es) && AllDisciplined(cfg, s0, es)
    requires var s := Exec(cfg, s0, es);
      sid in s.created && sid !in s.acked
      && (s.created[sid].work.job.Valid() ==> SentReport(cfg, s.created[sid].work).Some?)
    ensures var s := Exec(cfg, s0, es);
      && Legal(cfg, s, more) && sid in Exec(cfg, s, more).acked
      && s.created[sid].work.job.Valid() && sid in Exec(cfg, s, more).rows
      && (sid !in s.overwritten ==>
        VerdictOf(Exec(cfg, s, more).rows[sid])
          == VerdictOf(Finalized(s.created[sid].row, SentReport(cfg, s.created[sid].work).value)))
  {
    hide SentReport, Finalized, Apply, Enabled, Initial;
    var s := Exec(cfg, s0, es);
    assert EffectInv(cfg, s0) by { StartsWithoutEffect(cfg, s0); }
    RunKeepsEffect(cfg, s0, es);
    assert RowInv(cfg, s, sid);
    var restart, p, off := EverySubmissionCanBeGraded(cfg, s0, es, sid);
    var s1 := Exec(cfg, s, restart);
    RestartOverwritesNothing(cfg, s, restart);
    RunKeepsEffect(cfg, s, restart);
    assert RowInv(cfg, s1, sid);
    GradeAcknowledges(cfg, s1, p, off);
    var e := Grade(p, off, 1, true, false, 0);
    LegalStep(cfg, s1, e, []);
    more := restart + ([e] + []);
    RunsJoin(cfg, s, restart, [e] + []);
    RunsJoin(cfg, s0, es, more);
    if sid !in s.overwritten { ExactlyOnceEffect(cfg, s0, es + more, sid); }
    RunKeepsEffect(cfg, s, more);
    assert RowInv(cfg, Exec(cfg, s, more), sid);
  }

  lemma StartsWithoutEffect(cfg: Config, s0: State)
    requires cfg.Valid() && Initial(s0)
    ensures EffectInv(cfg, s0)
  {
  }

  /** A language that the executor does not take: the submission is stored as SYSTEM_ERROR and earns nothing. */
  lemma RejectedLanguage(cfg: Config, work: Work, row: Row)
    requires cfg.supported != {} && work.language !in cfg.supported && work.job.Valid()
    ensures SentReport(cfg, work).Some? && forall cleanupThrows :: Sends(cfg, work, cleanupThrows)
    ensures forall ack, cleanupThrows :: StageGraded(cfg, work, ack, cleanupThrows) == if ack then Persisted else Raised
    ensures var v := VerdictOf(Finalized(row, SentReport(cfg, work).value));
      v.status == SystemError && v.awardedMarks == 0
      && (row.passed <= row.total ==> v.passed == row.passed)
    ensures Finalized(row, SentReport(cfg, work).value).timeMs == row.timeMs
  {
    hide TestcaseCount;
  }

  /** Any other language is graded: what is sent, if anything, is the job's own report. */
  lemma AcceptedLanguage(cfg: Config, work: Work, cleanupThrows: bool)
    requires (cfg.supported == {} || work.language in cfg.supported) && work.job.Valid()
    ensures SentReport(cfg, work) == ExecutorReport(work.job)
    ensures Sends(cfg, work, cleanupThrows) <==>
      ExecutorReport(work.job).Some? && !(work.job.cases == [] && work.job.preparation.Ready? && cleanupThrows)
  {
  }

  /** Over whole runs: an acknowledged submission in a language that is not taken is stored as SYSTEM_ERROR. */
  lemma RejectedVerdict(cfg: Config, s0: State, es: seq<Event>, sid: SubmissionId)
    requires cfg.Valid() && Initial(s0) && Legal(cfg, s0, es)
    requires var s := Exec(cfg, s0, es); sid in s.created && sid in s.acked && sid !in s.overwritten
    requires cfg.supported != {} && Exec(cfg, s0, es).created[sid].work.language !in cfg.supported
    ensures var s := Exec(cfg, s0, es);
      sid in s.rows && s.rows[sid].status == SystemError && s.rows[sid].awardedMarks == 0
  {
    hide SentReport, Finalized;
    ExactlyOnceEffect(cfg, s0, es, sid);
    var c := Exec(cfg, s0, es).created[sid];
    RejectedLanguage(cfg, c.work, c.row);
  }

  // ----- dead letters

  /** A step appends to the dead letters exactly its message, when it is a dead-letter send that was not lost before. */
  lemma DeadLetterStep(cfg: Config, s: State, e: Event)
    requires Enabled(cfg, s, e)
    ensures Apply(cfg, s, e).deadLetters ==
      s.deadLetters + if e.DeadLetter? && e.reply != NotSent then [MsgAt(s, e.p, e.off)] else []
  {
    hide SentReport, Repeated, NewRow, Mark;
  }

  ghost predicate HasDeadLetter(cfg: Config, s: State, sid: SubmissionId) {
    exists i :: 0 <= i < |s.deadLetters| && s.deadLetters[i].sid == sid && Attempt(s.deadLetters[i]) == cfg.maxAttempts
  }

  /** Dead letters are last attempts, and whoever may be overwritten or was has one. */
  ghost predicate DeadLetterInv(cfg: Config, s: State) {
    && (forall i :: 0 <= i < |s.deadLetters| ==>
      GoodMessage(cfg, s, s.deadLetters[i]) && Attempt(s.deadLetters[i]) == cfg.maxAttempts)
    && (forall p, off :: InStage(s, p, off, DeadLettered) ==> HasDeadLetter(cfg, s, MsgAt(s, p, off).sid))
    && forall sid :: sid in s.overwritten ==> HasDeadLetter(cfg, s, sid)
  }

  lemma DeadLettersStay(cfg: Config, s: State, s': State, sid: SubmissionId)
    requires HasDeadLetter(cfg, s, sid) && s.deadLetters <= s'.deadLetters
    ensures HasDeadLetter(cfg, s', sid)
  {
    var i :| 0 <= i < |s.deadLetters| && s.deadLetters[i].sid == sid && Attempt(s.deadLetters[i]) == cfg.maxAttempts;
    assert s'.deadLetters[i] == s.deadLetters[i];
  }

  /** Changing one slot's stage leaves every other slot, and its message, alone. */
  lemma SetStageSlots(s: State, p: nat, off: nat, stage: Stage, q: nat, o: nat)
    requires At(s, p, off)
    ensures |SetStage(s, p, off, stage).partitions| == |s.partitions|
    ensures At(SetStage(s, p, off, stage), q, o) <==> At(s, q, o)
    ensures At(s, q, o) && !(q == p && o == off) ==> SlotAt(SetStage(s, p, off, stage), q, o) == SlotAt(s, q, o)
    ensures SlotAt(SetStage(s, p, off, stage), p, off) == Slot(MsgAt(s, p, off), stage)
  {
  }

  lemma AppendSlots(s: State, p: nat, m: Message, q: nat, o: nat)
    requires p < |s.partitions|
    ensures At(s, q, o) ==> At(Append(s, p, m), q, o) && SlotAt(Append(s, p, m), q, o) == SlotAt(s, q, o)
    ensures At(Append(s, p, m), q, o) && !At(s, q, o) ==> SlotAt(Append(s, p, m), q, o) == Slot(m, Idle)
  {
  }

  /** A task in that stage was there before, or has just sent its dead letter. */
  lemma DeadLetteredStage(cfg: Config, s: State, e: Event, p: nat, off: nat)
    requires Enabled(cfg, s, e) && InStage(Apply(cfg, s, e), p, off, DeadLettered)
    ensures At(s, p, off) && MsgAt(Apply(cfg, s, e), p, off) == MsgAt(s, p, off)
    ensures InStage(s, p, off, DeadLettered) || (e.DeadLetter? && e.p == p && e.off == off && e.reply == Confirmed)
  {
    hide SetStage, Append, SentReport, Repeated, NewRow, Mark, Retry, Attempt, CleanupFails;
    match e {
      case Submit(sid, _, work, q) => AppendSlots(s, q, Message(sid, Number(1), work), p, off);
      case Deliver(q) => SetStageSlots(s, q, s.partitions[q].position, Running, p, off);
      case Grade(q, o, _, ack, ct, _) =>
        SetStageSlots(s, q, o, StageGraded(cfg, MsgAt(s, q, o).work, ack, ct), p, off);
      case FirstMark(q, o, replies) =>
        SetStageSlots(s, q, o, if Mark(s.partitions[q].view, o, replies).raised then Raised else Finished, p, off);
      case SecondMark(q, o, replies) => SetStageSlots(s, q, o, Finished, p, off);
      case Requeue(q, o, target, reply) =>
        var stage := if reply.Confirmed? then Handled else Finished;
        SetStageSlots(s, q, o, stage, p, off);
        AppendSlots(SetStage(s, q, o, stage), target, Retry(MsgAt(s, q, o)), p, off);
      case DeadLetter(q, o, reply) =>
        SetStageSlots(s, q, o, if reply.Confirmed? then DeadLettered else Finished, p, off);
      case Overwrite(q, o, _, _, ack) => SetStageSlots(s, q, o, if ack then Handled else Finished, p, off);
      case Crash(ps) =>
    }
  }

  lemma OverwrittenGrows(cfg: Config, s: State, e: Event)
    requires Enabled(cfg, s, e)
    ensures Apply(cfg, s, e).overwritten ==
      s.overwritten + if e.Overwrite? && e.applied > 0 then {MsgAt(s, e.p, e.off).sid} else {}
  {
    hide SentReport, Repeated, NewRow, Mark;
  }

  lemma StepKeepsDeadLetters(cfg: Config, s: State, e: Event)
    requires cfg.Valid() && MessageInv(cfg, s) && DeadLetterInv(cfg, s) && Enabled(cfg, s, e)
    ensures DeadLetterInv(cfg, Apply(cfg, s, e))
  {
    hide Apply, Attempt, NewRow;
    var s' := Apply(cfg, s, e);
    DeadLetterStep(cfg, s, e);
    OverwrittenGrows(cfg, s, e);
    CreatedGrows(cfg, s, e);
    if e.DeadLetter? {
      assert GoodMessage(cfg, s, MsgAt(s, e.p, e.off));
      if e.reply != NotSent { assert s'.deadLetters[|s.deadLetters|] == MsgAt(s, e.p, e.off); }
    }
    forall p, off | InStage(s', p, off, DeadLettered) ensures HasDeadLetter(cfg, s', MsgAt(s', p, off).sid) {
      DeadLetteredStage(cfg, s, e, p, off);
      if InStage(s, p, off, DeadLettered) { DeadLettersStay(cfg, s, s', MsgAt(s, p, off).sid); }
    }
    forall sid | sid in s'.overwritten ensures HasDeadLetter(cfg, s', sid) {
      if sid !in s.overwritten { assert HasDeadLetter(cfg, s, MsgAt(s, e.p, e.off).sid); }
      DeadLettersStay(cfg, s, s', sid);
    }
  }

  lemma {:induction false} RunKeepsDeadLetters(cfg: Config, s: State, es: seq<Event>)
    requires cfg.Valid() && MessageInv(cfg, s) && DeadLetterInv(cfg, s) && Legal(cfg, s, es)
    ensures DeadLetterInv(cfg, Exec(cfg, s, es))
    decreases |es|
  {
    hide DeadLetterInv, Apply, Enabled;
    if es != [] {
      StepKeepsDeadLetters(cfg, s, es[0]);
      StepKeepsMessages(cfg, s, es[0]);
      RunKeepsDeadLetters(cfg, Apply(cfg, s, es[0]), es[1..]);
    }
  }

  /**
   * Through any crashes and lost replies, the dead letters hold only last attempts of created submissions with their
   * own work, and a submission that a dead-letter callback reached is among them.
   */
  lemma OverwrittenIsDeadLettered(cfg: Config, s0: State, es: seq<Event>)
    requires cfg.Valid() && Initial(s0) && Legal(cfg, s0, es)
    ensures var s := Exec(cfg, s0, es);
      && (forall i :: 0 <= i < |s.deadLetters| ==>
        var m := s.deadLetters[i];
        m.sid in s.created && m.work == s.created[m.sid].work && Attempt(m) == cfg.maxAttempts)
      && forall sid :: sid in s.overwritten ==>
        exists i :: 0 <= i < |s.deadLetters| && s.deadLetters[i].sid == sid
  {
    hide Attempt;
    RunKeepsDeadLetters(cfg, s0, es);
    var s := Exec(cfg, s0, es);
    forall sid | sid in s.overwritten ensures exists i :: 0 <= i < |s.deadLetters| && s.deadLetters[i].sid == sid {
      assert HasDeadLetter(cfg, s, sid);
    }
  }

  // ----- an acknowledged verdict that is not the last word

  /** The task at `off` is about to grade a job whose cases all match; its submission has a question. */
  predicate AboutToPass(cfg: Config, s: State, p: nat, off: nat) {
    && InStage(s, p, off, Running)
    && var m := MsgAt(s, p, off);
      && m.sid in s.rows && s.rows[m.sid].question.Some? && !Rejected(cfg, m.work)
      && m.work.job.Valid() && m.work.job.cases != [] && AllCasesMatch(m.work.job)
  }

  /** The verdict is stored as PASSED and acknowledged, and then the sandbox's cleanup raises. */
  lemma PassedButRaised(cfg: Config, s: State, p: nat, off: nat)
    requires AboutToPass(cfg, s, p, off)
    ensures var e := Grade(p, off, 1, true, true, 0);
      Enabled(cfg, s, e)
      && var m, s' := MsgAt(s, p, off), Apply(cfg, s, e);
        && |s'.partitions| == |s.partitions| && InStage(s', p, off, Raised) && MsgAt(s', p, off) == m
        && (forall q :: 0 <= q < |s.partitions| ==> |s'.partitions[q].log| == |s.partitions[q].log|)
        && m.sid in s'.acked && m.sid in s'.rows && s'.rows[m.sid].status == Passed
        && s'.rows[m.sid].awardedMarks == s.rows[m.sid].question.value.totalMarks
  {
    hide NormalizeJudgeOutput, Finalized, ExecutorReport, AllCasesMatch;
    var m := MsgAt(s, p, off);
    var row, job := s.rows[m.sid], m.work.job;
    assert job.preparation.Ready? && ExecutorReport(job).Some? by { MatchingJobReports(job); }
    var report := ExecutorReport(job).value;
    StoredVerdictIsSound(row, job, report);
    TimeIsIrrelevant(row, row, report, 0);
    assert Repeated(row, report.(timeMs := 0), 1) == Finalized(row, report.(timeMs := 0)) by {
      assert Repeated(row, report.(timeMs := 0), 0) == row;
    }
  }

  lemma MatchingJobReports(job: Job)
    requires job.Valid() && job.cases != [] && AllCasesMatch(job)
    ensures job.preparation.Ready? && ExecutorReport(job).Some?
  {
    hide NormalizeJudgeOutput;
  }

  /** At the attempt limit the handler then replaces the acknowledged PASSED by SYSTEM_ERROR without marks. */
  lemma AcknowledgedIsOverwritten(cfg: Config, s: State, p: nat, off: nat, error: string)
    requires AboutToPass(cfg, s, p, off) && Attempt(MsgAt(s, p, off)) >= cfg.maxAttempts
    ensures
      var es := [Grade(p, off, 1, true, true, 0), DeadLetter(p, off, Confirmed), Overwrite(p, off, error, 1, true)];
      Legal(cfg, s, es)
      && var sid, s' := MsgAt(s, p, off).sid, Exec(cfg, s, es);
        sid in s'.acked && sid in s'.rows && s'.rows[sid].status == SystemError && s'.rows[sid].awardedMarks == 0
        && s'.rows[sid].output == error
  {
    hide NormalizeJudgeOutput, AboutToPass, SentReport, Attempt;
    var es := [Grade(p, off, 1, true, true, 0), DeadLetter(p, off, Confirmed), Overwrite(p, off, error, 1, true)];
    PassedButRaised(cfg, s, p, off);
    var s1 := Apply(cfg, s, es[0]);
    var s2 := LastAttemptEnds(cfg, s1, p, off, error);
    LegalStep(cfg, s, es[0], es[1..]);
    assert es == [es[0]] + es[1..] && es[1..] == [es[1], es[2]];
  }

  /** What the handler does at the limit, whatever the row holds. */
  lemma LastAttemptEnds(cfg: Config, s: State, p: nat, off: nat, error: string) returns (s': State)
    requires InStage(s, p, off, Raised) && MsgAt(s, p, off).sid in s.rows
    requires Attempt(MsgAt(s, p, off)) >= cfg.maxAttempts
    ensures var es := [DeadLetter(p, off, Confirmed), Overwrite(p, off, error, 1, true)];
      Legal(cfg, s, es) && s' == Exec(cfg, s, es)
    ensures var sid := MsgAt(s, p, off).sid;
      sid in s'.acked && sid in s'.rows && s'.rows[sid].status == SystemError && s'.rows[sid].awardedMarks == 0
        && s'.rows[sid].output == error
  {
    hide NormalizeJudgeOutput, TestcaseCount, Attempt;
    var es := [DeadLetter(p, off, Confirmed), Overwrite(p, off, error, 1, true)];
    var s1 := Apply(cfg, s, es[0]);
    s' := Apply(cfg, s1, es[1]);
    var row := s.rows[MsgAt(s, p, off).sid];
    assert Repeated(row, SystemErrorReport(error), 1) == Finalized(row, SystemErrorReport(error)) by {
      assert Repeated(row, SystemErrorReport(error), 0) == row;
    }
    LegalStep(cfg, s1, es[1], []);
    LegalStep(cfg, s, es[0], [es[1]]);
    assert [es[1]] + [] == [es[1]] && [es[0]] + [es[1]] == es;
  }

  /** Below the limit the handler sends the acknowledged submission once more. */
  lemma AcknowledgedIsRetried(cfg: Config, s: State, p: nat, off: nat, target: nat)
    requires AboutToPass(cfg, s, p, off) && Attempt(MsgAt(s, p, off)) < cfg.maxAttempts && target < |s.partitions|
    ensures var es := [Grade(p, off, 1, true, true, 0), Requeue(p, off, target, Confirmed)];
      Legal(cfg, s, es)
      && var m, s', n := MsgAt(s, p, off), Exec(cfg, s, es), |s.partitions[target].log|;
        m.sid in s'.acked && InStage(s', target, n, Idle) && MsgAt(s', target, n) == Retry(m)
  {
    hide NormalizeJudgeOutput, AboutToPass, SentReport, Attempt, Retry;
    var es := [Grade(p, off, 1, true, true, 0), Requeue(p, off, target, Confirmed)];
    PassedButRaised(cfg, s, p, off);
    var s1 := Apply(cfg, s, es[0]);
    LegalStep(cfg, s1, es[1], []);
    LegalStep(cfg, s, es[0], [es[1]]);
    assert [es[1]] + [] == [es[1]] && [es[0]] + [es[1]] == es;
  }

  /** A first mark that raises leads to the same handler, after an acknowledgement as well. */
  lemma FailedMarkForgets(cfg: Config, s: State, p: nat, off: nat, replies: Replies)
    requires InStage(s, p, off, Persisted) && BrokerFails(s.partitions[p].view, off, replies)
    ensures var e := FirstMark(p, off, replies);
      Enabled(cfg, s, e)
      && var s' := Apply(cfg, s, e);
        && InStage(s', p, off, Raised) && MsgAt(s', p, off) == MsgAt(s, p, off)
        && s'.acked == s.acked && s'.rows == s.rows
  {
    hide Mark, BrokerFails;
    MarkRaisesIff(s.partitions[p].view, off, replies);
  }
}
