/** `run_grade_task` as code: its `try`, handler and nested handler produce only runs of the delivery protocol. */
module GradeTask {
  import opened CommitTracking
  import opened Grading
  import opened Verdicts
  import opened VerdictLaws
  import opened Callbacks
  import opened Delivery
  import opened DeliveryEffects

  /** How everything that one task awaits ends. */
  datatype Script = Script(
    applied: nat, ack: bool, cleanupThrows: bool, timeMs: nat, firstMark: Replies,
    target: nat, send: SendReply, error: string, overwriteApplied: nat, overwriteAck: bool, secondMark: Replies)

  /** How the script's grading ends. */
  function Graded(p: nat, off: nat, script: Script): Event {
    Grade(p, off, script.applied, script.ack, script.cleanupThrows, script.timeMs)
  }

  /** The script's outcomes can happen to the grading at `off`. */
  predicate Fits(cfg: Config, s: State, p: nat, off: nat, script: Script) {
    && InStage(s, p, off, Running)
    && Enabled(cfg, s, Graded(p, off, script))
    && CallbackPossible(script.overwriteApplied, script.overwriteAck) && script.target < |s.partitions|
  }

  lemma {:induction false} RunSnoc(cfg: Config, s: State, es: seq<Event>, e: Event)
    requires Legal(cfg, s, es) && Enabled(cfg, Exec(cfg, s, es), e)
    ensures Legal(cfg, s, es + [e]) && Exec(cfg, s, es + [e]) == Apply(cfg, Exec(cfg, s, es), e)
    decreases |es|
  {
    hide Apply, Enabled;
    if es == [] {
      assert [] + [e] == [e] && [e][1..] == [];
    } else {
      assert (es + [e])[1..] == es[1..] + [e];
      RunSnoc(cfg, Apply(cfg, s, es[0]), es[1..], e);
    }
  }

  /** Its slot and its submission's row are still there. */
  predicate SameTask(s: State, s': State, p: nat, off: nat)
    requires At(s, p, off)
  {
    && At(s', p, off) && MsgAt(s', p, off) == MsgAt(s, p, off) && |s'.partitions| == |s.partitions|
    && (MsgAt(s, p, off).sid in s.rows ==> MsgAt(s, p, off).sid in s'.rows)
  }

  /** The stage that an event leaves its task in. */
  lemma StageAfter(cfg: Config, s: State, e: Event, p: nat, off: nat)
    requires Enabled(cfg, s, e) && At(s, p, off)
    requires match e
      case Grade(q, o, _, _, _, _) => q == p && o == off
      case FirstMark(q, o, _) => q == p && o == off
      case Requeue(q, o, _, _) => q == p && o == off
      case DeadLetter(q, o, _) => q == p && o == off
      case Overwrite(q, o, _, _, _) => q == p && o == off
      case SecondMark(q, o, _) => q == p && o == off
      case _ => false
    ensures SameTask(s, Apply(cfg, s, e), p, off)
    ensures SlotAt(Apply(cfg, s, e), p, off).stage == match e
      case Grade(_, _, _, ack, cleanupThrows, _) => StageGraded(cfg, MsgAt(s, p, off).work, ack, cleanupThrows)
      case FirstMark(_, _, replies) => if Mark(s.partitions[p].view, off, replies).raised then Raised else Finished
      case Requeue(_, _, _, reply) => if reply.Confirmed? then Handled else Finished
      case DeadLetter(_, _, reply) => if reply.Confirmed? then DeadLettered else Finished
      case Overwrite(_, _, _, _, ack) => if ack then Handled else Finished
      case _ => Finished
  {
    hide SentReport, Repeated, NewRow, Mark, Retry;
  }

  predicate SendsRetry(es: seq<Event>) {
    exists i :: 0 <= i < |es| && es[i].Requeue?
  }

  predicate SendsDeadLetter(es: seq<Event>) {
    exists i :: 0 <= i < |es| && es[i].DeadLetter?
  }

  lemma SendsSnoc(es: seq<Event>, e: Event)
    ensures SendsRetry(es + [e]) <==> SendsRetry(es) || e.Requeue?
    ensures SendsDeadLetter(es + [e]) <==> SendsDeadLetter(es) || e.DeadLetter?
  {
    assert (es + [e])[|es|] == e;
    if SendsRetry(es) {
      var i :| 0 <= i < |es| && es[i].Requeue?;
      assert (es + [e])[i].Requeue?;
    }
    if SendsDeadLetter(es) {
      var i :| 0 <= i < |es| && es[i].DeadLetter?;
      assert (es + [e])[i].DeadLetter?;
    }
  }

  /** What the handler does with a message: hand it on, then mark; an exception ends it unmarked. */
  function Handling(cfg: Config, m: Message, p: nat, off: nat, script: Script): seq<Event> {
    var mark := [SecondMark(p, off, script.secondMark)];
    if Attempt(m) < cfg.maxAttempts then
      [Requeue(p, off, script.target, script.send)] + if script.send.Confirmed? then mark else []
    else
      [DeadLetter(p, off, script.send)]
      + if script.send.Confirmed? then Overwriting(p, off, script) else []
  }

  function Overwriting(p: nat, off: nat, script: Script): seq<Event> {
    [Overwrite(p, off, script.error, script.overwriteApplied, script.overwriteAck)]
    + if script.overwriteAck then [SecondMark(p, off, script.secondMark)] else []
  }

  /** `run_grade_task`, event by event; `markRaises` tells how its first mark ends, if it comes to that. */
  function Task(cfg: Config, m: Message, p: nat, off: nat, script: Script, markRaises: bool): seq<Event> {
    [Graded(p, off, script)]
    + if StageGraded(cfg, m.work, script.ack, script.cleanupThrows) == Raised then Handling(cfg, m, p, off, script)
      else Marking(cfg, m, p, off, script, markRaises)
  }

  function Marking(cfg: Config, m: Message, p: nat, off: nat, script: Script, markRaises: bool): seq<Event> {
    [FirstMark(p, off, script.firstMark)] + if markRaises then Handling(cfg, m, p, off, script) else []
  }

  class Executor {
    const cfg: Config
    var state: State

    constructor (cfg: Config, state: State)
      ensures this.cfg == cfg && this.state == state
    {
      this.cfg, this.state := cfg, state;
    }

    /**
     * Runs a delivered grading to its end. The state moves by a legal run of the protocol and the stage is final;
     * a retry is sent only below the attempt limit, a dead letter only at it, and neither exactly when the verdict was
     * acknowledged, the sandbox was cleaned up and the offset was marked.
     */
    method RunGradeTask(p: nat, off: nat, script: Script) returns (ghost es: seq<Event>)
      requires Fits(cfg, state, p, off, script)
      modifies this
      ensures Legal(cfg, old(state), es) && state == Exec(cfg, old(state), es)
      ensures InStage(state, p, off, Finished)
      ensures es == Task(cfg, MsgAt(old(state), p, off), p, off, script,
        Mark(old(state).partitions[p].view, off, script.firstMark).raised)
      ensures state.deadLetters == old(state.deadLetters)
        + if SendsDeadLetter(es) && script.send != NotSent then [MsgAt(old(state), p, off)] else []
      ensures SendsRetry(es) ==> Attempt(MsgAt(old(state), p, off)) < cfg.maxAttempts
      ensures SendsDeadLetter(es) ==> Attempt(MsgAt(old(state), p, off)) >= cfg.maxAttempts
      ensures SendsRetry(es) || SendsDeadLetter(es) <==>
        || !script.ack || CleanupFails(cfg, MsgAt(old(state), p, off).work, script.cleanupThrows)
        || BrokerFails(old(state).partitions[p].view, off, script.firstMark)
    {
      hide Apply, Mark, BrokerFails, SentReport, CleanupFails, Legal, Exec, SendsRetry, SendsDeadLetter;
      ghost var s0 := state;
      MarkRaisesIff(state.partitions[p].view, off, script.firstMark);
      es := [];
      NothingYet(cfg, s0);

      // try: grade and send the callback, then mark
      var raised := Grades(MsgAt(state, p, off).work, script);
      es := Step(s0, es, p, off, Graded(p, off, script));
      if !raised {
        GradeKeepsViews(cfg, s0, es[0], p);
        es := Step(s0, es, p, off, FirstMark(p, off, script.firstMark));
        if SlotAt(state, p, off).stage != Raised {
          return;
        }
      }
      es := HandleError(s0, es, p, off, script);
    }

    /** Sends the rejection of a language it does not take, or grades; true when that raises. */
    method Grades(work: Work, script: Script) returns (raised: bool)
      requires work.job.Valid() && (script.applied > 0 ==> Sends(cfg, work, script.cleanupThrows))
      requires CallbackPossible(script.applied, script.ack)
      ensures raised <==> StageGraded(cfg, work, script.ack, script.cleanupThrows) == Raised
    {
      if Rejected(cfg, work) {
        raised := !script.ack;
      } else {
        var _, failed := GradeSubmission(work.job, script.ack, script.cleanupThrows);
        raised := failed;
      }
    }

    /** The handler: hand the message on, then mark; an exception in here ends it unmarked. */
    method HandleError(ghost s0: State, ghost es: seq<Event>, p: nat, off: nat, script: Script)
      returns (ghost es': seq<Event>)
      requires Legal(cfg, s0, es) && state == Exec(cfg, s0, es) && InStage(state, p, off, Raised)
      requires MsgAt(state, p, off).sid in state.rows && script.target < |state.partitions|
      requires CallbackPossible(script.overwriteApplied, script.overwriteAck)
      requires !SendsRetry(es) && !SendsDeadLetter(es)
      modifies this
      ensures Legal(cfg, s0, es') && state == Exec(cfg, s0, es') && InStage(state, p, off, Finished)
      ensures es' == es + Handling(cfg, MsgAt(old(state), p, off), p, off, script)
      ensures SendsRetry(es') <==> Attempt(MsgAt(old(state), p, off)) < cfg.maxAttempts
      ensures SendsDeadLetter(es') <==> Attempt(MsgAt(old(state), p, off)) >= cfg.maxAttempts
      ensures state.deadLetters == old(state.deadLetters)
        + if SendsDeadLetter(es') && script.send != NotSent then [MsgAt(old(state), p, off)] else []
    {
      hide Apply, Mark, SentReport, CleanupFails, Legal, Exec, SendsRetry, SendsDeadLetter;
      if Attempt(MsgAt(state, p, off)) < cfg.maxAttempts {
        es' := Step(s0, es, p, off, Requeue(p, off, script.target, script.send));
        if !script.send.Confirmed? {
          return;
        }
      } else {
        es' := Step(s0, es, p, off, DeadLetter(p, off, script.send));
        if !script.send.Confirmed? {
          return;
        }
        es' := Step(s0, es', p, off, Overwrite(p, off, script.error, script.overwriteApplied, script.overwriteAck));
        if !script.overwriteAck {
          return;
        }
      }
      es' := Step(s0, es', p, off, SecondMark(p, off, script.secondMark));
    }

    /** One awaited action of the grading at `off`. */
    method Step(ghost s0: State, ghost es: seq<Event>, p: nat, off: nat, e: Event) returns (ghost es': seq<Event>)
      requires Legal(cfg, s0, es) && state == Exec(cfg, s0, es)
      requires At(state, p, off) && Enabled(cfg, state, e) && !e.Submit? && !e.Deliver? && !e.Crash?
      requires e.p == p && e.off == off
      modifies this`state
      ensures SendsRetry(es') <==> SendsRetry(es) || e.Requeue?
      ensures SendsDeadLetter(es') <==> SendsDeadLetter(es) || e.DeadLetter?
      ensures es' == es + [e] && Legal(cfg, s0, es') && state == Exec(cfg, s0, es')
      ensures state == Apply(cfg, old(state), e) && SameTask(old(state), state, p, off)
      ensures state.deadLetters == old(state.deadLetters)
        + if e.DeadLetter? && e.reply != NotSent then [MsgAt(old(state), p, off)] else []
      ensures SlotAt(state, p, off).stage == match e
        case Grade(_, _, _, ack, cleanupThrows, _) =>
          StageGraded(cfg, MsgAt(old(state), p, off).work, ack, cleanupThrows)
        case FirstMark(_, _, replies) =>
          if Mark(old(state).partitions[p].view, off, replies).raised then Raised else Finished
        case Requeue(_, _, _, reply) => if reply.Confirmed? then Handled else Finished
        case DeadLetter(_, _, reply) => if reply.Confirmed? then DeadLettered else Finished
        case Overwrite(_, _, _, _, ack) => if ack then Handled else Finished
        case _ => Finished
    {
      hide Mark, SentReport, Legal, Exec, SendsRetry, SendsDeadLetter;
      SendsSnoc(es, e);
      RunSnoc(cfg, s0, es, e);
      StageAfter(cfg, state, e, p, off);
      DeadLetterStep(cfg, state, e);
      es' := es + [e];
      state := Apply(cfg, state, e);
    }
  }

  lemma NothingYet(cfg: Config, s: State)
    ensures Legal(cfg, s, []) && Exec(cfg, s, []) == s
    ensures !SendsRetry([]) && !SendsDeadLetter([])
  {
  }

  lemma GradeKeepsViews(cfg: Config, s: State, e: Event, p: nat)
    requires e.Grade? && Enabled(cfg, s, e) && p < |s.partitions|
    ensures p < |Apply(cfg, s, e).partitions| && Apply(cfg, s, e).partitions[p].view == s.partitions[p].view
  {
    hide SentReport, Repeated;
  }

  // ----- tasks among other tasks

  /** A step of the task at `off`. */
  predicate IsTaskStep(e: Event, p: nat, off: nat) {
    match e
    case Grade(q, o, _, _, _, _) => q == p && o == off
    case FirstMark(q, o, _) => q == p && o == off
    case Requeue(q, o, _, _) => q == p && o == off
    case DeadLetter(q, o, _) => q == p && o == off
    case Overwrite(q, o, _, _, _) => q == p && o == off
    case SecondMark(q, o, _) => q == p && o == off
    case _ => false
  }

  /** What other tasks, the web tier and the consumer do leaves a delivered task where it is. */
  lemma OthersLeaveTask(cfg: Config, s: State, e: Event, p: nat, off: nat)
    requires Enabled(cfg, s, e) && At(s, p, off) && off < s.partitions[p].position
    requires !IsTaskStep(e, p, off) && (e.Crash? ==> p !in e.ps)
    ensures At(Apply(cfg, s, e), p, off) && SlotAt(Apply(cfg, s, e), p, off) == SlotAt(s, p, off)
    ensures off < Apply(cfg, s, e).partitions[p].position
    ensures MsgAt(s, p, off).sid in s.rows ==> MsgAt(s, p, off).sid in Apply(cfg, s, e).rows
  {
    hide SentReport, Repeated, NewRow, Mark, Retry, Attempt, StageGraded;
  }

  lemma OwnKeepsPosition(cfg: Config, s: State, e: Event, p: nat, off: nat)
    requires Enabled(cfg, s, e) && At(s, p, off) && IsTaskStep(e, p, off)
    ensures p < |Apply(cfg, s, e).partitions| && Apply(cfg, s, e).partitions[p].position == s.partitions[p].position
  {
    hide SentReport, Repeated, NewRow, Mark, Retry, Attempt, StageGraded;
  }

  /** The steps of the task at `off`. */
  function StepsOf(es: seq<Event>, p: nat, off: nat): seq<Event> {
    if es == [] then [] else (if IsTaskStep(es[0], p, off) then [es[0]] else []) + StepsOf(es[1..], p, off)
  }

  /** Partition `p` is not restarted. */
  predicate Undisturbed(es: seq<Event>, p: nat) {
    forall i :: 0 <= i < |es| && es[i].Crash? ==> p !in es[i].ps
  }

  /** What a task at some stage has still to do. */
  function Remaining(cfg: Config, slot: Slot, p: nat, off: nat, script: Script, markRaises: bool): seq<Event> {
    match slot.stage
    case Idle => []
    case Running => Task(cfg, slot.msg, p, off, script, markRaises)
    case Persisted => Marking(cfg, slot.msg, p, off, script, markRaises)
    case Raised => Handling(cfg, slot.msg, p, off, script)
    case DeadLettered => Overwriting(p, off, script)
    case Handled => [SecondMark(p, off, script.secondMark)]
    case Finished => []
  }

  /** One step of the task itself, and what the script of its later steps says about the whole. */
  lemma OwnStep(cfg: Config, s: State, e: Event, p: nat, off: nat, later: Script, laterRaises: bool)
      returns (script: Script, markRaises: bool)
    requires Enabled(cfg, s, e) && At(s, p, off) && IsTaskStep(e, p, off)
    ensures At(Apply(cfg, s, e), p, off)
    ensures Remaining(cfg, SlotAt(s, p, off), p, off, script, markRaises)
      == [e] + Remaining(cfg, SlotAt(Apply(cfg, s, e), p, off), p, off, later, laterRaises)
  {
    hide SentReport, Repeated, NewRow, Mark, Retry, Attempt, CleanupFails, Apply;
    StageAfter(cfg, s, e, p, off);
    script, markRaises := later, laterRaises;
    match e {
      case Grade(_, _, applied, ack, cleanupThrows, timeMs) =>
        script := later.(applied := applied, ack := ack, cleanupThrows := cleanupThrows, timeMs := timeMs);
      case FirstMark(_, _, replies) =>
        script := later.(firstMark := replies);
        markRaises := Mark(s.partitions[p].view, off, replies).raised;
      case Requeue(_, _, target, reply) => script := later.(target := target, send := reply);
      case DeadLetter(_, _, reply) => script := later.(send := reply);
      case Overwrite(_, _, error, applied, ack) =>
        script := later.(error := error, overwriteApplied := applied, overwriteAck := ack);
      case SecondMark(_, _, replies) => script := later.(secondMark := replies);
    }
  }

  /** No delivered task is stuck: until it is over it has a next step, even when all that it awaits fails. */
  lemma TaskCanGoOn(cfg: Config, s: State, p: nat, off: nat) returns (e: Event)
    requires At(s, p, off) && SlotAt(s, p, off).stage !in {Idle, Finished}
    requires MsgAt(s, p, off).sid in s.rows && MsgAt(s, p, off).work.job.Valid()
    ensures Enabled(cfg, s, e) && IsTaskStep(e, p, off)
  {
    match SlotAt(s, p, off).stage {
      case Running => e := Grade(p, off, 0, false, false, 0);
      case Persisted => e := FirstMark(p, off, Replies(false, Refused));
      case Raised =>
        var last := Attempt(MsgAt(s, p, off)) >= cfg.maxAttempts;
        e := if last then DeadLetter(p, off, NotSent) else Requeue(p, off, p, NotSent);
      case DeadLettered => e := Overwrite(p, off, "", 0, false);
      case Handled => e := SecondMark(p, off, Replies(false, Refused));
    }
  }

  const ANY_SCRIPT := Script(
    0, false, false, 0, Replies(true, Applied), 0, NotSent, "", 0, false, Replies(true, Applied))

  /**
   * However the tasks, the web tier and the consumer interleave, each task does what the code does: until its partition
   * is restarted its steps are a prefix of one `run_grade_task`, for some script, and all of it when it is over.
   */
  lemma {:induction false} TasksRunTheCode(cfg: Config, s: State, es: seq<Event>, p: nat, off: nat)
      returns (script: Script, markRaises: bool)
    requires Legal(cfg, s, es) && Undisturbed(es, p) && At(s, p, off) && off < s.partitions[p].position
    ensures At(Exec(cfg, s, es), p, off)
    ensures StepsOf(es, p, off) <= Remaining(cfg, SlotAt(s, p, off), p, off, script, markRaises)
    ensures SlotAt(Exec(cfg, s, es), p, off).stage == Finished ==>
      StepsOf(es, p, off) == Remaining(cfg, SlotAt(s, p, off), p, off, script, markRaises)
    decreases |es|
  {
    hide Enabled, Apply, Remaining, IsTaskStep;
    if es == [] {
      script, markRaises := ANY_SCRIPT, false;
      NothingLeft(cfg, SlotAt(s, p, off), p, off, script, markRaises);
    } else {
      var s1 := Apply(cfg, s, es[0]);
      assert forall i :: 0 <= i < |es[1..]| ==> es[1..][i] == es[i + 1];
      if IsTaskStep(es[0], p, off) {
        OwnKeepsPosition(cfg, s, es[0], p, off);
        var _, _ := OwnStep(cfg, s, es[0], p, off, ANY_SCRIPT, false);
        var later, laterRaises := TasksRunTheCode(cfg, s1, es[1..], p, off);
        script, markRaises := OwnStep(cfg, s, es[0], p, off, later, laterRaises);
      } else {
        OthersLeaveTask(cfg, s, es[0], p, off);
        script, markRaises := TasksRunTheCode(cfg, s1, es[1..], p, off);
        assert StepsOf(es, p, off) == StepsOf(es[1..], p, off);
      }
    }
  }

  lemma NothingLeft(cfg: Config, slot: Slot, p: nat, off: nat, script: Script, markRaises: bool)
    ensures slot.stage == Finished ==> Remaining(cfg, slot, p, off, script, markRaises) == []
  {
  }
}
