/** Retry termination: what a crash-free run spends with every step, and the bounds that follow. */
module Retries {
  import opened Common
  import opened CommitTracking
  import opened Verdicts
  import opened VerdictLaws
  import opened Delivery
  import opened DeliverySafety
  import opened DeliveryEffects

  /** What is counted: the gradings still to come for one submission, or the steps still to come for all. */
  datatype Measure = Gradings(sid: SubmissionId) | Steps

  /** How often a message can still be graded, itself and its retries together. */
  function Tries(cfg: Config, m: Message): nat {
    Max(1, cfg.maxAttempts + 1 - Attempt(m))
  }

  function Weight(cfg: Config, measure: Measure, slot: Slot): nat {
    var tries := Tries(cfg, slot.msg);
    match measure
    case Gradings(sid) =>
      if slot.msg.sid != sid then 0
      else if slot.stage == Idle then tries
      else if slot.stage in {Running, Persisted, Raised} then tries - 1
      else 0
    case Steps =>
      match slot.stage
      case Idle => 8 * tries
      case Running => 8 * tries - 1
      case Persisted => 8 * tries - 2
      case Raised => 8 * tries - 3
      case DeadLettered => 2
      case Handled => 1
      case Finished => 0
  }

  function LogTotal(cfg: Config, measure: Measure, log: seq<Slot>): nat {
    if log == [] then 0 else LogTotal(cfg, measure, log[..|log| - 1]) + Weight(cfg, measure, log[|log| - 1])
  }

  function PartitionsTotal(cfg: Config, measure: Measure, ps: seq<Partition>): nat {
    if ps == [] then 0
    else PartitionsTotal(cfg, measure, ps[..|ps| - 1]) + LogTotal(cfg, measure, ps[|ps| - 1].log)
  }

  function Total(cfg: Config, measure: Measure, s: State): nat {
    PartitionsTotal(cfg, measure, s.partitions)
  }

  // ----- sums under the elementary changes

  lemma {:induction false} LogTotalUpdate(cfg: Config, measure: Measure, log: seq<Slot>, i: nat, slot: Slot)
    requires i < |log|
    ensures LogTotal(cfg, measure, log[i := slot]) ==
      LogTotal(cfg, measure, log) - Weight(cfg, measure, log[i]) + Weight(cfg, measure, slot)
  {
    hide Weight;
    var n := |log| - 1;
    if i == n {
      assert log[i := slot][..n] == log[..n];
    } else {
      assert log[i := slot][..n] == log[..n][i := slot];
      LogTotalUpdate(cfg, measure, log[..n], i, slot);
    }
  }

  lemma {:induction false} PartitionsTotalUpdate(
      cfg: Config, measure: Measure, ps: seq<Partition>, i: nat, pt: Partition)
    requires i < |ps|
    ensures PartitionsTotal(cfg, measure, ps[i := pt]) ==
      PartitionsTotal(cfg, measure, ps) - LogTotal(cfg, measure, ps[i].log) + LogTotal(cfg, measure, pt.log)
  {
    hide LogTotal;
    var n := |ps| - 1;
    if i == n {
      assert ps[i := pt][..n] == ps[..n];
    } else {
      assert ps[i := pt][..n] == ps[..n][i := pt];
      PartitionsTotalUpdate(cfg, measure, ps[..n], i, pt);
    }
  }

  lemma SetStageTotal(cfg: Config, measure: Measure, s: State, p: nat, off: nat, stage: Stage)
    requires At(s, p, off)
    ensures Total(cfg, measure, SetStage(s, p, off, stage)) ==
      Total(cfg, measure, s) - Weight(cfg, measure, SlotAt(s, p, off))
      + Weight(cfg, measure, SlotAt(s, p, off).(stage := stage))
  {
    hide Weight;
    var pt := s.partitions[p];
    var slot := pt.log[off].(stage := stage);
    LogTotalUpdate(cfg, measure, pt.log, off, slot);
    PartitionsTotalUpdate(cfg, measure, s.partitions, p, pt.(log := pt.log[off := slot]));
  }

  lemma AppendTotal(cfg: Config, measure: Measure, s: State, p: nat, m: Message)
    requires p < |s.partitions|
    ensures Total(cfg, measure, Append(s, p, m)) == Total(cfg, measure, s) + Weight(cfg, measure, Slot(m, Idle))
  {
    hide Weight;
    var pt := s.partitions[p];
    var log := pt.log + [Slot(m, Idle)];
    assert log[..|log| - 1] == pt.log;
    PartitionsTotalUpdate(cfg, measure, s.partitions, p, pt.(log := log));
  }

  lemma SameLogTotal(cfg: Config, measure: Measure, s: State, s': State, p: nat, pt: Partition)
    requires p < |s.partitions| && pt.log == s.partitions[p].log && s'.partitions == s.partitions[p := pt]
    ensures Total(cfg, measure, s') == Total(cfg, measure, s)
  {
    PartitionsTotalUpdate(cfg, measure, s.partitions, p, pt);
  }

  // ----- one step

  /** Nothing at or beyond a consumer's position has a task. */
  ghost predicate TasksAreDelivered(s: State) {
    forall p: nat, off: nat :: At(s, p, off) && s.partitions[p].position <= off ==> SlotAt(s, p, off).stage == Idle
  }

  lemma SetStageKeepsDelivered(s: State, s': State, p: nat, off: nat, stage: Stage)
    requires TasksAreDelivered(s) && At(s, p, off) && SlotAt(s, p, off).stage != Idle
    requires s'.partitions == SetStage(s, p, off, stage).partitions
    ensures TasksAreDelivered(s')
  {
    forall q: nat, o: nat | At(s', q, o) && s'.partitions[q].position <= o ensures SlotAt(s', q, o).stage == Idle {
      assert At(s, q, o) && SlotAt(s, q, o).stage == Idle;
    }
  }

  lemma AppendKeepsDelivered(s: State, s': State, p: nat, m: Message)
    requires TasksAreDelivered(s) && p < |s.partitions| && s'.partitions == Append(s, p, m).partitions
    ensures TasksAreDelivered(s')
  {
    forall q: nat, o: nat | At(s', q, o) && s'.partitions[q].position <= o ensures SlotAt(s', q, o).stage == Idle {
      if At(s, q, o) { assert SlotAt(s, q, o).stage == Idle; }
    }
  }

  lemma MarkKeepsDelivered(s: State, p: nat, off: nat, replies: Replies, ifRaised: Stage)
    requires TasksAreDelivered(s) && At(s, p, off) && SlotAt(s, p, off).stage != Idle
    ensures TasksAreDelivered(MarkStep(s, p, off, replies, ifRaised))
  {
    hide Mark;
    var r := Mark(s.partitions[p].view, off, replies);
    var s1 := SetStage(s, p, off, if r.raised then ifRaised else Finished);
    SetStageKeepsDelivered(s, s1, p, off, if r.raised then ifRaised else Finished);
    forall q: nat, o: nat | At(MarkStep(s, p, off, replies, ifRaised), q, o)
        && MarkStep(s, p, off, replies, ifRaised).partitions[q].position <= o
      ensures SlotAt(MarkStep(s, p, off, replies, ifRaised), q, o).stage == Idle
    {
      assert At(s1, q, o) && SlotAt(s1, q, o).stage == Idle;
    }
  }

  lemma DeliverKeepsDelivered(cfg: Config, s: State, p: nat)
    requires TasksAreDelivered(s) && Enabled(cfg, s, Deliver(p))
    ensures TasksAreDelivered(Apply(cfg, s, Deliver(p)))
  {
    var s' := Apply(cfg, s, Deliver(p));
    forall q: nat, o: nat | At(s', q, o) && s'.partitions[q].position <= o ensures SlotAt(s', q, o).stage == Idle {
      assert At(s, q, o) && SlotAt(s, q, o).stage == Idle;
    }
  }

  lemma CrashKeepsDelivered(cfg: Config, s: State, ps: set<nat>)
    requires TasksAreDelivered(s)
    ensures TasksAreDelivered(Apply(cfg, s, Crash(ps)))
  {
    hide CommittedOf;
    var s' := Apply(cfg, s, Crash(ps));
    forall q: nat, o: nat | At(s', q, o) && s'.partitions[q].position <= o ensures SlotAt(s', q, o).stage == Idle {
      assert At(s, q, o);
      if q !in ps { assert SlotAt(s, q, o).stage == Idle; }
    }
  }

  lemma StepKeepsDelivered(cfg: Config, s: State, e: Event)
    requires TasksAreDelivered(s) && Enabled(cfg, s, e)
    ensures TasksAreDelivered(Apply(cfg, s, e))
  {
    hide TasksAreDelivered, SentReport, Repeated, NewRow, Mark, Retry, Attempt;
    var s' := Apply(cfg, s, e);
    match e
    case Submit(sid, _, work, p) => AppendKeepsDelivered(s, s', p, Message(sid, Number(1), work));
    case Deliver(p) => DeliverKeepsDelivered(cfg, s, p);
    case Grade(p, off, _, ack, cleanupThrows, _) =>
      SetStageKeepsDelivered(s, s', p, off, StageGraded(cfg, MsgAt(s, p, off).work, ack, cleanupThrows));
    case FirstMark(p, off, replies) => MarkKeepsDelivered(s, p, off, replies, Raised);
    case Requeue(p, off, target, reply) =>
      var stage := if reply.Confirmed? then Handled else Finished;
      var s1 := SetStage(s, p, off, stage);
      SetStageKeepsDelivered(s, s1, p, off, stage);
      if !reply.NotSent? { AppendKeepsDelivered(s1, s', target, Retry(MsgAt(s, p, off))); }
    case DeadLetter(p, off, reply) =>
      SetStageKeepsDelivered(s, s', p, off, if reply.Confirmed? then DeadLettered else Finished);
    case Overwrite(p, off, _, _, ack) => SetStageKeepsDelivered(s, s', p, off, if ack then Handled else Finished);
    case SecondMark(p, off, replies) => MarkKeepsDelivered(s, p, off, replies, Finished);
    case Crash(ps) => CrashKeepsDelivered(cfg, s, ps);
  }

  /** The weight that a step takes from the slot it works on and the weight it adds to a log. */
  lemma RequeueTotal(cfg: Config, measure: Measure, s: State, e: Event)
    requires cfg.Valid() && Enabled(cfg, s, e) && e.Requeue?
    ensures measure.Gradings? ==> Total(cfg, measure, Apply(cfg, s, e)) <= Total(cfg, measure, s)
    ensures measure.Steps? ==> Total(cfg, measure, Apply(cfg, s, e)) < Total(cfg, measure, s)
  {
    hide Total;
    var m := MsgAt(s, e.p, e.off);
    var stage := if e.reply.Confirmed? then Handled else Finished;
    SetStageTotal(cfg, measure, s, e.p, e.off, stage);
    if !e.reply.NotSent? {
      AppendTotal(cfg, measure, SetStage(s, e.p, e.off, stage), e.target, Retry(m));
    }
    assert Tries(cfg, Retry(m)) == Tries(cfg, m) - 1;
  }

  lemma MarkTotal(cfg: Config, measure: Measure, s: State, p: nat, off: nat, replies: Replies, ifRaised: Stage)
    requires At(s, p, off) && cfg.Valid()
    requires (SlotAt(s, p, off).stage == Persisted && ifRaised == Raised)
      || (SlotAt(s, p, off).stage == Handled && ifRaised == Finished)
    ensures measure.Gradings? ==> Total(cfg, measure, MarkStep(s, p, off, replies, ifRaised)) <= Total(cfg, measure, s)
    ensures measure.Steps? ==> Total(cfg, measure, MarkStep(s, p, off, replies, ifRaised)) < Total(cfg, measure, s)
  {
    hide Total, Mark;
    var r := Mark(s.partitions[p].view, off, replies);
    var stage := if r.raised then ifRaised else Finished;
    SetStageTotal(cfg, measure, s, p, off, stage);
    var s1 := SetStage(s, p, off, stage);
    SameLogTotal(cfg, measure, s1, WithView(s1, p, r.view), p, s1.partitions[p].(view := r.view));
  }

  lemma DeliverTotal(cfg: Config, measure: Measure, s: State, e: Event)
    requires cfg.Valid() && TasksAreDelivered(s) && Enabled(cfg, s, e) && e.Deliver?
    ensures measure.Gradings? ==>
      Total(cfg, measure, Apply(cfg, s, e)) + (if DeliveredSid(s, e) == measure.sid then 1 else 0)
      <= Total(cfg, measure, s)
    ensures measure.Steps? ==> Total(cfg, measure, Apply(cfg, s, e)) < Total(cfg, measure, s)
  {
    hide Total;
    var off := s.partitions[e.p].position;
    assert At(s, e.p, off);
    var s1 := SetStage(s, e.p, off, Running);
    SetStageTotal(cfg, measure, s, e.p, off, Running);
    SameLogTotal(cfg, measure, s1, Apply(cfg, s, e), e.p, s1.partitions[e.p].(position := off + 1));
  }

  function DeliveredSid(s: State, e: Event): SubmissionId
    requires e.Deliver? && e.p < |s.partitions| && At(s, e.p, s.partitions[e.p].position)
  {
    MsgAt(s, e.p, s.partitions[e.p].position).sid
  }

  /** A callback or a dead letter moves a task on and touches no log. */
  lemma TaskTotal(cfg: Config, measure: Measure, s: State, e: Event)
    requires cfg.Valid() && Enabled(cfg, s, e) && (e.Grade? || e.DeadLetter? || e.Overwrite?)
    ensures measure.Gradings? ==> Total(cfg, measure, Apply(cfg, s, e)) <= Total(cfg, measure, s)
    ensures measure.Steps? ==> Total(cfg, measure, Apply(cfg, s, e)) < Total(cfg, measure, s)
  {
    hide PartitionsTotal, SentReport, Repeated;
    var stage := match e
      case Grade(p, off, _, ack, cleanupThrows, _) => StageGraded(cfg, MsgAt(s, p, off).work, ack, cleanupThrows)
      case DeadLetter(_, _, reply) => if reply.Confirmed? then DeadLettered else Finished
      case Overwrite(_, _, _, _, ack) => if ack then Handled else Finished
      case _ => Finished;
    SetStageTotal(cfg, measure, s, e.p, e.off, stage);
    assert Apply(cfg, s, e).partitions == SetStage(s, e.p, e.off, stage).partitions;
  }

  /** Every step of a crash-free run other than a submission strictly lowers the steps still to come. */
  lemma StepSpends(cfg: Config, s: State, e: Event)
    requires cfg.Valid() && TasksAreDelivered(s) && Enabled(cfg, s, e) && !e.Crash? && !e.Submit?
    ensures Total(cfg, Steps, Apply(cfg, s, e)) < Total(cfg, Steps, s)
  {
    hide Total, Weight, SentReport, Repeated, Mark, Apply;
    match e
    case Deliver(_) => DeliverTotal(cfg, Steps, s, e);
    case FirstMark(p, off, replies) =>
      MarkTotal(cfg, Steps, s, p, off, replies, Raised);
      MarkEvents(cfg, s, e);
    case SecondMark(p, off, replies) =>
      MarkTotal(cfg, Steps, s, p, off, replies, Finished);
      MarkEvents(cfg, s, e);
    case Requeue(_, _, _, _) => RequeueTotal(cfg, Steps, s, e);
    case _ => TaskTotal(cfg, Steps, s, e);
  }

  lemma MarkEvents(cfg: Config, s: State, e: Event)
    requires Enabled(cfg, s, e) && (e.FirstMark? || e.SecondMark?)
    ensures Apply(cfg, s, e) == MarkStep(s, e.p, e.off, e.replies, if e.FirstMark? then Raised else Finished)
  {
  }

  function IsDeliveryOf(s: State, e: Event, sid: SubmissionId): nat {
    if e.Deliver? && e.p < |s.partitions| && s.partitions[e.p].position < |s.partitions[e.p].log|
      && DeliveredSid(s, e) == sid then 1 else 0
  }

  /** A delivery for grading is paid from the gradings still to come; only a submission adds to them. */
  lemma StepPaysForGradings(cfg: Config, s: State, e: Event, sid: SubmissionId)
    requires cfg.Valid() && TasksAreDelivered(s) && Enabled(cfg, s, e) && !e.Crash?
    ensures Total(cfg, Gradings(sid), Apply(cfg, s, e)) + IsDeliveryOf(s, e, sid)
      <= Total(cfg, Gradings(sid), s) + (if e.Submit? && e.sid == sid then cfg.maxAttempts else 0)
  {
    hide Total, Weight, SentReport, Repeated, Mark, Apply;
    match e
    case Submit(_, _, _, _) => SubmitTotal(cfg, s, e, sid);
    case Deliver(_) => DeliverTotal(cfg, Gradings(sid), s, e);
    case FirstMark(p, off, replies) =>
      MarkTotal(cfg, Gradings(sid), s, p, off, replies, Raised);
      MarkEvents(cfg, s, e);
    case SecondMark(p, off, replies) =>
      MarkTotal(cfg, Gradings(sid), s, p, off, replies, Finished);
      MarkEvents(cfg, s, e);
    case Requeue(_, _, _, _) => RequeueTotal(cfg, Gradings(sid), s, e);
    case _ => TaskTotal(cfg, Gradings(sid), s, e);
  }

  lemma SubmitTotal(cfg: Config, s: State, e: Event, sid: SubmissionId)
    requires cfg.Valid() && Enabled(cfg, s, e) && e.Submit?
    ensures Total(cfg, Gradings(sid), Apply(cfg, s, e))
      <= Total(cfg, Gradings(sid), s) + (if e.sid == sid then cfg.maxAttempts else 0)
  {
    hide PartitionsTotal;
    var m := Message(e.sid, Number(1), e.work);
    AppendTotal(cfg, Gradings(sid), s, e.p, m);
    assert Apply(cfg, s, e).partitions == Append(s, e.p, m).partitions;
  }

  // ----- runs

  predicate CrashFree(es: seq<Event>) {
    forall i :: 0 <= i < |es| ==> !es[i].Crash?
  }

  predicate SubmitFree(es: seq<Event>) {
    forall i :: 0 <= i < |es| ==> !es[i].Submit?
  }

  lemma {:induction false} RunSpends(cfg: Config, s: State, es: seq<Event>)
    requires cfg.Valid() && TasksAreDelivered(s) && Legal(cfg, s, es) && CrashFree(es) && SubmitFree(es)
    ensures |es| + Total(cfg, Steps, Exec(cfg, s, es)) <= Total(cfg, Steps, s)
    decreases |es|
  {
    hide Total, Apply, TasksAreDelivered;
    if es != [] {
      StepSpends(cfg, s, es[0]);
      StepKeepsDelivered(cfg, s, es[0]);
      RunSpends(cfg, Apply(cfg, s, es[0]), es[1..]);
    }
  }

  /** The number of times the run delivers a message of the submission for grading. */
  function Deliveries(cfg: Config, s: State, es: seq<Event>, sid: SubmissionId): nat
    requires Legal(cfg, s, es)
    decreases |es|
  {
    if es == [] then 0
    else IsDeliveryOf(s, es[0], sid) + Deliveries(cfg, Apply(cfg, s, es[0]), es[1..], sid)
  }

  lemma {:induction false} RunPaysForGradings(cfg: Config, s: State, es: seq<Event>, sid: SubmissionId)
    requires cfg.Valid() && TasksAreDelivered(s) && Legal(cfg, s, es) && CrashFree(es)
    ensures Deliveries(cfg, s, es, sid)
      <= Total(cfg, Gradings(sid), s) + (if sid in s.created then 0 else cfg.maxAttempts)
    decreases |es|
  {
    hide Total, Apply, TasksAreDelivered, IsDeliveryOf;
    if es != [] {
      var e := es[0];
      var s1 := Apply(cfg, s, e);
      StepPaysForGradings(cfg, s, e, sid);
      StepKeepsDelivered(cfg, s, e);
      RunPaysForGradings(cfg, s1, es[1..], sid);
      CreatedGrows(cfg, s, e);
    }
  }

  lemma {:induction false} NoLogsNoTotal(cfg: Config, measure: Measure, ps: seq<Partition>)
    requires forall p :: 0 <= p < |ps| ==> ps[p].log == []
    ensures PartitionsTotal(cfg, measure, ps) == 0
  {
    if ps != [] {
      NoLogsNoTotal(cfg, measure, ps[..|ps| - 1]);
    }
  }

  /** Without crashes a submission is delivered for grading at most as often as the attempt limit allows. */
  lemma GradedAtMostTheLimit(cfg: Config, s0: State, es: seq<Event>, sid: SubmissionId)
    requires cfg.Valid() && Initial(s0) && Legal(cfg, s0, es) && CrashFree(es)
    ensures Deliveries(cfg, s0, es, sid) <= cfg.maxAttempts
  {
    NoLogsNoTotal(cfg, Gradings(sid), s0.partitions);
    RunPaysForGradings(cfg, s0, es, sid);
  }

  /** In every reachable state no message is past the attempt limit, and none at the limit can be re-published. */
  lemma LimitIsNeverPassed(cfg: Config, s0: State, es: seq<Event>, p: nat, off: nat)
    requires cfg.Valid() && Initial(s0) && Legal(cfg, s0, es) && At(Exec(cfg, s0, es), p, off)
    ensures var s := Exec(cfg, s0, es);
      && Attempt(MsgAt(s, p, off)) <= cfg.maxAttempts
      && (Attempt(MsgAt(s, p, off)) == cfg.maxAttempts ==>
        forall target, reply :: !Enabled(cfg, s, Requeue(p, off, target, reply)))
  {
    hide SentReport, Finalized;
    assert EffectInv(cfg, s0);
    RunKeepsEffect(cfg, s0, es);
    assert GoodMessage(cfg, Exec(cfg, s0, es), MsgAt(Exec(cfg, s0, es), p, off));
  }
}
