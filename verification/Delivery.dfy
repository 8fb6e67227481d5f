/**
 * The delivery protocol as a step system: the web tier appends submissions to the partitions of one topic,
 * executors deliver, grade, retry, dead-letter and commit, and may crash at any point.
 * Each message's slot in its log carries the stage of its handling in the current incarnation.
 */
module Delivery {
  import opened Common
  import opened CommitTracking
  import opened CommitSafety
  import opened Callbacks
  import opened Grading
  import opened Verdicts
  import opened VerdictLaws

  type SubmissionId = nat

  /** The part of a message that every delivery and retry carries along unchanged. */
  datatype Work = Work(language: string, job: Job)

  datatype Message = Message(sid: SubmissionId, deliveryAttempt: RawInt, work: Work)

  datatype Config = Config(maxAttempts: nat, supported: set<string>) {
    predicate Valid() { maxAttempts >= 1 }
  }

  /** `_get_delivery_attempt` */
  function AttemptOf(raw: RawInt): (attempt: nat)
    ensures attempt >= 1
  {
    if raw.Number? then Max(1, raw.n) else 1
  }

  function Attempt(m: Message): nat {
    AttemptOf(m.deliveryAttempt)
  }

  /** The message that `_publish_retry` sends. */
  function Retry(m: Message): Message {
    m.(deliveryAttempt := Number(Attempt(m) + 1))
  }

  function SystemErrorReport(output: string): Report {
    Report(SystemError, output, 0, Missing, Missing)
  }

  const ROUTE_MISMATCH := "Executor route mismatch"

  /** The executor does not take the language. */
  predicate Rejected(cfg: Config, work: Work) {
    cfg.supported != {} && work.language !in cfg.supported
  }

  /** The report of one handled delivery: a rejected language, or the job's grading. */
  function SentReport(cfg: Config, work: Work): Option<Report>
    requires work.job.Valid()
  {
    if Rejected(cfg, work) then Some(SystemErrorReport(ROUTE_MISMATCH)) else ExecutorReport(work.job)
  }

  /** Whether that report is sent at all, given how the sandbox's cleanup ends. */
  predicate Sends(cfg: Config, work: Work, cleanupThrows: bool): (sends: bool)
    requires work.job.Valid()
    ensures sends ==> SentReport(cfg, work).Some?
    ensures !cleanupThrows && SentReport(cfg, work).Some? ==> sends
  {
    Rejected(cfg, work) || SentBy(work.job, cleanupThrows).Some?
  }

  /** Grading raises in its `finally`, although the report may have been acknowledged before. */
  predicate CleanupFails(cfg: Config, work: Work, cleanupThrows: bool) {
    !Rejected(cfg, work) && CleanupRaises(work.job, cleanupThrows)
  }

  /**
   * A grading's stage: not delivered in this incarnation; grading; callback acknowledged and first mark pending;
   * exception raised and its handler pending; dead letter sent and SYSTEM_ERROR callback pending; second mark
   * pending; over.
   */
  datatype Stage = Idle | Running | Persisted | Raised | DeadLettered | Handled | Finished

  datatype Slot = Slot(msg: Message, stage: Stage)

  /** A partition's log, the consumer's position in it, and its tracker and broker offsets. */
  datatype Partition = Partition(log: seq<Slot>, position: nat, view: PartitionView)

  /** A submission as the web tier stored it before queueing. */
  datatype Created = Created(row: Row, work: Work)

  datatype State = State(
    partitions: seq<Partition>,
    created: map<SubmissionId, Created>,
    rows: map<SubmissionId, Row>,
    acked: set<SubmissionId>,
    overwritten: set<SubmissionId>,
    deadLetters: seq<Message>)

  /** How a send ends: confirmed, not appended, or appended although the client sees an error. */
  datatype SendReply = Confirmed | NotSent | SentButLost

  datatype Event =
    | Submit(sid: SubmissionId, question: Option<Question>, work: Work, p: nat)
    | Deliver(p: nat)
    | Grade(p: nat, off: nat, applied: nat, ack: bool, cleanupThrows: bool, timeMs: nat)
    | FirstMark(p: nat, off: nat, replies: Replies)
    | Requeue(p: nat, off: nat, target: nat, reply: SendReply)
    | DeadLetter(p: nat, off: nat, reply: SendReply)
    | Overwrite(p: nat, off: nat, error: string, applied: nat, ack: bool)
    | SecondMark(p: nat, off: nat, replies: Replies)
    | Crash(ps: set<nat>)

  predicate At(s: State, p: nat, off: nat) {
    p < |s.partitions| && off < |s.partitions[p].log|
  }

  function SlotAt(s: State, p: nat, off: nat): Slot
    requires At(s, p, off)
  {
    s.partitions[p].log[off]
  }

  function MsgAt(s: State, p: nat, off: nat): Message
    requires At(s, p, off)
  {
    SlotAt(s, p, off).msg
  }

  predicate InStage(s: State, p: nat, off: nat, stage: Stage) {
    At(s, p, off) && SlotAt(s, p, off).stage == stage
  }

  /** Where a partition's broker stands; consumers start from the log's beginning when nothing is committed. */
  function CommittedOf(pt: Partition): int {
    Position(pt.view, 0)
  }

  predicate Enabled(cfg: Config, s: State, e: Event) {
    match e
    case Submit(sid, _, work, p) => sid !in s.created && p < |s.partitions| && work.job.Valid()
    case Deliver(p) =>
      p < |s.partitions| && s.partitions[p].position < |s.partitions[p].log|
    case Grade(p, off, applied, ack, cleanupThrows, _) =>
      && InStage(s, p, off, Running) && MsgAt(s, p, off).work.job.Valid() && MsgAt(s, p, off).sid in s.rows
      && CallbackPossible(applied, ack)
      && (applied > 0 ==> Sends(cfg, MsgAt(s, p, off).work, cleanupThrows))
    case FirstMark(p, off, _) => InStage(s, p, off, Persisted)
    case Requeue(p, off, target, _) =>
      InStage(s, p, off, Raised) && Attempt(MsgAt(s, p, off)) < cfg.maxAttempts && target < |s.partitions|
    case DeadLetter(p, off, _) => InStage(s, p, off, Raised) && Attempt(MsgAt(s, p, off)) >= cfg.maxAttempts
    case Overwrite(p, off, _, applied, ack) =>
      InStage(s, p, off, DeadLettered) && MsgAt(s, p, off).sid in s.rows && CallbackPossible(applied, ack)
    case SecondMark(p, off, _) => InStage(s, p, off, Handled)
    case Crash(_) => true
  }

  function SetStage(s: State, p: nat, off: nat, stage: Stage): State
    requires At(s, p, off)
  {
    var pt := s.partitions[p];
    s.(partitions := s.partitions[p := pt.(log := pt.log[off := pt.log[off].(stage := stage)])])
  }

  function Append(s: State, p: nat, m: Message): State
    requires p < |s.partitions|
  {
    var pt := s.partitions[p];
    s.(partitions := s.partitions[p := pt.(log := pt.log + [Slot(m, Idle)])])
  }

  function WithView(s: State, p: nat, view: PartitionView): State
    requires p < |s.partitions|
  {
    s.(partitions := s.partitions[p := s.partitions[p].(view := view)])
  }

  /** Applies a report's callback `n` times and records an acknowledgement. */
  function Callback(s: State, sid: SubmissionId, report: Report, n: nat, ack: bool): State
    requires sid in s.rows
  {
    s.(rows := s.rows[sid := Repeated(s.rows[sid], report, n)],
       acked := if ack then s.acked + {sid} else s.acked)
  }

  /** A new incarnation of the partition's consumer: nothing in flight, an empty tracker, and the committed position. */
  function Restart(pt: Partition): Partition {
    Partition(
      seq(|pt.log|, i requires 0 <= i < |pt.log| => pt.log[i].(stage := Idle)),
      Max(CommittedOf(pt), 0),
      PartitionView(None, {}, pt.view.committed))
  }

  function MarkStep(s: State, p: nat, off: nat, replies: Replies, ifRaised: Stage): State
    requires At(s, p, off)
  {
    var r := Mark(s.partitions[p].view, off, replies);
    WithView(SetStage(s, p, off, if r.raised then ifRaised else Finished), p, r.view)
  }

  /** A grading goes on to its mark only when its report was acknowledged and its cleanup did not raise. */
  function StageGraded(cfg: Config, work: Work, ack: bool, cleanupThrows: bool): Stage {
    if ack && !CleanupFails(cfg, work, cleanupThrows) then Persisted else Raised
  }

  function Apply(cfg: Config, s: State, e: Event): State
    requires Enabled(cfg, s, e)
  {
    match e
    case Submit(sid, question, work, p) =>
      var row := NewRow(question, |work.job.cases|);
      Append(s, p, Message(sid, Number(1), work)).(
        created := s.created[sid := Created(row, work)], rows := s.rows[sid := row])
    case Deliver(p) =>
      var off := s.partitions[p].position;
      var s1 := SetStage(s, p, off, Running);
      s1.(partitions := s1.partitions[p := s1.partitions[p].(position := off + 1)])
    case Grade(p, off, applied, ack, cleanupThrows, timeMs) =>
      var m := MsgAt(s, p, off);
      var s1 := SetStage(s, p, off, StageGraded(cfg, m.work, ack, cleanupThrows));
      if applied == 0 then s1
      else Callback(s1, m.sid, SentReport(cfg, m.work).value.(timeMs := timeMs), applied, ack)
    case FirstMark(p, off, replies) => MarkStep(s, p, off, replies, Raised)
    case Requeue(p, off, target, reply) =>
      var s1 := SetStage(s, p, off, if reply.Confirmed? then Handled else Finished);
      if reply.NotSent? then s1 else Append(s1, target, Retry(MsgAt(s, p, off)))
    case DeadLetter(p, off, reply) =>
      var s1 := SetStage(s, p, off, if reply.Confirmed? then DeadLettered else Finished);
      if reply.NotSent? then s1 else s1.(deadLetters := s1.deadLetters + [MsgAt(s, p, off)])
    case Overwrite(p, off, error, applied, ack) =>
      var sid := MsgAt(s, p, off).sid;
      var s1 := SetStage(s, p, off, if ack then Handled else Finished);
      if applied == 0 then s1
      else Callback(s1, sid, SystemErrorReport(error), applied, ack).(overwritten := s.overwritten + {sid})
    case SecondMark(p, off, replies) => MarkStep(s, p, off, replies, Finished)
    case Crash(ps) =>
      s.(partitions := seq(|s.partitions|, i requires 0 <= i < |s.partitions| =>
        if i in ps then Restart(s.partitions[i]) else s.partitions[i]))
  }

  // ----- runs

  predicate Legal(cfg: Config, s: State, es: seq<Event>)
    decreases |es|
  {
    es == [] || (Enabled(cfg, s, es[0]) && Legal(cfg, Apply(cfg, s, es[0]), es[1..]))
  }

  function Exec(cfg: Config, s: State, es: seq<Event>): State
    requires Legal(cfg, s, es)
    decreases |es|
  {
    if es == [] then s else Exec(cfg, Apply(cfg, s, es[0]), es[1..])
  }

  /** Empty logs; on each partition the broker has no committed offset, or has committed the beginning of the log. */
  predicate Initial(s: State) {
    && (forall p :: 0 <= p < |s.partitions| ==>
      var pt := s.partitions[p];
      pt.log == [] && pt.position == 0 && Fresh(pt.view) && (pt.view.committed == None || pt.view.committed == Some(0)))
    && s.created == map[] && s.rows == map[] && s.acked == {} && s.overwritten == {} && s.deadLetters == []
  }
}
