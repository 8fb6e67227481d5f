/** No submission is lost: the invariant of the delivery protocol, every step that keeps it, and what follows. */
module DeliverySafety {
  import opened Common
  import opened CommitTracking
  import opened CommitSafety
  import opened Grading
  import opened Verdicts
  import opened VerdictLaws
  import opened Delivery

  // ----- the invariant

  /** A later attempt at the same submission stands in some log. */
  predicate Successor(s: State, m: Message, p: nat, off: nat) {
    At(s, p, off) && MsgAt(s, p, off).sid == m.sid && Attempt(MsgAt(s, p, off)) > Attempt(m)
  }

  /** The message may be passed over: its submission has an acknowledged verdict, or a later attempt exists. */
  ghost predicate Resolved(s: State, m: Message) {
    m.sid in s.acked || exists p, off :: Successor(s, m, p, off)
  }

  /** The tracker's numbers on one partition. */
  ghost predicate LocalInv(pt: Partition) {
    var c := CommittedOf(pt);
    && 0 <= c <= pt.position <= |pt.log|
    && (pt.view.next.None? ==> pt.view.completed == {})
    && (pt.view.next.Some? ==>
      0 <= pt.view.next.value <= pt.position && forall k :: pt.view.next.value <= k < c ==> k in pt.view.completed)
    && (forall k :: k in pt.view.completed ==> 0 <= k < pt.position)
    && (forall off :: 0 <= off < |pt.log| && pt.log[off].stage != Idle ==> off < pt.position)
  }

  /** The offsets that a commit has passed, may pass, or is about to pass. */
  predicate Passable(pt: Partition, off: nat)
    requires off < |pt.log|
  {
    || off < CommittedOf(pt) || (pt.view.next.Some? && off < pt.view.next.value)
    || off in pt.view.completed || pt.log[off].stage in {Persisted, Handled}
  }

  ghost predicate ResolvedInv(s: State, pt: Partition) {
    forall off :: 0 <= off < |pt.log| && Passable(pt, off) ==> Resolved(s, pt.log[off].msg)
  }

  predicate GoodMessage(cfg: Config, s: State, m: Message) {
    m.sid in s.created && m.work == s.created[m.sid].work && Attempt(m) <= cfg.maxAttempts
  }

  ghost predicate MessageInv(cfg: Config, s: State) {
    forall p, off :: At(s, p, off) ==> GoodMessage(cfg, s, MsgAt(s, p, off))
  }

  ghost predicate HasMessage(s: State, sid: SubmissionId) {
    exists p, off :: At(s, p, off) && MsgAt(s, p, off).sid == sid
  }

  ghost predicate PartitionsInv(s: State) {
    forall p :: 0 <= p < |s.partitions| ==> LocalInv(s.partitions[p]) && ResolvedInv(s, s.partitions[p])
  }

  ghost predicate Inv(cfg: Config, s: State) {
    && cfg.Valid() && PartitionsInv(s) && MessageInv(cfg, s)
    && forall sid :: sid in s.created ==> HasMessage(s, sid)
  }

  /** The next mark would fix the tracker's baseline with no committed offset to start from. */
  predicate FixesBaseline(pt: Partition) {
    pt.view.next == None && !Known(pt.view.committed)
  }

  /** Such a mark must come after everything below it is resolved; every other mark is free. */
  ghost predicate MarkDisciplined(s: State, pt: Partition, off: nat) {
    FixesBaseline(pt) ==> forall k :: 0 <= k < off && k < |pt.log| ==> Resolved(s, pt.log[k].msg)
  }

  ghost predicate Disciplined(s: State, e: Event) {
    match e
    case FirstMark(p, off, _) => p < |s.partitions| ==> MarkDisciplined(s, s.partitions[p], off)
    case SecondMark(p, off, _) => p < |s.partitions| ==> MarkDisciplined(s, s.partitions[p], off)
    case _ => true
  }

  ghost predicate AllDisciplined(cfg: Config, s: State, es: seq<Event>)
    requires Legal(cfg, s, es)
    decreases |es|
  {
    es == [] || (Disciplined(s, es[0]) && AllDisciplined(cfg, Apply(cfg, s, es[0]), es[1..]))
  }

  // ----- what only grows

  /** Logs only grow, created submissions stay, and acknowledgements are never withdrawn. */
  ghost predicate Evolves(s: State, s': State) {
    && |s'.partitions| == |s.partitions|
    && (forall p, off :: At(s, p, off) ==> At(s', p, off) && MsgAt(s', p, off) == MsgAt(s, p, off))
    && s.acked <= s'.acked
    && (forall sid :: sid in s.created ==> sid in s'.created && s'.created[sid] == s.created[sid])
  }

  lemma ResolvedStays(s: State, s': State, m: Message)
    requires Evolves(s, s') && Resolved(s, m)
    ensures Resolved(s', m)
  {
    if m.sid !in s.acked {
      var p, off :| Successor(s, m, p, off);
      assert Successor(s', m, p, off);
    }
  }

  lemma HasMessageStays(s: State, s': State, sid: SubmissionId)
    requires Evolves(s, s') && HasMessage(s, sid)
    ensures HasMessage(s', sid)
  {
    var p, off :| At(s, p, off) && MsgAt(s, p, off).sid == sid;
    assert At(s', p, off) && MsgAt(s', p, off).sid == sid;
  }

  lemma EvolvesTransitive(a: State, b: State, c: State)
    requires Evolves(a, b) && Evolves(b, c)
    ensures Evolves(a, c)
  {
  }

  /** One partition changed: it keeps its invariant if what became passable is resolved. */
  lemma PartitionChanged(s: State, s': State, p: nat)
    requires p < |s.partitions| && PartitionsInv(s) && Evolves(s, s')
    requires forall q :: 0 <= q < |s.partitions| && q != p ==> s'.partitions[q] == s.partitions[q]
    requires LocalInv(s'.partitions[p])
    requires forall off :: 0 <= off < |s'.partitions[p].log| && Passable(s'.partitions[p], off) ==>
      Resolved(s', s'.partitions[p].log[off].msg)
      || (off < |s.partitions[p].log| && Passable(s.partitions[p], off))
    ensures PartitionsInv(s')
  {
    forall q | 0 <= q < |s'.partitions|
      ensures LocalInv(s'.partitions[q]) && ResolvedInv(s', s'.partitions[q])
    {
      var pt, pt' := s.partitions[q], s'.partitions[q];
      assert LocalInv(pt) && ResolvedInv(s, pt);
      forall off | 0 <= off < |pt'.log| && Passable(pt', off) ensures Resolved(s', pt'.log[off].msg) {
        if off < |pt.log| && Passable(pt, off) {
          assert At(s, q, off) && MsgAt(s, q, off) == pt.log[off].msg;
          ResolvedStays(s, s', pt.log[off].msg);
        }
      }
    }
  }

  // ----- the elementary changes

  lemma SetStageKeeps(s: State, p: nat, off: nat, stage: Stage)
    requires PartitionsInv(s) && At(s, p, off) && off < s.partitions[p].position
    requires stage in {Persisted, Handled} ==> Resolved(s, MsgAt(s, p, off))
    ensures PartitionsInv(SetStage(s, p, off, stage)) && Evolves(s, SetStage(s, p, off, stage))
  {
    var s' := SetStage(s, p, off, stage);
    var pt, pt' := s.partitions[p], s'.partitions[p];
    assert LocalInv(pt);
    assert LocalInv(pt');
    if Resolved(s, MsgAt(s, p, off)) { ResolvedStays(s, s', MsgAt(s, p, off)); }
    PartitionChanged(s, s', p);
  }

  lemma AppendKeeps(s: State, p: nat, m: Message)
    requires PartitionsInv(s) && p < |s.partitions|
    ensures var s' := Append(s, p, m);
      var n := |s.partitions[p].log|;
      PartitionsInv(s') && Evolves(s, s') && At(s', p, n) && MsgAt(s', p, n) == m
  {
    var s' := Append(s, p, m);
    assert LocalInv(s.partitions[p]);
    assert LocalInv(s'.partitions[p]);
    PartitionChanged(s, s', p);
  }

  /** Changing only the tables of submissions, with acknowledgements growing, keeps the partitions' invariant. */
  lemma TablesKeep(s: State, s': State)
    requires PartitionsInv(s) && Evolves(s, s') && s'.partitions == s.partitions
    ensures PartitionsInv(s')
  {
    forall q | 0 <= q < |s'.partitions| ensures LocalInv(s'.partitions[q]) && ResolvedInv(s', s'.partitions[q]) {
      if |s.partitions| > 0 { PartitionChanged(s, s', q); }
    }
  }

  /** `mark_completed` on one partition, for an offset that was delivered. */
  lemma MarkLocal(pt: Partition, off: nat, replies: Replies)
    requires LocalInv(pt) && off < pt.position
    ensures var pt' := pt.(view := Mark(pt.view, off, replies).view);
      && LocalInv(pt') && CommittedOf(pt) <= CommittedOf(pt')
      && forall k :: 0 <= k < |pt.log| && Passable(pt', k) ==>
        Passable(pt, k) || k == off || (FixesBaseline(pt) && k < off)
  {
    var v := pt.view;
    var r := Mark(v, off, replies);
    var c := CommittedOf(pt);
    var next := Baseline(v, off);
    assert 0 <= next <= pt.position && forall k :: next <= k < c ==> k in v.completed;
    var done := v.completed + {off};
    var gap := FirstGap(next, done);
    assert pt.position !in done && gap <= pt.position;
    assert c <= gap;
    var pt' := pt.(view := r.view);
    assert CommittedOf(pt') == c || CommittedOf(pt') == gap;
    forall k | 0 <= k < |pt.log| && Passable(pt', k)
      ensures Passable(pt, k) || k == off || (FixesBaseline(pt) && k < off)
    {
      if next <= k < gap { assert k in done; }
    }
  }

  lemma MarkStepKeeps(s: State, p: nat, off: nat, replies: Replies, ifRaised: Stage)
    requires PartitionsInv(s) && At(s, p, off) && MarkDisciplined(s, s.partitions[p], off)
    requires SlotAt(s, p, off).stage in {Persisted, Handled} && ifRaised in {Raised, Finished}
    ensures var s' := MarkStep(s, p, off, replies, ifRaised);
      && PartitionsInv(s') && Evolves(s, s')
      && CommittedOf(s.partitions[p]) <= CommittedOf(s'.partitions[p])
  {
    hide Mark;
    var pt := s.partitions[p];
    assert LocalInv(pt) && ResolvedInv(s, pt) && Passable(pt, off);
    var r := Mark(pt.view, off, replies);
    var s1 := SetStage(s, p, off, if r.raised then ifRaised else Finished);
    SetStageKeeps(s, p, off, if r.raised then ifRaised else Finished);
    var pt1 := s1.partitions[p];
    assert LocalInv(pt1);
    MarkLocal(pt1, off, replies);
    var s' := WithView(s1, p, r.view);
    assert Evolves(s1, s');
    EvolvesTransitive(s, s1, s');
    ResolvedStays(s, s', MsgAt(s, p, off));
    forall k | 0 <= k < |pt1.log| && FixesBaseline(pt) && k < off ensures Resolved(s', pt1.log[k].msg) {
      assert At(s, p, k) && MsgAt(s1, p, k) == MsgAt(s, p, k);
      ResolvedStays(s, s', MsgAt(s, p, k));
    }
    PartitionChanged(s1, s', p);
  }

  lemma RestartLocal(pt: Partition)
    requires LocalInv(pt)
    ensures LocalInv(Restart(pt)) && CommittedOf(Restart(pt)) == CommittedOf(pt)
    ensures |Restart(pt).log| == |pt.log|
    ensures forall k :: 0 <= k < |pt.log| ==> Restart(pt).log[k].msg == pt.log[k].msg
    ensures forall k :: 0 <= k < |pt.log| && Passable(Restart(pt), k) ==> Passable(pt, k)
  {
  }

  lemma CrashKeeps(cfg: Config, s: State, ps: set<nat>)
    requires PartitionsInv(s)
    ensures PartitionsInv(Apply(cfg, s, Crash(ps))) && Evolves(s, Apply(cfg, s, Crash(ps)))
    ensures forall p :: 0 <= p < |s.partitions| ==>
      CommittedOf(Apply(cfg, s, Crash(ps)).partitions[p]) == CommittedOf(s.partitions[p])
  {
    var s' := Apply(cfg, s, Crash(ps));
    forall p | 0 <= p < |s.partitions|
      ensures CommittedOf(s'.partitions[p]) == CommittedOf(s.partitions[p])
      ensures LocalInv(s'.partitions[p]) && |s'.partitions[p].log| == |s.partitions[p].log|
      ensures forall k :: 0 <= k < |s.partitions[p].log| ==> s'.partitions[p].log[k].msg == s.partitions[p].log[k].msg
      ensures forall k :: 0 <= k < |s.partitions[p].log| && Passable(s'.partitions[p], k) ==>
        Passable(s.partitions[p], k)
    {
      assert LocalInv(s.partitions[p]);
      RestartLocal(s.partitions[p]);
    }
    assert Evolves(s, s');
    forall p | 0 <= p < |s'.partitions| ensures ResolvedInv(s', s'.partitions[p]) {
      var pt, pt' := s.partitions[p], s'.partitions[p];
      assert ResolvedInv(s, pt);
      forall off | 0 <= off < |pt'.log| && Passable(pt', off) ensures Resolved(s', pt'.log[off].msg) {
        ResolvedStays(s, s', pt.log[off].msg);
      }
    }
  }

  // ----- steps

  /** What a step must give besides the partitions' invariant. */
  lemma MessagesStay(cfg: Config, s: State, s': State)
    requires Inv(cfg, s) && Evolves(s, s') && PartitionsInv(s')
    requires forall p, off :: At(s', p, off) && !At(s, p, off) ==> GoodMessage(cfg, s', MsgAt(s', p, off))
    requires forall sid :: sid in s'.created && sid !in s.created ==> HasMessage(s', sid)
    ensures Inv(cfg, s')
  {
    forall p, off | At(s', p, off) ensures GoodMessage(cfg, s', MsgAt(s', p, off)) {
      if At(s, p, off) { assert GoodMessage(cfg, s, MsgAt(s, p, off)); }
    }
    forall sid | sid in s'.created ensures HasMessage(s', sid) {
      if sid in s.created { HasMessageStays(s, s', sid); }
    }
  }

  lemma SubmitKeeps(cfg: Config, s: State, e: Event)
    requires Inv(cfg, s) && Enabled(cfg, s, e) && e.Submit?
    ensures Inv(cfg, Apply(cfg, s, e)) && Evolves(s, Apply(cfg, s, e))
  {
    var m := Message(e.sid, Number(1), e.work);
    var s1 := Append(s, e.p, m);
    var s' := Apply(cfg, s, e);
    AppendKeeps(s, e.p, m);
    assert Evolves(s1, s');
    TablesKeep(s1, s');
    assert At(s', e.p, |s.partitions[e.p].log|) && MsgAt(s', e.p, |s.partitions[e.p].log|) == m;
    MessagesStay(cfg, s, s');
  }

  lemma DeliverKeeps(cfg: Config, s: State, e: Event)
    requires Inv(cfg, s) && Enabled(cfg, s, e) && e.Deliver?
    ensures Inv(cfg, Apply(cfg, s, e)) && Evolves(s, Apply(cfg, s, e))
  {
    var s' := Apply(cfg, s, e);
    assert LocalInv(s.partitions[e.p]);
    assert LocalInv(s'.partitions[e.p]);
    PartitionChanged(s, s', e.p);
    MessagesStay(cfg, s, s');
  }

  lemma TaskIsDelivered(s: State, p: nat, off: nat)
    requires PartitionsInv(s) && At(s, p, off) && SlotAt(s, p, off).stage != Idle
    ensures off < s.partitions[p].position
  {
    assert LocalInv(s.partitions[p]);
  }

  /** Moves a task to `stage` after a callback that changes only the submission tables. */
  lemma CallbackKeeps(cfg: Config, s: State, s1: State, p: nat, off: nat, stage: Stage, s': State)
    requires Inv(cfg, s) && At(s, p, off) && SlotAt(s, p, off).stage != Idle
    requires Evolves(s, s1) && s1.partitions == s.partitions && s1.created == s.created
    requires stage in {Persisted, Handled} ==> Resolved(s1, MsgAt(s, p, off))
    requires s' == SetStage(s1, p, off, stage)
    ensures Inv(cfg, s') && Evolves(s, s')
  {
    TablesKeep(s, s1);
    TaskIsDelivered(s, p, off);
    SetStageKeeps(s1, p, off, stage);
    MessagesStay(cfg, s, s');
  }

  lemma GradeKeeps(cfg: Config, s: State, e: Event)
    requires Inv(cfg, s) && Enabled(cfg, s, e) && e.Grade?
    ensures Inv(cfg, Apply(cfg, s, e)) && Evolves(s, Apply(cfg, s, e))
  {
    var m := MsgAt(s, e.p, e.off);
    var s1 := if e.applied == 0 then s
      else Callback(s, m.sid, SentReport(cfg, m.work).value.(timeMs := e.timeMs), e.applied, e.ack);
    CallbackKeeps(cfg, s, s1, e.p, e.off, StageGraded(cfg, m.work, e.ack, e.cleanupThrows), Apply(cfg, s, e));
  }

  lemma OverwriteKeeps(cfg: Config, s: State, e: Event)
    requires Inv(cfg, s) && Enabled(cfg, s, e) && e.Overwrite?
    ensures Inv(cfg, Apply(cfg, s, e)) && Evolves(s, Apply(cfg, s, e))
  {
    var sid := MsgAt(s, e.p, e.off).sid;
    var s1 := if e.applied == 0 then s
      else Callback(s, sid, SystemErrorReport(e.error), e.applied, e.ack).(overwritten := s.overwritten + {sid});
    CallbackKeeps(cfg, s, s1, e.p, e.off, if e.ack then Handled else Finished, Apply(cfg, s, e));
  }

  lemma MarkEventKeeps(cfg: Config, s: State, p: nat, off: nat, replies: Replies, ifRaised: Stage)
    requires Inv(cfg, s) && At(s, p, off) && MarkDisciplined(s, s.partitions[p], off)
    requires SlotAt(s, p, off).stage in {Persisted, Handled} && ifRaised in {Raised, Finished}
    ensures Inv(cfg, MarkStep(s, p, off, replies, ifRaised)) && Evolves(s, MarkStep(s, p, off, replies, ifRaised))
  {
    MarkStepKeeps(s, p, off, replies, ifRaised);
    MessagesStay(cfg, s, MarkStep(s, p, off, replies, ifRaised));
  }

  lemma RequeueKeeps(cfg: Config, s: State, e: Event)
    requires Inv(cfg, s) && Enabled(cfg, s, e) && e.Requeue?
    ensures Inv(cfg, Apply(cfg, s, e)) && Evolves(s, Apply(cfg, s, e))
  {
    TaskIsDelivered(s, e.p, e.off);
    if e.reply.NotSent? {
      SetStageKeeps(s, e.p, e.off, Finished);
      MessagesStay(cfg, s, Apply(cfg, s, e));
    } else {
      RetryKeeps(cfg, s, e.p, e.off, if e.reply.Confirmed? then Handled else Finished, e.target);
    }
  }

  /** A retry in some log is what resolves the message it repeats. */
  lemma RetryKeeps(cfg: Config, s: State, p: nat, off: nat, stage: Stage, target: nat)
    requires Inv(cfg, s) && At(s, p, off) && off < s.partitions[p].position && target < |s.partitions|
    requires Attempt(MsgAt(s, p, off)) < cfg.maxAttempts
    ensures var s' := Append(SetStage(s, p, off, stage), target, Retry(MsgAt(s, p, off)));
      Inv(cfg, s') && Evolves(s, s')
  {
    hide LocalInv, ResolvedInv;
    var m := MsgAt(s, p, off);
    var n := |s.partitions[target].log|;
    var s1 := Append(s, target, Retry(m));
    AppendKeeps(s, target, Retry(m));
    assert Successor(s1, m, target, n);
    SetStageKeeps(s1, p, off, stage);
    SetThenAppend(s, p, off, stage, target, Retry(m));
    var s' := SetStage(s1, p, off, stage);
    EvolvesTransitive(s, s1, s');
    assert GoodMessage(cfg, s, m);
    forall q, o | At(s', q, o) && !At(s, q, o) ensures GoodMessage(cfg, s', MsgAt(s', q, o)) {
      assert q == target && o == n;
    }
    MessagesStay(cfg, s, s');
  }

  lemma SetThenAppend(s: State, p: nat, off: nat, stage: Stage, target: nat, m: Message)
    requires At(s, p, off) && target < |s.partitions|
    ensures At(Append(s, target, m), p, off)
    ensures Append(SetStage(s, p, off, stage), target, m) == SetStage(Append(s, target, m), p, off, stage)
  {
    var a := Append(SetStage(s, p, off, stage), target, m);
    var b := SetStage(Append(s, target, m), p, off, stage);
    forall q | 0 <= q < |s.partitions| ensures a.partitions[q] == b.partitions[q] {
      assert a.partitions[q].log == b.partitions[q].log;
    }
    assert a.partitions == b.partitions;
  }

  lemma DeadLetterKeeps(cfg: Config, s: State, e: Event)
    requires Inv(cfg, s) && Enabled(cfg, s, e) && e.DeadLetter?
    ensures Inv(cfg, Apply(cfg, s, e)) && Evolves(s, Apply(cfg, s, e))
  {
    hide LocalInv, ResolvedInv, GoodMessage;
    var stage := if e.reply.Confirmed? then DeadLettered else Finished;
    var s1 := SetStage(s, e.p, e.off, stage);
    TaskIsDelivered(s, e.p, e.off);
    SetStageKeeps(s, e.p, e.off, stage);
    assert Evolves(s1, Apply(cfg, s, e));
    TablesKeep(s1, Apply(cfg, s, e));
    MessagesStay(cfg, s, Apply(cfg, s, e));
  }

  /** Every step keeps the invariant. */
  lemma StepKeeps(cfg: Config, s: State, e: Event)
    requires Inv(cfg, s) && Enabled(cfg, s, e) && Disciplined(s, e)
    ensures Inv(cfg, Apply(cfg, s, e)) && Evolves(s, Apply(cfg, s, e))
  {
    match e
    case Submit(_, _, _, _) => SubmitKeeps(cfg, s, e);
    case Deliver(_) => DeliverKeeps(cfg, s, e);
    case Grade(_, _, _, _, _, _) => GradeKeeps(cfg, s, e);
    case FirstMark(p, off, replies) => MarkEventKeeps(cfg, s, p, off, replies, Raised);
    case Requeue(_, _, _, _) => RequeueKeeps(cfg, s, e);
    case DeadLetter(_, _, _) => DeadLetterKeeps(cfg, s, e);
    case Overwrite(_, _, _, _, _) => OverwriteKeeps(cfg, s, e);
    case SecondMark(p, off, replies) => MarkEventKeeps(cfg, s, p, off, replies, Finished);
    case Crash(ps) =>
      CrashKeeps(cfg, s, ps);
      MessagesStay(cfg, s, Apply(cfg, s, e));
  }

  lemma InitialInv(cfg: Config, s: State)
    requires cfg.Valid() && Initial(s)
    ensures Inv(cfg, s)
  {
  }

  lemma {:induction false} RunKeeps(cfg: Config, s: State, es: seq<Event>)
    requires Inv(cfg, s) && Legal(cfg, s, es) && AllDisciplined(cfg, s, es)
    ensures Inv(cfg, Exec(cfg, s, es)) && Evolves(s, Exec(cfg, s, es))
    decreases |es|
  {
    if es != [] {
      var s1 := Apply(cfg, s, es[0]);
      StepKeeps(cfg, s, es[0]);
      RunKeeps(cfg, s1, es[1..]);
      EvolvesTransitive(s, s1, Exec(cfg, s1, es[1..]));
    }
  }

  // ----- no submission is lost

  /** The submission has an acknowledged verdict, or a message that some consumer has yet to pass. */
  ghost predicate Alive(s: State, sid: SubmissionId) {
    || sid in s.acked
    || exists p: nat, off: nat :: At(s, p, off) && MsgAt(s, p, off).sid == sid && CommittedOf(s.partitions[p]) <= off
  }

  /** Follows the retry chain across partitions from any message of the submission. */
  lemma {:induction false} ChainIsAlive(cfg: Config, s: State, p: nat, off: nat)
    requires Inv(cfg, s) && At(s, p, off)
    ensures Alive(s, MsgAt(s, p, off).sid)
    decreases cfg.maxAttempts - Attempt(MsgAt(s, p, off))
  {
    var pt, m := s.partitions[p], MsgAt(s, p, off);
    assert LocalInv(pt) && ResolvedInv(s, pt) && GoodMessage(cfg, s, m);
    if off < CommittedOf(pt) && m.sid !in s.acked {
      assert Passable(pt, off);
      var p', off' :| Successor(s, m, p', off');
      assert GoodMessage(cfg, s, MsgAt(s, p', off'));
      ChainIsAlive(cfg, s, p', off');
    }
  }

  lemma InvIsAlive(cfg: Config, s: State, sid: SubmissionId)
    requires Inv(cfg, s) && sid in s.created
    ensures Alive(s, sid)
  {
    assert HasMessage(s, sid);
    var p, off :| At(s, p, off) && MsgAt(s, p, off).sid == sid;
    ChainIsAlive(cfg, s, p, off);
  }

  /**
   * In every state that a disciplined run reaches, through any crashes, failed callbacks and lost commits,
   * every created submission has an acknowledged verdict or a message at or above its partition's committed offset.
   */
  lemma NoSubmissionIsLost(cfg: Config, s0: State, es: seq<Event>, sid: SubmissionId)
    requires cfg.Valid() && Initial(s0) && Legal(cfg, s0, es) && AllDisciplined(cfg, s0, es)
    requires sid in Exec(cfg, s0, es).created
    ensures Alive(Exec(cfg, s0, es), sid)
  {
    InitialInv(cfg, s0);
    RunKeeps(cfg, s0, es);
    InvIsAlive(cfg, Exec(cfg, s0, es), sid);
  }

  lemma {:induction false} DeliveriesReach(cfg: Config, s: State, p: nat, n: nat)
    requires n > 0 && p < |s.partitions| && s.partitions[p].position + n <= |s.partitions[p].log|
    ensures var es := seq(n, _ => Deliver(p));
      var off := s.partitions[p].position + n - 1;
      && Legal(cfg, s, es) && InStage(Exec(cfg, s, es), p, off, Running)
      && MsgAt(Exec(cfg, s, es), p, off) == MsgAt(s, p, off)
    decreases n
  {
    var es := seq(n, _ => Deliver(p));
    var rest := seq(n - 1, _ => Deliver(p));
    var s1 := Apply(cfg, s, Deliver(p));
    assert es == [Deliver(p)] + rest;
    if n == 1 {
      assert rest == [];
    } else {
      DeliveriesReach(cfg, s1, p, n - 1);
      assert MsgAt(s1, p, s.partitions[p].position + n - 1) == MsgAt(s, p, s.partitions[p].position + n - 1);
    }
    LegalStep(cfg, s, Deliver(p), rest);
  }

  /** After a restart of its consumer, every message at or above the committed offset is delivered again. */
  lemma RestartRedelivers(cfg: Config, s: State, p: nat, off: nat) returns (es: seq<Event>)
    requires PartitionsInv(s) && At(s, p, off) && CommittedOf(s.partitions[p]) <= off
    ensures Legal(cfg, s, es) && InStage(Exec(cfg, s, es), p, off, Running)
    ensures MsgAt(Exec(cfg, s, es), p, off) == MsgAt(s, p, off)
    ensures forall i :: 0 <= i < |es| ==> es[i].Crash? || es[i].Deliver?
  {
    assert LocalInv(s.partitions[p]);
    var s1 := Apply(cfg, s, Crash({p}));
    var n := off - CommittedOf(s.partitions[p]) + 1;
    DeliveriesReach(cfg, s1, p, n);
    LegalStep(cfg, s, Crash({p}), seq(n, _ => Deliver(p)));
    es := [Crash({p})] + seq(n, _ => Deliver(p));
  }

  /** From every state that a disciplined run reaches, a submission without an acknowledged verdict can be graded. */
  lemma EverySubmissionCanBeGraded(cfg: Config, s0: State, es: seq<Event>, sid: SubmissionId)
      returns (more: seq<Event>, p: nat, off: nat)
    requires cfg.Valid() && Initial(s0) && Legal(cfg, s0, es) && AllDisciplined(cfg, s0, es)
    requires var s := Exec(cfg, s0, es); sid in s.created && sid !in s.acked
    ensures var s := Exec(cfg, s0, es);
      && Legal(cfg, s, more) && InStage(Exec(cfg, s, more), p, off, Running)
      && MsgAt(Exec(cfg, s, more), p, off).sid == sid
      && MsgAt(Exec(cfg, s, more), p, off).work == s.created[sid].work
    ensures forall i :: 0 <= i < |more| ==> more[i].Crash? || more[i].Deliver?
  {
    hide Apply;
    var s := Exec(cfg, s0, es);
    InitialInv(cfg, s0);
    RunKeeps(cfg, s0, es);
    NoSubmissionIsLost(cfg, s0, es, sid);
    p, off :| At(s, p, off) && MsgAt(s, p, off).sid == sid && CommittedOf(s.partitions[p]) <= off;
    assert GoodMessage(cfg, s, MsgAt(s, p, off));
    more := RestartRedelivers(cfg, s, p, off);
  }

  /** Every offset below a committed offset is resolved, and the broker never stands past the log's end. */
  lemma CommittedOffsetsAreResolved(cfg: Config, s0: State, es: seq<Event>, p: nat)
    requires cfg.Valid() && Initial(s0) && Legal(cfg, s0, es) && AllDisciplined(cfg, s0, es)
    requires p < |Exec(cfg, s0, es).partitions|
    ensures var s := Exec(cfg, s0, es);
      var pt := s.partitions[p];
      0 <= CommittedOf(pt) <= |pt.log|
      && forall off :: 0 <= off < CommittedOf(pt) ==> Resolved(s, pt.log[off].msg)
  {
    InitialInv(cfg, s0);
    RunKeeps(cfg, s0, es);
    var pt := Exec(cfg, s0, es).partitions[p];
    assert LocalInv(pt) && ResolvedInv(Exec(cfg, s0, es), pt);
    forall off | 0 <= off < CommittedOf(pt) ensures Resolved(Exec(cfg, s0, es), pt.log[off].msg) {
      assert Passable(pt, off);
    }
  }

  // ----- what holds of every legal run, disciplined or not

  /** Only marks and restarts touch a partition's tracker and broker offsets. */
  lemma ViewsStay(cfg: Config, s: State, e: Event, p: nat)
    requires Enabled(cfg, s, e) && !e.FirstMark? && !e.SecondMark? && !e.Crash? && p < |s.partitions|
    ensures p < |Apply(cfg, s, e).partitions|
    ensures Apply(cfg, s, e).partitions[p].view == s.partitions[p].view
  {
    hide SentReport, Repeated, NewRow;
  }

  /** The tracker's numbers are right on every partition. */
  ghost predicate TrackersInv(s: State) {
    forall p :: 0 <= p < |s.partitions| ==> LocalInv(s.partitions[p])
  }

  /** What a step may do to one partition: its numbers stay right, and its committed offset does not go back. */
  ghost predicate Advances(pt: Partition, pt': Partition) {
    LocalInv(pt') && CommittedOf(pt) <= CommittedOf(pt')
  }

  lemma StageAdvances(pt: Partition, off: nat, stage: Stage)
    requires LocalInv(pt) && off < |pt.log| && pt.log[off].stage != Idle
    ensures Advances(pt, pt.(log := pt.log[off := pt.log[off].(stage := stage)]))
  {
  }

  lemma AppendAdvances(pt: Partition, m: Message)
    requires LocalInv(pt)
    ensures Advances(pt, pt.(log := pt.log + [Slot(m, Idle)]))
  {
  }

  lemma DeliverAdvances(pt: Partition)
    requires LocalInv(pt) && pt.position < |pt.log|
    ensures var off := pt.position;
      Advances(pt, pt.(log := pt.log[off := pt.log[off].(stage := Running)], position := off + 1))
  {
  }

  /** All partitions but `p` are as before. */
  lemma OneAdvances(s: State, s': State, p: nat)
    requires TrackersInv(s) && p < |s.partitions| == |s'.partitions|
    requires s'.partitions == s.partitions[p := s'.partitions[p]] && Advances(s.partitions[p], s'.partitions[p])
    ensures TrackersInv(s') && forall q :: 0 <= q < |s.partitions| ==> Advances(s.partitions[q], s'.partitions[q])
  {
    hide LocalInv;
    forall q | 0 <= q < |s.partitions| ensures Advances(s.partitions[q], s'.partitions[q]) {
      assert LocalInv(s.partitions[q]);
    }
  }

  lemma MarkAdvances(s: State, p: nat, off: nat, replies: Replies, ifRaised: Stage)
    requires TrackersInv(s) && At(s, p, off) && SlotAt(s, p, off).stage != Idle
    ensures var s' := MarkStep(s, p, off, replies, ifRaised);
      && |s'.partitions| == |s.partitions| && TrackersInv(s')
      && forall q :: 0 <= q < |s.partitions| ==> Advances(s.partitions[q], s'.partitions[q])
  {
    hide Mark, CommittedOf;
    var pt := s.partitions[p];
    var r := Mark(pt.view, off, replies);
    var stage := if r.raised then ifRaised else Finished;
    assert LocalInv(pt);
    StageAdvances(pt, off, stage);
    var pt1 := pt.(log := pt.log[off := pt.log[off].(stage := stage)]);
    MarkLocal(pt1, off, replies);
    OneAdvances(s, MarkStep(s, p, off, replies, ifRaised), p);
  }

  lemma StageStepAdvances(s: State, s': State, p: nat, off: nat, stage: Stage)
    requires TrackersInv(s) && At(s, p, off) && SlotAt(s, p, off).stage != Idle
    requires s'.partitions == SetStage(s, p, off, stage).partitions
    ensures TrackersInv(s') && forall q :: 0 <= q < |s.partitions| ==> Advances(s.partitions[q], s'.partitions[q])
  {
    hide LocalInv;
    assert LocalInv(s.partitions[p]);
    StageAdvances(s.partitions[p], off, stage);
    OneAdvances(s, s', p);
  }

  lemma AppendStepAdvances(s: State, s': State, p: nat, m: Message)
    requires TrackersInv(s) && p < |s.partitions| && s'.partitions == Append(s, p, m).partitions
    ensures TrackersInv(s') && forall q :: 0 <= q < |s.partitions| ==> Advances(s.partitions[q], s'.partitions[q])
  {
    hide LocalInv;
    assert LocalInv(s.partitions[p]);
    AppendAdvances(s.partitions[p], m);
    OneAdvances(s, s', p);
  }

  lemma CrashAdvances(cfg: Config, s: State, ps: set<nat>)
    requires TrackersInv(s)
    ensures var s' := Apply(cfg, s, Crash(ps));
      && |s'.partitions| == |s.partitions| && TrackersInv(s')
      && forall q :: 0 <= q < |s.partitions| ==> Advances(s.partitions[q], s'.partitions[q])
  {
    hide LocalInv, CommittedOf, Restart;
    var s' := Apply(cfg, s, Crash(ps));
    forall q | 0 <= q < |s.partitions| ensures Advances(s.partitions[q], s'.partitions[q]) {
      assert LocalInv(s.partitions[q]);
      RestartLocal(s.partitions[q]);
    }
  }

  /** Every step, disciplined or not, keeps the tracker's numbers and lowers no committed offset. */
  lemma StepAdvances(cfg: Config, s: State, e: Event)
    requires TrackersInv(s) && Enabled(cfg, s, e)
    ensures var s' := Apply(cfg, s, e);
      && |s'.partitions| == |s.partitions| && TrackersInv(s')
      && forall q :: 0 <= q < |s.partitions| ==> Advances(s.partitions[q], s'.partitions[q])
  {
    hide TrackersInv, Advances, SentReport, Repeated, NewRow, Mark, Retry, Attempt;
    var s' := Apply(cfg, s, e);
    match e
    case Submit(sid, _, work, p) => AppendStepAdvances(s, s', p, Message(sid, Number(1), work));
    case Deliver(p) =>
      assert LocalInv(s.partitions[p]) by { OfTrackers(s, p); }
      DeliverAdvances(s.partitions[p]);
      OneAdvances(s, s', p);
    case Grade(p, off, _, ack, cleanupThrows, _) =>
      StageStepAdvances(s, s', p, off, StageGraded(cfg, MsgAt(s, p, off).work, ack, cleanupThrows));
    case FirstMark(p, off, replies) => MarkAdvances(s, p, off, replies, Raised);
    case Requeue(p, off, target, reply) => RequeueAdvances(cfg, s, e);
    case DeadLetter(p, off, reply) =>
      StageStepAdvances(s, s', p, off, if reply.Confirmed? then DeadLettered else Finished);
    case Overwrite(p, off, _, _, ack) => StageStepAdvances(s, s', p, off, if ack then Handled else Finished);
    case SecondMark(p, off, replies) => MarkAdvances(s, p, off, replies, Finished);
    case Crash(ps) => CrashAdvances(cfg, s, ps);
  }

  lemma OfTrackers(s: State, p: nat)
    requires TrackersInv(s) && p < |s.partitions|
    ensures LocalInv(s.partitions[p])
  {
  }

  lemma RequeueAdvances(cfg: Config, s: State, e: Event)
    requires TrackersInv(s) && Enabled(cfg, s, e) && e.Requeue?
    ensures var s' := Apply(cfg, s, e);
      && TrackersInv(s') && |s'.partitions| == |s.partitions|
      && forall q :: 0 <= q < |s.partitions| ==> Advances(s.partitions[q], s'.partitions[q])
  {
    hide TrackersInv, LocalInv, CommittedOf, Retry, Attempt;
    var stage := if e.reply.Confirmed? then Handled else Finished;
    var s1 := SetStage(s, e.p, e.off, stage);
    StageStepAdvances(s, s1, e.p, e.off, stage);
    if !e.reply.NotSent? {
      AppendStepAdvances(s1, Apply(cfg, s, e), e.target, Retry(MsgAt(s, e.p, e.off)));
    }
  }

  lemma {:induction false} RunAdvances(cfg: Config, s: State, es: seq<Event>, p: nat)
    requires TrackersInv(s) && Legal(cfg, s, es) && p < |s.partitions|
    ensures p < |Exec(cfg, s, es).partitions| && Advances(s.partitions[p], Exec(cfg, s, es).partitions[p])
    decreases |es|
  {
    hide Apply, Enabled, LocalInv, CommittedOf;
    if es == [] {
      assert LocalInv(s.partitions[p]);
    } else {
      StepAdvances(cfg, s, es[0]);
      RunAdvances(cfg, Apply(cfg, s, es[0]), es[1..], p);
    }
  }

  /**
   * No legal run lowers a committed offset or commits past what was delivered: from the start state to any state, and
   * from there to any later one, whatever crashes, lost replies and undisciplined completions there are.
   */
  lemma CommittedNeverMovesBack(cfg: Config, s0: State, es: seq<Event>, more: seq<Event>, p: nat)
    requires Initial(s0) && Legal(cfg, s0, es) && Legal(cfg, Exec(cfg, s0, es), more) && p < |s0.partitions|
    ensures var s := Exec(cfg, s0, es);
      var s' := Exec(cfg, s, more);
      && p < |s.partitions| == |s'.partitions|
      && 0 <= CommittedOf(s.partitions[p]) <= CommittedOf(s'.partitions[p])
      && CommittedOf(s.partitions[p]) <= s.partitions[p].position <= |s.partitions[p].log|
  {
    var s := Exec(cfg, s0, es);
    RunAdvances(cfg, s0, es, p);
    SamePartitions(cfg, s0, es);
    forall q | 0 <= q < |s.partitions| ensures LocalInv(s.partitions[q]) {
      RunAdvances(cfg, s0, es, q);
    }
    RunAdvances(cfg, s, more, p);
    SamePartitions(cfg, s, more);
  }

  lemma {:induction false} SamePartitions(cfg: Config, s: State, es: seq<Event>)
    requires Legal(cfg, s, es)
    ensures |Exec(cfg, s, es).partitions| == |s.partitions|
    decreases |es|
  {
    hide Apply, Enabled;
    if es != [] {
      SamePartitionCount(cfg, s, es[0]);
      SamePartitions(cfg, Apply(cfg, s, es[0]), es[1..]);
    }
  }

  // ----- partitions with a committed offset need no discipline

  predicate Seeded(s: State) {
    forall p :: 0 <= p < |s.partitions| ==> Known(s.partitions[p].view.committed)
  }

  lemma MarkKeepsKnown(v: PartitionView, off: nat, replies: Replies)
    requires Known(v.committed) && (v.next.Some? ==> v.next.value >= 0)
    ensures Known(Mark(v, off, replies).view.committed)
  {
  }

  lemma MarkStepKeepsSeeded(s: State, p: nat, off: nat, replies: Replies, ifRaised: Stage)
    requires PartitionsInv(s) && Seeded(s) && At(s, p, off)
    ensures Seeded(MarkStep(s, p, off, replies, ifRaised))
  {
    assert LocalInv(s.partitions[p]);
    MarkKeepsKnown(s.partitions[p].view, off, replies);
  }

  lemma StepKeepsSeeded(cfg: Config, s: State, e: Event)
    requires PartitionsInv(s) && Seeded(s) && Enabled(cfg, s, e)
    ensures Disciplined(s, e) && Seeded(Apply(cfg, s, e))
  {
    hide LocalInv, ResolvedInv, SentReport, Repeated, NewRow, Mark;
    match e
    case FirstMark(p, off, replies) => MarkStepKeepsSeeded(s, p, off, replies, Raised);
    case SecondMark(p, off, replies) => MarkStepKeepsSeeded(s, p, off, replies, Finished);
    case Crash(ps) =>
    case _ =>
      forall p | 0 <= p < |s.partitions| ensures Apply(cfg, s, e).partitions[p].view == s.partitions[p].view {
        ViewsStay(cfg, s, e, p);
      }
      SamePartitionCount(cfg, s, e);
  }

  lemma SamePartitionCount(cfg: Config, s: State, e: Event)
    requires Enabled(cfg, s, e)
    ensures |Apply(cfg, s, e).partitions| == |s.partitions|
  {
    hide SentReport, Repeated, NewRow, Mark;
  }

  lemma {:induction false} SeededRunIsDisciplined(cfg: Config, s: State, es: seq<Event>)
    requires Inv(cfg, s) && Seeded(s) && Legal(cfg, s, es)
    ensures AllDisciplined(cfg, s, es)
    decreases |es|
  {
    if es != [] {
      StepKeepsSeeded(cfg, s, es[0]);
      StepKeeps(cfg, s, es[0]);
      SeededRunIsDisciplined(cfg, Apply(cfg, s, es[0]), es[1..]);
    }
  }

  /** From a state with a committed offset on every partition, no legal continuation at all loses a submission. */
  lemma SeededNeverLoses(cfg: Config, s: State, es: seq<Event>, sid: SubmissionId)
    requires Inv(cfg, s) && Seeded(s) && Legal(cfg, s, es)
    requires sid in Exec(cfg, s, es).created
    ensures Alive(Exec(cfg, s, es), sid)
  {
    SeededRunIsDisciplined(cfg, s, es);
    RunKeeps(cfg, s, es);
    InvIsAlive(cfg, Exec(cfg, s, es), sid);
  }

  // ----- partitions without one can lose a submission

  lemma LegalStep(cfg: Config, s: State, e: Event, es: seq<Event>)
    requires Enabled(cfg, s, e) && Legal(cfg, Apply(cfg, s, e), es)
    ensures Legal(cfg, s, [e] + es) && Exec(cfg, s, [e] + es) == Exec(cfg, Apply(cfg, s, e), es)
  {
    assert ([e] + es)[1..] == es;
  }

  lemma {:induction false} RunsJoin(cfg: Config, s: State, es: seq<Event>, more: seq<Event>)
    requires Legal(cfg, s, es) && Legal(cfg, Exec(cfg, s, es), more)
    ensures Legal(cfg, s, es + more) && Exec(cfg, s, es + more) == Exec(cfg, Exec(cfg, s, es), more)
    decreases |es|
  {
    hide Apply, Enabled;
    if es == [] {
      assert [] + more == more;
    } else {
      assert (es + more)[1..] == es[1..] + more;
      RunsJoin(cfg, Apply(cfg, s, es[0]), es[1..], more);
    }
  }

  /** Restarts partition `p` and submits two new submissions to it. */
  function SubmitTwo(w: Work, p: nat, a: SubmissionId, b: SubmissionId): seq<Event> {
    [Crash({p}), Submit(a, None, w, p), Submit(b, None, w, p)]
  }

  /** Grades the message at `off`, commits past it, and restarts. */
  function FinishAndRestart(p: nat, off: nat): seq<Event> {
    [Grade(p, off, 1, true, false, 0), FirstMark(p, off, Replies(true, Applied)), Crash({p})]
  }

  /** Work whose grading sends a report: one that the sandbox cannot prepare will do. */
  function Unpreparable(): Work {
    Work("", Job([], 0, NotReady(RanSystemError, "", 0), [], Threw))
  }

  /** A submission whose only message is the one at `off`. */
  ghost predicate OnlyAt(s: State, sid: SubmissionId, p: nat, off: nat) {
    forall q, o :: At(s, q, o) && MsgAt(s, q, o).sid == sid ==> q == p && o == off
  }

  /** What the second part of the run starts from: an empty tracker, and the two last messages of the log. */
  ghost predicate TwoWaiting(s: State, w: Work, p: nat, off: nat, a: SubmissionId, b: SubmissionId) {
    && p < |s.partitions| && |s.partitions[p].log| == off + 2
    && Fresh(s.partitions[p].view) && !Known(s.partitions[p].view.committed)
    && s.partitions[p].log[off + 1].msg == Message(b, Number(1), w)
    && OnlyAt(s, a, p, off) && a in s.created && a !in s.acked && b in s.rows && a != b
  }

  lemma FreshSid(taken: set<SubmissionId>) returns (sid: SubmissionId)
    ensures forall x :: x in taken ==> x < sid
  {
    if taken == {} {
      sid := 0;
    } else {
      var x :| x in taken;
      var y := FreshSid(taken - {x});
      sid := if x < y then y else x + 1;
      assert taken == (taken - {x}) + {x};
    }
  }

  lemma NoMessageYet(cfg: Config, s: State, sid: SubmissionId)
    requires MessageInv(cfg, s) && sid !in s.created
    ensures forall q, o :: At(s, q, o) ==> MsgAt(s, q, o).sid != sid
  {
    forall q, o | At(s, q, o) ensures MsgAt(s, q, o).sid != sid {
      assert GoodMessage(cfg, s, MsgAt(s, q, o));
    }
  }

  lemma TwoSubmitted(cfg: Config, s: State, w: Work, p: nat, a: SubmissionId, b: SubmissionId) returns (s': State)
    requires Inv(cfg, s) && p < |s.partitions| && !Known(s.partitions[p].view.committed) && w.job.Valid()
    requires a != b && a !in s.created && b !in s.created && a !in s.acked
    ensures Legal(cfg, s, SubmitTwo(w, p, a, b)) && s' == Exec(cfg, s, SubmitTwo(w, p, a, b))
    ensures p < |s'.partitions| && s'.partitions[p].position == 0
    ensures TwoWaiting(s', w, p, |s.partitions[p].log|, a, b)
  {
    hide SentReport, Repeated, NewRow, Attempt, LocalInv, ResolvedInv;
    var es := SubmitTwo(w, p, a, b);
    var s1 := Apply(cfg, s, es[0]);
    var s2 := Apply(cfg, s1, es[1]);
    s' := Apply(cfg, s2, es[2]);
    LegalStep(cfg, s2, es[2], []);
    LegalStep(cfg, s1, es[1], [es[2]]);
    LegalStep(cfg, s, es[0], es[1..]);
    assert [es[2]] + [] == [es[2]] && es[1..] == [es[1]] + [es[2]] && es == [es[0]] + es[1..];
    var n := |s.partitions[p].log|;
    NoMessageYet(cfg, s, a);
    assert forall q, o :: At(s', q, o) ==>
      (At(s, q, o) && MsgAt(s', q, o) == MsgAt(s, q, o)) || (q == p && o == n)
      || MsgAt(s', q, o).sid == b;
  }

  /** Deliveries move positions and stages only. */
  lemma {:induction false} DeliveriesMoveOn(cfg: Config, s: State, p: nat, n: nat)
    requires p < |s.partitions| && s.partitions[p].position + n <= |s.partitions[p].log|
    ensures var es := seq(n, _ => Deliver(p));
      Legal(cfg, s, es)
      && var s' := Exec(cfg, s, es);
        && |s'.partitions| == |s.partitions| && s'.partitions[p].view == s.partitions[p].view
        && (forall q, o :: At(s', q, o) <==> At(s, q, o))
        && (forall q, o :: At(s, q, o) ==> MsgAt(s', q, o) == MsgAt(s, q, o))
        && s'.created == s.created && s'.rows == s.rows && s'.acked == s.acked
    decreases n
  {
    var es := seq(n, _ => Deliver(p));
    if n > 0 {
      var rest := seq(n - 1, _ => Deliver(p));
      var s1 := Apply(cfg, s, Deliver(p));
      assert es == [Deliver(p)] + rest;
      DeliveriesMoveOn(cfg, s1, p, n - 1);
      LegalStep(cfg, s, Deliver(p), rest);
    }
  }

  lemma SecondDelivered(
      cfg: Config, s: State, w: Work, p: nat, off: nat, a: SubmissionId, b: SubmissionId) returns (s': State)
    requires TwoWaiting(s, w, p, off, a, b) && s.partitions[p].position == 0
    ensures var es := seq(off + 2, _ => Deliver(p)); Legal(cfg, s, es) && s' == Exec(cfg, s, es)
    ensures TwoWaiting(s', w, p, off, a, b) && InStage(s', p, off + 1, Running)
  {
    hide Apply, Enabled;
    DeliveriesReach(cfg, s, p, off + 2);
    DeliveriesMoveOn(cfg, s, p, off + 2);
    s' := Exec(cfg, s, seq(off + 2, _ => Deliver(p)));
    assert At(s, p, off + 1) && At(s', p, off + 1) && !At(s, p, off + 2) && !At(s', p, off + 2);
    assert MsgAt(s', p, off + 1) == MsgAt(s, p, off + 1);
  }

  lemma MarkAlone(v: PartitionView, off: nat)
    requires v.next == None && v.completed == {} && !Known(v.committed)
    ensures Mark(v, off, Replies(true, Applied)) ==
      MarkResult(PartitionView(Some(off + 1), {}, Some(off + 1)), false)
  {
    assert {} + {off} == {off};
    GapUnique(off, {off}, off + 1);
  }

  /** The second one is acknowledged, its commit passes the first, and the restart forgets the first. */
  lemma SecondPassesFirst(
      cfg: Config, s: State, w: Work, p: nat, off: nat, a: SubmissionId, b: SubmissionId) returns (s': State)
    requires TwoWaiting(s, w, p, off, a, b) && InStage(s, p, off + 1, Running)
    requires w.job.Valid() && SentReport(cfg, w).Some?
    ensures Legal(cfg, s, FinishAndRestart(p, off + 1)) && s' == Exec(cfg, s, FinishAndRestart(p, off + 1))
    ensures a in s'.created && !Alive(s', a)
  {
    hide SentReport, Repeated, NewRow, Alive, Mark, OnlyAt;
    var es := FinishAndRestart(p, off + 1);
    var s1 := Apply(cfg, s, es[0]);
    var s2 := Apply(cfg, s1, es[1]);
    MarkAlone(s.partitions[p].view, off + 1);
    s' := Apply(cfg, s2, es[2]);
    LegalStep(cfg, s2, es[2], []);
    LegalStep(cfg, s1, es[1], [es[2]]);
    LegalStep(cfg, s, es[0], es[1..]);
    assert es == [es[0]] + es[1..] && es[1..] == [es[1]] + [es[2]] && [es[2]] + [] == [es[2]];
    assert OnlyAt(s', a, p, off) by { SameMessagesOnlyAt(s, s', a, p, off); }
    LostBelow(s', p, off, a);
  }

  lemma SameMessagesOnlyAt(s: State, s': State, sid: SubmissionId, p: nat, off: nat)
    requires OnlyAt(s, sid, p, off)
    requires forall q, o :: At(s', q, o) ==> At(s, q, o) && MsgAt(s', q, o) == MsgAt(s, q, o)
    ensures OnlyAt(s', sid, p, off)
  {
  }

  lemma LostBelow(s: State, p: nat, off: nat, sid: SubmissionId)
    requires p < |s.partitions| && CommittedOf(s.partitions[p]) > off && sid !in s.acked && OnlyAt(s, sid, p, off)
    ensures !Alive(s, sid)
  {
  }

  /**
   * On any partition with nothing committed, whatever its log, the last offset may be the first to complete after a
   * restart: its commit passes the unfinished offset before it, and after the next restart nothing delivers that one.
   */
  lemma UnseededCanLose(cfg: Config, s: State, w: Work, p: nat) returns (es: seq<Event>, lost: SubmissionId)
    requires Inv(cfg, s) && p < |s.partitions| && !Known(s.partitions[p].view.committed)
    requires w.job.Valid() && SentReport(cfg, w).Some?
    ensures Legal(cfg, s, es) && !AllDisciplined(cfg, s, es)
    ensures lost !in s.created && lost in Exec(cfg, s, es).created && !Alive(Exec(cfg, s, es), lost)
  {
    hide SentReport, Apply, Enabled, Alive, TwoWaiting, Inv;
    lost := FreshSid(s.created.Keys + s.acked);
    var off := |s.partitions[p].log|;
    var s1 := TwoSubmitted(cfg, s, w, p, lost, lost + 1);
    var s2 := SecondDelivered(cfg, s1, w, p, off, lost, lost + 1);
    var s3 := SecondPassesFirst(cfg, s2, w, p, off, lost, lost + 1);
    var deliveries := seq(off + 2, _ => Deliver(p));
    RunsJoin(cfg, s1, deliveries, FinishAndRestart(p, off + 1));
    RunsJoin(cfg, s, SubmitTwo(w, p, lost, lost + 1), deliveries + FinishAndRestart(p, off + 1));
    es := SubmitTwo(w, p, lost, lost + 1) + (deliveries + FinishAndRestart(p, off + 1));
    if AllDisciplined(cfg, s, es) {
      RunKeeps(cfg, s, es);
      InvIsAlive(cfg, s3, lost);
    }
  }

  /**
   * The promise is kept by every legal continuation exactly when every partition has a committed offset: then none
   * loses a submission, and otherwise some continuation does. This is so at the start and in every state after it.
   */
  lemma NeverLosesIffSeeded(cfg: Config, s: State)
    requires Inv(cfg, s)
    ensures
      (forall es, sid :: Legal(cfg, s, es) && sid in Exec(cfg, s, es).created ==> Alive(Exec(cfg, s, es), sid))
      <==> Seeded(s)
  {
    hide Alive, Apply, Enabled, Inv;
    if Seeded(s) {
      forall es, sid | Legal(cfg, s, es) && sid in Exec(cfg, s, es).created
        ensures Alive(Exec(cfg, s, es), sid)
      {
        SeededNeverLoses(cfg, s, es, sid);
      }
    } else {
      var p :| 0 <= p < |s.partitions| && !Known(s.partitions[p].view.committed);
      var es, lost := UnseededCanLose(cfg, s, Unpreparable(), p);
      assert Legal(cfg, s, es) && lost in Exec(cfg, s, es).created;
    }
  }
}
