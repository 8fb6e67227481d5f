/**
 * The executor's `CommitTracker`: turns out-of-order completions into a contiguous committed offset.
 * `Mark` is one partition's share of `mark_completed`; the class method is proved to be `Mark`.
 */
module CommitTracking {
  import opened Common

  datatype TopicPartition = TopicPartition(topic: string, partition: nat)

  /** How a broker commit ends: applied, refused, or applied although the client sees an error. */
  datatype CommitReply = Applied | Refused | AppliedButLost

  /** How the broker answers one `mark_completed`: whether a lookup succeeds, and how a commit ends. */
  datatype Replies = Replies(lookupOk: bool, commit: CommitReply)

  /** One partition: the tracker's two entries and the broker's committed offset. */
  datatype PartitionView = PartitionView(next: Option<int>, completed: set<int>, committed: Option<int>)

  ghost function From(n: int, done: set<int>): set<int> {
    set x | x in done && n <= x
  }

  lemma FromShrinks(n: int, done: set<int>)
    requires n in done
    ensures From(n + 1, done) < From(n, done)
  {
    assert n in From(n, done) && n !in From(n + 1, done);
    assert forall x :: x in From(n + 1, done) ==> x in From(n, done);
  }

  /** The least number from `n` on that is not in `done`. */
  function FirstGap(n: int, done: set<int>): (gap: int)
    ensures n <= gap && gap !in done
    ensures forall k :: n <= k < gap ==> k in done
    decreases From(n, done)
  {
    if n in done then
      FromShrinks(n, done);
      FirstGap(n + 1, done)
    else n
  }

  predicate Known(committed: Option<int>) {
    committed.Some? && committed.value >= 0
  }

  function Baseline(v: PartitionView, offset: int): int {
    if v.next.Some? then v.next.value
    else if Known(v.committed) then v.committed.value
    else offset
  }

  datatype MarkResult = MarkResult(view: PartitionView, raised: bool)

  function Mark(v: PartitionView, offset: int, replies: Replies): MarkResult {
    if v.next.None? && !replies.lookupOk then MarkResult(v, true)
    else
      var next := Baseline(v, offset);
      if offset < next then MarkResult(v.(next := Some(next)), false)
      else
        var done := v.completed + {offset};
        var candidate := FirstGap(next, done);
        if candidate == next then MarkResult(v.(next := Some(next), completed := done), false)
        else
          match replies.commit
          case Refused => MarkResult(v.(next := Some(next), completed := done), true)
          case AppliedButLost => MarkResult(PartitionView(Some(next), done, Some(candidate)), true)
          case Applied =>
            var kept := set x | x in done && !(next <= x < candidate);
            MarkResult(PartitionView(Some(candidate), kept, Some(candidate)), false)
  }

  /** Where the tracker counts from: what it cached, else the broker's committed offset, else the offset at hand. */
  function CountsFrom(v: PartitionView, offset: int): int {
    match v
    case PartitionView(Some(next), _, _) => next
    case PartitionView(None, _, Some(committed)) => if committed >= 0 then committed else offset
    case PartitionView(None, _, None) => offset
  }

  /** A completion that leaves a commit to make: the offset that the tracker counts from is completed with it. */
  predicate CommitIsDue(v: PartitionView, offset: int) {
    var n := CountsFrom(v, offset);
    n <= offset && (n == offset || n in v.completed)
  }

  /** The two broker calls that can fail: a lookup that nothing cached replaces, and a commit that is due. */
  predicate BrokerFails(v: PartitionView, offset: int, replies: Replies) {
    || (v.next == None && !replies.lookupOk)
    || (CommitIsDue(v, offset) && replies.commit != Applied)
  }

  /** A completion raises exactly when the lookup or a due commit fails; one with nothing to commit returns normally. */
  lemma MarkRaisesIff(v: PartitionView, offset: int, replies: Replies)
    ensures Mark(v, offset, replies).raised <==> BrokerFails(v, offset, replies)
  {
    var n := Baseline(v, offset);
    assert FirstGap(n, v.completed + {offset}) == n <==> n !in v.completed + {offset};
  }

  /**
   * What a completion does, counting from `n`: a failed lookup changes nothing; an offset below `n` is left out; any
   * other is recorded. When that makes a commit due, the broker's offset moves to the first gap unless it refuses, and
   * the tracker's own next offset and set move only when the client sees the commit succeed.
   */
  lemma MarkMoves(v: PartitionView, offset: int, replies: Replies)
    ensures var v', done, n := Mark(v, offset, replies).view, v.completed + {offset}, CountsFrom(v, offset);
      var gap := FirstGap(n, done);
      if v.next == None && !replies.lookupOk then v' == v
      else if offset < n then v' == PartitionView(Some(n), v.completed, v.committed)
      else if !CommitIsDue(v, offset) || replies.commit == Refused then v' == PartitionView(Some(n), done, v.committed)
      else if replies.commit == AppliedButLost then v' == PartitionView(Some(n), done, Some(gap))
      else v' == PartitionView(Some(gap), (set x | x in done && (x < n || gap < x)), Some(gap))
  {
    var n, done := Baseline(v, offset), v.completed + {offset};
    var gap := FirstGap(n, done);
    assert gap == n <==> n !in done;
    assert (set x | x in done && !(n <= x < gap)) == set x | x in done && (x < n || gap < x);
  }

  // ----- the class

  /** The broker's side of the consumer group. */
  class Consumer {
    var committed: map<TopicPartition, int>

    constructor ()
      ensures committed == map[]
    {
      committed := map[];
    }

    method Commit(tp: TopicPartition, offset: int, reply: CommitReply) returns (ok: bool)
      modifies this
      ensures committed == if reply.Refused? then old(committed) else old(committed)[tp := offset]
      ensures ok == reply.Applied?
    {
      if !reply.Refused? {
        committed := committed[tp := offset];
      }
      ok := reply.Applied?;
    }
  }

  class CommitTracker {
    const consumer: Consumer
    var nextCommitOffsets: map<TopicPartition, int>
    var completedOffsets: map<TopicPartition, set<int>>

    constructor (consumer: Consumer)
      ensures this.consumer == consumer
      ensures forall tp :: View(tp).next == None && View(tp).completed == {}
    {
      this.consumer := consumer;
      nextCommitOffsets := map[];
      completedOffsets := map[];
    }

    ghost function View(tp: TopicPartition): PartitionView
      reads this, consumer
    {
      PartitionView(
        if tp in nextCommitOffsets then Some(nextCommitOffsets[tp]) else None,
        Completed(tp),
        if tp in consumer.committed then Some(consumer.committed[tp]) else None)
    }

    /** `completed_offsets[tp]` of a `defaultdict(set)`. */
    function Completed(tp: TopicPartition): set<int>
      reads this
    {
      if tp in completedOffsets then completedOffsets[tp] else {}
    }

    method GetNextCommitOffset(tp: TopicPartition, messageOffset: int, lookupOk: bool) returns (next: Option<int>)
      modifies this`nextCommitOffsets
      ensures next == None <==> tp !in old(nextCommitOffsets) && !lookupOk
      ensures next == None ==> nextCommitOffsets == old(nextCommitOffsets)
      ensures next.Some? ==> next.value == old(Baseline(View(tp), messageOffset))
      ensures next.Some? ==> nextCommitOffsets == old(nextCommitOffsets)[tp := next.value]
    {
      if tp in nextCommitOffsets {
        next := Some(nextCommitOffsets[tp]);
        assert nextCommitOffsets == nextCommitOffsets[tp := next.value];
        return;
      }
      if !lookupOk {
        return None;
      }
      var committed := messageOffset;
      if tp in consumer.committed && consumer.committed[tp] >= 0 {
        committed := consumer.committed[tp];
      }
      nextCommitOffsets := nextCommitOffsets[tp := committed];
      next := Some(committed);
    }

    /** The `while` loop of `mark_completed`. */
    method ScanFrom(tp: TopicPartition, next: int) returns (candidate: int)
      ensures candidate == FirstGap(next, Completed(tp))
    {
      candidate := next;
      while candidate in Completed(tp)
        invariant next <= candidate && FirstGap(next, Completed(tp)) == FirstGap(candidate, Completed(tp))
        decreases From(candidate, Completed(tp))
      {
        FromShrinks(candidate, Completed(tp));
        candidate := candidate + 1;
      }
    }

    /** The `for` loop of `mark_completed`. */
    method DiscardRange(tp: TopicPartition, next: int, candidate: int)
      requires next <= candidate && tp in completedOffsets
      modifies this`completedOffsets
      ensures completedOffsets ==
        old(completedOffsets)[tp := set x | x in old(completedOffsets[tp]) && !(next <= x < candidate)]
    {
      for offset := next to candidate
        invariant tp in completedOffsets
        invariant completedOffsets == old(completedOffsets)[tp := completedOffsets[tp]]
        invariant completedOffsets[tp] == set x | x in old(completedOffsets[tp]) && !(next <= x < offset)
      {
        completedOffsets := completedOffsets[tp := completedOffsets[tp] - {offset}];
      }
    }

    /** `mark_completed`, run under the tracker's lock; `raised` tells that the call ends in an exception. */
    method MarkCompleted(tp: TopicPartition, messageOffset: int, replies: Replies) returns (raised: bool)
      modifies this, consumer
      ensures MarkResult(View(tp), raised) == Mark(old(View(tp)), messageOffset, replies)
      ensures raised <==> BrokerFails(old(View(tp)), messageOffset, replies)
      ensures forall q :: q != tp ==> View(q) == old(View(q))
    {
      MarkRaisesIff(View(tp), messageOffset, replies);
      var lookup := GetNextCommitOffset(tp, messageOffset, replies.lookupOk);
      if lookup.None? {
        return true;
      }
      var next := lookup.value;
      if messageOffset < next {
        return false;
      }

      completedOffsets := completedOffsets[tp := Completed(tp) + {messageOffset}];
      var candidate := ScanFrom(tp, next);
      if candidate == next {
        return false;
      }

      var ok := consumer.Commit(tp, candidate, replies.commit);
      if !ok {
        return true;
      }

      DiscardRange(tp, next, candidate);
      nextCommitOffsets := nextCommitOffsets[tp := candidate];
      return false;
    }
  }
}
