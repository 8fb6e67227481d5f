/** What any sequence of completions on one partition does to the tracker and to the broker's committed offset. */
module CommitSafety {
  import opened Common
  import opened CommitTracking

  datatype Completion = Completion(offset: nat, replies: Replies)

  function RunMarks(v: PartitionView, ms: seq<Completion>): PartitionView {
    if ms == [] then v
    else
      var m := ms[|ms| - 1];
      Mark(RunMarks(v, ms[..|ms| - 1]), m.offset, m.replies).view
  }

  /** The offsets whose completion reached the tracker: every one except those whose lookup failed. */
  function Recorded(v: PartitionView, ms: seq<Completion>): set<int> {
    if ms == [] then {}
    else
      var m := ms[|ms| - 1];
      var before := ms[..|ms| - 1];
      Recorded(v, before)
      + (if RunMarks(v, before).next.None? && !m.replies.lookupOk then {} else {m.offset})
  }

  /** A tracker that has not touched the partition yet. */
  predicate Fresh(v: PartitionView) {
    v.next == None && v.completed == {}
  }

  /** Where the broker stands, taking `base` when nothing is committed. */
  function Position(v: PartitionView, base: int): int {
    if Known(v.committed) then v.committed.value else base
  }

  /** The tracker has recorded exactly `h` since it fixed its baseline at `base`. */
  ghost predicate Tracks(v: PartitionView, base: int, h: set<int>) {
    && v.next.Some? && 0 <= base <= v.next.value <= Position(v, base) <= FirstGap(base, h)
    && v.completed == (set x | x in h && v.next.value <= x)
    && forall k :: base <= k < v.next.value ==> k in h
  }

  /** The tracker has nothing recorded that it could still commit. */
  ghost predicate CaughtUp(v: PartitionView, base: int, h: set<int>) {
    Tracks(v, base, h) && v.next == Some(FirstGap(base, h))
  }

  lemma GapUnique(n: int, done: set<int>, gap: int)
    requires n <= gap && gap !in done && forall k :: n <= k < gap ==> k in done
    ensures FirstGap(n, done) == gap
  {
  }

  lemma GapGrows(n: int, done: set<int>, more: set<int>)
    requires done <= more
    ensures FirstGap(n, done) <= FirstGap(n, more)
  {
    assert FirstGap(n, more) !in done;
  }

  /** Below its next offset the tracker has dropped what it recorded; the gap is the same either way. */
  lemma GapFromNext(v: PartitionView, base: int, h: set<int>)
    requires Tracks(v, base, h)
    ensures FirstGap(v.next.value, v.completed) == FirstGap(base, h)
  {
    var g := FirstGap(base, h);
    forall k | v.next.value <= k < g ensures k in v.completed { assert k in h; }
    GapUnique(v.next.value, v.completed, g);
  }

  /** One call of `mark_completed`, whatever its offset and however the broker answers. */
  lemma {:induction false} MarkTracks(v: PartitionView, base: int, h: set<int>, offset: nat, replies: Replies)
    requires Tracks(v, base, h)
    ensures var v' := Mark(v, offset, replies).view;
      && Tracks(v', base, h + {offset})
      && Position(v, base) <= Position(v', base)
      && (CaughtUp(v, base, h) && offset < v.next.value ==> CaughtUp(v', base, h + {offset}))
      && (replies.commit.Applied? && v.next.value <= offset ==> CaughtUp(v', base, h + {offset}))
  {
    var n := v.next.value;
    var h' := h + {offset};
    GapGrows(base, h, h');
    if offset < n {
      assert v.completed == set x | x in h' && n <= x;
      GapUnique(base, h', FirstGap(base, h));
    } else {
      var done := v.completed + {offset};
      assert done == set x | x in h' && n <= x;
      var recorded := v.(completed := done);
      assert Tracks(recorded, base, h');
      GapFromNext(recorded, base, h');
      var g := FirstGap(base, h');
      var kept := set x | x in done && !(n <= x < g);
      assert kept == set x | x in h' && g <= x;
    }
  }

  /** The first recorded completion fixes the baseline: the committed offset if there is one, else its own offset. */
  lemma FirstMarkTracks(v: PartitionView, offset: nat, replies: Replies)
    requires Fresh(v) && replies.lookupOk
    ensures var base := Baseline(v, offset);
      var v' := Mark(v, offset, replies).view;
      && Tracks(v', base, {offset}) && Position(v, base) <= Position(v', base)
      && (replies.commit.Applied? && base <= offset ==> CaughtUp(v', base, {offset}))
  {
    var base := Baseline(v, offset);
    var started := v.(next := Some(base));
    GapUnique(base, {}, base);
    assert Tracks(started, base, {});
    MarkTracks(started, base, {}, offset, replies);
    assert {} + {offset} == {offset};
  }

  /**
   * Every run of completions keeps the tracker in step with what it recorded. The broker's committed
   * offset lies between the tracker's next offset and the first offset not completed, after
   * any mix of commits that succeed, fail, or fail after being applied.
   */
  lemma {:induction false} RunTracks(v: PartitionView, ms: seq<Completion>)
    requires Fresh(v) && Known(v.committed)
    ensures var base := v.committed.value;
      if Recorded(v, ms) == {} then RunMarks(v, ms) == v else Tracks(RunMarks(v, ms), base, Recorded(v, ms))
  {
    if ms != [] {
      var before := ms[..|ms| - 1];
      var m := ms[|ms| - 1];
      RunTracks(v, before);
      if Recorded(v, before) == {} {
        if m.replies.lookupOk {
          FirstMarkTracks(v, m.offset, m.replies);
          assert {} + {m.offset} == {m.offset};
        }
      } else {
        MarkTracks(RunMarks(v, before), v.committed.value, Recorded(v, before), m.offset, m.replies);
      }
    }
  }

  /** Commit safety on a partition that had a committed offset when the tracker first used it. */
  lemma CommitIsSafe(v: PartitionView, ms: seq<Completion>)
    requires Fresh(v) && Known(v.committed)
    ensures var c := RunMarks(v, ms).committed;
      Known(c) && v.committed.value <= c.value <= FirstGap(v.committed.value, Recorded(v, ms))
  {
    RunTracks(v, ms);
  }

  /** One more completion never moves the committed offset back. */
  lemma CommitIsMonotone(v: PartitionView, ms: seq<Completion>, m: Completion)
    requires Fresh(v) && Known(v.committed)
    ensures RunMarks(v, ms).committed.Some? && RunMarks(v, ms + [m]).committed.Some?
    ensures RunMarks(v, ms).committed.value <= RunMarks(v, ms + [m]).committed.value
  {
    CommitIsSafe(v, ms);
    CommitIsSafe(v, ms + [m]);
    RunTracks(v, ms);
    assert (ms + [m])[..|ms|] == ms;
    if Recorded(v, ms) == {} {
      if m.replies.lookupOk { FirstMarkTracks(v, m.offset, m.replies); }
    } else {
      MarkTracks(RunMarks(v, ms), v.committed.value, Recorded(v, ms), m.offset, m.replies);
    }
  }

  /** Baseline `base`, completed offsets `h`, nothing pending: the view that these two determine. */
  function Settled(base: int, h: set<int>): PartitionView {
    var gap := FirstGap(base, h);
    var above := set x | x in h && gap < x;
    PartitionView(Some(gap), above, Some(gap))
  }

  /**
   * A completion whose commit succeeds makes good every commit that failed before it: the broker
   * stands at the least offset not completed, and the tracker keeps exactly the completed offsets above it.
   */
  lemma SuccessCatchesUp(v: PartitionView, ms: seq<Completion>, m: Completion)
    requires Fresh(v) && Known(v.committed)
    requires m.replies == Replies(true, Applied)
    requires Baseline(RunMarks(v, ms), m.offset) <= m.offset
    ensures RunMarks(v, ms + [m]) == Settled(v.committed.value, Recorded(v, ms + [m]))
  {
    var base := v.committed.value;
    var h := Recorded(v, ms + [m]);
    assert (ms + [m])[..|ms|] == ms;
    RunTracks(v, ms);
    if Recorded(v, ms) == {} {
      FirstMarkTracks(v, m.offset, m.replies);
      assert h == {m.offset};
    } else {
      MarkTracks(RunMarks(v, ms), base, Recorded(v, ms), m.offset, m.replies);
    }
    CaughtUpView(RunMarks(v, ms + [m]), base, h);
    RunCommitted(v, ms + [m]);
  }

  lemma CaughtUpView(v: PartitionView, base: int, h: set<int>)
    requires CaughtUp(v, base, h) && Known(v.committed)
    ensures v == Settled(base, h)
  {
    var gap := FirstGap(base, h);
    assert v.completed == set x | x in h && gap < x;
  }

  lemma RunCommitted(v: PartitionView, ms: seq<Completion>)
    requires Fresh(v) && Known(v.committed)
    ensures Known(RunMarks(v, ms).committed)
  {
    CommitIsSafe(v, ms);
  }

  /**
   * Whatever failed before, and in whatever order offsets completed: two runs that recorded the same offsets and end in
   * a successful commit leave the same view.
   */
  lemma CompletionHistoryIsIrrelevant(
      v: PartitionView, ms: seq<Completion>, m: Completion, ms': seq<Completion>, m': Completion)
    requires Fresh(v) && Known(v.committed) && m.replies == m'.replies == Replies(true, Applied)
    requires Baseline(RunMarks(v, ms), m.offset) <= m.offset && Baseline(RunMarks(v, ms'), m'.offset) <= m'.offset
    requires Recorded(v, ms + [m]) == Recorded(v, ms' + [m'])
    ensures RunMarks(v, ms + [m]) == RunMarks(v, ms' + [m'])
  {
    SuccessCatchesUp(v, ms, m);
    SuccessCatchesUp(v, ms', m');
  }

  predicate AllSucceed(ms: seq<Completion>) {
    forall i :: 0 <= i < |ms| ==> ms[i].replies == Replies(true, Applied)
  }

  function Offsets(ms: seq<Completion>): set<int> {
    set i | 0 <= i < |ms| :: ms[i].offset
  }

  lemma {:induction false} AllSucceedCaughtUp(v: PartitionView, ms: seq<Completion>)
    requires Fresh(v) && Known(v.committed) && ms != [] && AllSucceed(ms)
    ensures Recorded(v, ms) == Offsets(ms)
    ensures CaughtUp(RunMarks(v, ms), v.committed.value, Offsets(ms))
  {
    var base := v.committed.value;
    var before := ms[..|ms| - 1];
    var m := ms[|ms| - 1];
    OffsetsSnoc(ms);
    if before == [] {
      assert Offsets(ms) == {m.offset};
      FirstMarkTracks(v, m.offset, m.replies);
      if m.offset < base { GapUnique(base, {m.offset}, base); }
    } else {
      AllSucceedCaughtUp(v, before);
      MarkTracks(RunMarks(v, before), base, Offsets(before), m.offset, m.replies);
    }
  }

  lemma OffsetsSnoc(ms: seq<Completion>)
    requires ms != []
    ensures Offsets(ms) == Offsets(ms[..|ms| - 1]) + {ms[|ms| - 1].offset}
  {
    var before := ms[..|ms| - 1];
    forall x | x in Offsets(ms) ensures x in Offsets(before) + {ms[|ms| - 1].offset} {
      var i :| 0 <= i < |ms| && ms[i].offset == x;
      if i < |before| { assert before[i].offset == x; }
    }
    forall x | x in Offsets(before) ensures x in Offsets(ms) {
      var i :| 0 <= i < |before| && before[i].offset == x;
      assert ms[i].offset == x;
    }
  }

  lemma NoOffsetsIff(ms: seq<Completion>)
    ensures Offsets(ms) == {} <==> ms == []
  {
    if ms != [] { assert ms[0].offset in Offsets(ms); }
  }

  /** When commits succeed, the order in which offsets complete leaves no trace. */
  lemma CompletionOrderIsIrrelevant(v: PartitionView, ms: seq<Completion>, ms': seq<Completion>)
    requires Fresh(v) && Known(v.committed)
    requires AllSucceed(ms) && AllSucceed(ms') && Offsets(ms) == Offsets(ms')
    ensures RunMarks(v, ms) == RunMarks(v, ms')
  {
    NoOffsetsIff(ms);
    NoOffsetsIff(ms');
    if ms != [] && ms' != [] {
      AllSucceedCaughtUp(v, ms);
      AllSucceedCaughtUp(v, ms');
      RunCommitted(v, ms);
      RunCommitted(v, ms');
      CaughtUpView(RunMarks(v, ms), v.committed.value, Offsets(ms));
      CaughtUpView(RunMarks(v, ms'), v.committed.value, Offsets(ms));
    }
  }

  // ----- a partition with no committed offset

  /** The committed offset, if any, has no unfinished offset below it from `lowest` on. */
  ghost predicate SafeAbove(v: PartitionView, lowest: int, h: set<int>) {
    Known(v.committed) ==> v.committed.value <= FirstGap(lowest, h)
  }

  /** A run on offsets delivered from `lowest` on, whose first recorded completion is `first`. */
  predicate StartsWith(ms: seq<Completion>, first: int, lowest: int) {
    && ms != [] && ms[0].offset == first && ms[0].replies.lookupOk
    && forall i :: 0 <= i < |ms| ==> lowest <= ms[i].offset
  }

  lemma {:induction false} UnseededRunTracks(v: PartitionView, ms: seq<Completion>)
    requires Fresh(v) && !Known(v.committed) && ms != [] && ms[0].replies.lookupOk
    ensures Tracks(RunMarks(v, ms), ms[0].offset, Recorded(v, ms))
    decreases |ms|
  {
    var before := ms[..|ms| - 1];
    var m := ms[|ms| - 1];
    if before == [] {
      FirstMarkTracks(v, m.offset, m.replies);
      assert {} + {m.offset} == {m.offset};
    } else {
      UnseededRunTracks(v, before);
      MarkTracks(RunMarks(v, before), ms[0].offset, Recorded(v, before), m.offset, m.replies);
    }
  }

  /**
   * With no committed offset the baseline is the first offset to complete. Every continuation is
   * safe exactly when that offset is the lowest one delivered.
   */
  lemma BaselineCharacterised(v: PartitionView, first: nat, lowest: nat)
    requires Fresh(v) && !Known(v.committed) && lowest <= first
    ensures (forall ms :: StartsWith(ms, first, lowest) ==> SafeAbove(RunMarks(v, ms), lowest, Recorded(v, ms)))
      <==> first == lowest
  {
    if first == lowest {
      forall ms | StartsWith(ms, first, lowest) ensures SafeAbove(RunMarks(v, ms), lowest, Recorded(v, ms)) {
        UnseededRunTracks(v, ms);
      }
    } else {
      var ms := [Completion(first, Replies(true, Applied))];
      assert StartsWith(ms, first, lowest);
      assert ms[..0] == [] && RunMarks(v, []) == v && Recorded(v, []) == {};
      FirstMarkTracks(v, first, Replies(true, Applied));
      assert Recorded(v, ms) == {first};
      GapUnique(lowest, {first}, lowest);
      GapUnique(first, {first}, first + 1);
      assert !SafeAbove(RunMarks(v, ms), lowest, Recorded(v, ms));
    }
  }
}
