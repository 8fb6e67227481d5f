/** The executor's main loop: pausing, polling and spawning, with a bound on the gradings in flight. */
module Worker {

  type PartitionId = nat

  /** `MAX_CONCURRENT_EXECUTIONS`, also the poll limit and the semaphore's size; and the consumer's assignment. */
  datatype Setup = Setup(maxConcurrent: nat, assignment: set<PartitionId>) {
    predicate Valid() { maxConcurrent >= 2 && assignment != {} }
  }

  /** Tasks alive and tasks inside the semaphore, the loop's own flag, and the partitions the consumer has paused. */
  datatype Loop = Loop(active: nat, inside: nat, isPaused: bool, paused: set<PartitionId>)

  /** The pause and resume decision at the top of the loop. */
  function Guarded(c: Setup, w: Loop): Loop {
    if w.active >= c.maxConcurrent && c.assignment != {} && !w.isPaused then
      w.(isPaused := true, paused := w.paused + c.assignment)
    else if w.active < c.maxConcurrent && w.isPaused then
      w.(isPaused := false, paused := {})
    else w
  }

  /** The records, by partition, that the consumer may hand out of those on offer: none of a paused partition. */
  function Fetchable(c: Setup, w: Loop, offered: seq<PartitionId>): seq<PartitionId> {
    if offered == [] then []
    else
      (if offered[0] in c.assignment && offered[0] !in w.paused then [offered[0]] else [])
      + Fetchable(c, w, offered[1..])
  }

  /** `poll`: at most `max_poll_records` of them. */
  function Polled(c: Setup, w: Loop, offered: seq<PartitionId>): seq<PartitionId> {
    var records := Fetchable(c, w, offered);
    if |records| <= c.maxConcurrent then records else records[..c.maxConcurrent]
  }

  function Iterated(c: Setup, w: Loop, offered: seq<PartitionId>): Loop {
    var g := Guarded(c, w);
    g.(active := g.active + |Polled(c, g, offered)|)
  }

  class Executor {
    const setup: Setup
    var activeTasks: nat
    var insideSemaphore: nat
    var isPaused: bool
    var pausedPartitions: set<PartitionId>

    constructor (setup: Setup)
      ensures this.setup == setup && State() == Loop(0, 0, false, {})
    {
      this.setup := setup;
      activeTasks, insideSemaphore, isPaused, pausedPartitions := 0, 0, false, {};
    }

    ghost function State(): Loop
      reads this
    {
      Loop(activeTasks, insideSemaphore, isPaused, pausedPartitions)
    }

    /** One iteration of `start_worker` up to its `sleep`; `arrived` is the number of messages it received. */
    method Iterate(offered: seq<PartitionId>) returns (arrived: nat)
      modifies this
      ensures activeTasks == old(activeTasks) + arrived && insideSemaphore == old(insideSemaphore)
      ensures setup.Valid() && Bounded(setup, old(State())) ==>
        && Bounded(setup, State()) && arrived <= setup.maxConcurrent
        && (isPaused <==> old(activeTasks) >= setup.maxConcurrent)
        && (arrived > 0 <==>
          old(activeTasks) < setup.maxConcurrent && exists p :: p in offered && p in setup.assignment)
      ensures State() == Iterated(setup, old(State()), offered)
    {
      ghost var before := State();
      if activeTasks >= setup.maxConcurrent && setup.assignment != {} && !isPaused {
        pausedPartitions := pausedPartitions + setup.assignment;
        isPaused := true;
      } else if activeTasks < setup.maxConcurrent && isPaused {
        if pausedPartitions != {} {
          pausedPartitions := {};
        }
        isPaused := false;
      }

      var messages := Polled(setup, Loop(activeTasks, insideSemaphore, isPaused, pausedPartitions), offered);
      arrived := 0;
      for i := 0 to |messages|
        modifies this`activeTasks
        invariant arrived == i && activeTasks == old(activeTasks) + i
      {
        activeTasks := activeTasks + 1;
        arrived := arrived + 1;
      }
      if setup.Valid() && Bounded(setup, before) {
        GuardDecides(setup, before);
        ArrivalsOnlyBelowLimit(setup, before, offered);
      }
    }
  }

  // ----- the loop and its tasks

  /** A turn of the loop, or what tasks do while it sleeps: enter the semaphore, or finish and leave it. */
  datatype Turn = Iteration(offered: seq<PartitionId>) | TaskEnters | TaskFinishes

  predicate Possible(c: Setup, w: Loop, t: Turn) {
    match t
    case Iteration(_) => true
    case TaskEnters => w.inside < w.active && w.inside < c.maxConcurrent
    case TaskFinishes => w.inside > 0 && w.active > 0
  }

  function Next(c: Setup, w: Loop, t: Turn): Loop
    requires Possible(c, w, t)
  {
    match t
    case Iteration(offered) => Iterated(c, w, offered)
    case TaskEnters => w.(inside := w.inside + 1)
    case TaskFinishes => w.(inside := w.inside - 1, active := w.active - 1)
  }

  predicate Bounded(c: Setup, w: Loop) {
    && w.inside <= w.active <= 2 * c.maxConcurrent - 1 && w.inside <= c.maxConcurrent
    && w.paused == if w.isPaused then c.assignment else {}
  }

  lemma {:induction false} FetchableIff(c: Setup, w: Loop, offered: seq<PartitionId>)
    ensures Fetchable(c, w, offered) != [] <==> exists p :: p in offered && p in c.assignment && p !in w.paused
  {
    if offered != [] {
      FetchableIff(c, w, offered[1..]);
      assert offered == [offered[0]] + offered[1..];
    }
  }

  /** After its decision the loop is paused exactly when the limit is reached, on all partitions or on none. */
  lemma GuardDecides(c: Setup, w: Loop)
    requires c.Valid() && Bounded(c, w)
    ensures var g := Guarded(c, w);
      && (g.isPaused <==> w.active >= c.maxConcurrent)
      && g.paused == (if g.isPaused then c.assignment else {}) && g.active == w.active && g.inside == w.inside
  {
  }

  /** Messages arrive exactly when fewer tasks are active than may execute at once and an assigned partition has one. */
  lemma ArrivalsOnlyBelowLimit(c: Setup, w: Loop, offered: seq<PartitionId>)
    requires c.Valid() && Bounded(c, w)
    ensures Polled(c, Guarded(c, w), offered) != [] <==>
      w.active < c.maxConcurrent && exists p :: p in offered && p in c.assignment
    ensures Bounded(c, Guarded(c, w)) && Bounded(c, Iterated(c, w, offered))
  {
    GuardDecides(c, w);
    FetchableIff(c, Guarded(c, w), offered);
  }

  predicate CanRun(c: Setup, w: Loop, ts: seq<Turn>)
    decreases |ts|
  {
    ts == [] || (Possible(c, w, ts[0]) && CanRun(c, Next(c, w, ts[0]), ts[1..]))
  }

  function After(c: Setup, w: Loop, ts: seq<Turn>): Loop
    requires CanRun(c, w, ts)
    decreases |ts|
  {
    if ts == [] then w else After(c, Next(c, w, ts[0]), ts[1..])
  }

  lemma {:induction false} RunStaysBounded(c: Setup, w: Loop, ts: seq<Turn>)
    requires c.Valid() && Bounded(c, w) && CanRun(c, w, ts)
    ensures Bounded(c, After(c, w, ts))
    decreases |ts|
  {
    if ts != [] {
      if ts[0].Iteration? { ArrivalsOnlyBelowLimit(c, w, ts[0].offered); }
      RunStaysBounded(c, Next(c, w, ts[0]), ts[1..]);
    }
  }

  /** How many messages arrive in a run, and how many tasks enter the semaphore and finish. */
  function Arrived(c: Setup, w: Loop, ts: seq<Turn>): nat
    requires CanRun(c, w, ts)
    decreases |ts|
  {
    if ts == [] then 0
    else
      (if ts[0].Iteration? then |Polled(c, Guarded(c, w), ts[0].offered)| else 0)
      + Arrived(c, Next(c, w, ts[0]), ts[1..])
  }

  function Entered(ts: seq<Turn>): nat {
    if ts == [] then 0 else (if ts[0].TaskEnters? then 1 else 0) + Entered(ts[1..])
  }

  function Finished(ts: seq<Turn>): nat {
    if ts == [] then 0 else (if ts[0].TaskFinishes? then 1 else 0) + Finished(ts[1..])
  }

  /** Nothing is lost or made up: active is what arrived and did not finish, inside what entered and did not. */
  lemma {:induction false} TasksAreCounted(c: Setup, w: Loop, ts: seq<Turn>)
    requires CanRun(c, w, ts)
    ensures After(c, w, ts).active == w.active + Arrived(c, w, ts) - Finished(ts)
    ensures After(c, w, ts).inside == w.inside + Entered(ts) - Finished(ts)
    decreases |ts|
  {
    hide Polled, Guarded;
    if ts != [] {
      TasksAreCounted(c, Next(c, w, ts[0]), ts[1..]);
      GuardKeepsTasks(c, w);
    }
  }

  lemma GuardKeepsTasks(c: Setup, w: Loop)
    ensures Guarded(c, w).active == w.active && Guarded(c, w).inside == w.inside
  {
  }

  /** Tasks can always go on: from every bounded state they finish one by one, whatever the loop does in between. */
  lemma {:induction false} TasksDrain(c: Setup, w: Loop) returns (ts: seq<Turn>)
    requires c.Valid() && Bounded(c, w)
    ensures CanRun(c, w, ts) && After(c, w, ts) == w.(active := 0, inside := 0)
    decreases w.active
  {
    if w.active == 0 {
      ts := [];
    } else if w.inside > 0 {
      var rest := TasksDrain(c, Next(c, w, TaskFinishes));
      ts := [TaskFinishes] + rest;
    } else {
      var entered := Next(c, w, TaskEnters);
      var rest := TasksDrain(c, Next(c, entered, TaskFinishes));
      assert ([TaskFinishes] + rest)[1..] == rest;
      ts := [TaskEnters] + ([TaskFinishes] + rest);
    }
  }

  /** A pause is always left: once the tasks have finished, the next turn resumes and receives what is on offer. */
  lemma PauseIsLeft(c: Setup, w: Loop, offered: seq<PartitionId>) returns (ts: seq<Turn>)
    requires c.Valid() && Bounded(c, w) && exists p :: p in offered && p in c.assignment
    ensures CanRun(c, w, ts) && !Guarded(c, After(c, w, ts)).isPaused
    ensures Polled(c, Guarded(c, After(c, w, ts)), offered) != []
  {
    ts := TasksDrain(c, w);
    GuardDecides(c, After(c, w, ts));
    ArrivalsOnlyBelowLimit(c, After(c, w, ts), offered);
  }

  /** The records of a batch that lie on assigned partitions. */
  function Assigned(c: Setup, offered: seq<PartitionId>): seq<PartitionId> {
    if offered == [] then []
    else (if offered[0] in c.assignment then [offered[0]] else []) + Assigned(c, offered[1..])
  }

  lemma {:induction false} FetchableWhenResumed(c: Setup, w: Loop, offered: seq<PartitionId>)
    requires w.paused == {}
    ensures Fetchable(c, w, offered) == Assigned(c, offered)
  {
    if offered != [] { FetchableWhenResumed(c, w, offered[1..]); }
  }

  /** Below the limit the loop receives what is on offer, in order, up to a full poll. */
  lemma ArrivesInOrder(c: Setup, w: Loop, offered: seq<PartitionId>)
    requires c.Valid() && Bounded(c, w) && w.active < c.maxConcurrent
    ensures var records, n := Assigned(c, offered), |Polled(c, Guarded(c, w), offered)|;
      && n == (if |records| < c.maxConcurrent then |records| else c.maxConcurrent)
      && Polled(c, Guarded(c, w), offered) == records[..n]
  {
    GuardDecides(c, w);
    FetchableWhenResumed(c, Guarded(c, w), offered);
  }

  const START := Loop(0, 0, false, {})

  /**
   * Backpressure: from the start, whatever is on offer and however tasks finish, at most twice the limit minus one
   * tasks are active, at most the limit are inside the semaphore, and messages arrive only below the limit.
   */
  lemma BackpressureHolds(c: Setup, ts: seq<Turn>, offered: seq<PartitionId>)
    requires c.Valid() && CanRun(c, START, ts)
    ensures var w := After(c, START, ts);
      && w.active <= 2 * c.maxConcurrent - 1 && w.inside <= c.maxConcurrent
      && (Polled(c, Guarded(c, w), offered) != [] ==> w.active < c.maxConcurrent)
  {
    RunStaysBounded(c, START, ts);
    ArrivalsOnlyBelowLimit(c, After(c, START, ts), offered);
  }

  lemma {:induction false} AllFetchable(c: Setup, w: Loop, p: PartitionId, n: nat)
    requires p in c.assignment && p !in w.paused
    ensures Fetchable(c, w, seq(n, _ => p)) == seq(n, _ => p)
  {
    if n > 0 {
      assert seq(n, _ => p)[1..] == seq(n - 1, _ => p);
      AllFetchable(c, w, p, n - 1);
      assert [p] + seq(n - 1, _ => p) == seq(n, _ => p);
    }
  }

  /** The bound is reached: one task short of the limit, a full poll arrives. */
  lemma BoundIsReached(c: Setup, p: PartitionId)
    requires c.Valid() && p in c.assignment
    ensures var ts := [Iteration(seq(c.maxConcurrent - 1, _ => p)), Iteration(seq(c.maxConcurrent, _ => p))];
      CanRun(c, START, ts) && After(c, START, ts).active == 2 * c.maxConcurrent - 1
  {
    var a, b := Iteration(seq(c.maxConcurrent - 1, _ => p)), Iteration(seq(c.maxConcurrent, _ => p));
    AllFetchable(c, START, p, c.maxConcurrent - 1);
    var w := Iterated(c, START, a.offered);
    AllFetchable(c, w, p, c.maxConcurrent);
    assert [a, b][1..] == [b] && [b][1..] == [];
    assert Next(c, START, a) == w && CanRun(c, w, [b]);
    assert After(c, START, [a, b]) == After(c, w, [b]) == Iterated(c, w, b.offered);
  }
}
