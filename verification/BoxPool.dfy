/**
 * Sandbox boxes: the exit paths of preparing and running one execution, each of which gives its box back
 * exactly once, and the pool under every interleaving of tasks.
 */
module BoxPool {
  import opened Common

  function Ids(n: nat): (ids: seq<nat>)
    ensures |ids| == n && forall i :: 0 <= i < n ==> ids[i] == i
  {
    seq(n, i => i)
  }

  /** `_BOX_ID_QUEUE`: an unbounded first-in first-out queue of box ids. */
  class BoxQueue {
    var ids: seq<nat>

    constructor (boxes: nat)
      ensures ids == Ids(boxes)
    {
      ids := Ids(boxes);
    }

    /** `get`, at the moment it returns. */
    method Get() returns (id: nat)
      requires ids != []
      modifies this
      ensures old(ids) == [id] + ids
    {
      id := ids[0];
      ids := ids[1..];
    }

    method PutNowait(id: nat)
      modifies this
      ensures ids == old(ids) + [id]
    {
      ids := ids + [id];
    }
  }

  // ----- the pool that all tasks share

  type TaskId = nat

  /** Inside the semaphore and waiting for a box; preparing on it; running on it; over, as far as boxes go. */
  datatype Phase = Waiting | Preparing(box: nat) | Live(box: nat) | Over

  datatype Pool = Pool(free: seq<nat>, tasks: map<TaskId, Phase>)

  /** The ways out of preparation without a prepared execution. */
  datatype PrepareExit = InitFailure | CompileTimeout | CompileFailure | HandledException | EscapedException

  datatype Step =
    | Enter(t: TaskId)
    | LeaveEarly(t: TaskId)
    | Acquire(t: TaskId)
    | PrepareEnds(t: TaskId, exit: PrepareExit)
    | PrepareSucceeds(t: TaskId)
    | CleanUp(t: TaskId, raised: bool)

  function Active(p: Pool): set<TaskId> {
    set t | t in p.tasks && p.tasks[t] != Over
  }

  predicate HoldsBox(p: Pool, t: TaskId, b: nat) {
    t in p.tasks && (p.tasks[t] == Preparing(b) || p.tasks[t] == Live(b))
  }

  function Holders(p: Pool): set<TaskId> {
    set t | t in p.tasks && (p.tasks[t].Preparing? || p.tasks[t].Live?)
  }

  ghost predicate IsHeld(p: Pool, b: nat) {
    exists t :: HoldsBox(p, t, b)
  }

  predicate Can(slots: nat, p: Pool, e: Step) {
    match e
    case Enter(t) => t !in p.tasks && |Active(p)| < slots
    case LeaveEarly(t) => t in p.tasks && p.tasks[t] == Waiting
    case Acquire(t) => t in p.tasks && p.tasks[t] == Waiting && p.free != []
    case PrepareEnds(t, _) => t in p.tasks && p.tasks[t].Preparing?
    case PrepareSucceeds(t) => t in p.tasks && p.tasks[t].Preparing?
    case CleanUp(t, _) => t in p.tasks && p.tasks[t].Live?
  }

  function Next(slots: nat, p: Pool, e: Step): Pool
    requires Can(slots, p, e)
  {
    match e
    case Enter(t) => p.(tasks := p.tasks[t := Waiting])
    case LeaveEarly(t) => p.(tasks := p.tasks[t := Over])
    case Acquire(t) => Pool(p.free[1..], p.tasks[t := Preparing(p.free[0])])
    case PrepareEnds(t, _) => Pool(p.free + [p.tasks[t].box], p.tasks[t := Over])
    case PrepareSucceeds(t) => p.(tasks := p.tasks[t := Live(p.tasks[t].box)])
    case CleanUp(t, _) => Pool(p.free + [p.tasks[t].box], p.tasks[t := Over])
  }

  predicate Possible(slots: nat, p: Pool, es: seq<Step>)
    decreases |es|
  {
    es == [] || (Can(slots, p, es[0]) && Possible(slots, Next(slots, p, es[0]), es[1..]))
  }

  function Run(slots: nat, p: Pool, es: seq<Step>): Pool
    requires Possible(slots, p, es)
    decreases |es|
  {
    if es == [] then p else Run(slots, Next(slots, p, es[0]), es[1..])
  }

  lemma OneStep(slots: nat, p: Pool, e: Step, es: seq<Step>)
    requires Can(slots, p, e) && Possible(slots, Next(slots, p, e), es)
    ensures Possible(slots, p, [e] + es) && Run(slots, p, [e] + es) == Run(slots, Next(slots, p, e), es)
    ensures es == [] ==> [e] + es == [e]
    ensures |es| == 1 ==> [e] + es == [e, es[0]]
  {
    assert ([e] + es)[1..] == es;
  }

  lemma {:induction false} RunsJoin(slots: nat, p: Pool, es: seq<Step>, more: seq<Step>)
    requires Possible(slots, p, es) && Possible(slots, Run(slots, p, es), more)
    ensures Possible(slots, p, es + more) && Run(slots, p, es + more) == Run(slots, Run(slots, p, es), more)
    decreases |es|
  {
    hide Can, Next;
    if es == [] {
      assert [] + more == more;
    } else {
      assert (es + more)[1..] == es[1..] + more;
      RunsJoin(slots, Next(slots, p, es[0]), es[1..], more);
    }
  }

  // ----- one execution, with the outcome of every action it awaits

  datatype InitOutcome = InitOk | InitFailed | InitThrew
  datatype CompileOutcome = NotCompiled | Compiled | CompileTimedOut | CompileFailed | CompileThrew

  datatype CleanupCommand = BeforeInit | AfterCompile | InHandler | AtClose

  /** How the actions of one execution end. `throws` is the set of cleanup commands that raise. */
  datatype Script = Script(
    supported: bool, toolsPresent: bool, init: InitOutcome, setupThrew: bool,
    compile: CompileOutcome, runThrew: bool, throws: set<CleanupCommand>)

  /** A `PreparedExecution` on its box, an error dictionary, or an exception. */
  datatype Outcome = Prepared(box: nat) | ErrorResult | Escaped | Completed

  /** The paths that leave before a box is taken do not. */
  predicate NeedsBox(script: Script) {
    script.supported && script.toolsPresent
  }

  /** Some action between taking the box and having the execution prepared raises. */
  predicate Raises(script: Script) {
    || BeforeInit in script.throws || script.init.InitThrew?
    || (script.init.InitOk? && (script.setupThrew || script.compile.CompileThrew?
      || (script.compile in {CompileTimedOut, CompileFailed} && AfterCompile in script.throws)))
  }

  /** The way out of preparation; none when the execution is prepared. */
  function ExitOf(script: Script): Option<PrepareExit> {
    if Raises(script) then Some(if InHandler in script.throws then EscapedException else HandledException)
    else if script.init.InitFailed? then Some(InitFailure)
    else if script.compile.CompileTimedOut? then Some(CompileTimeout)
    else if script.compile.CompileFailed? then Some(CompileFailure)
    else None
  }

  /** Nothing failed on the way to the compiler's answer. */
  predicate ReachesCompiler(script: Script) {
    BeforeInit !in script.throws && script.init == InitOk && !script.setupThrew
  }

  /** Each way out has its own cause, and an execution is prepared when there was none. */
  lemma ExitsByCause(script: Script)
    ensures ExitOf(script) == None <==> ReachesCompiler(script) && script.compile in {NotCompiled, Compiled}
    ensures ExitOf(script) == Some(InitFailure) <==> BeforeInit !in script.throws && script.init == InitFailed
    ensures ExitOf(script) == Some(CompileTimeout) <==>
      ReachesCompiler(script) && script.compile == CompileTimedOut && AfterCompile !in script.throws
    ensures ExitOf(script) == Some(CompileFailure) <==>
      ReachesCompiler(script) && script.compile == CompileFailed && AfterCompile !in script.throws
    ensures ExitOf(script) in {Some(HandledException), Some(EscapedException)} <==>
      || BeforeInit in script.throws || script.init == InitThrew
      || (script.init == InitOk && script.setupThrew)
      || (ReachesCompiler(script) && script.compile == CompileThrew)
      || (ReachesCompiler(script) && script.compile in {CompileTimedOut, CompileFailed}
        && AfterCompile in script.throws)
    ensures ExitOf(script) == Some(EscapedException) ==> InHandler in script.throws
    ensures ExitOf(script) == Some(HandledException) ==> InHandler !in script.throws
  {
  }

  /** What preparing does to the pool. */
  function Preparation(t: TaskId, script: Script): seq<Step> {
    if !NeedsBox(script) then [LeaveEarly(t)]
    else [Acquire(t), if ExitOf(script).Some? then PrepareEnds(t, ExitOf(script).value) else PrepareSucceeds(t)]
  }

  /** What one execution does to the pool once it is inside the semaphore. */
  function Execution(t: TaskId, script: Script): seq<Step> {
    Preparation(t, script)
    + if NeedsBox(script) && ExitOf(script).None? then [CleanUp(t, AtClose in script.throws)] else []
  }

  /** The body of the `try` in `_prepare_isolate_execution`; `Escaped` is an exception that its handler sees. */
  method TryPrepare(queue: BoxQueue, box: nat, script: Script) returns (r: Outcome)
    modifies queue
    ensures r == if Raises(script) then Escaped else if ExitOf(script).Some? then ErrorResult else Prepared(box)
    ensures queue.ids == if r == ErrorResult then old(queue.ids) + [box] else old(queue.ids)
  {
    if BeforeInit in script.throws {
      return Escaped;
    }
    match script.init {
      case InitThrew => return Escaped;
      case InitFailed =>
        queue.PutNowait(box);
        return ErrorResult;
      case InitOk =>
    }
    if script.setupThrew {
      return Escaped;
    }
    match script.compile {
      case CompileThrew => return Escaped;
      case CompileTimedOut =>
        if AfterCompile in script.throws {
          return Escaped;
        }
        queue.PutNowait(box);
        return ErrorResult;
      case CompileFailed =>
        if AfterCompile in script.throws {
          return Escaped;
        }
        queue.PutNowait(box);
        return ErrorResult;
      case Compiled =>
      case NotCompiled =>
    }
    return Prepared(box);
  }

  /**
   * `_prepare_isolate_execution` by a task of a pool that has the queue's boxes: it moves the pool by steps of that
   * task alone, and whichever way it leaves, the queue then has exactly the pool's free boxes.
   */
  method PrepareIsolate(queue: BoxQueue, script: Script, ghost slots: nat, ghost p: Pool, ghost t: TaskId)
      returns (r: Outcome, ghost p': Pool)
    requires p.free == queue.ids && t in p.tasks && p.tasks[t] == Waiting
    requires NeedsBox(script) ==> queue.ids != []
    modifies queue
    ensures Possible(slots, p, Preparation(t, script)) && p' == Run(slots, p, Preparation(t, script))
    ensures p' == Pool(queue.ids, p.tasks[t := if r.Prepared? then Live(r.box) else Over])
    ensures r.Prepared? <==> NeedsBox(script) && ExitOf(script).None?
    ensures r == Escaped <==> NeedsBox(script) && ExitOf(script) == Some(EscapedException)
    ensures r != Completed && (r.Prepared? ==> old(queue.ids) == [r.box] + queue.ids)
    ensures !r.Prepared? ==>
      queue.ids == if NeedsBox(script) then old(queue.ids)[1..] + [old(queue.ids)[0]] else old(queue.ids)
  {
    if !script.supported || !script.toolsPresent {
      p' := Next(slots, p, LeaveEarly(t));
      OneStep(slots, p, LeaveEarly(t), []);
      return ErrorResult, p';
    }
    ghost var p1 := Next(slots, p, Acquire(t));
    var box := queue.Get();
    r := TryPrepare(queue, box, script);
    if r == Escaped {
      // The handler's cleanup command may raise too; its `finally` still puts the box back.
      queue.PutNowait(box);
      r := if InHandler in script.throws then Escaped else ErrorResult;
    }
    ghost var last := if ExitOf(script).Some? then PrepareEnds(t, ExitOf(script).value) else PrepareSucceeds(t);
    p' := Next(slots, p1, last);
    OneStep(slots, p1, last, []);
    OneStep(slots, p, Acquire(t), [last]);
    assert p1.tasks[t := p'.tasks[t]] == p.tasks[t := p'.tasks[t]];
  }

  /** One of isolate's own cleanup commands; true when it raises. */
  method RunCleanup(command: CleanupCommand, script: Script) returns (raised: bool)
    ensures raised <==> command in script.throws
  {
    raised := command in script.throws;
  }

  /** `PreparedExecution.cleanup` on the isolate backend: the command, and the `finally` that puts the box back. */
  method Cleanup(queue: BoxQueue, script: Script, ghost slots: nat, ghost p: Pool, ghost t: TaskId, box: nat)
      returns (raised: bool)
    requires p.free == queue.ids && t in p.tasks && p.tasks[t] == Live(box)
    modifies queue
    ensures raised <==> AtClose in script.throws
    ensures Next(slots, p, CleanUp(t, raised)) == Pool(queue.ids, p.tasks[t := Over])
  {
    raised := RunCleanup(AtClose, script);
    queue.PutNowait(box);
  }

  /**
   * `run_code_in_sandbox`, and equally the executor's judge-case grading: prepare, run, and clean up in `finally`.
   * Whatever raises on the way, the task moves the pool by the steps of its script, at most one box leaves the queue,
   * and it comes back exactly once.
   */
  method RunInSandbox(queue: BoxQueue, script: Script, ghost slots: nat, ghost p: Pool, ghost t: TaskId)
      returns (r: Outcome)
    requires p.free == queue.ids && t in p.tasks && p.tasks[t] == Waiting
    requires NeedsBox(script) ==> queue.ids != []
    modifies queue
    ensures Possible(slots, p, Execution(t, script))
    ensures Run(slots, p, Execution(t, script)) == Pool(queue.ids, p.tasks[t := Over])
    ensures queue.ids == if NeedsBox(script) then old(queue.ids)[1..] + [old(queue.ids)[0]] else old(queue.ids)
    ensures multiset(queue.ids) == multiset(old(queue.ids))
    ensures r == Completed <==>
      && script.supported && script.toolsPresent && ReachesCompiler(script) && script.compile in {NotCompiled, Compiled}
      && !script.runThrew && AtClose !in script.throws
    ensures r == ErrorResult ==> !script.supported || !script.toolsPresent || ExitOf(script).Some?
    ensures !r.Prepared?
  {
    ExitsByCause(script);
    ghost var p1;
    r, p1 := PrepareIsolate(queue, script, slots, p, t);
    if r.Prepared? {
      var box := r.box;
      var raised := Cleanup(queue, script, slots, p1, t, box);
      r := if script.runThrew || raised then Escaped else Completed;
      OneStep(slots, p1, CleanUp(t, raised), []);
      RunsJoin(slots, p, Preparation(t, script), [CleanUp(t, raised)]);
      assert p1.tasks[t := Over] == p.tasks[t := Over];
    } else {
      assert Preparation(t, script) + [] == Preparation(t, script);
    }
    assert NeedsBox(script) ==> old(queue.ids) == [old(queue.ids)[0]] + old(queue.ids)[1..];
  }

  // ----- every task of a pool runs such code

  /** The steps of one task. */
  function StepsOf(es: seq<Step>, t: TaskId): seq<Step> {
    if es == [] then [] else (if es[0].t == t then [es[0]] else []) + StepsOf(es[1..], t)
  }

  /** What a task has still to do: it has not entered, or is at some phase of its code. */
  function Remaining(p: Pool, t: TaskId, script: Script): seq<Step> {
    if t !in p.tasks then [Enter(t)] + Execution(t, script)
    else
      match p.tasks[t]
      case Waiting => Execution(t, script)
      case Preparing(_) => Execution(t, script)[1..]
      case Live(_) => [CleanUp(t, AtClose in script.throws)]
      case Over => []
  }

  /** A script that a task which takes a box may have. */
  predicate Takes(p: Pool, t: TaskId, script: Script) {
    && (t in p.tasks && p.tasks[t].Preparing? ==> NeedsBox(script))
    && (t in p.tasks && p.tasks[t].Live? ==> NeedsBox(script) && ExitOf(script).None?)
  }

  function Succeeding(throws: set<CleanupCommand>): Script {
    Script(true, true, InitOk, false, NotCompiled, false, throws * {AtClose})
  }

  /** A script that leaves preparation by a given exit. */
  function Exiting(exit: PrepareExit): Script {
    match exit
    case InitFailure => Succeeding({}).(init := InitFailed)
    case CompileTimeout => Succeeding({}).(compile := CompileTimedOut)
    case CompileFailure => Succeeding({}).(compile := CompileFailed)
    case HandledException => Succeeding({}).(init := InitThrew)
    case EscapedException => Succeeding({}).(init := InitThrew, throws := {InHandler})
  }

  const TURNED_AWAY := Script(false, false, InitOk, false, NotCompiled, false, {})

  /** One step of `t` itself, and what the script of its later steps says about the whole. */
  lemma OwnStep(slots: nat, p: Pool, e: Step, later: Script) returns (script: Script)
    requires Can(slots, p, e) && Takes(Next(slots, p, e), e.t, later)
    ensures Takes(p, e.t, script)
    ensures Remaining(p, e.t, script) == [e] + Remaining(Next(slots, p, e), e.t, later)
  {
    match e {
      case Enter(_) => script := later;
      case LeaveEarly(_) => script := TURNED_AWAY;
      case Acquire(_) => script := later;
      case PrepareEnds(_, exit) => script := Exiting(exit);
      case PrepareSucceeds(_) => script := later;
      case CleanUp(_, raised) => script := Succeeding(if raised then {AtClose} else {});
    }
  }

  /**
   * In every run of a pool each task does what the code does: its steps are a prefix of its entering and one execution,
   * for some script, and all of that when it is over.
   */
  lemma {:induction false} TasksRunTheCode(slots: nat, p: Pool, es: seq<Step>, t: TaskId) returns (script: Script)
    requires Possible(slots, p, es)
    ensures Takes(p, t, script) && StepsOf(es, t) <= Remaining(p, t, script)
    ensures t in Run(slots, p, es).tasks && Run(slots, p, es).tasks[t] == Over ==>
      StepsOf(es, t) == Remaining(p, t, script)
    decreases |es|
  {
    hide Can, Next, Takes, Remaining;
    if es == [] {
      script := SomeScript(p, t);
    } else {
      var p1 := Next(slots, p, es[0]);
      script := TasksRunTheCode(slots, p1, es[1..], t);
      if es[0].t == t {
        var later := script;
        script := OwnStep(slots, p, es[0], later);
      } else {
        OthersStep(slots, p, es[0], t, script);
        assert StepsOf(es, t) == StepsOf(es[1..], t);
      }
    }
  }

  lemma SomeScript(p: Pool, t: TaskId) returns (script: Script)
    ensures Takes(p, t, script)
    ensures t in p.tasks && p.tasks[t] == Over ==> Remaining(p, t, script) == []
  {
    script := Succeeding({});
  }

  lemma OthersStep(slots: nat, p: Pool, e: Step, t: TaskId, script: Script)
    requires Can(slots, p, e) && e.t != t
    ensures Takes(Next(slots, p, e), t, script) <==> Takes(p, t, script)
    ensures Remaining(Next(slots, p, e), t, script) == Remaining(p, t, script)
  {
  }

  // ----- conservation

  predicate Distinct(ids: seq<nat>) {
    forall i, j :: 0 <= i < j < |ids| ==> ids[i] != ids[j]
  }

  /** Every id from 0 to `boxes - 1`, and no other, is free once or held by one task. */
  ghost predicate Conserved(boxes: nat, p: Pool) {
    && Distinct(p.free)
    && (forall t, u, b: nat :: HoldsBox(p, t, b) && HoldsBox(p, u, b) ==> t == u)
    && (forall t, b: nat :: HoldsBox(p, t, b) ==> b !in p.free && b < boxes)
    && (forall b :: b in p.free ==> b < boxes)
    && (forall b: nat :: b < boxes && b !in p.free ==> IsHeld(p, b))
    && |p.free| + |Holders(p)| == boxes
  }

  lemma AcquireConserves(boxes: nat, p: Pool, t: TaskId)
    requires Conserved(boxes, p) && t in p.tasks && p.tasks[t] == Waiting && p.free != []
    ensures Conserved(boxes, Pool(p.free[1..], p.tasks[t := Preparing(p.free[0])]))
  {
    var b0 := p.free[0];
    var p' := Pool(p.free[1..], p.tasks[t := Preparing(b0)]);
    assert p.free == [b0] + p'.free && b0 in p.free;
    assert forall i :: 0 <= i < |p'.free| ==> p'.free[i] == p.free[i + 1];
    assert b0 !in p'.free;
    assert Holders(p') == Holders(p) + {t} && t !in Holders(p);
    forall b: nat | b < boxes && b !in p'.free ensures IsHeld(p', b) {
      if b == b0 {
        assert HoldsBox(p', t, b);
      } else {
        assert b !in p.free;
        var u :| HoldsBox(p, u, b);
        assert HoldsBox(p', u, b);
      }
    }
    forall u, b: nat | HoldsBox(p', u, b)
      ensures b !in p'.free && b < boxes && if u == t then b == b0 else HoldsBox(p, u, b)
    {
      if u != t { assert HoldsBox(p, u, b); }
    }
    forall b | b in p'.free ensures b < boxes { assert b in p.free; }
    assert Distinct(p'.free);
    assert |p'.free| + |Holders(p')| == boxes;
    assert forall u, v, b: nat :: HoldsBox(p', u, b) && HoldsBox(p', v, b) ==> u == v;
  }

  lemma ReleaseConserves(boxes: nat, p: Pool, t: TaskId, b0: nat)
    requires Conserved(boxes, p) && HoldsBox(p, t, b0)
    ensures Conserved(boxes, Pool(p.free + [b0], p.tasks[t := Over]))
  {
    var p' := Pool(p.free + [b0], p.tasks[t := Over]);
    assert Holders(p') == Holders(p) - {t} && t in Holders(p);
    forall b: nat | b < boxes && b !in p'.free ensures IsHeld(p', b) {
      assert b !in p.free;
      var u :| HoldsBox(p, u, b);
      assert b0 == p'.free[|p.free|];
      assert HoldsBox(p', u, b);
    }
    forall u, b: nat | HoldsBox(p', u, b) ensures b !in p'.free && b < boxes && HoldsBox(p, u, b) {
      assert HoldsBox(p, u, b);
    }
  }

  /** A change of phase that keeps an execution's box, or its having none. */
  lemma PhaseConserves(boxes: nat, p: Pool, t: TaskId, phase: Phase)
    requires Conserved(boxes, p)
    requires forall b: nat :: HoldsBox(p, t, b) <==> phase == Preparing(b) || phase == Live(b)
    ensures Conserved(boxes, p.(tasks := p.tasks[t := phase]))
  {
    var p' := p.(tasks := p.tasks[t := phase]);
    assert forall u, b: nat :: HoldsBox(p', u, b) <==> HoldsBox(p, u, b);
    forall u ensures u in Holders(p') <==> u in Holders(p) {
      if u in Holders(p) { assert HoldsBox(p, u, p.tasks[u].box); }
      if u in Holders(p') { assert HoldsBox(p', u, p'.tasks[u].box); }
    }
    assert Holders(p') == Holders(p);
    forall b: nat | b < boxes && b !in p'.free ensures IsHeld(p', b) {
      var u :| HoldsBox(p, u, b);
      assert HoldsBox(p', u, b);
    }
  }

  lemma StepConserves(boxes: nat, slots: nat, p: Pool, e: Step)
    requires Conserved(boxes, p) && Can(slots, p, e)
    ensures Conserved(boxes, Next(slots, p, e))
  {
    hide Conserved;
    match e
    case Enter(t) => PhaseConserves(boxes, p, t, Waiting);
    case LeaveEarly(t) => PhaseConserves(boxes, p, t, Over);
    case Acquire(t) => AcquireConserves(boxes, p, t);
    case PrepareEnds(t, _) => ReleaseConserves(boxes, p, t, p.tasks[t].box);
    case PrepareSucceeds(t) => PhaseConserves(boxes, p, t, Live(p.tasks[t].box));
    case CleanUp(t, _) => ReleaseConserves(boxes, p, t, p.tasks[t].box);
  }

  lemma StepBoundsActive(slots: nat, p: Pool, e: Step)
    requires |Active(p)| <= slots && Can(slots, p, e)
    ensures |Active(Next(slots, p, e))| <= slots
  {
    var p' := Next(slots, p, e);
    match e
    case Enter(t) => assert Active(p') == Active(p) + {t};
    case LeaveEarly(t) => SubsetSize(Active(p'), Active(p));
    case Acquire(t) => assert Active(p') == Active(p);
    case PrepareEnds(t, _) => SubsetSize(Active(p'), Active(p));
    case PrepareSucceeds(t) => assert Active(p') == Active(p);
    case CleanUp(t, _) => SubsetSize(Active(p'), Active(p));
  }

  lemma {:induction false} SubsetSize<T>(a: set<T>, b: set<T>)
    requires a <= b
    ensures |a| <= |b|
    ensures a != b ==> |a| < |b|
  {
    if a == {} {
      assert b != {} ==> |b| > 0;
    } else {
      var x :| x in a;
      SubsetSize(a - {x}, b - {x});
      assert a == b <==> a - {x} == b - {x};
    }
  }

  lemma {:induction false} RunConserves(boxes: nat, slots: nat, p: Pool, es: seq<Step>)
    requires Conserved(boxes, p) && |Active(p)| <= slots && Possible(slots, p, es)
    ensures Conserved(boxes, Run(slots, p, es)) && |Active(Run(slots, p, es))| <= slots
    decreases |es|
  {
    hide Conserved, Active;
    if es != [] {
      StepConserves(boxes, slots, p, es[0]);
      StepBoundsActive(slots, p, es[0]);
      RunConserves(boxes, slots, Next(slots, p, es[0]), es[1..]);
    }
  }

  function Start(boxes: nat): Pool {
    Pool(Ids(boxes), map[])
  }

  /** Under every interleaving of any number of tasks, boxes are conserved. */
  lemma BoxesAreConserved(boxes: nat, slots: nat, es: seq<Step>)
    requires Possible(slots, Start(boxes), es)
    ensures Conserved(boxes, Run(slots, Start(boxes), es))
  {
    StartConserved(boxes);
    RunConserves(boxes, slots, Start(boxes), es);
  }

  lemma StartConserved(boxes: nat)
    ensures Conserved(boxes, Start(boxes)) && Active(Start(boxes)) == {}
  {
    assert Holders(Start(boxes)) == {};
    forall b: nat | b < boxes ensures b in Start(boxes).free {
      assert Start(boxes).free[b] == b;
    }
  }

  /** With at least as many boxes as executor slots, a task that asks for a box never has to wait. */
  lemma GetNeverWaits(boxes: nat, slots: nat, es: seq<Step>, t: TaskId)
    requires slots <= boxes && Possible(slots, Start(boxes), es)
    requires var p := Run(slots, Start(boxes), es); t in p.tasks && p.tasks[t] == Waiting
    ensures Can(slots, Run(slots, Start(boxes), es), Acquire(t))
  {
    var p := Run(slots, Start(boxes), es);
    StartConserved(boxes);
    RunConserves(boxes, slots, Start(boxes), es);
    assert Holders(p) <= Active(p) && t in Active(p) && t !in Holders(p);
    SubsetSize(Holders(p), Active(p));
  }

  /** No two live executions share a box. */
  lemma NoSharedBox(boxes: nat, slots: nat, es: seq<Step>, t: TaskId, u: TaskId, b: nat)
    requires Possible(slots, Start(boxes), es)
    requires var p := Run(slots, Start(boxes), es); HoldsBox(p, t, b) && HoldsBox(p, u, b)
    ensures t == u
  {
    BoxesAreConserved(boxes, slots, es);
  }

  /** When no execution holds a box, all of them are free again. */
  lemma IdlePoolIsFull(boxes: nat, slots: nat, es: seq<Step>)
    requires Possible(slots, Start(boxes), es)
    requires Holders(Run(slots, Start(boxes), es)) == {}
    ensures |Run(slots, Start(boxes), es).free| == boxes && Distinct(Run(slots, Start(boxes), es).free)
    ensures forall b: nat :: b < boxes <==> b in Run(slots, Start(boxes), es).free
  {
    var p := Run(slots, Start(boxes), es);
    BoxesAreConserved(boxes, slots, es);
    forall b: nat | b < boxes ensures b in p.free {
      assert forall t :: HoldsBox(p, t, b) ==> t in Holders(p);
    }
  }
}
