/**
 Coroutines awaiting calls on the worker pool. An `await` posts the call and suspends; the worker that
 takes it runs the call, stores its value or its exception in the awaiter and resumes the coroutine on
 the spot, which then posts its next call, awaits the database, or ends. Another worker may pick up that
 next call, and even finish it, before the first worker returns from the resumption. A coroutine that
 awaits the database is resumed by a database thread, and posts its next call from outside the pool.

 A worker runs whatever it has taken: nothing checks that the coroutine still waits for that call. That
 it always does is proved, from the pool's order and accounting.
 */
module AwaitProtocol {
  import opened Common
  import opened WorkerPool

  /** What an awaited call yields: a value, or an exception that `await_resume` rethrows. */
  datatype Outcome = Value(v: int) | Exception(e: int)

  /** Suspended on a call, resumed by a worker, away in the database, or at its end. */
  datatype Phase =
    | Suspended
    | Resumed(worker: nat)
    | Away
    | Ended

  /** A coroutine: how many calls it has awaited, and the outcomes it has been resumed with. */
  datatype Coroutine = Coroutine(phase: Phase, calls: nat, delivered: seq<Outcome>)

  datatype Executed = Executed(task: Task, outcome: Outcome)

  /** `started` holds the workers that have run the call of the task they are on. */
  datatype System = System(pool: Pool, started: set<nat>, coroutines: map<int, Coroutine>, log: seq<Executed>)

  datatype Act =
    | Launch(co: int)
    | LaunchAway(co: int)
    | Execute(w: nat, outcome: Outcome)
    | AwaitNext(w: nat)
    | Leave(w: nat)
    | End(w: nat)
    | Return(co: int)
    | EndAway(co: int)
    | Unwind(w: nat)
    | PoolAct(l: PoolLabel)

  predicate IsRunning(s: System, w: nat) {
    w < |s.pool.workers| && s.pool.workers[w].Running?
  }

  function TaskOf(s: System, w: nat): Task
    requires IsRunning(s, w)
  {
    s.pool.workers[w].task
  }

  /** The worker holds a coroutine that it has resumed and that has not suspended again or ended. */
  predicate Drives(s: System, w: nat) {
    && IsRunning(s, w) && w in s.started
    && TaskOf(s, w).coroutine in s.coroutines && s.coroutines[TaskOf(s, w).coroutine].phase == Resumed(w)
  }

  predicate IsAway(s: System, co: int) {
    co in s.coroutines && s.coroutines[co].phase == Away
  }

  ghost predicate ActEnabled(s: System, a: Act) {
    match a
    case Launch(co) => co !in s.coroutines
    case LaunchAway(co) => co !in s.coroutines
    case Execute(w, _) => IsRunning(s, w) && w !in s.started
    case AwaitNext(w) => Drives(s, w)
    case Leave(w) => Drives(s, w)
    case End(w) => Drives(s, w)
    case Return(co) => IsAway(s, co)
    case EndAway(co) => IsAway(s, co)
    case Unwind(w) => IsRunning(s, w) && w in s.started && !Drives(s, w)
    case PoolAct(l) => !l.Push? && !l.Finish? && PoolEnabled(s.pool, l)
  }

  /** Resuming a coroutine hands it the outcome, whatever it was doing. */
  function Resume(coroutines: map<int, Coroutine>, co: int, w: nat, outcome: Outcome): map<int, Coroutine> {
    if co !in coroutines then coroutines
    else coroutines[co := coroutines[co].(phase := Resumed(w), delivered := coroutines[co].delivered + [outcome])]
  }

  ghost function Perform(s: System, a: Act): System
    requires ActEnabled(s, a)
  {
    match a
    case Launch(co) =>
      s.(pool := PoolStep(s.pool, Push(Task(co, 0), None)),
         coroutines := s.coroutines[co := Coroutine(Suspended, 1, [])])
    case LaunchAway(co) => s.(coroutines := s.coroutines[co := Coroutine(Away, 0, [])])
    case Execute(w, outcome) =>
      s.(started := s.started + {w},
         coroutines := Resume(s.coroutines, TaskOf(s, w).coroutine, w, outcome),
         log := s.log + [Executed(TaskOf(s, w), outcome)])
    case AwaitNext(w) =>
      var co := TaskOf(s, w).coroutine;
      var calls := s.coroutines[co].calls;
      s.(pool := PoolStep(s.pool, Push(Task(co, calls), Some(w))),
         coroutines := s.coroutines[co := s.coroutines[co].(phase := Suspended, calls := calls + 1)])
    case Leave(w) =>
      var co := TaskOf(s, w).coroutine;
      s.(coroutines := s.coroutines[co := s.coroutines[co].(phase := Away)])
    case End(w) =>
      var co := TaskOf(s, w).coroutine;
      s.(coroutines := s.coroutines[co := s.coroutines[co].(phase := Ended)])
    case Return(co) =>
      var calls := s.coroutines[co].calls;
      s.(pool := PoolStep(s.pool, Push(Task(co, calls), None)),
         coroutines := s.coroutines[co := s.coroutines[co].(phase := Suspended, calls := calls + 1)])
    case EndAway(co) => s.(coroutines := s.coroutines[co := s.coroutines[co].(phase := Ended)])
    case Unwind(w) => s.(pool := PoolStep(s.pool, Finish(w)), started := s.started - {w})
    case PoolAct(l) => s.(pool := PoolStep(s.pool, l))
  }

  ghost predicate SystemRun(s: System, acts: seq<Act>, t: System)
    decreases |acts|
  {
    if acts == [] then s == t
    else ActEnabled(s, acts[0]) && SystemRun(Perform(s, acts[0]), acts[1..], t)
  }

  function Fresh(numThreads: nat): System {
    System(Started(numThreads), {}, map[], [])
  }

  // ---------------------------------------------------------------- the invariant

  /** Exactly the calls awaited so far have been posted, each once. */
  ghost predicate PostedOk(posted: seq<Task>, coroutines: map<int, Coroutine>) {
    && (forall t: Task :: t in posted <==> t.coroutine in coroutines && t.call < coroutines[t.coroutine].calls)
    && (forall t: Task :: multiset(posted)[t] <= 1)
  }

  /** A suspended coroutine has received all outcomes but one, any other has received all. */
  predicate CoroutineOk(co: Coroutine) {
    co.calls == |co.delivered| + if co.phase.Suspended? then 1 else 0
  }

  ghost predicate OnStarted(s: System, t: Task) {
    exists w :: w in s.started && IsRunning(s, w) && TaskOf(s, w) == t
  }

  predicate InLog(log: seq<Executed>, t: Task) {
    exists k :: 0 <= k < |log| && log[k].task == t
  }

  /** A call has been executed if and only if it has finished, or its worker has got past it. */
  ghost predicate ExecutedOk(s: System) {
    && (forall w :: w in s.started ==> IsRunning(s, w))
    && (forall t: Task :: InLog(s.log, t) <==> s.pool.finished[t] > 0 || OnStarted(s, t))
  }

  /** A resumed coroutine is on the worker that executed its last call. */
  ghost predicate ResumedOk(s: System) {
    forall co :: co in s.coroutines && s.coroutines[co].phase.Resumed? ==>
      var w := s.coroutines[co].phase.worker;
      && w in s.started && IsRunning(s, w)
      && TaskOf(s, w).coroutine == co && TaskOf(s, w).call == s.coroutines[co].calls - 1
  }

  /** The executions of one coroutine's calls, in the order in which they happened. */
  function Of(log: seq<Executed>, co: int): seq<Executed> {
    if log == [] then []
    else
      var rest := Of(log[..|log| - 1], co);
      if log[|log| - 1].task.coroutine == co then rest + [log[|log| - 1]] else rest
  }

  /** What the executions of a coroutine must be: its calls in program order, with what it received. */
  function InOrder(co: int, delivered: seq<Outcome>): seq<Executed> {
    seq(|delivered|, k requires 0 <= k < |delivered| => Executed(Task(co, k), delivered[k]))
  }

  ghost predicate LogOk(log: seq<Executed>, coroutines: map<int, Coroutine>) {
    && (forall co :: co in coroutines ==> Of(log, co) == InOrder(co, coroutines[co].delivered))
    && (forall co :: co !in coroutines ==> Of(log, co) == [])
  }

  ghost predicate Consistent(s: System) {
    && Conserved(s.pool) && PostedOk(s.pool.posted, s.coroutines) && ExecutedOk(s) && ResumedOk(s)
    && LogOk(s.log, s.coroutines) && forall co :: co in s.coroutines ==> CoroutineOk(s.coroutines[co])
  }

  lemma OfSnoc(log: seq<Executed>, x: Executed, co: int)
    ensures Of(log + [x], co) == if x.task.coroutine == co then Of(log, co) + [x] else Of(log, co)
  {
    assert (log + [x])[..|log|] == log;
  }

  lemma {:induction false} InLogOf(log: seq<Executed>, t: Task)
    ensures InLog(log, t) <==> InLog(Of(log, t.coroutine), t)
  {
    if log != [] {
      var most, x := log[..|log| - 1], log[|log| - 1];
      var of, rest := Of(log, t.coroutine), Of(most, t.coroutine);
      InLogOf(most, t);
      assert InLog(log, t) <==> InLog(most, t) || x.task == t by {
        if InLog(most, t) {
          var k :| 0 <= k < |most| && most[k].task == t;
          assert log[k].task == t;
        }
      }
      if InLog(most, t) {
        var k :| 0 <= k < |rest| && rest[k].task == t;
        assert of[k].task == t;
      } else if x.task == t {
        assert of[|of| - 1].task == t;
      }
    }
  }

  lemma DeliveredInLog(s: System, co: int, k: nat)
    requires LogOk(s.log, s.coroutines) && co in s.coroutines && k < |s.coroutines[co].delivered|
    ensures InLog(s.log, Task(co, k))
  {
    var t := Task(co, k);
    var of := Of(s.log, t.coroutine);
    InLogOf(s.log, t);
    assert of == InOrder(co, s.coroutines[co].delivered);
    assert 0 <= k < |of| && of[k].task == t;
  }

  // ---------------------------------------------------------------- a resumption never goes astray

  lemma {:induction false} SumTwo(workers: seq<Worker>, v: nat, w: nat, t: Task)
    requires v < w < |workers| && workers[v] == Running(t) && workers[w] == Running(t)
    ensures Sum(workers, Runs(t)) >= 2
  {
    var n := |workers| - 1;
    if w < n {
      SumTwo(workers[..n], v, w, t);
    } else {
      SumAtLeast(workers[..n], v, Runs(t));
    }
  }

  /** The pool has given a task to one worker only, and that worker has not finished it. */
  lemma TakenOnce(s: System, w: nat)
    requires Conserved(s.pool) && PostedOk(s.pool.posted, s.coroutines) && IsRunning(s, w)
    ensures TaskOf(s, w) in s.pool.posted && s.pool.finished[TaskOf(s, w)] == 0
    ensures forall v: nat :: IsRunning(s, v) && TaskOf(s, v) == TaskOf(s, w) ==> v == w
  {
    var t := TaskOf(s, w);
    SumAtLeast(s.pool.workers, w, Runs(t));
    assert multiset(s.pool.posted) == multiset(s.pool.taken) + multiset(s.pool.tasks);
    assert multiset(s.pool.posted)[t] <= 1;
    assert multiset(s.pool.taken)[t] == 1;
    assert t in multiset(s.pool.posted);
    forall v: nat | IsRunning(s, v) && TaskOf(s, v) == t ensures v == w {
      if v < w {
        SumTwo(s.pool.workers, v, w, t);
      } else if w < v {
        SumTwo(s.pool.workers, w, v, t);
      }
    }
  }

  /**
   A worker that is about to run a call resumes a coroutine that is suspended on that very call: no
   other phase and no other call can be waiting, although nothing in the worker checks it.
   */
  lemma ResumesTheAwaiter(s: System, w: nat)
    requires Consistent(s) && IsRunning(s, w) && w !in s.started
    ensures var t := TaskOf(s, w);
      && t.coroutine in s.coroutines
      && s.coroutines[t.coroutine].phase == Suspended
      && t.call == |s.coroutines[t.coroutine].delivered| == s.coroutines[t.coroutine].calls - 1
  {
    var t := TaskOf(s, w);
    TakenOnce(s, w);
    assert !OnStarted(s, t);
    var co := s.coroutines[t.coroutine];
    assert CoroutineOk(co);
    if t.call < |co.delivered| {
      DeliveredInLog(s, t.coroutine, t.call);
    }
  }

  // ---------------------------------------------------------------- every act keeps the invariant

  lemma PostedStep(s: System, a: Act)
    requires PostedOk(s.pool.posted, s.coroutines) && ActEnabled(s, a)
    ensures PostedOk(Perform(s, a).pool.posted, Perform(s, a).coroutines)
  {
    match a
    case Launch(co) => NewPost(s.pool.posted, s.coroutines, co, Coroutine(Suspended, 1, []));
    case AwaitNext(w) =>
      var co := TaskOf(s, w).coroutine;
      NewPost(s.pool.posted, s.coroutines, co, Perform(s, a).coroutines[co]);
    case Return(co) => NewPost(s.pool.posted, s.coroutines, co, Perform(s, a).coroutines[co]);
    case _ =>
  }

  /** A coroutine posts its next call. */
  lemma NewPost(posted: seq<Task>, coroutines: map<int, Coroutine>, co: int, after: Coroutine)
    requires PostedOk(posted, coroutines)
    requires after.calls == 1 + if co in coroutines then coroutines[co].calls else 0
    ensures PostedOk(posted + [Task(co, after.calls - 1)], coroutines[co := after])
  {
    var t := Task(co, after.calls - 1);
    assert t !in posted;
    assert multiset(posted + [t]) == multiset(posted) + multiset{t};
  }

  lemma InOrderSnoc(co: int, delivered: seq<Outcome>, outcome: Outcome)
    ensures InOrder(co, delivered + [outcome]) == InOrder(co, delivered) + [Executed(Task(co, |delivered|), outcome)]
  {
  }

  /** The log grows by the call that the coroutine's next outcome belongs to. */
  lemma LogGrows(log: seq<Executed>, coroutines: map<int, Coroutine>, co: int, w: nat, outcome: Outcome)
    requires LogOk(log, coroutines) && co in coroutines
    ensures LogOk(log + [Executed(Task(co, |coroutines[co].delivered|), outcome)], Resume(coroutines, co, w, outcome))
  {
    hide Of;
    hide InOrder;
    var x := Executed(Task(co, |coroutines[co].delivered|), outcome);
    var after := Resume(coroutines, co, w, outcome);
    InOrderSnoc(co, coroutines[co].delivered, outcome);
    forall k | k in after ensures Of(log + [x], k) == InOrder(k, after[k].delivered) {
      OfSnoc(log, x, k);
    }
    forall k | k !in after ensures Of(log + [x], k) == [] {
      OfSnoc(log, x, k);
    }
  }

  lemma LogOfExecution(s: System, w: nat, outcome: Outcome)
    requires Consistent(s) && ActEnabled(s, Execute(w, outcome))
    ensures var s' := Perform(s, Execute(w, outcome));
      LogOk(s'.log, s'.coroutines) && forall co :: co in s'.coroutines ==> CoroutineOk(s'.coroutines[co])
  {
    ResumesTheAwaiter(s, w);
    LogGrows(s.log, s.coroutines, TaskOf(s, w).coroutine, w, outcome);
    hide LogOk;
    hide Conserved;
    hide PostedOk;
    hide ExecutedOk;
    hide ResumedOk;
  }

  /** An act that executes nothing leaves what has been delivered alone. */
  lemma LogOfOthers(s: System, a: Act)
    requires LogOk(s.log, s.coroutines) && ActEnabled(s, a) && !a.Execute?
    requires forall co :: co in s.coroutines ==> CoroutineOk(s.coroutines[co])
    ensures var s' := Perform(s, a);
      LogOk(s'.log, s'.coroutines) && forall co :: co in s'.coroutines ==> CoroutineOk(s'.coroutines[co])
  {
    hide PoolStep;
    hide Of;
    var s' := Perform(s, a);
    assert s'.log == s.log;
    assert InOrder(0, []) == [];
    assert forall co :: co in s.coroutines ==> co in s'.coroutines && s'.coroutines[co].delivered == s.coroutines[co].delivered;
  }

  lemma LogStep(s: System, a: Act)
    requires Consistent(s) && ActEnabled(s, a)
    ensures LogOk(Perform(s, a).log, Perform(s, a).coroutines)
    ensures forall co :: co in Perform(s, a).coroutines ==> CoroutineOk(Perform(s, a).coroutines[co])
  {
    if a.Execute? {
      LogOfExecution(s, a.w, a.outcome);
    } else {
      LogOfOthers(s, a);
    }
  }

  lemma PoolOfAct(s: System, a: Act)
    requires Conserved(s.pool) && ActEnabled(s, a)
    ensures Conserved(Perform(s, a).pool) && |Perform(s, a).pool.workers| == |s.pool.workers|
  {
    match a
    case Launch(co) => ConservedStep(s.pool, Push(Task(co, 0), None));
    case AwaitNext(w) =>
      ConservedStep(s.pool, Push(Task(TaskOf(s, w).coroutine, s.coroutines[TaskOf(s, w).coroutine].calls), Some(w)));
    case Return(co) => ConservedStep(s.pool, Push(Task(co, s.coroutines[co].calls), None));
    case Unwind(w) => ConservedStep(s.pool, Finish(w));
    case PoolAct(l) => ConservedStep(s.pool, l);
    case _ =>
  }

  /** Only a return takes a worker off its task. */
  lemma StillRunning(s: System, a: Act, w: nat)
    requires ActEnabled(s, a) && IsRunning(s, w)
    ensures a != Unwind(w) ==> IsRunning(Perform(s, a), w) && TaskOf(Perform(s, a), w) == TaskOf(s, w)
    ensures a == Unwind(w) ==> !IsRunning(Perform(s, a), w)
  {
  }

  /** Acts other than an execution and a return leave executions and workers past them alone. */
  lemma ExecutedElsewhere(s: System, a: Act)
    requires ExecutedOk(s) && ActEnabled(s, a) && !a.Execute? && !a.Unwind?
    ensures ExecutedOk(Perform(s, a))
  {
    var s' := Perform(s, a);
    assert s'.log == s.log && s'.pool.finished == s.pool.finished && s'.started == s.started;
    forall w | w in s.started ensures IsRunning(s', w) && TaskOf(s', w) == TaskOf(s, w) {
      StillRunning(s, a, w);
    }
    forall t: Task ensures OnStarted(s', t) <==> OnStarted(s, t) {
      if OnStarted(s, t) {
        var w :| w in s.started && IsRunning(s, w) && TaskOf(s, w) == t;
        assert w in s'.started && IsRunning(s', w) && TaskOf(s', w) == t;
      }
      if OnStarted(s', t) {
        var w :| w in s'.started && IsRunning(s', w) && TaskOf(s', w) == t;
        assert w in s.started && IsRunning(s, w) && TaskOf(s, w) == t;
      }
    }
  }

  lemma ExecutedNow(s: System, w: nat, outcome: Outcome)
    requires ExecutedOk(s) && ActEnabled(s, Execute(w, outcome))
    ensures ExecutedOk(Perform(s, Execute(w, outcome)))
  {
    var s' := Perform(s, Execute(w, outcome));
    assert forall v: nat :: IsRunning(s', v) <==> IsRunning(s, v);
    forall t: Task ensures InLog(s'.log, t) <==> s'.pool.finished[t] > 0 || OnStarted(s', t) {
      assert InLog(s'.log, t) <==> InLog(s.log, t) || t == TaskOf(s, w) by {
        if InLog(s.log, t) {
          var k :| 0 <= k < |s.log| && s.log[k].task == t;
          assert s'.log[k].task == t;
        }
        assert s'.log[|s.log|].task == TaskOf(s, w);
      }
      if OnStarted(s, t) {
        var v :| v in s.started && IsRunning(s, v) && TaskOf(s, v) == t;
        assert v in s'.started && IsRunning(s', v) && TaskOf(s', v) == t;
      }
      if OnStarted(s', t) {
        var v :| v in s'.started && IsRunning(s', v) && TaskOf(s', v) == t;
        assert v == w || (v in s.started && IsRunning(s, v) && TaskOf(s, v) == t);
      }
      assert w in s'.started && IsRunning(s', w);
    }
  }

  lemma ExecutedReturns(s: System, w: nat)
    requires ExecutedOk(s) && ActEnabled(s, Unwind(w))
    ensures ExecutedOk(Perform(s, Unwind(w)))
  {
    var s' := Perform(s, Unwind(w));
    forall t: Task ensures InLog(s'.log, t) <==> s'.pool.finished[t] > 0 || OnStarted(s', t) {
      if OnStarted(s, t) {
        var v :| v in s.started && IsRunning(s, v) && TaskOf(s, v) == t;
        assert v == w || (v in s'.started && IsRunning(s', v) && TaskOf(s', v) == t);
      }
      if OnStarted(s', t) {
        var v :| v in s'.started && IsRunning(s', v) && TaskOf(s', v) == t;
        assert v in s.started && IsRunning(s, v) && TaskOf(s, v) == t;
      }
      if t == TaskOf(s, w) {
        assert w in s.started && IsRunning(s, w) && TaskOf(s, w) == t;
      }
    }
  }

  lemma ExecutedStep(s: System, a: Act)
    requires ExecutedOk(s) && ActEnabled(s, a)
    ensures ExecutedOk(Perform(s, a))
  {
    match a
    case Execute(w, outcome) => ExecutedNow(s, w, outcome);
    case Unwind(w) => ExecutedReturns(s, w);
    case _ => ExecutedElsewhere(s, a);
  }

  lemma ResumedStep(s: System, a: Act)
    requires Consistent(s) && ActEnabled(s, a)
    ensures ResumedOk(Perform(s, a))
  {
    var s' := Perform(s, a);
    if a.Execute? {
      ResumesTheAwaiter(s, a.w);
    }
    forall co | co in s'.coroutines && s'.coroutines[co].phase.Resumed?
      ensures var w := s'.coroutines[co].phase.worker;
        && w in s'.started && IsRunning(s', w)
        && TaskOf(s', w).coroutine == co && TaskOf(s', w).call == s'.coroutines[co].calls - 1
    {
      var w := s'.coroutines[co].phase.worker;
      if !(a.Execute? && w == a.w) {
        assert co in s.coroutines && s.coroutines[co] == s'.coroutines[co];
        StillRunning(s, a, w);
      }
    }
  }

  lemma ConsistentStep(s: System, a: Act)
    requires Consistent(s) && ActEnabled(s, a)
    ensures Consistent(Perform(s, a)) && |Perform(s, a).pool.workers| == |s.pool.workers|
  {
    PoolOfAct(s, a);
    PostedStep(s, a);
    ExecutedStep(s, a);
    ResumedStep(s, a);
    LogStep(s, a);
  }

  lemma {:induction false} ConsistentRun(s: System, acts: seq<Act>, t: System)
    requires Consistent(s) && SystemRun(s, acts, t)
    ensures Consistent(t)
    decreases |acts|
  {
    if acts != [] {
      ConsistentStep(s, acts[0]);
      ConsistentRun(Perform(s, acts[0]), acts[1..], t);
    }
  }

  // ---------------------------------------------------------------- what awaiting guarantees

  /**
   Whatever the number of workers and the interleaving, the calls of a coroutine are executed in
   program order, each once, and each await delivers the outcome of its own call.
   */
  lemma CallsInProgramOrder(numThreads: nat, acts: seq<Act>, s: System, co: int)
    requires SystemRun(Fresh(numThreads), acts, s)
    ensures co in s.coroutines ==>
      Of(s.log, co) == InOrder(co, s.coroutines[co].delivered) && CoroutineOk(s.coroutines[co])
    ensures co !in s.coroutines ==> Of(s.log, co) == []
  {
    StartedIsGood(numThreads);
    ConsistentRun(Fresh(numThreads), acts, s);
  }

  /** What the workers ran for a coroutine: the task each was on, and how its call came out. */
  ghost function Performed(s: System, acts: seq<Act>, t: System, co: int): seq<Executed>
    requires SystemRun(s, acts, t)
    decreases |acts|
  {
    if acts == [] then []
    else
      var a := acts[0];
      (if a.Execute? && TaskOf(s, a.w).coroutine == co then [Executed(TaskOf(s, a.w), a.outcome)] else [])
      + Performed(Perform(s, a), acts[1..], t, co)
  }

  lemma LoggedStep(s: System, a: Act, co: int)
    requires ActEnabled(s, a)
    ensures Of(Perform(s, a).log, co)
      == Of(s.log, co)
         + if a.Execute? && TaskOf(s, a.w).coroutine == co then [Executed(TaskOf(s, a.w), a.outcome)] else []
  {
    if a.Execute? {
      OfSnoc(s.log, Executed(TaskOf(s, a.w), a.outcome), co);
    }
    hide Of;
    hide PoolStep;
  }

  lemma {:induction false} PerformedIsLogged(s: System, acts: seq<Act>, t: System, co: int)
    requires SystemRun(s, acts, t)
    ensures Of(t.log, co) == Of(s.log, co) + Performed(s, acts, t, co)
    decreases |acts|
  {
    if acts != [] {
      LoggedStep(s, acts[0], co);
      PerformedIsLogged(Perform(s, acts[0]), acts[1..], t, co);
    }
  }

  /**
   In every run, what a coroutine's awaits have given it is exactly how its calls came out, value or
   exception, in the order of the calls.
   */
  lemma AwaitsDeliver(numThreads: nat, acts: seq<Act>, s: System, co: int)
    requires SystemRun(Fresh(numThreads), acts, s) && co in s.coroutines
    ensures var ran := Performed(Fresh(numThreads), acts, s, co);
      var delivered := s.coroutines[co].delivered;
      && |delivered| == |ran|
      && forall k :: 0 <= k < |ran| ==> ran[k].task == Task(co, k) && ran[k].outcome == delivered[k]
  {
    CallsInProgramOrder(numThreads, acts, s, co);
    PerformedIsLogged(Fresh(numThreads), acts, s, co);
    assert Of([], co) == [];
    assert Performed(Fresh(numThreads), acts, s, co) == InOrder(co, s.coroutines[co].delivered);
  }

  /** In every reachable state, whoever is about to be resumed waits for exactly that call. */
  lemma ResumedOnlyWhenWaiting(numThreads: nat, acts: seq<Act>, s: System, w: nat)
    requires SystemRun(Fresh(numThreads), acts, s) && IsRunning(s, w) && w !in s.started
    ensures var t := TaskOf(s, w);
      && t.coroutine in s.coroutines
      && s.coroutines[t.coroutine].phase == Suspended && t.call == |s.coroutines[t.coroutine].delivered|
  {
    StartedIsGood(numThreads);
    ConsistentRun(Fresh(numThreads), acts, s);
    ResumesTheAwaiter(s, w);
  }

  /** A suspended coroutine's last call is queued, or on exactly one worker that has not yet run it. */
  lemma OutstandingOnce(s: System, co: int)
    requires Consistent(s) && co in s.coroutines && s.coroutines[co].phase.Suspended?
    ensures var t := Task(co, |s.coroutines[co].delivered|);
      && multiset(s.pool.tasks)[t] + Sum(s.pool.workers, Runs(t)) == 1
      && !OnStarted(s, t)
  {
    var t := Task(co, |s.coroutines[co].delivered|);
    assert CoroutineOk(s.coroutines[co]);
    InLogOf(s.log, t);
    assert !InLog(s.log, t);
    assert t in s.pool.posted;
    assert multiset(s.pool.posted) == multiset(s.pool.taken) + multiset(s.pool.tasks);
    assert multiset(s.pool.posted)[t] == 1;
  }

  lemma SuspendedOnce(numThreads: nat, acts: seq<Act>, s: System, co: int)
    requires SystemRun(Fresh(numThreads), acts, s) && co in s.coroutines && s.coroutines[co].phase.Suspended?
    ensures var t := Task(co, |s.coroutines[co].delivered|);
      && multiset(s.pool.tasks)[t] + Sum(s.pool.workers, Runs(t)) == 1
      && !OnStarted(s, t)
    ensures forall t: Task :: t.coroutine == co && t.call > |s.coroutines[co].delivered| ==> t !in s.pool.posted
  {
    StartedIsGood(numThreads);
    ConsistentRun(Fresh(numThreads), acts, s);
    OutstandingOnce(s, co);
  }

  /** The coroutine that an act is about, if it is about one. */
  function ActedOn(s: System, a: Act): Option<int>
    requires ActEnabled(s, a)
  {
    match a
    case Launch(co) => Some(co)
    case LaunchAway(co) => Some(co)
    case Execute(w, _) => Some(TaskOf(s, w).coroutine)
    case AwaitNext(w) => Some(TaskOf(s, w).coroutine)
    case Leave(w) => Some(TaskOf(s, w).coroutine)
    case End(w) => Some(TaskOf(s, w).coroutine)
    case Return(co) => Some(co)
    case EndAway(co) => Some(co)
    case _ => None
  }

  lemma EndedStep(s: System, a: Act, co: int)
    requires Consistent(s) && co in s.coroutines && s.coroutines[co].phase == Ended && ActEnabled(s, a)
    ensures ActedOn(s, a) != Some(co) && co in Perform(s, a).coroutines && Perform(s, a).coroutines[co] == s.coroutines[co]
  {
    if a.Execute? {
      ResumesTheAwaiter(s, a.w);
    }
  }

  /** No act is ever about a coroutine again that has ended. */
  lemma {:induction false} EndedForever(s: System, acts: seq<Act>, t: System, co: int)
    requires Consistent(s) && co in s.coroutines && s.coroutines[co].phase == Ended && SystemRun(s, acts, t)
    ensures co in t.coroutines && t.coroutines[co] == s.coroutines[co] && Performed(s, acts, t, co) == []
    decreases |acts|
  {
    hide Consistent;
    if acts != [] {
      EndedStep(s, acts[0], co);
      ConsistentStep(s, acts[0]);
      EndedForever(Perform(s, acts[0]), acts[1..], t, co);
    }
  }

  /** A coroutine that reaches its end, on a worker or after the database, has ended for good. */
  lemma EndIsFinal(s: System, a: Act, acts: seq<Act>, t: System, co: int)
    requires Consistent(s) && ActEnabled(s, a) && (a.End? || a.EndAway?) && ActedOn(s, a) == Some(co)
    requires SystemRun(Perform(s, a), acts, t)
    ensures co in s.coroutines && co in t.coroutines
    ensures t.coroutines[co] == s.coroutines[co].(phase := Ended)
  {
    ConsistentStep(s, a);
    EndedForever(Perform(s, a), acts, t, co);
  }

  // ---------------------------------------------------------------- shutdown

  /** The pool's own label of an act; some acts do not touch the pool. */
  ghost function PoolLabelOf(s: System, a: Act): Option<PoolLabel>
    requires ActEnabled(s, a)
  {
    match a
    case Launch(co) => Some(Push(Task(co, 0), None))
    case AwaitNext(w) =>
      Some(Push(Task(TaskOf(s, w).coroutine, s.coroutines[TaskOf(s, w).coroutine].calls), Some(w)))
    case Return(co) => Some(Push(Task(co, s.coroutines[co].calls), None))
    case Unwind(w) => Some(Finish(w))
    case PoolAct(l) => Some(l)
    case _ => None
  }

  lemma PoolOfPerform(s: System, a: Act)
    requires ActEnabled(s, a)
    ensures var l := PoolLabelOf(s, a);
      if l.Some? then PoolEnabled(s.pool, l.value) && Perform(s, a).pool == PoolStep(s.pool, l.value)
      else Perform(s, a).pool == s.pool
  {
  }

  /** What a run does to the pool. */
  ghost function PoolLabels(s: System, acts: seq<Act>, t: System): seq<PoolLabel>
    requires SystemRun(s, acts, t)
    decreases |acts|
  {
    if acts == [] then []
    else
      var rest := PoolLabels(Perform(s, acts[0]), acts[1..], t);
      match PoolLabelOf(s, acts[0])
      case None => rest
      case Some(l) => [l] + rest
  }

  lemma {:induction false} PoolFollows(s: System, acts: seq<Act>, t: System)
    requires SystemRun(s, acts, t)
    ensures PoolRun(s.pool, PoolLabels(s, acts, t), t.pool)
    decreases |acts|
  {
    hide Perform;
    hide PoolStep;
    hide PoolEnabled;
    if acts != [] {
      PoolOfPerform(s, acts[0]);
      PoolFollows(Perform(s, acts[0]), acts[1..], t);
    }
  }

  /** The coroutine of a queued task is suspended on it. */
  lemma QueuedIsAwaited(s: System, t: Task)
    requires Consistent(s) && t in s.pool.tasks
    ensures t.coroutine in s.coroutines && s.coroutines[t.coroutine].phase.Suspended?
  {
    assert multiset(s.pool.posted) == multiset(s.pool.taken) + multiset(s.pool.tasks);
    assert multiset(s.pool.tasks)[t] > 0 && t in s.pool.posted;
    assert multiset(s.pool.posted)[t] <= 1;
    assert multiset(s.pool.taken)[t] == 0;
    forall w: nat | IsRunning(s, w) ensures TaskOf(s, w) != t {
      if TaskOf(s, w) == t {
        SumAtLeast(s.pool.workers, w, Runs(t));
      }
    }
    assert !OnStarted(s, t) && !InLog(s.log, t);
    var co := s.coroutines[t.coroutine];
    assert CoroutineOk(co);
    if t.call < |co.delivered| {
      DeliveredInLog(s, t.coroutine, t.call);
    }
  }

  /** A coroutine is left waiting for a call that no worker is there to run. */
  ghost predicate Stranded(s: System, co: int) {
    AllExited(s.pool) && co in s.coroutines && s.coroutines[co].phase == Suspended
  }

  /**
   When all workers have left, no coroutine waits for a call if and only if every post of the run, from
   the pool or from a database thread, found a worker still there.
   */
  lemma NoneStrandedExactly(numThreads: nat, acts: seq<Act>, s: System)
    requires SystemRun(Fresh(numThreads), acts, s) && AllExited(s.pool)
    ensures (forall co :: !Stranded(s, co))
      <==> PostsFindWorkers(Started(numThreads), PoolLabels(Fresh(numThreads), acts, s))
  {
    StartedIsGood(numThreads);
    ConsistentRun(Fresh(numThreads), acts, s);
    PoolFollows(Fresh(numThreads), acts, s);
    DrainsExactly(Started(numThreads), PoolLabels(Fresh(numThreads), acts, s), s.pool);
    if s.pool.tasks != [] {
      QueuedIsAwaited(s, s.pool.tasks[0]);
      assert Stranded(s, s.pool.tasks[0].coroutine);
    }
    forall co | Stranded(s, co) ensures s.pool.tasks != [] {
      OutstandingOnce(s, co);
      SumZero(s.pool.workers, Runs(Task(co, |s.coroutines[co].delivered|)));
    }
  }

  /** And such a coroutine never gets any further. */
  lemma {:induction false} StrandedForever(s: System, acts: seq<Act>, t: System, co: int)
    requires Stranded(s, co) && SystemRun(s, acts, t)
    ensures Stranded(t, co) && t.coroutines[co] == s.coroutines[co]
    decreases |acts|
  {
    if acts != [] {
      assert Stranded(Perform(s, acts[0]), co) && Perform(s, acts[0]).coroutines[co] == s.coroutines[co];
      StrandedForever(Perform(s, acts[0]), acts[1..], t, co);
    }
  }

  const LATE_RETURN: seq<Act> :=
    [LaunchAway(7), PoolAct(Stop), PoolAct(NotifyAll), PoolAct(Check(0)), Return(7)]

  lemma RunFrom(s: System, acts: seq<Act>, k: nat, t: System)
    requires k < |acts| && ActEnabled(s, acts[k]) && SystemRun(Perform(s, acts[k]), acts[k + 1..], t)
    ensures SystemRun(s, acts[k..], t)
  {
    assert acts[k..][0] == acts[k] && acts[k..][1..] == acts[k + 1..];
  }

  /** Where that run leads before its last act. */
  function LateSystem(stopped: bool, broadcast: bool, worker: Worker): System {
    System(Pool([], stopped, broadcast, 0, [worker], [], [], multiset{}), {}, map[7 := Coroutine(Away, 0, [])], [])
  }

  lemma LateStep(stopped: bool, broadcast: bool, worker: Worker, a: Act, after: System)
    requires a == PoolAct(Stop) || a == PoolAct(NotifyAll) || a == PoolAct(Check(0))
    requires ActEnabled(LateSystem(stopped, broadcast, worker), a)
    requires after == match a
      case PoolAct(Stop) => LateSystem(true, broadcast, worker)
      case PoolAct(NotifyAll) => LateSystem(stopped, true, if worker == Asleep then Idle else worker)
      case _ => LateSystem(stopped, broadcast, if stopped then Exited else Asleep)
    ensures Perform(LateSystem(stopped, broadcast, worker), a) == after
  {
    assert Perform(LateSystem(stopped, broadcast, worker), a).pool.workers == after.pool.workers;
  }

  lemma LateBegins()
    ensures Perform(Fresh(1), LaunchAway(7)) == LateSystem(false, false, Idle)
  {
    assert Fresh(1).pool.workers == [Idle];
  }

  lemma LateEnds() returns (s: System)
    ensures SystemRun(LateSystem(true, true, Exited), LATE_RETURN[4..], s) && Stranded(s, 7)
  {
    var last := LateSystem(true, true, Exited);
    s := Perform(last, Return(7));
    assert SystemRun(s, LATE_RETURN[5..], s);
    RunFrom(last, LATE_RETURN, 4, s);
  }

  /**
   It does happen: one worker leaves the stopped pool while a coroutine launched before the stop still
   waits for the database, and then posts.
   */
  lemma LateReturnStrands() returns (s: System)
    ensures SystemRun(Fresh(1), LATE_RETURN, s) && Stranded(s, 7)
  {
    hide SystemRun;
    hide Perform;
    hide Stranded;
    s := LateEnds();
    LateBegins();
    LateStep(true, true, Idle, PoolAct(Check(0)), LateSystem(true, true, Exited));
    LateStep(true, false, Idle, PoolAct(NotifyAll), LateSystem(true, true, Idle));
    LateStep(false, false, Idle, PoolAct(Stop), LateSystem(true, false, Idle));
    RunFrom(LateSystem(true, true, Idle), LATE_RETURN, 3, s);
    RunFrom(LateSystem(true, false, Idle), LATE_RETURN, 2, s);
    RunFrom(LateSystem(false, false, Idle), LATE_RETURN, 1, s);
    RunFrom(Fresh(1), LATE_RETURN, 0, s);
    assert LATE_RETURN[0..] == LATE_RETURN;
  }

  /** After the stop only coroutines on a worker post: none is launched, none comes back from the database. */
  ghost predicate InsideAfterStop(s: System, acts: seq<Act>, t: System)
    decreases |acts|
  {
    SystemRun(s, acts, t) &&
    (acts == [] ||
     ((acts[0].Launch? || acts[0].Return? ==> !s.pool.stopped) && InsideAfterStop(Perform(s, acts[0]), acts[1..], t)))
  }

  lemma {:induction false} InsidePosts(s: System, acts: seq<Act>, t: System)
    requires InsideAfterStop(s, acts, t)
    ensures PostsFromInside(s.pool, PoolLabels(s, acts, t))
    decreases |acts|
  {
    hide PoolStep;
    hide PoolEnabled;
    if acts != [] {
      PoolOfPerform(s, acts[0]);
      InsidePosts(Perform(s, acts[0]), acts[1..], t);
    }
  }

  /** If only running coroutines post after the stop, all that are not away in the database have ended. */
  lemma NoCoroutineAbandoned(numThreads: nat, acts: seq<Act>, s: System, co: int)
    requires numThreads > 0 && InsideAfterStop(Fresh(numThreads), acts, s) && AllExited(s.pool)
    requires co in s.coroutines
    ensures s.coroutines[co].phase.Ended? || s.coroutines[co].phase.Away?
  {
    InsidePosts(Fresh(numThreads), acts, s);
    InsidePostsFindWorkers(Started(numThreads), PoolLabels(Fresh(numThreads), acts, s));
    NoneStrandedExactly(numThreads, acts, s);
    StartedIsGood(numThreads);
    ConsistentRun(Fresh(numThreads), acts, s);
    assert !Stranded(s, co);
  }

  // ---------------------------------------------------------------- the awaiter object

  /** The awaiter in a coroutine's frame: filled in by the worker, read when the coroutine resumes. */
  class PoolAwaiter {
    var result: Option<int>
    var exception: Option<int>

    constructor ()
      ensures result == None && exception == None
    {
      result, exception := None, None;
    }

    /** The posted lambda around the call. */
    method Complete(outcome: Outcome)
      requires result == None && exception == None
      modifies this
      ensures Delivers(outcome)
    {
      match outcome
      case Value(v) => result := Some(v);
      case Exception(e) => exception := Some(e);
    }

    ghost predicate Delivers(outcome: Outcome)
      reads this
    {
      match outcome
      case Value(v) => result == Some(v) && exception == None
      case Exception(e) => exception == Some(e) && result == None
    }

    /** `await_resume`: rethrows the exception if there is one, otherwise moves the value out. */
    method AwaitResume(ghost outcome: Outcome) returns (r: Outcome)
      requires Delivers(outcome)
      ensures r == outcome
    {
      if exception.Some? {
        r := Exception(exception.value);
      } else {
        r := Value(result.value);
      }
    }
  }

  /** One call on the pool, through the awaiter: what the coroutine goes on with is what the run delivers. */
  method Await(ghost s: System, ghost w: nat, outcome: Outcome) returns (r: Outcome)
    requires Consistent(s) && IsRunning(s, w) && w !in s.started
    ensures r == outcome
    ensures var co := TaskOf(s, w).coroutine;
      co in s.coroutines
      && Perform(s, Execute(w, outcome)).coroutines[co].delivered == s.coroutines[co].delivered + [r]
  {
    ResumesTheAwaiter(s, w);
    var awaiter := new PoolAwaiter();
    awaiter.Complete(outcome);
    r := awaiter.AwaitResume(outcome);
  }
}
