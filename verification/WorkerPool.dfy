/**
 The bot's worker pool: a FIFO queue under a mutex, a condition variable, and a fixed number of
 workers. One step is one critical section, one notification or one wake-up; wake-ups may be
 spurious, and a poster can be interrupted between its push and its `notify_one`.
 */
module WorkerPool {
  import opened Common

  /** A posted callable: the `call`th awaited call of a coroutine. */
  datatype Task = Task(coroutine: int, call: nat)

  datatype Worker =
    | Idle
    | Asleep
    | Running(task: Task)
    | Exited

  /** `pending` counts the `notify_one` calls still to be made; the last three fields are history. */
  datatype Pool = Pool(
    tasks: seq<Task>,
    stopped: bool,
    broadcast: bool,
    pending: nat,
    workers: seq<Worker>,
    posted: seq<Task>,
    taken: seq<Task>,
    finished: multiset<Task>)

  datatype PoolLabel =
    | Push(task: Task, poster: Option<nat>)
    | NotifyOne(woken: Option<nat>)
    | Wake(w: nat)
    | Check(w: nat)
    | Finish(w: nat)
    | Stop
    | NotifyAll

  predicate HasWorker(p: Pool, w: nat) {
    w < |p.workers|
  }

  predicate SomeAsleep(p: Pool) {
    Asleep in p.workers
  }

  ghost predicate PoolEnabled(p: Pool, l: PoolLabel) {
    match l
    case Push(_, None) => true
    case Push(_, Some(w)) => HasWorker(p, w) && p.workers[w].Running?
    case NotifyOne(None) => p.pending > 0 && !SomeAsleep(p)
    case NotifyOne(Some(w)) => p.pending > 0 && HasWorker(p, w) && p.workers[w] == Asleep
    case Wake(w) => HasWorker(p, w) && p.workers[w] == Asleep
    case Check(w) => HasWorker(p, w) && p.workers[w] == Idle
    case Finish(w) => HasWorker(p, w) && p.workers[w].Running?
    case Stop => !p.stopped
    case NotifyAll => p.stopped && !p.broadcast
  }

  function WakeAll(workers: seq<Worker>): (r: seq<Worker>)
    ensures |r| == |workers|
    ensures forall k :: 0 <= k < |r| ==> r[k] == if workers[k] == Asleep then Idle else workers[k]
  {
    seq(|workers|, k requires 0 <= k < |workers| => if workers[k] == Asleep then Idle else workers[k])
  }

  ghost function PoolStep(p: Pool, l: PoolLabel): Pool
    requires PoolEnabled(p, l)
  {
    match l
    case Push(task, _) => p.(tasks := p.tasks + [task], posted := p.posted + [task], pending := p.pending + 1)
    case NotifyOne(None) => p.(pending := p.pending - 1)
    case NotifyOne(Some(w)) => p.(pending := p.pending - 1, workers := p.workers[w := Idle])
    case Wake(w) => p.(workers := p.workers[w := Idle])
    case Check(w) =>
      if p.tasks == [] then p.(workers := p.workers[w := if p.stopped then Exited else Asleep])
      else p.(workers := p.workers[w := Running(p.tasks[0])], tasks := p.tasks[1..], taken := p.taken + [p.tasks[0]])
    case Finish(w) => p.(workers := p.workers[w := Idle], finished := p.finished + multiset{p.workers[w].task})
    case Stop => p.(stopped := true)
    case NotifyAll => p.(broadcast := true, workers := WakeAll(p.workers))
  }

  function Started(numThreads: nat): Pool {
    Pool([], false, false, 0, seq(numThreads, _ => Idle), [], [], multiset{})
  }

  /** A run: the labels are enabled one after the other and lead from `p` to `q`. */
  ghost predicate PoolRun(p: Pool, ls: seq<PoolLabel>, q: Pool)
    decreases |ls|
  {
    if ls == [] then p == q
    else PoolEnabled(p, ls[0]) && PoolRun(PoolStep(p, ls[0]), ls[1..], q)
  }

  // ---------------------------------------------------------------- sums over workers

  function Sum(workers: seq<Worker>, weight: Worker -> nat): nat {
    if workers == [] then 0 else Sum(workers[..|workers| - 1], weight) + weight(workers[|workers| - 1])
  }

  lemma {:induction false} SumUpdate(workers: seq<Worker>, k: nat, w: Worker, weight: Worker -> nat)
    requires k < |workers|
    ensures Sum(workers[k := w], weight) + weight(workers[k]) == Sum(workers, weight) + weight(w)
  {
    var n := |workers| - 1;
    if k == n {
      assert workers[k := w][..n] == workers[..n];
    } else {
      assert workers[k := w][..n] == workers[..n][k := w];
      SumUpdate(workers[..n], k, w, weight);
    }
  }

  lemma {:induction false} SumAtLeast(workers: seq<Worker>, k: nat, weight: Worker -> nat)
    requires k < |workers|
    ensures weight(workers[k]) <= Sum(workers, weight)
  {
    if k < |workers| - 1 {
      SumAtLeast(workers[..|workers| - 1], k, weight);
    }
  }

  lemma {:induction false} SumZero(workers: seq<Worker>, weight: Worker -> nat)
    requires forall k :: 0 <= k < |workers| ==> weight(workers[k]) == 0
    ensures Sum(workers, weight) == 0
  {
    if workers != [] {
      SumZero(workers[..|workers| - 1], weight);
    }
  }

  function CountsIdle(w: Worker): nat {
    if w == Idle then 1 else 0
  }

  function IdleCount(workers: seq<Worker>): nat {
    Sum(workers, CountsIdle)
  }

  function Runs(t: Task): Worker -> nat {
    w => if w == Running(t) then 1 else 0
  }

  // ---------------------------------------------------------------- order and conservation

  /** Nothing is lost, reordered or run twice. */
  ghost predicate Conserved(p: Pool) {
    && p.posted == p.taken + p.tasks
    && forall t :: multiset(p.taken)[t] == p.finished[t] + Sum(p.workers, Runs(t))
  }

  lemma TakenAccounted(p: Pool, w: nat, t: Task)
    requires PoolEnabled(p, Check(w)) && multiset(p.taken)[t] == p.finished[t] + Sum(p.workers, Runs(t))
    ensures var q := PoolStep(p, Check(w)); multiset(q.taken)[t] == q.finished[t] + Sum(q.workers, Runs(t))
  {
    var q := PoolStep(p, Check(w));
    SumUpdate(p.workers, w, q.workers[w], Runs(t));
    hide Sum;
    if p.tasks != [] {
      assert multiset(q.taken) == multiset(p.taken) + multiset{p.tasks[0]};
    }
  }

  lemma FinishAccounted(p: Pool, w: nat, t: Task)
    requires PoolEnabled(p, Finish(w)) && multiset(p.taken)[t] == p.finished[t] + Sum(p.workers, Runs(t))
    ensures var q := PoolStep(p, Finish(w)); multiset(q.taken)[t] == q.finished[t] + Sum(q.workers, Runs(t))
  {
    SumUpdate(p.workers, w, Idle, Runs(t));
    hide Sum;
  }

  /** The accounting of one task, over a step that changes one worker. */
  lemma TaskAccounted(p: Pool, l: PoolLabel, t: Task)
    requires PoolEnabled(p, l) && multiset(p.taken)[t] == p.finished[t] + Sum(p.workers, Runs(t))
    ensures var q := PoolStep(p, l); multiset(q.taken)[t] == q.finished[t] + Sum(q.workers, Runs(t))
  {
    hide Sum;
    match l
    case NotifyOne(Some(w)) => SumUpdate(p.workers, w, Idle, Runs(t));
    case Wake(w) => SumUpdate(p.workers, w, Idle, Runs(t));
    case Check(w) => TakenAccounted(p, w, t);
    case Finish(w) => FinishAccounted(p, w, t);
    case NotifyAll => SumWakeAll(p.workers, t);
    case _ =>
  }

  lemma OrderStep(p: Pool, l: PoolLabel)
    requires p.posted == p.taken + p.tasks && PoolEnabled(p, l)
    ensures PoolStep(p, l).posted == PoolStep(p, l).taken + PoolStep(p, l).tasks
    ensures |PoolStep(p, l).workers| == |p.workers|
  {
  }

  lemma ConservedStep(p: Pool, l: PoolLabel)
    requires Conserved(p) && PoolEnabled(p, l)
    ensures Conserved(PoolStep(p, l)) && |PoolStep(p, l).workers| == |p.workers|
  {
    var q := PoolStep(p, l);
    forall t ensures multiset(q.taken)[t] == q.finished[t] + Sum(q.workers, Runs(t)) {
      TaskAccounted(p, l, t);
    }
    OrderStep(p, l);
  }

  lemma {:induction false} SumWakeAll(workers: seq<Worker>, t: Task)
    ensures Sum(WakeAll(workers), Runs(t)) == Sum(workers, Runs(t))
  {
    if workers != [] {
      var n := |workers| - 1;
      assert WakeAll(workers)[..n] == WakeAll(workers[..n]);
      SumWakeAll(workers[..n], t);
    }
  }

  // ---------------------------------------------------------------- no lost wake-up

  /** While a worker sleeps, every queued task has a notification or an awake idle worker coming. */
  ghost predicate NoShortage(p: Pool) {
    && (SomeAsleep(p) ==> |p.tasks| <= p.pending + IdleCount(p.workers))
    && (p.broadcast ==> p.stopped && !SomeAsleep(p))
  }

  lemma NoShortageStep(p: Pool, l: PoolLabel)
    requires NoShortage(p) && PoolEnabled(p, l)
    ensures NoShortage(PoolStep(p, l))
  {
    var q := PoolStep(p, l);
    match l
    case NotifyOne(Some(w)) =>
      SumUpdate(p.workers, w, Idle, CountsIdle);
      StillAsleep(p, w, Idle);
    case Wake(w) =>
      SumUpdate(p.workers, w, Idle, CountsIdle);
      StillAsleep(p, w, Idle);
    case Check(w) =>
      SumUpdate(p.workers, w, q.workers[w], CountsIdle);
      if q.workers[w] != Asleep {
        StillAsleep(p, w, q.workers[w]);
      }
    case Finish(w) =>
      SumUpdate(p.workers, w, Idle, CountsIdle);
      StillAsleep(p, w, Idle);
    case _ =>
  }

  lemma StillAsleep(p: Pool, w: nat, to: Worker)
    requires HasWorker(p, w) && to != Asleep
    ensures Asleep in p.workers[w := to] ==> SomeAsleep(p)
  {
    if Asleep in p.workers[w := to] {
      var k :| 0 <= k < |p.workers| && p.workers[w := to][k] == Asleep;
      assert p.workers[k] == Asleep;
    }
  }

  /** Every reachable state: FIFO order, conservation and wake-ups, for any number of workers. */
  lemma {:induction false} PoolInvariant(p: Pool, ls: seq<PoolLabel>, q: Pool)
    requires Conserved(p) && NoShortage(p) && PoolRun(p, ls, q)
    ensures Conserved(q) && NoShortage(q) && |q.workers| == |p.workers|
    decreases |ls|
  {
    if ls != [] {
      ConservedStep(p, ls[0]);
      NoShortageStep(p, ls[0]);
      PoolInvariant(PoolStep(p, ls[0]), ls[1..], q);
    }
  }

  lemma StartedIsGood(numThreads: nat)
    ensures Conserved(Started(numThreads)) && NoShortage(Started(numThreads))
  {
    forall t ensures Sum(Started(numThreads).workers, Runs(t)) == 0 {
      SumZero(Started(numThreads).workers, Runs(t));
    }
  }

  /** No worker leaves a pool that has not been stopped, not even one whose task has thrown. */
  lemma StoppedFirst(p: Pool, l: PoolLabel)
    requires PoolEnabled(p, l) && (Exited in p.workers ==> p.stopped)
    ensures Exited in PoolStep(p, l).workers ==> PoolStep(p, l).stopped
  {
  }

  lemma {:induction false} WorkersStay(p: Pool, ls: seq<PoolLabel>, q: Pool)
    requires PoolRun(p, ls, q) && (Exited in p.workers ==> p.stopped)
    ensures Exited in q.workers ==> q.stopped
    decreases |ls|
  {
    if ls != [] {
      StoppedFirst(p, ls[0]);
      WorkersStay(PoolStep(p, ls[0]), ls[1..], q);
    }
  }

  /**
   No lost wake-up: with a task queued, no notification on its way and no awake worker free,
   every worker of a pool that is not stopped is running a task.
   */
  lemma QueuedTaskIsSeen(numThreads: nat, ls: seq<PoolLabel>, p: Pool)
    requires PoolRun(Started(numThreads), ls, p)
    requires p.tasks != [] && p.pending == 0 && Idle !in p.workers
    ensures |p.workers| == numThreads
    ensures forall k :: 0 <= k < numThreads ==> p.workers[k].Running? || (p.stopped && p.workers[k].Exited?)
  {
    StartedIsGood(numThreads);
    PoolInvariant(Started(numThreads), ls, p);
    WorkersStay(Started(numThreads), ls, p);
    SumZero(p.workers, CountsIdle);
    forall k | 0 <= k < numThreads ensures p.workers[k].Running? || (p.stopped && p.workers[k].Exited?) {
      assert p.workers[k] in p.workers;
    }
  }

  /** A sleeper woken in any way, spuriously too, looks at the queue, and takes its oldest task if there is one. */
  lemma WokenTakesOldest(p: Pool, l: PoolLabel, w: nat)
    requires PoolEnabled(p, l) && HasWorker(p, w) && p.workers[w] == Asleep
    requires l == NotifyOne(Some(w)) || l == Wake(w) || l == NotifyAll
    ensures PoolEnabled(PoolStep(p, l), Check(w))
    ensures p.tasks != [] ==>
      var q := PoolStep(PoolStep(p, l), Check(w));
      q.workers[w] == Running(p.tasks[0]) && q.tasks == p.tasks[1..] && q.taken == p.taken + [p.tasks[0]]
  {
  }

  // ---------------------------------------------------------------- shutdown

  predicate AllExited(p: Pool) {
    forall k :: 0 <= k < |p.workers| ==> p.workers[k] == Exited
  }

  ghost predicate SomeLive(p: Pool) {
    exists k :: 0 <= k < |p.workers| && p.workers[k] != Exited
  }

  /** Every post of the run finds a worker that has not left yet. */
  ghost predicate PostsFindWorkers(p: Pool, ls: seq<PoolLabel>)
    decreases |ls|
  {
    ls == [] ||
    (PoolEnabled(p, ls[0]) && (ls[0].Push? ==> SomeLive(p)) && PostsFindWorkers(PoolStep(p, ls[0]), ls[1..]))
  }

  lemma LiveStep(p: Pool, l: PoolLabel)
    requires PoolEnabled(p, l) && (l.Push? ==> SomeLive(p)) && (p.tasks != [] ==> SomeLive(p))
    ensures PoolStep(p, l).tasks != [] ==> SomeLive(PoolStep(p, l))
  {
    var q := PoolStep(p, l);
    match l
    case NotifyOne(Some(w)) => assert q.workers[w] != Exited;
    case Wake(w) => assert q.workers[w] != Exited;
    case Check(w) => if p.tasks != [] { assert q.workers[w] != Exited; }
    case Finish(w) => assert q.workers[w] != Exited;
    case _ =>
      if q.tasks != [] {
        var k :| 0 <= k < |p.workers| && p.workers[k] != Exited;
        assert q.workers[k] != Exited;
      }
  }

  /** With every worker gone, a queued task stays queued for ever. */
  lemma {:induction false} DeadQueue(p: Pool, ls: seq<PoolLabel>, q: Pool)
    requires PoolRun(p, ls, q) && !SomeLive(p) && p.tasks != []
    ensures q.tasks != []
    decreases |ls|
  {
    if ls != [] {
      assert !SomeLive(PoolStep(p, ls[0]));
      DeadQueue(PoolStep(p, ls[0]), ls[1..], q);
    }
  }

  /** Once all workers have left, the queue is empty exactly if every post found a worker still there. */
  lemma {:induction false} DrainsExactly(p: Pool, ls: seq<PoolLabel>, q: Pool)
    requires PoolRun(p, ls, q) && AllExited(q) && (p.tasks != [] ==> SomeLive(p))
    ensures q.tasks == [] <==> PostsFindWorkers(p, ls)
    decreases |ls|
  {
    if ls != [] {
      var l := ls[0];
      if l.Push? && !SomeLive(p) {
        assert !SomeLive(PoolStep(p, l));
        DeadQueue(PoolStep(p, l), ls[1..], q);
      } else {
        LiveStep(p, l);
        DrainsExactly(PoolStep(p, l), ls[1..], q);
      }
    }
  }

  /**
   When the destructor's joins return, every task ever posted has run exactly once, if and only if
   no post came after the last worker had left.
   */
  lemma ShutdownDrains(numThreads: nat, ls: seq<PoolLabel>, p: Pool)
    requires PoolRun(Started(numThreads), ls, p) && AllExited(p)
    ensures p.finished == multiset(p.posted) <==> PostsFindWorkers(Started(numThreads), ls)
    ensures p.finished == multiset(p.taken)
  {
    StartedIsGood(numThreads);
    PoolInvariant(Started(numThreads), ls, p);
    DrainsExactly(Started(numThreads), ls, p);
    forall t ensures p.finished[t] == multiset(p.taken)[t] {
      SumZero(p.workers, Runs(t));
    }
    assert multiset(p.posted) == multiset(p.taken) + multiset(p.tasks);
    if p.tasks != [] {
      assert multiset(p.tasks)[p.tasks[0]] > 0;
      assert p.finished[p.tasks[0]] != multiset(p.posted)[p.tasks[0]];
    }
  }

  /** Before the stop anyone may post; afterwards only tasks running on the pool do. */
  ghost predicate PostsFromInside(p: Pool, ls: seq<PoolLabel>)
    decreases |ls|
  {
    ls == [] ||
    (PoolEnabled(p, ls[0]) && (ls[0].Push? && p.stopped ==> ls[0].poster.Some?)
     && PostsFromInside(PoolStep(p, ls[0]), ls[1..]))
  }

  /** Tasks that go on posting while the pool shuts down are safe: the condition holds for them. */
  lemma {:induction false} InsidePostsFindWorkers(p: Pool, ls: seq<PoolLabel>)
    requires PostsFromInside(p, ls) && p.workers != [] && (Exited in p.workers ==> p.stopped)
    ensures PostsFindWorkers(p, ls)
    decreases |ls|
  {
    if ls != [] {
      var l := ls[0];
      StoppedFirst(p, l);
      if l.Push? && l.poster.None? {
        assert p.workers[0] in p.workers;
      }
      InsidePostsFindWorkers(PoolStep(p, l), ls[1..]);
    }
  }

  /** The pool is stopped exactly from its destructor on, and woken up exactly from the broadcast on. */
  lemma {:induction false} StopIsLasting(p: Pool, ls: seq<PoolLabel>, q: Pool)
    requires PoolRun(p, ls, q)
    ensures q.stopped <==> p.stopped || Stop in ls
    ensures q.broadcast <==> p.broadcast || NotifyAll in ls
    decreases |ls|
  {
    if ls != [] {
      StopIsLasting(PoolStep(p, ls[0]), ls[1..], q);
      assert ls == [ls[0]] + ls[1..];
    }
  }

  // ---------------------------------------------------------------- termination

  function Left(w: Worker): nat {
    match w
    case Exited => 0
    case Idle => 1
    case _ => 2
  }

  /** How many more steps a pool takes to shut down if nothing more is posted. */
  function Measure(p: Pool): nat {
    2 * |p.tasks| + p.pending + Sum(p.workers, Left)
  }

  function Posts(ls: seq<PoolLabel>): nat {
    if ls == [] then 0 else (if ls[0].Push? then 1 else 0) + Posts(ls[1..])
  }

  /** After `notify_all` each step but a post brings the shutdown exactly one closer. */
  lemma MeasureStep(p: Pool, l: PoolLabel)
    requires p.stopped && p.broadcast && !SomeAsleep(p) && PoolEnabled(p, l)
    ensures PoolStep(p, l).stopped && PoolStep(p, l).broadcast && !SomeAsleep(PoolStep(p, l))
    ensures Measure(PoolStep(p, l)) == if l.Push? then Measure(p) + 3 else Measure(p) - 1
  {
    var q := PoolStep(p, l);
    match l
    case Check(w) =>
      SumUpdate(p.workers, w, q.workers[w], Left);
      StillAsleep(p, w, q.workers[w]);
    case Finish(w) =>
      SumUpdate(p.workers, w, Idle, Left);
      StillAsleep(p, w, Idle);
    case _ =>
  }

  /** So a run after `notify_all` is at most four steps a post longer than the measure it began with. */
  lemma {:induction false} ShutdownIsBounded(p: Pool, ls: seq<PoolLabel>, q: Pool)
    requires p.stopped && p.broadcast && !SomeAsleep(p) && PoolRun(p, ls, q)
    ensures |ls| + Measure(q) == Measure(p) + 4 * Posts(ls)
    decreases |ls|
  {
    if ls != [] {
      MeasureStep(p, ls[0]);
      ShutdownIsBounded(PoolStep(p, ls[0]), ls[1..], q);
    }
  }

  /** And it never gets stuck: until all workers have exited, one of them can take a step. */
  lemma ShutdownProgresses(p: Pool) returns (l: PoolLabel)
    requires !SomeAsleep(p) && !AllExited(p)
    ensures PoolEnabled(p, l) && (l.Check? || l.Finish?)
  {
    var w :| 0 <= w < |p.workers| && p.workers[w] != Exited;
    assert p.workers[w] in p.workers;
    l := if p.workers[w] == Idle then Check(w) else Finish(w);
  }

  // ---------------------------------------------------------------- the number of workers

  const DEFAULT_WORKERS: nat := 32
  const MAX_WORKERS: nat := 256
  const SIZE_T: nat := 0x1_0000_0000_0000_0000

  /** The decimal number at the front of `text`, after `acc`; stops at the first other character. */
  function LeadingNumber(text: string, acc: nat): nat {
    if text == "" || !IsDigit(text[0]) then acc
    else LeadingNumber(text[1..], 10 * acc + (text[0] as nat - '0' as nat))
  }

  /** `BOT_WORKER_THREADS`, as read with `from_chars` into a `size_t`. */
  function ResolveThreadCount(env: Option<string>): (n: nat)
    ensures 1 <= n <= MAX_WORKERS
  {
    match env
    case None => DEFAULT_WORKERS
    case Some(text) =>
      if text == "" || !IsDigit(text[0]) then DEFAULT_WORKERS
      else
        var value := LeadingNumber(text, 0);
        if value == 0 || value >= SIZE_T then DEFAULT_WORKERS
        else if value < MAX_WORKERS then value else MAX_WORKERS
  }

  lemma {:induction false} LeadingNumberSkips(a: string, rest: string, acc: nat)
    requires forall k :: 0 <= k < |a| ==> IsDigit(a[k])
    ensures LeadingNumber(a + rest, acc) == LeadingNumber(rest, LeadingNumber(a, acc))
  {
    if a == "" {
      assert a + rest == rest;
    } else {
      assert (a + rest)[1..] == a[1..] + rest;
      LeadingNumberSkips(a[1..], rest, 10 * acc + (a[0] as nat - '0' as nat));
    }
  }

  lemma {:induction false} DecimalReadsBack(n: nat)
    ensures LeadingNumber(Decimal(n), 0) == n
  {
    var last := ['0' + (n % 10) as char];
    assert last[1..] == "";
    if n >= 10 {
      DecimalReadsBack(n / 10);
      LeadingNumberSkips(Decimal(n / 10), last, 0);
    }
  }

  /** A written count is honoured up to the cap, whatever follows the digits; 0 and overflow mean the default. */
  lemma ThreadCountHonoured(n: nat, junk: string)
    requires junk == "" || !IsDigit(junk[0])
    ensures ResolveThreadCount(Some(Decimal(n) + junk))
      == if n == 0 || n >= 0x1_0000_0000_0000_0000 then 32 else if n < 256 then n else 256
  {
    LeadingNumberSkips(Decimal(n), junk, 0);
    DecimalReadsBack(n);
  }

  /** So does anything that does not begin with a digit, and nothing at all. */
  lemma ThreadCountDefaults(text: string)
    requires text == "" || !IsDigit(text[0])
    ensures ResolveThreadCount(Some(text)) == 32 && ResolveThreadCount(None) == 32
  {
  }

  // ---------------------------------------------------------------- the class

  class WorkerPool {
    var tasks: seq<Task>
    var stopped: bool
    var broadcast: bool
    var pending: nat
    var workers: seq<Worker>
    ghost var posted: seq<Task>
    ghost var taken: seq<Task>
    ghost var finished: multiset<Task>

    ghost function State(): Pool
      reads this
    {
      Pool(tasks, stopped, broadcast, pending, workers, posted, taken, finished)
    }

    constructor (numThreads: nat)
      ensures State() == Started(numThreads)
    {
      tasks, stopped, broadcast, pending := [], false, false, 0;
      posted, taken, finished := [], [], multiset{};
      workers := [];
      new;
      for i := 0 to numThreads
        invariant workers == seq(i, _ => Idle)
        invariant State() == Started(0).(workers := workers)
      {
        workers := workers + [Idle];
      }
    }

    /** The critical section of `post`, by worker `poster` or from outside. */
    method Push(task: Task, poster: Option<nat>)
      requires PoolEnabled(State(), PoolLabel.Push(task, poster))
      modifies this
      ensures State() == PoolStep(old(State()), PoolLabel.Push(task, poster))
    {
      tasks := tasks + [task];
      pending := pending + 1;
      posted := posted + [task];
    }

    /** The notification that ends `post`; the condition variable picks a sleeper, if there is one. */
    method NotifyOne() returns (woken: Option<nat>)
      requires pending > 0
      modifies this
      ensures old(PoolEnabled(State(), PoolLabel.NotifyOne(woken)))
      ensures State() == PoolStep(old(State()), PoolLabel.NotifyOne(woken))
    {
      pending := pending - 1;
      if Asleep in workers {
        var w :| 0 <= w < |workers| && workers[w] == Asleep;
        workers := workers[w := Idle];
        woken := Some(w);
      } else {
        woken := None;
      }
    }

    /** The critical section of `workerLoop`: wait, leave, or take the oldest task. */
    method Check(w: nat) returns (task: Option<Task>)
      requires PoolEnabled(State(), PoolLabel.Check(w))
      modifies this
      ensures State() == PoolStep(old(State()), PoolLabel.Check(w))
      ensures task == if old(tasks) == [] then None else Some(old(tasks)[0])
    {
      task := None;
      if !(stopped || tasks != []) {
        workers := workers[w := Asleep];
      } else if stopped && tasks == [] {
        workers := workers[w := Exited];
      } else {
        task := Some(tasks[0]);
        workers := workers[w := Running(tasks[0])];
        taken := taken + [tasks[0]];
        tasks := tasks[1..];
      }
    }

    /** The end of a task's call, by return or by an exception, which is logged and swallowed. */
    method FinishTask(w: nat)
      requires PoolEnabled(State(), Finish(w))
      modifies this
      ensures State() == PoolStep(old(State()), Finish(w))
    {
      finished := finished + multiset{workers[w].task};
      workers := workers[w := Idle];
    }

    /** The first half of the destructor. */
    method Stop()
      requires !stopped
      modifies this
      ensures State() == PoolStep(old(State()), PoolLabel.Stop)
    {
      stopped := true;
    }

    method NotifyAll()
      requires stopped && !broadcast
      modifies this
      ensures State() == PoolStep(old(State()), PoolLabel.NotifyAll)
    {
      broadcast := true;
      workers := WakeAll(workers);
    }
  }
}
