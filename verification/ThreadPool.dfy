/**
 `ThreadPool` as a machine of atomic steps: n workers, any number of submitters and a shutdown caller, interleaved in
 any order. A wait may end at any time, so notifications, lost or not, and spurious wakeups are all covered.
 */
module ThreadPool {
  import opened Prelude
  import opened SafeQueue

  /** Where a worker stands in `ThreadWorker::operator()`. */
  datatype Pc =
    | CheckShutdown                // the loop condition
    | Locking                      // taking m_conditional_mutex
    | TestEmpty                    // holding it, at m_queue.empty()
    | Waiting                      // in wait(), which gave the mutex back
    | Dequeueing(sawTask: bool)    // holding it, at m_queue.dequeue(func)
    | Unlocking(dequeued: bool)    // at the end of the locked block
    | Deciding(dequeued: bool)     // at if (dequeued)
    | Running                      // inside func()
    | Exited

  /** A worker keeps its `func` from one round to the next. */
  datatype Worker<T> = Worker(pc: Pc, func: Option<T>)

  /** The pool, with the history of what was submitted, dequeued and begun. */
  datatype Pool<T> = Pool(queue: seq<T>, shutdown: bool, mutex: Option<nat>, workers: seq<Worker<T>>,
                          enqueued: seq<T>, dequeued: seq<T>, begun: seq<T>)

  datatype Step<T> =
    | Submit(task: T)
    | Shutdown
    | Check(w: nat)
    | Lock(w: nat)
    | Test(w: nat)
    | Wake(w: nat)
    | Dequeue(w: nat)
    | Unlock(w: nat)
    | Begin(w: nat)
    | Finish(w: nat)

  predicate At<T>(p: Pool<T>, w: nat, pc: Pc) {
    w < |p.workers| && p.workers[w].pc == pc
  }

  predicate Enabled<T>(p: Pool<T>, s: Step<T>) {
    match s
    case Submit(_) => true
    case Shutdown => true
    case Check(w) => At(p, w, CheckShutdown)
    case Lock(w) => At(p, w, Locking) && p.mutex == None
    case Test(w) => At(p, w, TestEmpty)
    case Wake(w) => At(p, w, Waiting) && p.mutex == None
    case Dequeue(w) => w < |p.workers| && p.workers[w].pc.Dequeueing?
    case Unlock(w) => w < |p.workers| && p.workers[w].pc.Unlocking?
    case Begin(w) => w < |p.workers| && p.workers[w].pc.Deciding? && (p.workers[w].pc.dequeued ==> p.workers[w].func.Some?)
    case Finish(w) => At(p, w, Running)
  }

  function Move<T>(p: Pool<T>, w: nat, pc: Pc): Pool<T>
    requires w < |p.workers|
  {
    p.(workers := p.workers[w := p.workers[w].(pc := pc)])
  }

  function Apply<T>(p: Pool<T>, s: Step<T>): Pool<T>
    requires Enabled(p, s)
  {
    match s
    case Submit(task) => p.(queue := p.queue + [task], enqueued := p.enqueued + [task])
    case Shutdown => p.(shutdown := true)
    case Check(w) => Move(p, w, if p.shutdown then Exited else Locking)
    case Lock(w) => Move(p.(mutex := Some(w)), w, TestEmpty)
    case Test(w) => if p.queue == [] then Move(p.(mutex := None), w, Waiting) else Move(p, w, Dequeueing(true))
    case Wake(w) => Move(p.(mutex := Some(w)), w, Dequeueing(false))
    case Dequeue(w) =>
      (match Front(p.queue)
       case None => Move(p, w, Unlocking(false))
       case Some((task, rest)) =>
         p.(queue := rest, dequeued := p.dequeued + [task], workers := p.workers[w := Worker(Unlocking(true), Some(task))]))
    case Unlock(w) => Move(p.(mutex := None), w, Deciding(p.workers[w].pc.dequeued))
    case Begin(w) =>
      if p.workers[w].pc.dequeued then Move(p.(begun := p.begun + [p.workers[w].func.value]), w, Running)
      else Move(p, w, CheckShutdown)
    case Finish(w) => Move(p, w, CheckShutdown)
  }

  /** After `init`: n workers at their first test. */
  function Started<T>(n: nat): Pool<T> {
    Pool([], false, None, seq(n, _ => Worker(CheckShutdown, None)), [], [], [])
  }

  predicate ValidRun<T>(p: Pool<T>, steps: seq<Step<T>>)
    decreases |steps|
  {
    steps != [] ==> Enabled(p, steps[0]) && ValidRun(Apply(p, steps[0]), steps[1..])
  }

  function Run<T>(p: Pool<T>, steps: seq<Step<T>>): Pool<T>
    requires ValidRun(p, steps)
    decreases |steps|
  {
    if steps == [] then p else Run(Apply(p, steps[0]), steps[1..])
  }

  // ----- conservation

  function AsSeq<T>(task: Option<T>): seq<T> {
    if task.Some? then [task.value] else []
  }

  /** The task, if any, that a worker has taken from the queue and not yet begun. */
  function Held<T>(worker: Worker<T>): seq<T> {
    if worker.pc == Unlocking(true) || worker.pc == Deciding(true) then AsSeq(worker.func) else []
  }

  function AllHeld<T>(workers: seq<Worker<T>>): multiset<T> {
    if workers == [] then multiset{} else multiset(Held(workers[0])) + AllHeld(workers[1..])
  }

  predicate HoldsMutex(pc: Pc) {
    pc == TestEmpty || pc.Dequeueing? || pc.Unlocking?
  }

  /** The conditional mutex is held where the code holds it, a seen task is still there, a taken one is at hand. */
  predicate WorkerOk<T>(p: Pool<T>, w: nat)
    requires w < |p.workers|
  {
    var pc := p.workers[w].pc;
    && (HoldsMutex(pc) <==> p.mutex == Some(w))
    && (pc == Dequeueing(true) ==> |p.queue| > 0)
    && (pc == Unlocking(true) || pc == Deciding(true) ==> p.workers[w].func.Some?)
  }

  ghost predicate Control<T>(p: Pool<T>) {
    forall w: nat | w < |p.workers| :: WorkerOk(p, w)
  }

  ghost predicate Ordered<T>(p: Pool<T>) {
    p.dequeued + p.queue == p.enqueued
  }

  ghost predicate Conserved<T>(p: Pool<T>) {
    multiset(p.begun) + AllHeld(p.workers) == multiset(p.dequeued)
  }

  ghost predicate Inv<T>(p: Pool<T>) {
    Control(p) && Ordered(p) && Conserved(p)
  }

  lemma MultisetSwap<T>(a: multiset<T>, b: multiset<T>, rest: multiset<T>)
    ensures (a + rest) + b == (b + rest) + a
  {}

  lemma {:induction false} HeldUpdate<T>(workers: seq<Worker<T>>, w: nat, worker: Worker<T>)
    requires w < |workers|
    ensures AllHeld(workers[w := worker]) + multiset(Held(workers[w])) == AllHeld(workers) + multiset(Held(worker))
  {
    hide Held;
    var now, was := workers[w := worker], workers[w];
    if w == 0 {
      assert now[1..] == workers[1..];
      MultisetSwap(multiset(Held(worker)), multiset(Held(was)), AllHeld(workers[1..]));
    } else {
      var first, rest, rest' := multiset(Held(workers[0])), AllHeld(workers[1..]), AllHeld(workers[1..][w - 1 := worker]);
      assert now[1..] == workers[1..][w - 1 := worker];
      HeldUpdate(workers[1..], w - 1, worker);
      assert (first + rest') + multiset(Held(was)) == first + (rest' + multiset(Held(was)));
    }
  }

  lemma {:induction false} NoneHeld<T>(workers: seq<Worker<T>>)
    requires forall w | 0 <= w < |workers| :: Held(workers[w]) == []
    ensures AllHeld(workers) == multiset{}
  {
    if workers != [] {
      NoneHeld(workers[1..]);
    }
  }

  lemma StepControl<T>(p: Pool<T>, s: Step<T>)
    requires Control(p) && Enabled(p, s)
    ensures Control(Apply(p, s))
  {
    var q := Apply(p, s);
    forall v: nat | v < |q.workers| ensures WorkerOk(q, v) {
      assert WorkerOk(p, v);
      assert s.Submit? || s.Shutdown? || WorkerOk(p, s.w);
    }
  }

  lemma TakeFront<T>(done: seq<T>, queue: seq<T>)
    requires queue != []
    ensures (done + [queue[0]]) + queue[1..] == done + queue
  {}

  lemma StepOrdered<T>(p: Pool<T>, s: Step<T>)
    requires Ordered(p) && Enabled(p, s)
    ensures Ordered(Apply(p, s))
  {
    if s.Dequeue? && p.queue != [] {
      TakeFront(p.dequeued, p.queue);
    }
    if s.Submit? {
      assert p.dequeued + (p.queue + [s.task]) == (p.dequeued + p.queue) + [s.task];
    }
  }

  /** One worker's share of the balance goes from `h` to `h'` when it takes `taken` and begins `first`. */
  lemma Rebalance<T>(begun: multiset<T>, held: multiset<T>, held': multiset<T>, dequeued: multiset<T>,
                     h: multiset<T>, h': multiset<T>, first: multiset<T>, taken: multiset<T>)
    requires begun + held == dequeued && held' + h == held + h' && h' + first == h + taken
    ensures (begun + first) + held' == dequeued + taken
  {
    forall t ensures ((begun + first) + held')[t] == (dequeued + taken)[t] {
      assert (begun + held)[t] == dequeued[t];
      assert (held' + h)[t] == (held + h')[t];
      assert (h' + first)[t] == (h + taken)[t];
    }
  }

  /** What a step begins. */
  function First<T>(p: Pool<T>, s: Step<T>): seq<T>
    requires Enabled(p, s)
  {
    if s.Begin? && p.workers[s.w].pc.dequeued then AsSeq(p.workers[s.w].func) else []
  }

  /** What a step takes from the queue. */
  function Taken<T>(p: Pool<T>, s: Step<T>): seq<T> {
    if s.Dequeue? && |p.queue| > 0 then [p.queue[0]] else []
  }

  lemma HistoryChange<T>(p: Pool<T>, s: Step<T>)
    requires Enabled(p, s)
    ensures var q := Apply(p, s);
            && q.begun == p.begun + First(p, s) && q.dequeued == p.dequeued + Taken(p, s)
            && (!s.Submit? && !s.Shutdown? ==> q.workers == p.workers[s.w := q.workers[s.w]])
  {}

  /** A worker holds what it took until it begins it. */
  lemma HeldChange<T>(p: Pool<T>, s: Step<T>)
    requires Enabled(p, s) && !s.Submit? && !s.Shutdown?
    ensures var was, now := Held(p.workers[s.w]), Held(Apply(p, s).workers[s.w]);
            if s.Begin? || s.Dequeue? then was == First(p, s) && now == Taken(p, s)
            else was == now && First(p, s) == [] == Taken(p, s)
  {}

  lemma StepConserved<T>(p: Pool<T>, s: Step<T>)
    requires Conserved(p) && Enabled(p, s)
    ensures Conserved(Apply(p, s))
  {
    HistoryChange(p, s);
    if !s.Submit? && !s.Shutdown? {
      HeldChange(p, s);
      hide Apply, Held, AllHeld, First, Taken;
      var q := Apply(p, s);
      var was, now, first, taken := Held(p.workers[s.w]), Held(q.workers[s.w]), First(p, s), Taken(p, s);
      HeldUpdate(p.workers, s.w, q.workers[s.w]);
      assert multiset(now) + multiset(first) == multiset(was) + multiset(taken);
      Rebalance(multiset(p.begun), AllHeld(p.workers), AllHeld(q.workers), multiset(p.dequeued),
                multiset(was), multiset(now), multiset(first), multiset(taken));
    }
  }

  lemma {:induction false} RunInv<T>(p: Pool<T>, steps: seq<Step<T>>)
    requires Inv(p) && ValidRun(p, steps)
    ensures Inv(Run(p, steps))
    decreases |steps|
  {
    if steps != [] {
      StepControl(p, steps[0]);
      StepOrdered(p, steps[0]);
      StepConserved(p, steps[0]);
      RunInv(Apply(p, steps[0]), steps[1..]);
    }
  }

  /** The tasks a run submits, in order. */
  function Submitted<T>(steps: seq<Step<T>>): seq<T> {
    if steps == [] then [] else (if steps[0].Submit? then [steps[0].task] else []) + Submitted(steps[1..])
  }

  /** The history of the queue is what the run submits. */
  lemma {:induction false} RunEnqueues<T>(p: Pool<T>, steps: seq<Step<T>>)
    requires ValidRun(p, steps)
    ensures Run(p, steps).enqueued == p.enqueued + Submitted(steps)
    decreases |steps|
  {
    if steps == [] {
      assert p.enqueued + [] == p.enqueued;
    } else {
      var s, q := steps[0], Apply(p, steps[0]);
      var first := if s.Submit? then [s.task] else [];
      assert q.enqueued == p.enqueued + first;
      RunEnqueues(q, steps[1..]);
      hide Apply;
      ConcatAssociative(p.enqueued, first, Submitted(steps[1..]));
    }
  }

  /**
   In every interleaving, from `init` on: the tasks taken and those in the queue are the submitted ones, in order; each is
   begun, in a worker's hand, or queued; and none begins more often than it was submitted.
   */
  lemma Conservation<T>(n: nat, steps: seq<Step<T>>)
    requires ValidRun(Started<T>(n), steps)
    ensures var p := Run(Started<T>(n), steps);
            && p.dequeued + p.queue == Submitted(steps)
            && multiset(p.begun) <= multiset(p.dequeued) <= multiset(Submitted(steps))
            && |p.begun| + |AllHeld(p.workers)| + |p.queue| == |Submitted(steps)|
  {
    RunEnqueues(Started<T>(n), steps);
    assert [] + Submitted(steps) == Submitted(steps);
    NoneHeld(Started<T>(n).workers);
    RunInv(Started<T>(n), steps);
    var p := Run(Started<T>(n), steps);
    assert multiset(p.dequeued + p.queue) == multiset(p.dequeued) + multiset(p.queue);
    assert |multiset(p.begun)| + |AllHeld(p.workers)| == |multiset(p.dequeued)|;
  }

  /** A worker that saw a task while holding the mutex gets one, whatever others did in between. */
  lemma SeenTaskIsDequeued<T>(n: nat, steps: seq<Step<T>>, w: nat)
    requires ValidRun(Started<T>(n), steps) && At(Run(Started<T>(n), steps), w, Dequeueing(true))
    ensures var p := Run(Started<T>(n), steps);
            Enabled(p, Dequeue(w)) && At(Apply(p, Dequeue(w)), w, Unlocking(true))
  {
    NoneHeld(Started<T>(n).workers);
    RunInv(Started<T>(n), steps);
    assert WorkerOk(Run(Started<T>(n), steps), w);
  }

  /** Two workers never hold the conditional mutex at once. */
  lemma MutualExclusion<T>(n: nat, steps: seq<Step<T>>, v: nat, w: nat)
    requires ValidRun(Started<T>(n), steps)
    requires var p := Run(Started<T>(n), steps);
             v < |p.workers| && w < |p.workers| && HoldsMutex(p.workers[v].pc) && HoldsMutex(p.workers[w].pc)
    ensures v == w
  {
    NoneHeld(Started<T>(n).workers);
    RunInv(Started<T>(n), steps);
    var p := Run(Started<T>(n), steps);
    assert WorkerOk(p, v) && WorkerOk(p, w);
  }

  // ----- one worker's own tasks

  predicate IsOf<T>(s: Step<T>, w: nat) {
    !s.Submit? && !s.Shutdown? && s.w == w
  }

  function TasksTaken<T>(p: Pool<T>, steps: seq<Step<T>>, w: nat): seq<T>
    requires ValidRun(p, steps)
    decreases |steps|
  {
    if steps == [] then []
    else (if IsOf(steps[0], w) then Taken(p, steps[0]) else []) + TasksTaken(Apply(p, steps[0]), steps[1..], w)
  }

  function TasksBegun<T>(p: Pool<T>, steps: seq<Step<T>>, w: nat): seq<T>
    requires ValidRun(p, steps)
    decreases |steps|
  {
    if steps == [] then []
    else (if IsOf(steps[0], w) then First(p, steps[0]) else []) + TasksBegun(Apply(p, steps[0]), steps[1..], w)
  }

  /** One step moves a task of worker `w` from the queue into its hand, or from its hand into a run, or neither. */
  lemma StepOfWorker<T>(p: Pool<T>, s: Step<T>, w: nat)
    requires Enabled(p, s) && w < |p.workers|
    ensures |Apply(p, s).workers| == |p.workers|
    ensures Held(p.workers[w]) + (if IsOf(s, w) then Taken(p, s) else [])
            == (if IsOf(s, w) then First(p, s) else []) + Held(Apply(p, s).workers[w])
  {
    HistoryChange(p, s);
    if IsOf(s, w) { HeldChange(p, s); }
  }

  lemma Regroup<T>(was: seq<T>, taken: seq<T>, laterTaken: seq<T>, first: seq<T>, now: seq<T>,
                   laterBegun: seq<T>, end: seq<T>)
    requires was + taken == first + now && now + laterTaken == laterBegun + end
    ensures was + (taken + laterTaken) == (first + laterBegun) + end
  {
    assert was + (taken + laterTaken) == (was + taken) + laterTaken;
    assert (first + now) + laterTaken == first + (now + laterTaken);
    assert first + (laterBegun + end) == (first + laterBegun) + end;
  }

  /** A worker begins exactly what it took itself, in that order: a failed `dequeue` never runs the previous `func` again. */
  lemma {:induction false} WorkerRunsWhatItTook<T>(p: Pool<T>, steps: seq<Step<T>>, w: nat)
    requires ValidRun(p, steps) && w < |p.workers|
    ensures w < |Run(p, steps).workers|
    ensures Held(p.workers[w]) + TasksTaken(p, steps, w) == TasksBegun(p, steps, w) + Held(Run(p, steps).workers[w])
    decreases |steps|
  {
    if steps != [] {
      var s, q := steps[0], Apply(p, steps[0]);
      StepOfWorker(p, s, w);
      WorkerRunsWhatItTook(q, steps[1..], w);
      var taken := if IsOf(s, w) then Taken(p, s) else [];
      var first := if IsOf(s, w) then First(p, s) else [];
      hide Apply, Held, Taken, First;
      Regroup(Held(p.workers[w]), taken, TasksTaken(q, steps[1..], w),
              first, Held(q.workers[w]), TasksBegun(q, steps[1..], w), Held(Run(p, steps).workers[w]));
    }
  }

  // ----- what a worker does with the queue

  /** A woken worker begins the first task of the queue, or, woken for nothing, goes back to its test. */
  lemma WokenServes<T>(p: Pool<T>, w: nat)
    requires At(p, w, Waiting) && p.mutex == None
    ensures ValidRun(p, [Wake(w), Dequeue(w), Unlock(w), Begin(w)])
    ensures var q := Run(p, [Wake(w), Dequeue(w), Unlock(w), Begin(w)]);
            && q.mutex == None
            && (if p.queue == [] then q.begun == p.begun && q.queue == [] && At(q, w, CheckShutdown)
                else q.begun == p.begun + [p.queue[0]] && q.queue == p.queue[1..] && At(q, w, Running))
  {
    FourSteps(p, Wake(w), Dequeue(w), Unlock(w), Begin(w));
  }

  /** A worker that finds the pool running and a task queued begins the first one, and comes back for more. */
  lemma ArrivingServes<T>(p: Pool<T>, w: nat)
    requires At(p, w, CheckShutdown) && !p.shutdown && p.mutex == None && p.queue != []
    ensures ValidRun(p, [Check(w), Lock(w)])
    ensures ValidRun(Run(p, [Check(w), Lock(w)]), [Test(w), Dequeue(w), Unlock(w), Begin(w)])
    ensures var q := Run(Run(p, [Check(w), Lock(w)]), [Test(w), Dequeue(w), Unlock(w), Begin(w)]);
            && q.begun == p.begun + [p.queue[0]] && q.queue == p.queue[1..] && At(q, w, Running) && q.mutex == None
            && At(Apply(q, Finish(w)), w, CheckShutdown)
  {
    TwoSteps(p, Check(w), Lock(w));
    var seen := Apply(Apply(p, Check(w)), Lock(w));
    assert At(seen, w, TestEmpty) && seen.mutex == Some(w) && seen.queue == p.queue && seen.begun == p.begun;
    hide Run, ValidRun, Apply, Enabled;
    SeenServes(seen, w);
  }

  lemma SeenServes<T>(p: Pool<T>, w: nat)
    requires At(p, w, TestEmpty) && p.mutex == Some(w) && p.queue != []
    ensures ValidRun(p, [Test(w), Dequeue(w), Unlock(w), Begin(w)])
    ensures var q := Run(p, [Test(w), Dequeue(w), Unlock(w), Begin(w)]);
            && q.begun == p.begun + [p.queue[0]] && q.queue == p.queue[1..] && At(q, w, Running) && q.mutex == None
            && At(Apply(q, Finish(w)), w, CheckShutdown)
  {
    FourSteps(p, Test(w), Dequeue(w), Unlock(w), Begin(w));
    hide Run, ValidRun;
  }

  /** One that finds the queue empty gives the mutex back, and sleeps until it is woken. */
  lemma SleepsUntilWoken<T>(p: Pool<T>, w: nat, steps: seq<Step<T>>)
    requires At(p, w, TestEmpty) && p.queue == [] && ValidRun(Apply(p, Test(w)), steps) && Wake(w) !in steps
    ensures Apply(p, Test(w)).mutex == None && At(Run(Apply(p, Test(w)), steps), w, Waiting)
  {
    Sleeps(Apply(p, Test(w)), w, steps);
  }

  lemma {:induction false} Sleeps<T>(p: Pool<T>, w: nat, steps: seq<Step<T>>)
    requires At(p, w, Waiting) && ValidRun(p, steps) && Wake(w) !in steps
    ensures At(Run(p, steps), w, Waiting)
    decreases |steps|
  {
    if steps != [] {
      assert At(Apply(p, steps[0]), w, Waiting);
      Sleeps(Apply(p, steps[0]), w, steps[1..]);
    }
  }

  /** No worker leaves its loop before the pool is shut down. */
  lemma {:induction false} StaysUntilShutdown<T>(p: Pool<T>, w: nat, steps: seq<Step<T>>)
    requires ValidRun(p, steps) && w < |p.workers| && !p.shutdown && !At(p, w, Exited)
    ensures At(Run(p, steps), w, Exited) ==> Shutdown in steps
    decreases |steps|
  {
    if steps != [] && steps[0] != Shutdown {
      assert !Apply(p, steps[0]).shutdown && !At(Apply(p, steps[0]), w, Exited);
      StaysUntilShutdown(Apply(p, steps[0]), w, steps[1..]);
      hide Apply;
    }
  }

  lemma TwoSteps<T>(p: Pool<T>, a: Step<T>, b: Step<T>)
    requires Enabled(p, a) && Enabled(Apply(p, a), b)
    ensures ValidRun(p, [a, b]) && Run(p, [a, b]) == Apply(Apply(p, a), b)
  {
    hide Apply, Enabled;
    assert [a, b][1..] == [b] && [b][1..] == [];
    assert ValidRun(Apply(p, a), [b]) && Run(Apply(p, a), [b]) == Apply(Apply(p, a), b);
  }

  lemma FourSteps<T>(p: Pool<T>, a: Step<T>, b: Step<T>, c: Step<T>, d: Step<T>)
    requires Enabled(p, a) && Enabled(Apply(p, a), b) && Enabled(Apply(Apply(p, a), b), c)
    requires Enabled(Apply(Apply(Apply(p, a), b), c), d)
    ensures ValidRun(p, [a, b, c, d]) && Run(p, [a, b, c, d]) == Apply(Apply(Apply(Apply(p, a), b), c), d)
  {
    hide Apply, Enabled, Run, ValidRun;
    var q := Apply(Apply(p, a), b);
    TwoSteps(p, a, b);
    TwoSteps(q, c, d);
    RunAppends(p, [a, b], [c, d]);
    assert [a, b] + [c, d] == [a, b, c, d];
  }

  lemma {:induction false} RunAppends<T>(p: Pool<T>, a: seq<Step<T>>, b: seq<Step<T>>)
    requires ValidRun(p, a) && ValidRun(Run(p, a), b)
    ensures ValidRun(p, a + b) && Run(p, a + b) == Run(Run(p, a), b)
    decreases |a|
  {
    if a == [] {
      assert a + b == b;
    } else {
      assert (a + b)[0] == a[0] && (a + b)[1..] == a[1..] + b;
      RunAppends(Apply(p, a[0]), a[1..], b);
    }
  }

  // ----- the shutdown bound

  /** Past its test of the shutdown flag and not yet in a task: the worker may still begin one. */
  predicate MayBegin(pc: Pc) {
    pc != CheckShutdown && pc != Running && pc != Exited
  }

  predicate Begins<T>(p: Pool<T>, s: Step<T>) {
    s.Begin? && s.w < |p.workers| && p.workers[s.w].pc == Deciding(true)
  }

  /** How many tasks worker `w` begins in a run. */
  function BegunBy<T>(p: Pool<T>, steps: seq<Step<T>>, w: nat): nat
    requires ValidRun(p, steps)
    decreases |steps|
  {
    if steps == [] then 0
    else (if Begins(p, steps[0]) && steps[0].w == w then 1 else 0) + BegunBy(Apply(p, steps[0]), steps[1..], w)
  }

  /** Once shutdown is set, a worker begins at most one more task, and none if it has yet to test the flag. */
  lemma {:induction false} AtMostOneEach<T>(p: Pool<T>, steps: seq<Step<T>>, w: nat)
    requires ValidRun(p, steps) && p.shutdown && w < |p.workers|
    ensures BegunBy(p, steps, w) <= if MayBegin(p.workers[w].pc) then 1 else 0
    decreases |steps|
  {
    if steps != [] {
      AtMostOneEach(Apply(p, steps[0]), steps[1..], w);
    }
  }

  function CountMayBegin<T>(workers: seq<Worker<T>>): nat {
    if workers == [] then 0 else (if MayBegin(workers[0].pc) then 1 else 0) + CountMayBegin(workers[1..])
  }

  lemma {:induction false} CountUpdate<T>(workers: seq<Worker<T>>, w: nat, worker: Worker<T>)
    requires w < |workers|
    ensures CountMayBegin(workers[w := worker]) + (if MayBegin(workers[w].pc) then 1 else 0)
            == CountMayBegin(workers) + (if MayBegin(worker.pc) then 1 else 0)
    ensures CountMayBegin(workers) <= |workers|
  {
    var now := workers[w := worker];
    if w == 0 {
      assert now[1..] == workers[1..];
      if |workers| > 1 { CountUpdate(workers[1..], 0, workers[1]); }
    } else {
      assert now[1..] == workers[1..][w - 1 := worker];
      CountUpdate(workers[1..], w - 1, worker);
    }
  }

  /** One step after shutdown: what begins is one worker fewer that may. */
  lemma CountStep<T>(p: Pool<T>, s: Step<T>)
    requires Enabled(p, s) && p.shutdown
    ensures var q := Apply(p, s);
            && q.shutdown && |q.workers| == |p.workers|
            && |q.begun| - |p.begun| + CountMayBegin(q.workers) <= CountMayBegin(p.workers)
  {
    var q := Apply(p, s);
    if !s.Submit? && !s.Shutdown? {
      CountUpdate(p.workers, s.w, q.workers[s.w]);
    }
  }

  /** In every interleaving, once shutdown is set, at most as many tasks begin as workers have passed their test. */
  lemma {:induction false} ShutdownBound<T>(p: Pool<T>, steps: seq<Step<T>>)
    requires ValidRun(p, steps) && p.shutdown
    ensures |Run(p, steps).begun| - |p.begun| <= CountMayBegin(p.workers) <= |p.workers|
    decreases |steps|
  {
    if steps == [] {
      if p.workers != [] { CountUpdate(p.workers, 0, p.workers[0]); }
    } else {
      CountStep(p, steps[0]);
      ShutdownBound(Apply(p, steps[0]), steps[1..]);
      if p.workers != [] { CountUpdate(p.workers, 0, p.workers[0]); }
    }
  }

  // ----- the shutdown as a step of the run

  lemma {:induction false} RunSplits<T>(p: Pool<T>, a: seq<Step<T>>, b: seq<Step<T>>)
    requires ValidRun(p, a + b)
    ensures ValidRun(p, a) && ValidRun(Run(p, a), b) && Run(p, a + b) == Run(Run(p, a), b)
    decreases |a|
  {
    if a == [] {
      assert a + b == b;
    } else {
      assert (a + b)[0] == a[0] && (a + b)[1..] == a[1..] + b;
      RunSplits(Apply(p, a[0]), a[1..], b);
    }
  }

  /** The pool keeps its workers. */
  lemma {:induction false} WorkersStay<T>(p: Pool<T>, steps: seq<Step<T>>)
    requires ValidRun(p, steps)
    ensures |Run(p, steps).workers| == |p.workers|
    decreases |steps|
  {
    if steps != [] { WorkersStay(Apply(p, steps[0]), steps[1..]); }
  }

  /** After the `Shutdown` step of any run from `init`, at most n tasks begin, at most one in each worker. */
  lemma ShutdownStops<T>(n: nat, before: seq<Step<T>>, after: seq<Step<T>>)
    requires ValidRun(Started<T>(n), before + ([Shutdown] + after))
    ensures ValidRun(Started<T>(n), before)
    ensures var p, q := Run(Started<T>(n), before), Run(Started<T>(n), before + ([Shutdown] + after));
            && p.begun <= q.begun && |q.begun| - |p.begun| <= n
            && forall w: nat | w < n ::
                 ValidRun(p, [Shutdown] + after) && BegunBy(p, [Shutdown] + after, w) <= 1
  {
    RunSplits(Started<T>(n), before, [Shutdown] + after);
    var p := Run(Started<T>(n), before);
    WorkersStay(Started<T>(n), before);
    assert ([Shutdown] + after)[1..] == after;
    var stopped := Apply(p, Shutdown);
    assert stopped.shutdown && stopped.begun == p.begun;
    ShutdownBound(stopped, after);
    BegunGrows(stopped, after);
    forall w: nat | w < n ensures BegunBy(p, [Shutdown] + after, w) <= 1 {
      AtMostOneEach(stopped, after, w);
    }
  }

  lemma {:induction false} BegunGrows<T>(p: Pool<T>, steps: seq<Step<T>>)
    requires ValidRun(p, steps)
    ensures p.begun <= Run(p, steps).begun
    decreases |steps|
  {
    if steps != [] {
      HistoryChange(p, steps[0]);
      BegunGrows(Apply(p, steps[0]), steps[1..]);
    }
  }
}
