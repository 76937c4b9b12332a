/** The worker pool: any number of workers and submitting threads. Sections under the mutex are
    one action each; a worker holds the mutex from finding nothing to do until it sleeps;
    stop_ is set, and the condition variable signalled, without the mutex. */
module ThreadPool {
  import opened Common

  /** The queue object as one thread at a time uses it. Tasks are opaque. */
  class Pool<T(==)> {
    var queue: seq<T>
    var stopping: bool
    var ran: seq<T>      // tasks executed so far, in order

    constructor ()
      ensures queue == [] && !stopping && ran == []
    {
      queue, stopping, ran := [], false, [];
    }

    method Submit(task: T)
      modifies this`queue
      ensures queue == old(queue) + [task]
    {
      queue := queue + [task];
    }

    /** A worker once its wait has returned: the oldest task, or None to exit. */
    method Take() returns (task: Option<T>)
      requires queue != [] || stopping
      modifies this`queue
      ensures task.None? <==> old(queue) == []
      ensures old(queue) == if task.None? then queue else [task.value] + queue
    {
      if stopping && queue == [] {
        return None;
      }
      task := Some(queue[0]);
      queue := queue[1..];
    }

    /** A single worker's loop once stop_ is set: it runs everything queued, in order, and
        only then exits. */
    method WorkerLoop()
      requires stopping
      modifies this`queue, this`ran
      ensures queue == [] && ran == old(ran) + old(queue)
    {
      while true
        invariant stopping && ran + queue == old(ran) + old(queue)
        decreases |queue|
      {
        var task := Take();
        if task.None? {
          return;
        }
        ran := ran + [task.value];
      }
    }
  }

  datatype WorkerPc = Looking | FallingAsleep | Asleep | Running(k: nat) | Exited

  datatype SubmitPc = Free | Pushed

  datatype StopPc = NotStopped | FlagSet | Notified

  datatype State<T> = State(
    queue: seq<T>, workers: seq<WorkerPc>, submitters: seq<SubmitPc>, stop: StopPc,
    // history
    submitted: seq<T>,     // every task pushed, in order
    takenBy: seq<nat>,     // which worker took the k-th task
    runs: seq<nat>,        // how often the k-th task taken has been executed
    stopMark: nat)         // tasks submitted when stop_ was set

  datatype Action<T> =
    | Push(t: nat, task: T)
    | NotifyOne(t: nat, w: nat)   // w: the sleeper that is woken, if any sleeps
    | Look(w: nat)
    | FallAsleep(w: nat)
    | Wake(w: nat)                // spurious
    | Finish(w: nat)
    | SetStop
    | NotifyAll

  ghost predicate IsInit<T>(s: State<T>)
  {
    && s.queue == [] && s.stop == NotStopped
    && (forall w :: 0 <= w < |s.workers| ==> s.workers[w].Looking?)
    && (forall t :: 0 <= t < |s.submitters| ==> s.submitters[t].Free?)
    && s.submitted == [] && s.takenBy == [] && s.runs == [] && s.stopMark == 0
  }

  predicate MutexFree<T>(s: State<T>)
  {
    forall w :: 0 <= w < |s.workers| ==> !s.workers[w].FallingAsleep?
  }

  predicate SomeAsleep(workers: seq<WorkerPc>)
  {
    exists w :: 0 <= w < |workers| && workers[w].Asleep?
  }

  predicate Enabled<T>(s: State<T>, a: Action<T>)
  {
    match a
    case Push(t, _) => t < |s.submitters| && s.submitters[t].Free? && MutexFree(s)
    case NotifyOne(t, w) =>
      && t < |s.submitters| && s.submitters[t].Pushed?
      && (SomeAsleep(s.workers) ==> w < |s.workers| && s.workers[w].Asleep?)
    case Look(w) => w < |s.workers| && s.workers[w].Looking? && MutexFree(s)
    case FallAsleep(w) => w < |s.workers| && s.workers[w].FallingAsleep?
    case Wake(w) => w < |s.workers| && s.workers[w].Asleep?
    case Finish(w) => w < |s.workers| && s.workers[w].Running? && s.workers[w].k < |s.runs|
    case SetStop => s.stop.NotStopped?
    case NotifyAll => s.stop.FlagSet?
  }

  function WakeAll(workers: seq<WorkerPc>): (r: seq<WorkerPc>)
    ensures |r| == |workers|
  {
    seq(|workers|, w requires 0 <= w < |workers| => if workers[w].Asleep? then Looking else workers[w])
  }

  function Do<T>(s: State<T>, a: Action<T>): State<T>
    requires Enabled(s, a)
  {
    match a
    case Push(t, task) =>
      s.(queue := s.queue + [task], submitted := s.submitted + [task], submitters := s.submitters[t := Pushed])
    case NotifyOne(t, w) =>
      s.(submitters := s.submitters[t := Free],
         workers := if SomeAsleep(s.workers) then s.workers[w := Looking] else s.workers)
    case Look(w) =>
      if s.queue != [] then
        s.(queue := s.queue[1..], workers := s.workers[w := Running(|s.takenBy|)],
           takenBy := s.takenBy + [w], runs := s.runs + [0])
      else if s.stop != NotStopped then s.(workers := s.workers[w := Exited])
      else s.(workers := s.workers[w := FallingAsleep])
    case FallAsleep(w) => s.(workers := s.workers[w := Asleep])
    case Wake(w) => s.(workers := s.workers[w := Looking])
    case Finish(w) =>
      var k := s.workers[w].k;
      s.(runs := s.runs[k := s.runs[k] + 1], workers := s.workers[w := Looking])
    case SetStop => s.(stop := FlagSet, stopMark := |s.submitted|)
    case NotifyAll => s.(stop := Notified, workers := WakeAll(s.workers))
  }

  // ---------------------------------------------------------------- invariant

  /** The k-th task taken is the k-th submitted; the rest is still queued. */
  ghost predicate OrderInv<T>(s: State<T>)
  {
    && |s.takenBy| == |s.runs| <= |s.submitted| && s.queue == s.submitted[|s.takenBy|..]
    && (s.stop != NotStopped ==> s.stopMark <= |s.submitted|)
    && (forall w :: 0 <= w < |s.workers| && s.workers[w].Exited? ==> s.stop != NotStopped && s.stopMark <= |s.takenBy|)
  }

  /** A task taken is being run, for the first time, by the worker that took it, or has been run
      once. */
  ghost predicate OnceInv(workers: seq<WorkerPc>, takenBy: seq<nat>, runs: seq<nat>)
  {
    && |takenBy| == |runs|
    && (forall w :: 0 <= w < |workers| && workers[w].Running? ==> workers[w].k < |takenBy| && takenBy[workers[w].k] == w)
    && (forall k :: 0 <= k < |takenBy| ==>
          takenBy[k] < |workers| && runs[k] == if workers[takenBy[k]] == Running(k) then 0 else 1)
  }

  predicate Resting(p: WorkerPc)
  {
    p.Asleep? || p.Exited?
  }

  /** If every worker sleeps or has exited, one sleeps, and work is queued, a submitter is about
      to notify. */
  ghost predicate WakeInv<T>(s: State<T>)
  {
    && (!MutexFree(s) ==> s.queue == [])
    && (forall v, w ::
          0 <= v < |s.workers| && 0 <= w < |s.workers| && s.workers[v].FallingAsleep? && s.workers[w].FallingAsleep?
          ==> v == w)
    && (s.queue != [] && SomeAsleep(s.workers) && (forall w :: 0 <= w < |s.workers| ==> Resting(s.workers[w])) ==>
          exists t :: 0 <= t < |s.submitters| && s.submitters[t].Pushed?)
  }

  ghost predicate Inv<T>(s: State<T>)
  {
    OrderInv(s) && OnceInv(s.workers, s.takenBy, s.runs) && WakeInv(s)
  }

  lemma OnceSamePc(workers: seq<WorkerPc>, takenBy: seq<nat>, runs: seq<nat>, w: nat, p: WorkerPc)
    requires OnceInv(workers, takenBy, runs) && w < |workers| && !workers[w].Running? && !p.Running?
    ensures OnceInv(workers[w := p], takenBy, runs)
  {
  }

  lemma OnceTake(workers: seq<WorkerPc>, takenBy: seq<nat>, runs: seq<nat>, w: nat)
    requires OnceInv(workers, takenBy, runs) && w < |workers| && !workers[w].Running?
    ensures OnceInv(workers[w := Running(|takenBy|)], takenBy + [w], runs + [0])
  {
  }

  lemma OnceFinish(workers: seq<WorkerPc>, takenBy: seq<nat>, runs: seq<nat>, w: nat)
    requires OnceInv(workers, takenBy, runs) && w < |workers| && workers[w].Running? && workers[w].k < |runs|
    ensures OnceInv(workers[w := Looking], takenBy, runs[workers[w].k := runs[workers[w].k] + 1])
  {
  }

  lemma OnceWakeAll(workers: seq<WorkerPc>, takenBy: seq<nat>, runs: seq<nat>)
    requires OnceInv(workers, takenBy, runs)
    ensures OnceInv(WakeAll(workers), takenBy, runs)
  {
  }

  lemma KeepOnce<T>(s: State<T>, a: Action<T>)
    requires Inv(s) && Enabled(s, a)
    ensures OnceInv(Do(s, a).workers, Do(s, a).takenBy, Do(s, a).runs)
  {
    hide OnceInv, OrderInv, WakeInv, MutexFree, WakeAll;
    match a
    case NotifyOne(t, w) => if SomeAsleep(s.workers) { OnceSamePc(s.workers, s.takenBy, s.runs, w, Looking); }
    case Look(w) =>
      if s.queue != [] { OnceTake(s.workers, s.takenBy, s.runs, w); }
      else { OnceSamePc(s.workers, s.takenBy, s.runs, w, Do(s, a).workers[w]); }
    case FallAsleep(w) => OnceSamePc(s.workers, s.takenBy, s.runs, w, Asleep);
    case Wake(w) => OnceSamePc(s.workers, s.takenBy, s.runs, w, Looking);
    case Finish(w) => OnceFinish(s.workers, s.takenBy, s.runs, w);
    case NotifyAll => OnceWakeAll(s.workers, s.takenBy, s.runs);
    case _ =>
  }

  lemma KeepOrder<T>(s: State<T>, a: Action<T>)
    requires Inv(s) && Enabled(s, a)
    ensures OrderInv(Do(s, a))
  {
    hide OnceInv, WakeInv, MutexFree, SomeAsleep;
  }

  lemma KeepWake<T>(s: State<T>, a: Action<T>)
    requires Inv(s) && Enabled(s, a) && (a.Look? || a.FallAsleep? || a.Wake? || a.Finish?)
    ensures WakeInv(Do(s, a))
  {
    hide OnceInv, OrderInv;
    var s' := Do(s, a);
    if !a.FallAsleep? && (forall w :: 0 <= w < |s'.workers| ==> Resting(s'.workers[w])) {
      assert Resting(s'.workers[a.w]);
    }
  }

  lemma KeepWakeOthers<T>(s: State<T>, a: Action<T>)
    requires Inv(s) && Enabled(s, a) && !a.Look? && !a.FallAsleep? && !a.Wake? && !a.Finish?
    ensures WakeInv(Do(s, a))
  {
    hide OnceInv, OrderInv;
    var s' := Do(s, a);
    match a
    case Push(t, _) => assert s'.submitters[t].Pushed?;
    case NotifyOne(t, w) =>
      if SomeAsleep(s.workers) { assert !Resting(s'.workers[w]); }
    case _ =>
  }

  lemma StepKeepsInv<T>(s: State<T>, a: Action<T>)
    requires Inv(s) && Enabled(s, a)
    ensures Inv(Do(s, a))
  {
    hide OnceInv, OrderInv, WakeInv, Enabled, Do;
    KeepOnce(s, a);
    KeepOrder(s, a);
    if a.Look? || a.FallAsleep? || a.Wake? || a.Finish? {
      KeepWake(s, a);
    } else {
      KeepWakeOthers(s, a);
    }
  }

  ghost predicate IsRun<T>(s: State<T>, acts: seq<Action<T>>)
    decreases |acts|
  {
    acts == [] || (Enabled(s, acts[0]) && IsRun(Do(s, acts[0]), acts[1..]))
  }

  ghost function Last<T>(s: State<T>, acts: seq<Action<T>>): State<T>
    requires IsRun(s, acts)
    decreases |acts|
  {
    if acts == [] then s else Last(Do(s, acts[0]), acts[1..])
  }

  lemma {:induction false} RunKeepsInv<T>(s: State<T>, acts: seq<Action<T>>)
    requires Inv(s) && IsRun(s, acts)
    ensures Inv(Last(s, acts))
    decreases |acts|
  {
    hide Inv, Do, Enabled;
    if acts != [] {
      StepKeepsInv(s, acts[0]);
      RunKeepsInv(Do(s, acts[0]), acts[1..]);
    }
  }

  /** In every run: no wake-up is lost (queued work never waits on sleepers alone), tasks leave
      the queue in submission order, and each task taken is run once, by one worker. */
  lemma PoolSafety<T>(s: State<T>, acts: seq<Action<T>>)
    requires IsInit(s) && IsRun(s, acts)
    ensures var f := Last(s, acts);
            && (f.queue != [] && SomeAsleep(f.workers) && (forall w :: 0 <= w < |f.workers| ==> Resting(f.workers[w]))
                ==> exists t :: 0 <= t < |f.submitters| && f.submitters[t].Pushed?)
            && |f.takenBy| == |f.runs| <= |f.submitted| && f.queue == f.submitted[|f.takenBy|..]
            && (forall k :: 0 <= k < |f.runs| ==>
                  f.takenBy[k] < |f.workers| && f.runs[k] == if f.workers[f.takenBy[k]] == Running(k) then 0 else 1)
  {
    RunKeepsInv(s, acts);
  }

  /** When every worker of a non-empty pool has exited, each task submitted before stop_ was set
      has been run exactly once; if none came later, nothing is left in the queue. */
  lemma AllExitedAllRun<T>(s: State<T>, acts: seq<Action<T>>)
    requires IsInit(s) && IsRun(s, acts) && |s.workers| > 0
    requires forall w :: 0 <= w < |Last(s, acts).workers| ==> Last(s, acts).workers[w].Exited?
    ensures var f := Last(s, acts);
            && f.stopMark <= |f.runs| && (forall k :: 0 <= k < |f.runs| ==> f.runs[k] == 1)
            && (f.stopMark == |f.submitted| ==> f.queue == [] && |f.runs| == |f.submitted|)
  {
    RunKeepsInv(s, acts);
    var f := Last(s, acts);
    SamePool(s, acts);
    assert f.workers[0].Exited?;
  }

  lemma {:induction false} SamePool<T>(s: State<T>, acts: seq<Action<T>>)
    requires IsRun(s, acts)
    ensures |Last(s, acts).workers| == |s.workers|
    decreases |acts|
  {
    if acts != [] {
      SamePool(Do(s, acts[0]), acts[1..]);
    }
  }

  // ---------------------------------------------------------------- the workers come to their end

  /** A step of some worker. */
  predicate WorkerStep<T>(a: Action<T>)
  {
    a.Look? || a.Finish?
  }

  predicate AllAwake(workers: seq<WorkerPc>)
  {
    forall w :: 0 <= w < |workers| ==> !Sleeping(workers[w])
  }

  function Weight(p: WorkerPc): nat
  {
    if p.Running? then 2 else if p.Looking? then 1 else 0
  }

  function Weights(workers: seq<WorkerPc>): nat
  {
    if workers == [] then 0 else Weights(workers[..|workers| - 1]) + Weight(workers[|workers| - 1])
  }

  lemma {:induction false} WeightsUpdate(workers: seq<WorkerPc>, w: nat, p: WorkerPc)
    requires w < |workers|
    ensures Weights(workers[w := p]) == Weights(workers) + Weight(p) - Weight(workers[w])
  {
    hide Weight;
    var init := workers[..|workers| - 1];
    if w == |workers| - 1 {
      assert workers[w := p][..w] == init;
    } else {
      assert workers[w := p][..|workers| - 1] == init[w := p];
      WeightsUpdate(init, w, p);
    }
  }

  /** More steps than this the workers together cannot take. */
  function StepsLeft<T>(s: State<T>): nat
  {
    2 * |s.queue| + Weights(s.workers)
  }

  lemma WorkersGoOn<T>(s: State<T>, a: Action<T>)
    requires Enabled(s, a) && WorkerStep(a) && s.stop != NotStopped && AllAwake(s.workers)
    ensures var s' := Do(s, a);
            && s'.stop != NotStopped && AllAwake(s'.workers) && |s'.workers| == |s.workers|
            && StepsLeft(s') < StepsLeft(s) && s'.submitted == s.submitted
            && (forall w :: 0 <= w < |s.workers| && s'.workers[w].Exited? && s'.queue != [] ==> s.workers[w].Exited?)
  {
    WeightsUpdate(s.workers, a.w, Do(s, a).workers[a.w]);
    hide Weights, MutexFree;
  }

  lemma WorkersCanGoOn<T>(s: State<T>)
    requires Inv(s) && AllAwake(s.workers)
    ensures (exists a :: WorkerStep(a) && Enabled(s, a)) <==> exists w :: 0 <= w < |s.workers| && !s.workers[w].Exited?
  {
    hide OrderInv, WakeInv, SomeAsleep;
    if w :| 0 <= w < |s.workers| && !s.workers[w].Exited? {
      if s.workers[w].Looking? {
        var a: Action<T> := Look(w);
        assert WorkerStep(a) && Enabled(s, a);
      } else {
        var a: Action<T> := Finish(w);
        assert WorkerStep(a) && Enabled(s, a);
      }
    }
  }

  lemma {:induction false} WorkersRun<T>(s: State<T>, acts: seq<Action<T>>)
    requires Inv(s) && s.stop != NotStopped && AllAwake(s.workers)
    requires IsRun(s, acts) && forall a :: a in acts ==> WorkerStep(a)
    ensures var f := Last(s, acts);
            && Inv(f) && f.stop != NotStopped && AllAwake(f.workers) && |f.workers| == |s.workers|
            && |acts| + StepsLeft(f) <= StepsLeft(s) && f.submitted == s.submitted
            && (forall w :: 0 <= w < |s.workers| && f.workers[w].Exited? && f.queue != [] ==> s.workers[w].Exited?)
    decreases |acts|
  {
    hide Inv, Do, Enabled, WorkerStep, StepsLeft, AllAwake;
    if acts != [] {
      StepKeepsInv(s, acts[0]);
      WorkersGoOn(s, acts[0]);
      WorkersRun(Do(s, acts[0]), acts[1..]);
      QueueShrinks(Do(s, acts[0]), acts[1..]);
    }
  }

  lemma {:induction false} QueueShrinks<T>(s: State<T>, acts: seq<Action<T>>)
    requires IsRun(s, acts) && forall a :: a in acts ==> WorkerStep(a)
    ensures s.queue == [] ==> Last(s, acts).queue == []
    decreases |acts|
  {
    hide Do, Enabled, WorkerStep;
    if acts != [] {
      QueueStep(s, acts[0]);
      QueueShrinks(Do(s, acts[0]), acts[1..]);
    }
  }

  lemma QueueStep<T>(s: State<T>, a: Action<T>)
    requires Enabled(s, a) && WorkerStep(a)
    ensures s.queue == [] ==> Do(s, a).queue == []
  {
    hide MutexFree;
  }

  /** Once stop_ is set and no worker sleeps, the pool comes to its end: left to themselves the
      workers can always go on until all have exited, take at most two steps for each task still
      queued and two for each of themselves, and have then run every task submitted. */
  lemma WorkersEnd<T>(s0: State<T>, before: seq<Action<T>>, acts: seq<Action<T>>)
    requires IsInit(s0) && IsRun(s0, before) && IsRun(Last(s0, before), acts)
    requires var s := Last(s0, before);
             && s.stop != NotStopped && AllAwake(s.workers)
             && exists w :: 0 <= w < |s.workers| && !s.workers[w].Exited?
    requires forall a :: a in acts ==> WorkerStep(a)
    ensures var s, f := Last(s0, before), Last(Last(s0, before), acts);
            && |acts| <= 2 * |s.queue| + 2 * |s.workers|
            && ((exists a :: WorkerStep(a) && Enabled(f, a)) <==>
                  exists w :: 0 <= w < |f.workers| && !f.workers[w].Exited?)
            && ((forall w :: 0 <= w < |f.workers| ==> f.workers[w].Exited?) ==>
                  f.queue == [] && |f.runs| == |s.submitted| && forall k :: 0 <= k < |f.runs| ==> f.runs[k] == 1)
  {
    var s := Last(s0, before);
    RunKeepsInv(s0, before);
    WorkersRun(s, acts);
    WorkersCanGoOn(Last(s, acts));
    WeightsBound(s.workers);
    hide WakeInv, SomeAsleep, Enabled, Do, WorkerStep, AllAwake, Weights, IsInit;
  }

  lemma {:induction false} WeightsBound(workers: seq<WorkerPc>)
    ensures Weights(workers) <= 2 * |workers|
  {
    if workers != [] {
      WeightsBound(workers[..|workers| - 1]);
    }
  }

  // ---------------------------------------------------------------- the notification of stop

  predicate Sleeping(p: WorkerPc)
  {
    p.FallingAsleep? || p.Asleep?
  }

  predicate AllFree(submitters: seq<SubmitPc>)
  {
    forall t :: 0 <= t < |submitters| ==> submitters[t].Free?
  }

  /** No new task and no spurious wake-up. */
  predicate Quiet<T>(a: Action<T>)
  {
    !a.Push? && !a.Wake?
  }

  lemma QuietStep<T>(s: State<T>, a: Action<T>, w: nat)
    requires Enabled(s, a) && Quiet(a) && AllFree(s.submitters) && s.stop.Notified? && w < |s.workers|
    ensures var s' := Do(s, a);
            && AllFree(s'.submitters) && s'.stop.Notified? && |s'.workers| == |s.workers|
            && (Sleeping(s'.workers[w]) <==> Sleeping(s.workers[w]))
  {
    hide MutexFree;
  }

  lemma {:induction false} QuietRun<T>(s: State<T>, acts: seq<Action<T>>, w: nat)
    requires IsRun(s, acts) && (forall a :: a in acts ==> Quiet(a))
    requires AllFree(s.submitters) && s.stop.Notified? && w < |s.workers|
    ensures w < |Last(s, acts).workers| && (Sleeping(Last(s, acts).workers[w]) <==> Sleeping(s.workers[w]))
    decreases |acts|
  {
    hide Do, Enabled, Quiet, AllFree, Sleeping;
    if acts != [] {
      QuietStep(s, acts[0], w);
      QuietRun(Do(s, acts[0]), acts[1..], w);
    }
  }

  /** Exactly which workers miss notify_all, which is called without the mutex. With nothing being
      submitted: whatever happens after it, spurious wake-ups aside, a worker sleeps, and goes on
      sleeping, if and only if it had found nothing to do and was not yet asleep when notified.
      The destructor's join then waits for it. */
  lemma StopMissedExactly<T>(s: State<T>, acts: seq<Action<T>>, w: nat)
    requires Enabled(s, NotifyAll) && AllFree(s.submitters) && w < |s.workers|
    requires IsRun(Do(s, NotifyAll), acts) && forall a :: a in acts ==> Quiet(a)
    ensures w < |Last(Do(s, NotifyAll), acts).workers|
    ensures Sleeping(Last(Do(s, NotifyAll), acts).workers[w]) <==> s.workers[w].FallingAsleep?
  {
    QuietRun(Do(s, NotifyAll), acts, w);
  }

  /** One worker, nothing submitted. */
  function Lone<T>(w: WorkerPc, stop: StopPc): State<T>
  {
    State([], [w], [], stop, [], [], [], 0)
  }

  lemma RunBefore<T>(s: State<T>, a: Action<T>, acts: seq<Action<T>>)
    requires Enabled(s, a) && IsRun(Do(s, a), acts)
    ensures IsRun(s, [a] + acts) && Last(s, [a] + acts) == Last(Do(s, a), acts)
  {
    hide Do, Enabled;
    assert ([a] + acts)[1..] == acts;
  }

  lemma LoneNotified<T>()
    ensures var s: State<T> := Lone(FallingAsleep, FlagSet);
            Enabled(s, NotifyAll) && Do(s, NotifyAll) == Lone(FallingAsleep, Notified)
  {
    assert WakeAll([FallingAsleep]) == [FallingAsleep];
  }

  lemma LoneSteps<T>()
    ensures var s: State<T> := Lone(Looking, NotStopped);
            Enabled(s, Look(0)) && Do(s, Look(0)) == Lone(FallingAsleep, NotStopped)
    ensures var s: State<T> := Lone(FallingAsleep, NotStopped);
            Enabled(s, SetStop) && Do(s, SetStop) == Lone(FallingAsleep, FlagSet)
    ensures var s: State<T> := Lone(FallingAsleep, Notified);
            Enabled(s, FallAsleep(0)) && Do(s, FallAsleep(0)) == Lone(Asleep, Notified)
  {
    hide WakeAll;
  }

  /** And that does happen. */
  lemma StopCanBeMissed<T>()
    ensures exists s: State<T>, acts ::
              IsInit(s) && IsRun(s, acts) && Last(s, acts) == Lone(Asleep, Notified)
  {
    LoneSteps<T>();
    LoneNotified<T>();
    var s, s4: State<T> := Lone(Looking, NotStopped), Lone(Asleep, Notified);
    assert IsInit(s);
    hide Do, Enabled, Lone, IsInit;
    var none: seq<Action<T>> := [];
    assert IsRun(s4, none) && Last(s4, none) == s4;
    RunBefore<T>(Lone(FallingAsleep, Notified), FallAsleep(0), none);
    RunBefore<T>(Lone(FallingAsleep, FlagSet), NotifyAll, [FallAsleep(0)] + none);
    RunBefore<T>(Lone(FallingAsleep, NotStopped), SetStop, [NotifyAll] + ([FallAsleep(0)] + none));
    RunBefore<T>(s, Look(0), [SetStop] + ([NotifyAll] + ([FallAsleep(0)] + none)));
  }
}
