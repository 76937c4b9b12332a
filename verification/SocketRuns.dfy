/** The socket path as threads run it: any number of threads calling enqueue, the worker, and
    a caller of stop(). Each section under the mutex is one action; the worker holds the mutex
    from evaluating its wait condition until it sleeps, but the running flag is set, and the
    condition variable signalled, without the mutex. */
module SocketRuns {
  import opened MbufPool
  import opened PfcpRules
  import opened Pipeline
  import opened SocketPath

  datatype EnqPc =
    | EnqIdle
    | EnqCounted(pkt: Packet)   // pkts_rx incremented, packet copied
    | EnqQueued                 // pushed, mutex released, not yet notified

  datatype WorkPc =
    | Turn                      // about to lock and look
    | FallingAsleep             // wait condition false, mutex still held
    | Asleep
    | Holding                   // packet taken, about to count
    | HoldingDrop               // no-PDR counted, drop not yet
    | Exited

  datatype StopPc = NotStopped | FlagCleared | StopNotified

  datatype State = State(
    rules: Rules,
    queue: seq<Packet>, stats: Stats, enqs: seq<EnqPc>, worker: WorkPc, draining: bool, stop: StopPc,
    // history
    accepted: seq<Packet>,  // packets pushed, in order
    refused: nat,           // packets dropped by enqueue
    handled: seq<Packet>,   // packets taken off the queue, in order
    out: seq<Packet>,       // packets forwarded, as annotated
    stopMark: nat)          // packets accepted when stop() cleared the flag

  datatype Action =
    | Enter(t: nat, pkt: Packet)
    | PushOrDrop(t: nat)
    | Notify(t: nat)
    | Look(saw: bool)          // saw: what the worker read from running_
    | FallAsleep
    | Wake                     // spurious
    | CountPacket
    | CountDrop
    | ClearFlag
    | NotifyStop

  ghost predicate IsInit(s: State)
  {
    && s.queue == [] && s.stats == ZERO && s.worker == Turn && !s.draining && s.stop == NotStopped
    && (forall t :: 0 <= t < |s.enqs| ==> s.enqs[t].EnqIdle?)
    && s.accepted == [] && s.refused == 0 && s.handled == [] && s.out == [] && s.stopMark == 0
  }

  predicate MutexFree(s: State)
  {
    !s.worker.FallingAsleep?
  }

  predicate Enabled(s: State, a: Action)
  {
    match a
    case Enter(t, _) => t < |s.enqs| && s.enqs[t].EnqIdle?
    case PushOrDrop(t) => t < |s.enqs| && s.enqs[t].EnqCounted? && MutexFree(s)
    case Notify(t) => t < |s.enqs| && s.enqs[t].EnqQueued?
    case Look(saw) => s.worker.Turn? && (saw || s.stop != NotStopped)
    case FallAsleep => s.worker.FallingAsleep?
    case Wake => s.worker.Asleep?
    case CountPacket => s.worker.Holding? && s.handled != []
    case CountDrop => s.worker.HoldingDrop?
    case ClearFlag => s.stop.NotStopped?
    case NotifyStop => s.stop.FlagCleared?
  }

  function Current(s: State): Packet
    requires s.handled != []
  {
    s.handled[|s.handled| - 1]
  }

  /** notify_one: reaches the worker only if it is asleep at this moment. */
  function Woken(w: WorkPc): WorkPc
  {
    if w.Asleep? then Turn else w
  }

  function Do(s: State, a: Action): State
    requires Enabled(s, a)
  {
    match a
    case Enter(t, pkt) =>
      s.(stats := s.stats.(rx := s.stats.rx + 1), enqs := s.enqs[t := EnqCounted(pkt)])
    case PushOrDrop(t) =>
      if |s.queue| >= MAX_QUEUE_DEPTH then
        s.(stats := s.stats.(dropped := s.stats.dropped + 1), refused := s.refused + 1, enqs := s.enqs[t := EnqIdle])
      else
        s.(queue := s.queue + [s.enqs[t].pkt], accepted := s.accepted + [s.enqs[t].pkt], enqs := s.enqs[t := EnqQueued])
    case Notify(t) => s.(enqs := s.enqs[t := EnqIdle], worker := Woken(s.worker))
    case Look(saw) =>
      if s.queue != [] then
        s.(queue := s.queue[1..], handled := s.handled + [s.queue[0]], worker := Holding)
      else if s.draining then s.(worker := Exited)
      else if saw then s.(worker := FallingAsleep)
      else s.(draining := true)
    case FallAsleep => s.(worker := Asleep)
    case Wake => s.(worker := Turn)
    case CountPacket =>
      match Decide(s.rules, Current(s)) {
        case NoPdr => s.(stats := s.stats.(noPdr := s.stats.noPdr + 1), worker := HoldingDrop)
        case FarDrop => s.(stats := s.stats.(dropped := s.stats.dropped + 1), worker := Turn)
        case Forward => s.(stats := s.stats.(forwarded := s.stats.forwarded + 1), worker := Turn,
                           out := s.out + [Annotate(s.rules, Current(s))])
      }
    case CountDrop => s.(stats := s.stats.(dropped := s.stats.dropped + 1), worker := Turn)
    case ClearFlag => s.(stop := FlagCleared, stopMark := |s.accepted|)
    case NotifyStop => s.(stop := StopNotified, worker := Woken(s.worker))
  }

  // ---------------------------------------------------------------- invariant

  /** Threads between counting a packet and queueing or dropping it. */
  function Entering(enqs: seq<EnqPc>): nat
  {
    if enqs == [] then 0
    else Entering(enqs[..|enqs| - 1]) + if enqs[|enqs| - 1].EnqCounted? then 1 else 0
  }

  predicate InHand(s: State)
  {
    s.worker.Holding? || s.worker.HoldingDrop?
  }

  ghost predicate QueueInv(s: State)
  {
    && s.accepted == s.handled + s.queue && |s.queue| <= MAX_QUEUE_DEPTH
    && s.stats.rx == |s.accepted| + s.refused + Entering(s.enqs)
  }

  ghost predicate WorkerInv(s: State)
  {
    && (InHand(s) ==> s.handled != [])
    && (s.worker.HoldingDrop? ==> s.handled != [] && Decide(s.rules, Current(s)) == NoPdr)
    && (s.draining ==> s.stop != NotStopped && !s.worker.FallingAsleep? && !s.worker.Asleep?)
    && (s.stop != NotStopped ==> s.stopMark <= |s.accepted|)
    && (s.worker.Exited? ==> s.draining && s.stopMark <= |s.handled|)
  }

  ghost predicate TallyInv(s: State)
  {
    && StatsOk(s.stats, s.rules, Done(InHand(s), s.handled), if s.worker.HoldingDrop? then 1 else 0, s.refused)
    && s.out == ForwardedOf(s.rules, Done(InHand(s), s.handled))
  }

  /** A sleeping worker with work to do is about to be notified. */
  ghost predicate WakeInv(s: State)
  {
    && (s.worker.FallingAsleep? ==> s.queue == [])
    && (s.worker.Asleep? && s.queue != [] ==> exists t :: 0 <= t < |s.enqs| && s.enqs[t].EnqQueued?)
  }

  ghost predicate Inv(s: State)
  {
    QueueInv(s) && WorkerInv(s) && TallyInv(s) && WakeInv(s)
  }

  lemma {:induction false} NoneEntering(enqs: seq<EnqPc>)
    requires forall t :: 0 <= t < |enqs| ==> enqs[t].EnqIdle?
    ensures Entering(enqs) == 0
  {
    if enqs != [] {
      NoneEntering(enqs[..|enqs| - 1]);
    }
  }

  lemma {:induction false} EnteringUpdate(enqs: seq<EnqPc>, t: nat, pc: EnqPc)
    requires t < |enqs|
    ensures Entering(enqs[t := pc]) ==
            Entering(enqs) + (if pc.EnqCounted? then 1 else 0) - (if enqs[t].EnqCounted? then 1 else 0)
  {
    var init := enqs[..|enqs| - 1];
    if t == |enqs| - 1 {
      assert enqs[t := pc][..t] == init;
    } else {
      assert enqs[t := pc][..|enqs| - 1] == init[t := pc];
      EnteringUpdate(init, t, pc);
    }
  }

  lemma InitInv(s: State)
    requires IsInit(s)
    ensures Inv(s)
  {
    NoneEntering(s.enqs);
  }

  lemma KeepEnq(s: State, a: Action)
    requires Inv(s) && Enabled(s, a) && (a.Enter? || a.PushOrDrop?)
    ensures Inv(Do(s, a))
  {
    hide Decide, Entering, StatsOk, ForwardedOf, Done;
    var s' := Do(s, a);
    EnteringUpdate(s.enqs, a.t, s'.enqs[a.t]);
    StatsRefused(s.stats, s.rules, Done(InHand(s), s.handled), if s.worker.HoldingDrop? then 1 else 0, s.refused);
    assert s'.enqs[a.t].EnqQueued? ==> s'.accepted == s'.handled + s'.queue;
    forall t | 0 <= t < |s.enqs| && s.enqs[t].EnqQueued? ensures s'.enqs[t].EnqQueued? {
    }
  }

  lemma KeepNotify(s: State, a: Action)
    requires Inv(s) && Enabled(s, a) && (a.Notify? || a.NotifyStop? || a.ClearFlag?)
    ensures Inv(Do(s, a))
  {
    hide Decide, Entering, StatsOk, ForwardedOf, Done;
    if a.Notify? {
      EnteringUpdate(s.enqs, a.t, EnqIdle);
    }
  }

  lemma KeepLook(s: State, a: Action)
    requires Inv(s) && Enabled(s, a) && (a.Look? || a.FallAsleep? || a.Wake?)
    ensures Inv(Do(s, a))
  {
    hide Decide, Entering, StatsOk, ForwardedOf;
    var s' := Do(s, a);
    assert s'.handled + s'.queue == s.handled + s.queue;
    assert a.Look? && s.queue != [] ==> Done(true, s'.handled) == s.handled;
  }

  lemma KeepCount(s: State, a: Action)
    requires Inv(s) && Enabled(s, a) && (a.CountPacket? || a.CountDrop?)
    ensures Inv(Do(s, a))
  {
    hide Decide, Entering, StatsOk, Annotate;
    if a.CountPacket? {
      StatsCounted(s.stats, s.rules, s.handled, s.refused);
    } else {
      StatsCountedDrop(s.stats, s.rules, s.handled, s.refused);
    }
  }

  lemma StepKeepsInv(s: State, a: Action)
    requires Inv(s) && Enabled(s, a)
    ensures Inv(Do(s, a))
  {
    hide Inv, Do, Enabled;
    match a
    case Enter(_, _) => KeepEnq(s, a);
    case PushOrDrop(_) => KeepEnq(s, a);
    case Notify(_) => KeepNotify(s, a);
    case NotifyStop => KeepNotify(s, a);
    case ClearFlag => KeepNotify(s, a);
    case CountPacket => KeepCount(s, a);
    case CountDrop => KeepCount(s, a);
    case _ => KeepLook(s, a);
  }

  // ---------------------------------------------------------------- runs

  ghost predicate IsRun(s: State, acts: seq<Action>)
    decreases |acts|
  {
    acts == [] || (Enabled(s, acts[0]) && IsRun(Do(s, acts[0]), acts[1..]))
  }

  ghost function Last(s: State, acts: seq<Action>): State
    requires IsRun(s, acts)
    decreases |acts|
  {
    if acts == [] then s else Last(Do(s, acts[0]), acts[1..])
  }

  ghost predicate Reachable(f: State)
  {
    exists s, acts :: IsInit(s) && IsRun(s, acts) && Last(s, acts) == f
  }

  lemma {:induction false} RunKeepsInv(s: State, acts: seq<Action>)
    requires Inv(s) && IsRun(s, acts)
    ensures Inv(Last(s, acts))
    decreases |acts|
  {
    hide Inv, Do, Enabled;
    if acts != [] {
      StepKeepsInv(s, acts[0]);
      RunKeepsInv(Do(s, acts[0]), acts[1..]);
    }
  }

  lemma ReachableInv(f: State)
    requires Reachable(f)
    ensures Inv(f)
  {
    hide Inv, IsInit;
    var s, acts :| IsInit(s) && IsRun(s, acts) && Last(s, acts) == f;
    InitInv(s);
    RunKeepsInv(s, acts);
  }

  // ---------------------------------------------------------------- what every run guarantees

  /** Packets leave the queue in the order in which they were accepted, unchanged; the counters
      are those of the packets taken plus the drops of enqueue; what was forwarded is what the
      rules make of them. */
  lemma FifoAndCounted(f: State)
    requires Reachable(f)
    ensures f.accepted == f.handled + f.queue && |f.queue| <= 4096
    ensures !InHand(f) ==>
              && f.out == ForwardedOf(f.rules, f.handled)
              && var t := CountAll(f.rules, ZERO, f.handled);
                 f.stats == Stats(f.stats.rx, t.forwarded, t.dropped + f.refused, t.noPdr)
    ensures f.stats.rx == f.stats.forwarded + f.stats.dropped + |f.queue| + Entering(f.enqs)
                          + if InHand(f) then 1 else 0
  {
    hide Entering;
    ReachableInv(f);
    CountAllTotals(f.rules, ZERO, Done(InHand(f), f.handled));
  }

  /** Work never waits on a sleeping worker that nobody is about to wake. */
  lemma NoLostWakeup(f: State)
    requires Reachable(f) && f.worker.Asleep? && f.queue != []
    ensures exists t :: 0 <= t < |f.enqs| && f.enqs[t].EnqQueued?
  {
    ReachableInv(f);
  }

  /** When the worker has exited, every packet accepted before stop() was handled; if none came
      later, nothing is queued and every packet received was forwarded or dropped. */
  lemma StopDrains(f: State)
    requires Reachable(f) && f.worker.Exited?
    ensures f.stopMark <= |f.handled|
    ensures |f.accepted| == f.stopMark ==> f.queue == []
    ensures |f.accepted| == f.stopMark && Entering(f.enqs) == 0 ==> f.stats.rx == f.stats.forwarded + f.stats.dropped
  {
    ReachableInv(f);
    FifoAndCounted(f);
  }

  // ---------------------------------------------------------------- the worker comes to its end

  /** A step of the worker that does not read an old value of the cleared flag. */
  predicate WorkerStep(a: Action)
  {
    a == Look(false) || a.CountPacket? || a.CountDrop?
  }

  /** More steps than this the worker cannot take. */
  function StepsLeft(s: State): nat
  {
    3 * |s.queue| + match s.worker
                    case Holding => if s.draining then 3 else 4
                    case HoldingDrop => if s.draining then 2 else 3
                    case Exited => 0
                    case _ => if s.draining then 1 else 2
  }

  lemma WorkerGoesOn(s: State, a: Action)
    requires Inv(s) && s.stop != NotStopped && !Sleeping(s.worker) && WorkerStep(a) && Enabled(s, a)
    ensures var s' := Do(s, a);
            && Inv(s') && s'.stop != NotStopped && !Sleeping(s'.worker) && StepsLeft(s') < StepsLeft(s)
            && s'.accepted == s.accepted && (s'.worker.Exited? ==> s'.queue == [])
  {
    hide TallyInv, WakeInv, Decide, Annotate, StatsOk, ForwardedOf;
    StepKeepsInv(s, a);
  }

  lemma WorkerCanGoOn(s: State)
    requires Inv(s) && s.stop != NotStopped && !Sleeping(s.worker)
    ensures (exists a :: WorkerStep(a) && Enabled(s, a)) <==> !s.worker.Exited?
  {
    hide QueueInv, TallyInv, WakeInv;
    if s.worker.Turn? {
      assert WorkerStep(Look(false)) && Enabled(s, Look(false));
    } else if s.worker.Holding? {
      assert WorkerStep(CountPacket) && Enabled(s, CountPacket);
    } else if s.worker.HoldingDrop? {
      assert WorkerStep(CountDrop) && Enabled(s, CountDrop);
    }
  }

  lemma {:induction false} WorkerRun(s: State, acts: seq<Action>)
    requires Inv(s) && s.stop != NotStopped && !Sleeping(s.worker)
    requires IsRun(s, acts) && forall a :: a in acts ==> WorkerStep(a)
    ensures var f := Last(s, acts);
            && Inv(f) && f.stop != NotStopped && !Sleeping(f.worker) && |acts| + StepsLeft(f) <= StepsLeft(s)
            && f.accepted == s.accepted && (acts != [] && f.worker.Exited? ==> f.queue == [])
    decreases |acts|
  {
    hide Inv, Do, Enabled, WorkerStep, StepsLeft;
    if acts != [] {
      WorkerGoesOn(s, acts[0]);
      WorkerRun(Do(s, acts[0]), acts[1..]);
    }
  }

  /** After stop(), a worker that is not asleep comes to its end: left to itself it can always go
      on until it has exited, takes at most three steps for each packet still queued and four
      more, and has then handled every packet accepted. */
  lemma WorkerEnds(s: State, acts: seq<Action>)
    requires Reachable(s) && s.stop != NotStopped && !Sleeping(s.worker) && !s.worker.Exited?
    requires IsRun(s, acts) && forall a :: a in acts ==> WorkerStep(a)
    ensures var f := Last(s, acts);
            && |acts| <= 3 * |s.queue| + 4
            && ((exists a :: WorkerStep(a) && Enabled(f, a)) <==> !f.worker.Exited?)
            && (f.worker.Exited? ==> f.queue == [] && f.handled == s.accepted)
  {
    ReachableInv(s);
    WorkerRun(s, acts);
    WorkerCanGoOn(Last(s, acts));
    assert Last(s, acts).handled + [] == Last(s, acts).handled;
    hide TallyInv, WakeInv;
  }

  // ---------------------------------------------------------------- the notification of stop()

  predicate Sleeping(w: WorkPc)
  {
    w.FallingAsleep? || w.Asleep?
  }

  predicate AllIdle(enqs: seq<EnqPc>)
  {
    forall t :: 0 <= t < |enqs| ==> enqs[t].EnqIdle?
  }

  /** No new packet, no spurious wake-up, and no look at the flag that still sees it set. */
  predicate Quiet(a: Action)
  {
    !a.Enter? && !a.Wake? && (a.Look? ==> !a.saw)
  }

  lemma QuietStep(s: State, a: Action)
    requires Enabled(s, a) && Quiet(a) && AllIdle(s.enqs) && s.stop.StopNotified?
    ensures var s' := Do(s, a);
            AllIdle(s'.enqs) && s'.stop.StopNotified? && (Sleeping(s'.worker) <==> Sleeping(s.worker))
  {
    hide Decide, Annotate;
  }

  lemma {:induction false} QuietRun(s: State, acts: seq<Action>)
    requires IsRun(s, acts) && (forall a :: a in acts ==> Quiet(a)) && AllIdle(s.enqs) && s.stop.StopNotified?
    ensures Sleeping(Last(s, acts).worker) <==> Sleeping(s.worker)
    decreases |acts|
  {
    hide Do, Enabled, Quiet, AllIdle, Sleeping;
    if acts != [] {
      QuietStep(s, acts[0]);
      QuietRun(Do(s, acts[0]), acts[1..]);
    }
  }

  /** Exactly when the notification of stop() is missed. With no packet on its way in, and none
      coming: whatever happens after it, spurious wake-ups aside, the worker sleeps, and goes on
      sleeping, if and only if it had looked at the flag and was not yet asleep when notified. */
  lemma StopMissedExactly(s: State, acts: seq<Action>)
    requires Enabled(s, NotifyStop) && AllIdle(s.enqs)
    requires IsRun(Do(s, NotifyStop), acts) && forall a :: a in acts ==> Quiet(a)
    ensures Sleeping(Last(Do(s, NotifyStop), acts).worker) <==> s.worker.FallingAsleep?
  {
    QuietRun(Do(s, NotifyStop), acts);
  }

  /** And that does happen: a run in which the notification falls between the worker's look at the
      flag and its going to sleep. */
  lemma StopCanBeMissed(rules: Rules)
    ensures exists f :: Reachable(f) && f.worker.Asleep? && f.stop.StopNotified?
                        && forall t :: 0 <= t < |f.enqs| ==> f.enqs[t].EnqIdle?
  {
    var s := State(rules, [], ZERO, [], Turn, false, NotStopped, [], 0, [], [], 0);
    var acts := [Look(true), ClearFlag, NotifyStop, FallAsleep];
    assert IsRun(s, acts) && Last(s, acts).worker.Asleep? && Last(s, acts).stop.StopNotified? by {
      var s1 := Do(s, acts[0]);
      var s2 := Do(s1, acts[1]);
      var s3 := Do(s2, acts[2]);
      assert acts[1..] == [ClearFlag, NotifyStop, FallAsleep];
      assert acts[1..][1..] == [NotifyStop, FallAsleep];
      assert acts[1..][1..][1..] == [FallAsleep];
      assert acts[1..][1..][1..][1..] == [];
    }
  }
}
