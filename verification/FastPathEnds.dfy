/** After stop() the lcore comes to its end: however old the values are that its loads return, it
    can go on until it exits, and it exits within a number of its own steps that what is queued
    bounds. */
module FastPathEnds {
  import R = RingConcurrency
  import opened MbufPool
  import opened Pipeline
  import opened FastPathRuns
  import opened FastPathTheorems

  /** A step of the lcore that does not read an old value of the cleared flag. */
  predicate LcoreStep(a: Action)
  {
    a == LcCheck(false) || a.LcBegin? || a.LcRing? || a.LcLookup? || a.LcStamp? || a.LcCount? || a.LcCountDrop?
  }

  /** What it takes at most once the burst in hand is done. */
  function AfterBurst(draining: bool): nat
  {
    if draining then 2 else 3
  }

  /** Steps left within pop_burst. */
  function PopLeft(cons: R.ConsPc<nat>, queued: int, draining: bool): int
  {
    match cons
    case CCopy(_, _, n, out) => 8 * queued - 3 * n - |out| + 1 + AfterBurst(draining)
    case _ => 8 * queued + if draining then 1 else 4
  }

  /** More steps than this the lcore cannot take. */
  function StepsLeft(s: State): int
  {
    var queued, burst := |s.ring.pushed| - s.ring.taken, |s.batch| - s.i;
    match s.lc
    case Exited => 0
    case Check => 8 * queued + 3
    case Ready => 8 * queued + if s.draining then 2 else 5
    case Bursting => PopLeft(s.ring.cons, queued, s.draining)
    case Fetch => 8 * queued + 4 * burst + AfterBurst(s.draining)
    case Note => 8 * queued + 4 * burst - 1 + AfterBurst(s.draining)
    case Tally => 8 * queued + 4 * burst - 2 + AfterBurst(s.draining)
    case TallyDrop => 8 * queued + 4 * burst - 3 + AfterBurst(s.draining)
  }

  /** What the invariant says of the lcore's position. */
  ghost predicate Placed(s: State)
  {
    && |s.ring.ring.buf| >= 1 && RingLink(s)
    && s.ring.taken <= |s.ring.pushed| && |s.ring.pushed| in s.ring.headLog
    && s.ring.headSeen <= |s.ring.pushed| && (!s.running ==> s.stopMark <= |s.ring.pushed|)
    && (if InBatch(s) then s.i < |s.batch| else s.i == 0)
    && (forall k :: 0 <= k < |s.batch| ==> s.batch[k] < |s.mbufs|)
    && (s.ring.cons.CCopy? ==> Copying(s.ring))
  }

  predicate Copying(r: R.Sys<nat>)
    requires r.cons.CCopy?
  {
    1 <= r.cons.n && |r.cons.out| <= r.cons.n && r.taken + r.cons.n <= |r.pushed|
  }

  lemma InvPlaced(s: State, current: bool)
    requires Inv(s, current)
    ensures Placed(s)
  {
    RingPlaced(s.ring);
    hide R.Inv, MemoryOk, HandledOk, StatsOk, Decide;
    BatchSlots(s.batch, s.ring.pushed, s.ring.taken, s.accepted, s.slots, |s.mbufs|);
  }

  lemma BatchSlots(batch: seq<nat>, pushed: seq<nat>, taken: nat, accepted: seq<nat>, slots: seq<nat>, n: nat)
    requires BatchOk(batch, pushed, taken) && AcceptedOk(accepted, pushed, slots) && SlotsOk(slots, n)
    ensures forall k :: 0 <= k < |batch| ==> batch[k] < n
  {
    forall k | 0 <= k < |batch| ensures batch[k] < n {
      assert batch[k] == pushed[taken - |batch| + k] == slots[accepted[taken - |batch| + k]];
    }
  }

  lemma RingPlaced(r: R.Sys<nat>)
    requires R.Inv(r)
    ensures |r.ring.buf| >= 1 && r.taken <= |r.pushed| && |r.pushed| in r.headLog && r.headSeen <= |r.pushed|
    ensures r.cons.CCopy? ==> Copying(r)
  {
  }

  lemma LoadCount(s: State, seen: nat, current: bool)
    requires Inv(s, current) && Enabled(s, LcRing(R.LoadHead(seen)), current)
    ensures R.Available(s.ring, s.ring.headLog[seen], s.ring.cons.t) == seen - s.ring.taken
    ensures seen <= |s.ring.pushed|
  {
    R.InvLoadHead(s.ring, seen);
    hide R.Do;
  }

  /** One step nearer the end, with nothing published. */
  predicate Nearer(s: State, s': State)
  {
    StepsLeft(s') < StepsLeft(s) && s'.running == s.running && s'.ring.pushed == s.ring.pushed
  }

  lemma StepLoads(s: State, seen: nat, current: bool)
    requires Inv(s, current) && Placed(s) && Enabled(s, LcRing(R.LoadHead(seen)), current)
    ensures Nearer(s, Do(s, LcRing(R.LoadHead(seen)), current))
  {
    hide Inv, R.Available, Decide, InBatch, NextPacket, Copying;
    LoadCount(s, seen, current);
  }

  lemma StepCopies(s: State, b: R.Action<nat>, current: bool)
    requires Placed(s) && Enabled(s, LcRing(b), current) && (b.CopySlot? || b.PublishTail?)
    ensures Nearer(s, Do(s, LcRing(b), current))
  {
    hide R.Available, Decide, InBatch;
  }

  lemma StepHandles(s: State, a: Action, current: bool)
    requires Placed(s) && Enabled(s, a, current) && !s.running
    requires a == LcCheck(false) || a.LcBegin? || a.LcLookup? || a.LcStamp?
    ensures Nearer(s, Do(s, a, current))
  {
    hide Decide, Stamp;
  }

  lemma NextNearer(s: State, stats: Stats, out: seq<Packet>)
    requires Placed(s) && InPacket(s)
    ensures Nearer(s, NextPacket(s.(stats := stats, out := out)))
  {
    hide Copying, PopLeft, RingLink;
  }

  lemma StepCounts(s: State, a: Action, current: bool)
    requires Placed(s) && Enabled(s, a, current) && (a.LcCount? || a.LcCountDrop?)
    ensures Nearer(s, Do(s, a, current))
  {
    hide Decide, Placed, PopLeft, R.Enabled, R.Do, NextPacket;
    NextNearer(s, Do(s, a, current).stats, Do(s, a, current).out);
    NextNearer(s, s.stats.(dropped := s.stats.dropped + 1), s.out);
    if a.LcCount? && Decide(s.rules, s.cur) == Forward {
      NextNearer(s, s.stats.(forwarded := s.stats.forwarded + 1), s.out + [s.mbufs[s.batch[s.i]]]);
    }
  }

  lemma LcoreNearer(s: State, a: Action, current: bool)
    requires Inv(s, current) && Enabled(s, a, current) && LcoreStep(a) && !s.running
    ensures Nearer(s, Do(s, a, current))
  {
    hide Inv, Placed, Do, Nearer;
    InvPlaced(s, current);
    if a.LcRing? {
      match a.b
      case LoadHead(seen) => StepLoads(s, seen, current);
      case _ => StepCopies(s, a.b, current);
    } else if a.LcCount? || a.LcCountDrop? {
      StepCounts(s, a, current);
    } else {
      StepHandles(s, a, current);
    }
  }

  /** The step that the lcore can take next. */
  function NextStep(s: State): Action
  {
    match s.lc
    case Check => LcCheck(false)
    case Ready => LcBegin
    case Bursting =>
      LcRing(if s.ring.cons.CCopy? then if |s.ring.cons.out| < s.ring.cons.n then R.CopySlot else R.PublishTail
             else R.LoadHead(|s.ring.pushed|))
    case Fetch => LcLookup
    case Note => LcStamp
    case Tally => LcCount
    case _ => LcCountDrop
  }

  lemma LcoreCanGoOn(s: State, current: bool)
    requires Inv(s, current) && !s.running
    ensures (exists a :: LcoreStep(a) && Enabled(s, a, current)) <==> !s.lc.Exited?
  {
    hide Inv;
    InvPlaced(s, current);
    if !s.lc.Exited? {
      assert LcoreStep(NextStep(s)) && Enabled(s, NextStep(s), current);
    }
  }

  lemma LeftBounds(s: State)
    requires Placed(s)
    ensures 0 <= StepsLeft(s) <= 8 * (|s.ring.pushed| - s.ring.taken) + 4 * |s.batch| + 5
  {
  }

  lemma {:induction false} LcoreRun(s: State, acts: seq<Action>, current: bool)
    requires Inv(s, current) && !s.running && IsRun(s, acts, current) && forall a :: a in acts ==> LcoreStep(a)
    ensures var f := Last(s, acts, current);
            Inv(f, current) && !f.running && |acts| + StepsLeft(f) <= StepsLeft(s) && f.ring.pushed == s.ring.pushed
    decreases |acts|
  {
    hide Inv, Do, Enabled, LcoreStep, StepsLeft;
    if acts != [] {
      StepKeepsInv(s, acts[0], current);
      LcoreNearer(s, acts[0], current);
      LcoreRun(Do(s, acts[0], current), acts[1..], current);
    }
  }

  /** Once stop() was called, in every reachable state and whatever values its loads of head_ return:
      left to itself the lcore can always take a step until it has exited, and takes at most eight
      for each packet in the ring, four for each of the burst in hand, and five more. */
  lemma LcoreEnds(s: State, acts: seq<Action>, current: bool)
    requires Reachable(s, current) && !s.running
    requires IsRun(s, acts, current) && forall a :: a in acts ==> LcoreStep(a)
    ensures |acts| <= 8 * Queued(s) + 4 * |s.batch| + 5
    ensures (exists a :: LcoreStep(a) && Enabled(Last(s, acts, current), a, current))
            <==> !Last(s, acts, current).lc.Exited?
  {
    hide Reachable, Inv, Enabled, LcoreStep, Do, Placed;
    ReachableInv(s, current);
    LcoreRun(s, acts, current);
    var f := Last(s, acts, current);
    LcoreCanGoOn(f, current);
    InvPlaced(s, current);
    LeftBounds(s);
    InvPlaced(f, current);
    LeftBounds(f);
  }
}
