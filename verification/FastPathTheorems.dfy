/** What every run of the poll-mode path guarantees: counters, shutdown, order and contents. */
module FastPathTheorems {
  import opened Bits
  import R = RingConcurrency
  import opened MbufPool
  import opened Pipeline
  import opened FastPathRuns

  ghost predicate IsRun(s: State, acts: seq<Action>, current: bool)
    decreases |acts|
  {
    acts == [] || (Enabled(s, acts[0], current) && IsRun(Do(s, acts[0], current), acts[1..], current))
  }

  ghost function Last(s: State, acts: seq<Action>, current: bool): State
    requires IsRun(s, acts, current)
    decreases |acts|
  {
    if acts == [] then s else Last(Do(s, acts[0], current), acts[1..], current)
  }

  /** A state that some run from a fresh path reaches. */
  ghost predicate Reachable(f: State, current: bool)
  {
    exists s, acts :: IsInit(s) && IsRun(s, acts, current) && Last(s, acts, current) == f
  }

  lemma {:induction false} RunKeepsInv(s: State, acts: seq<Action>, current: bool)
    requires Inv(s, current) && IsRun(s, acts, current)
    ensures Inv(Last(s, acts, current), current)
    decreases |acts|
  {
    hide Inv, Do, Enabled;
    if acts != [] {
      StepKeepsInv(s, acts[0], current);
      RunKeepsInv(Do(s, acts[0], current), acts[1..], current);
    }
  }

  lemma ReachableInv(f: State, current: bool)
    requires Reachable(f, current)
    ensures Inv(f, current)
  {
    hide Inv, IsInit;
    var s, acts :| IsInit(s) && IsRun(s, acts, current) && Last(s, acts, current) == f;
    InitInv(s, current);
    RunKeepsInv(s, acts, current);
  }

  // ---------------------------------------------------------------- counters

  /** Packets inside rx_enqueue, in the ring, and in the burst being processed. */
  function InFlight(f: State): nat
  {
    if f.rx.RxIdle? then 0 else 1
  }

  function Queued(f: State): int
  {
    |f.ring.pushed| - f.ring.taken
  }

  function InBurst(f: State): int
  {
    |f.batch| - f.i
  }

  /** At every instant of every run each packet that entered rx_enqueue is in exactly one
      place: forwarded, dropped, in flight, queued or in the current burst. */
  lemma Accounting(f: State, current: bool)
    requires Reachable(f, current)
    ensures f.stats.rx == f.stats.forwarded + f.stats.dropped + InFlight(f) + Queued(f) + InBurst(f)
    ensures f.stats.noPdr <= f.stats.dropped + 1 && (!f.lc.TallyDrop? ==> f.stats.noPdr <= f.stats.dropped)
    ensures 0 <= Queued(f) && 0 <= InBurst(f)
  {
    ReachableInv(f, current);
    hide SlotsOk, MemoryOk, HandledOk, NextBefore, SlotOfAlloc, R.Inv, CountAll, ForwardedOf;
    CountAllTotals(f.rules, ZERO, Done(InPacket(f), f.handled));
  }

  /** At a quiescent point only the ring holds packets; nothing is inside either thread. */
  lemma QuiescentAccounting(f: State, current: bool)
    requires Reachable(f, current) && f.rx.RxIdle? && !InBatch(f)
    ensures f.stats.rx == f.stats.forwarded + f.stats.dropped + Queued(f)
  {
    Accounting(f, current);
    ReachableInv(f, current);
    hide SlotsOk, MemoryOk, HandledOk, AcceptedOk, StatsOk, BatchOk, NextBefore, SlotOfAlloc, R.Inv;
  }

  /** After the lcore thread has exited, everything published before stop() was called has been
      handled; if nothing was published afterwards, nothing is queued and every packet received
      was forwarded or dropped. It takes a lcore whose last loads of head_ are not older than
      stop(): StaleExit shows a run without that. */
  lemma StopDrains(f: State)
    requires Reachable(f, true) && f.lc.Exited?
    ensures f.stopMark <= f.ring.taken
    ensures |f.ring.pushed| == f.stopMark ==> Queued(f) == 0
    ensures |f.ring.pushed| == f.stopMark && f.rx.RxIdle? ==> f.stats.rx == f.stats.forwarded + f.stats.dropped
  {
    ReachableInv(f, true);
    hide SlotsOk, MemoryOk, HandledOk, AcceptedOk, StatsOk, BatchOk, NextBefore, SlotOfAlloc, R.Inv;
    Accounting(f, true);
  }

  // ---------------------------------------------------------------- contents

  /** Exactly whose packet the lcore finds in the buffer of the j-th accepted call a, however
      often the pool has come round: that of the last call, among the m that had filled their
      buffers by then, which was handed the buffer of a. It is the packet of a itself exactly
      as long as the next call to be handed that buffer is not among them. */
  lemma HandledContents(f: State, current: bool, j: nat)
    requires Reachable(f, current) && j < |f.handled|
    ensures |f.handled| == |f.seenAt| <= |f.accepted| && f.accepted[j] < f.seenAt[j] <= |f.calls|
    ensures PoolSize(|f.mbufs|)
    ensures var n, a, m := |f.mbufs|, f.accepted[j], f.seenAt[j];
            && Identity(f.handled[j]) == Identity(f.calls[LastUse(a, m, n)])
            && (LastUse(a, m, n) == a <==> m <= NextUse(a, n))
  {
    hide Inv, Mod, AcceptedOk, SlotOfAlloc, LastUse, NextUse;
    ReachableInv(f, current);
    HandledFacts(f, current);
    var n, a, m := |f.mbufs|, f.accepted[j], f.seenAt[j];
    SlotsAre(f, current);
    OwnUntil(a, m, n);
    var b := LastUse(a, m, n);
    assert Latest(f.slots, b, m) by {
      forall c | b < c < m ensures f.slots[c] != f.slots[b] {
        assert f.slots[c] == SlotOfAlloc(c, n);
      }
    }
    assert f.slots[b] == SlotOfAlloc(b, n) && f.slots[a] == SlotOfAlloc(a, n);
  }

  lemma HandledFacts(f: State, current: bool)
    requires Inv(f, current)
    ensures HandledOk(f.handled, f.seenAt, f.accepted, f.calls, f.slots)
  {
    hide MemoryOk, AcceptedOk, StatsOk, HandledOk, SlotsOk, BatchOk, R.Inv;
  }

  lemma SlotsAre(f: State, current: bool)
    requires Inv(f, current)
    ensures |f.slots| == |f.calls| && SlotsOk(f.slots, |f.mbufs|) && PoolSize(|f.mbufs|)
  {
    hide MemoryOk, AcceptedOk, StatsOk, HandledOk, SlotsOk, NextBefore, R.Inv, Mod;
  }

  // ---------------------------------------------------------------- buffers not refilled early

  /** How many accepted packets the lcore is done with: looked up, written to and counted. */
  function DoneWith(s: State): nat
  {
    |Done(InPacket(s), s.handled)|
  }

  /** The buffer about to be filled holds no accepted packet that the lcore is not done with. */
  ghost predicate MayFill(s: State)
    requires s.rx.RxSlot?
  {
    forall q :: DoneWith(s) <= q < |s.ring.pushed| ==> s.ring.pushed[q] != s.rx.slot
  }

  /** No step of the run fills a buffer that is still in use. */
  ghost predicate Unaliased(s: State, acts: seq<Action>, current: bool)
    requires IsRun(s, acts, current)
    decreases |acts|
  {
    acts == [] || ((acts[0].RxFill? ==> MayFill(s)) && Unaliased(Do(s, acts[0], current), acts[1..], current))
  }

  /** A state that such a run from a fresh path reaches, however long. */
  ghost predicate CleanlyReachable(f: State, current: bool)
  {
    exists s, acts :: IsInit(s) && IsRun(s, acts, current) && Unaliased(s, acts, current) && Last(s, acts, current) == f
  }

  lemma CleanIsReachable(f: State, current: bool)
    requires CleanlyReachable(f, current)
    ensures Reachable(f, current)
  {
    hide IsInit, Do, Enabled;
  }

  /** What was handled is what was accepted; what is still to be handled is in its buffers, which
      are distinct, also from that of the packet in hand. */
  ghost predicate HeldOk(mbufs: seq<Packet>, calls: seq<Packet>, accepted: seq<nat>, pushed: seq<nat>,
                         handled: seq<Packet>, done: nat)
    ensures HeldOk(mbufs, calls, accepted, pushed, handled, done) ==> |handled| <= |accepted| == |pushed|
  {
    && done <= |handled| <= |accepted| == |pushed|
    && (forall q :: 0 <= q < |accepted| ==> accepted[q] < |calls|)
    && (forall q :: 0 <= q < |handled| ==> handled[q] == calls[accepted[q]])
    && (forall q :: |handled| <= q < |pushed| ==> pushed[q] < |mbufs| && mbufs[pushed[q]] == calls[accepted[q]])
    && (forall q, r :: done <= q < r < |pushed| ==> pushed[q] != pushed[r])
  }

  /** A buffer filled and not yet pushed holds its packet and is not in use. */
  ghost predicate FilledOk(rx: RxPc, mbufs: seq<Packet>, calls: seq<Packet>, pushed: seq<nat>, done: nat)
  {
    rx.RxFilled? || rx.RxPush? ==>
      && calls != [] && rx.slot < |mbufs| && mbufs[rx.slot] == calls[|calls| - 1]
      && forall q :: done <= q < |pushed| ==> pushed[q] != rx.slot
  }

  /** No packet still to be handled has had its buffer handed out and filled again. */
  ghost predicate FreshOk(accepted: seq<nat>, n: nat, done: nat, filled: nat)
  {
    && PoolSize(n)
    && forall q :: done <= q < |accepted| ==> NextUse(accepted[q], n) >= filled
  }

  ghost predicate Clean(s: State)
  {
    && HeldOk(s.mbufs, s.calls, s.accepted, s.ring.pushed, s.handled, DoneWith(s))
    && FilledOk(s.rx, s.mbufs, s.calls, s.ring.pushed, DoneWith(s))
    && FreshOk(s.accepted, |s.mbufs|, DoneWith(s), Filled(s))
  }

  lemma HeldCall(mbufs: seq<Packet>, calls: seq<Packet>, accepted: seq<nat>, pushed: seq<nat>, handled: seq<Packet>,
                 done: nat, p: Packet)
    requires HeldOk(mbufs, calls, accepted, pushed, handled, done)
    ensures HeldOk(mbufs, calls + [p], accepted, pushed, handled, done)
  {
  }

  lemma HeldFill(mbufs: seq<Packet>, calls: seq<Packet>, accepted: seq<nat>, pushed: seq<nat>, handled: seq<Packet>,
                 done: nat, slot: nat, p: Packet)
    requires HeldOk(mbufs, calls, accepted, pushed, handled, done) && slot < |mbufs|
    requires forall q :: |handled| <= q < |pushed| ==> pushed[q] != slot
    ensures HeldOk(mbufs[slot := p], calls, accepted, pushed, handled, done)
  {
  }

  lemma HeldPublish(mbufs: seq<Packet>, calls: seq<Packet>, accepted: seq<nat>, pushed: seq<nat>, handled: seq<Packet>,
                    done: nat, slot: nat)
    requires HeldOk(mbufs, calls, accepted, pushed, handled, done) && calls != []
    requires slot < |mbufs| && mbufs[slot] == calls[|calls| - 1]
    requires forall q :: done <= q < |pushed| ==> pushed[q] != slot
    ensures HeldOk(mbufs, calls, accepted + [|calls| - 1], pushed + [slot], handled, done)
  {
  }

  lemma HeldLookup(mbufs: seq<Packet>, calls: seq<Packet>, accepted: seq<nat>, pushed: seq<nat>, handled: seq<Packet>,
                   done: nat)
    requires HeldOk(mbufs, calls, accepted, pushed, handled, done) && |handled| < |pushed|
    ensures pushed[|handled|] < |mbufs|
    ensures HeldOk(mbufs, calls, accepted, pushed, handled + [mbufs[pushed[|handled|]]], done)
  {
  }

  /** The packet in hand: the next accepted one when it is about to be looked up, the last one
      looked up after that. */
  lemma InHand(s: State, current: bool)
    requires Inv(s, current) && InBatch(s)
    ensures var j := if s.lc.Fetch? then |s.handled| else |s.handled| - 1;
            && 0 <= j < |s.ring.pushed| == |s.accepted| && s.i < |s.batch| && s.batch[s.i] == s.ring.pushed[j]
            && j == DoneWith(s)
  {
    hide MemoryOk, StatsOk, HandledOk, SlotsOk, NextBefore, SlotOfAlloc, R.Inv;
  }

  /** What a call that holds a buffer knows about it. */
  lemma CallInHand(s: State, current: bool)
    requires Inv(s, current) && InCall(s)
    ensures s.calls != [] && |s.calls| == |s.slots| && s.rx.slot == s.slots[|s.calls| - 1] < |s.mbufs|
    ensures s.rx.RxSlot? ==> s.rx.pkt == s.calls[|s.calls| - 1]
    ensures s.rx.RxPush? ==> s.ring.prod.val == s.rx.slot
  {
    hide MemoryOk, HandledOk, StatsOk, BatchOk, AcceptedOk, NextBefore, SlotOfAlloc, R.Inv;
  }

  lemma CleanRx(s: State, a: Action, current: bool)
    requires Clean(s) && Enabled(s, a, current) && (a.RxEnter? || a.RxAlloc? || a.RxBegin? || a.RxGiveUp?)
    ensures Clean(Do(s, a, current))
  {
    hide HeldOk, R.Enabled, Decide, NextUse, Done, Mask;
    if a.RxAlloc? {
      HeldCall(s.mbufs, s.calls, s.accepted, s.ring.pushed, s.handled, DoneWith(s), s.rx.pkt);
    }
  }

  lemma CleanRxFill(s: State, current: bool)
    requires Inv(s, current) && Clean(s) && Enabled(s, RxFill, current) && MayFill(s)
    ensures Clean(Do(s, RxFill, current))
  {
    hide Inv, Done;
    CallInHand(s, current);
    FillFresh(s, current);
    hide NextUse;
    HeldFill(s.mbufs, s.calls, s.accepted, s.ring.pushed, s.handled, DoneWith(s), s.rx.slot, s.rx.pkt);
  }

  /** The buffers of accepted packets, and of the call under way, are those of the allocator. */
  lemma BuffersAre(s: State, current: bool)
    requires Inv(s, current)
    ensures PoolSize(|s.mbufs|) && |s.accepted| == |s.ring.pushed|
    ensures forall q :: 0 <= q < |s.accepted| ==> s.ring.pushed[q] == SlotOfAlloc(s.accepted[q], |s.mbufs|)
    ensures forall q :: 0 <= q < |s.accepted| ==> s.accepted[q] < Filled(s)
    ensures InCall(s) ==> s.calls != [] && s.rx.slot == SlotOfAlloc(|s.calls| - 1, |s.mbufs|)
  {
    hide MemoryOk, HandledOk, StatsOk, BatchOk, NextBefore, SlotOfAlloc, R.Inv;
    forall q | 0 <= q < |s.accepted| ensures s.ring.pushed[q] == SlotOfAlloc(s.accepted[q], |s.mbufs|) {
      assert s.slots[s.accepted[q]] == SlotOfAlloc(s.accepted[q], |s.mbufs|);
    }
    if InCall(s) {
      assert s.slots[|s.calls| - 1] == SlotOfAlloc(|s.calls| - 1, |s.mbufs|);
    }
  }

  /** While no buffer in use has been refilled: the call about to fill its buffer finds it in use
      exactly if it is the next call after an accepted one, not yet done with, to be handed it. */
  lemma MayFillByCalls(s: State, current: bool)
    requires Inv(s, current) && s.rx.RxSlot? && FreshOk(s.accepted, |s.mbufs|, DoneWith(s), Filled(s))
    ensures s.calls != []
    ensures MayFill(s) <==>
            forall q :: DoneWith(s) <= q < |s.accepted| ==> NextUse(s.accepted[q], |s.mbufs|) != |s.calls| - 1
  {
    hide Inv, SlotOfAlloc, NextUse, Done;
    BuffersAre(s, current);
    var n, k := |s.mbufs|, |s.calls| - 1;
    forall q | DoneWith(s) <= q < |s.accepted|
      ensures s.ring.pushed[q] == s.rx.slot <==> NextUse(s.accepted[q], n) == k
    {
      NextUseIsNext(s.accepted[q], n);
    }
  }

  lemma FillFresh(s: State, current: bool)
    requires Inv(s, current) && Clean(s) && Enabled(s, RxFill, current) && MayFill(s)
    ensures FreshOk(s.accepted, |s.mbufs|, DoneWith(s), |s.calls|)
  {
    hide Inv, HeldOk, FilledOk, NextUse, Done, MayFill;
    MayFillByCalls(s, current);
  }

  lemma CleanRxRing(s: State, b: R.Action<nat>, current: bool)
    requires Inv(s, current) && Clean(s) && Enabled(s, RxRing(b), current)
    ensures Clean(Do(s, RxRing(b), current))
  {
    hide Inv, Clean, Do;
    if b.PublishHead? {
      CleanPublish(s, current);
    } else {
      CleanTry(s, b, current);
    }
  }

  lemma CleanTry(s: State, b: R.Action<nat>, current: bool)
    requires Clean(s) && Enabled(s, RxRing(b), current) && !b.PublishHead?
    ensures Clean(Do(s, RxRing(b), current))
  {
    hide Done, HeldOk, FreshOk, Mod, R.Available, Mask;
  }

  lemma CleanPublish(s: State, current: bool)
    requires Inv(s, current) && Clean(s) && Enabled(s, RxRing(R.PublishHead), current)
    ensures Clean(Do(s, RxRing(R.PublishHead), current))
  {
    hide Inv, Done, HeldOk, NextUse, Mod;
    CallInHand(s, current);
    HeldPublish(s.mbufs, s.calls, s.accepted, s.ring.pushed, s.handled, DoneWith(s), s.rx.slot);
    NextUseLater(|s.calls| - 1, |s.mbufs|);
  }

  lemma NextUseLater(a: nat, n: nat)
    requires PoolSize(n)
    ensures NextUse(a, n) > a
  {
  }

  lemma CleanLookup(s: State, current: bool)
    requires Inv(s, current) && Clean(s) && Enabled(s, LcLookup, current)
    ensures Clean(Do(s, LcLookup, current))
  {
    hide Inv, HeldOk, NextUse, Decide;
    InHand(s, current);
    HeldLookup(s.mbufs, s.calls, s.accepted, s.ring.pushed, s.handled, DoneWith(s));
  }

  lemma CleanStamp(s: State, current: bool)
    requires Inv(s, current) && Clean(s) && Enabled(s, LcStamp, current)
    ensures Clean(Do(s, LcStamp, current))
  {
    hide Inv, Clean, Decide;
    InHand(s, current);
    CleanWrite(s, Do(s, LcStamp, current), s.batch[s.i]);
  }

  /** The lcore writes into the buffer of the packet that it has looked up. */
  lemma CleanWrite(s: State, s': State, m: nat)
    requires Clean(s) && InPacket(s) && InPacket(s') && s.handled != [] && |s.handled| <= |s.ring.pushed|
    requires m == s.ring.pushed[|s.handled| - 1] < |s.mbufs|
    requires s' == s.(mbufs := s'.mbufs, lc := s'.lc)
    requires |s'.mbufs| == |s.mbufs| && s'.mbufs == s.mbufs[m := s'.mbufs[m]]
    ensures Clean(s')
  {
    StampFree(s, m);
    hide HeldOk, NextUse;
    HeldFill(s.mbufs, s.calls, s.accepted, s.ring.pushed, s.handled, DoneWith(s), m, s'.mbufs[m]);
  }

  lemma StampFree(s: State, m: nat)
    requires Clean(s) && InPacket(s) && s.handled != [] && |s.handled| <= |s.ring.pushed|
    requires m == s.ring.pushed[|s.handled| - 1]
    ensures forall q :: |s.handled| <= q < |s.ring.pushed| ==> s.ring.pushed[q] != m
    ensures s.rx.RxFilled? || s.rx.RxPush? ==> s.rx.slot != m
  {
    hide NextUse;
  }

  lemma CleanLoop(s: State, a: Action, current: bool)
    requires Clean(s) && Enabled(s, a, current) && (a.LcCheck? || a.LcBegin? || a.LcRing? || a.Stop?)
    ensures Clean(Do(s, a, current))
  {
    hide HeldOk, FreshOk, Decide, R.Available, Mask, Done;
    assert InPacket(Do(s, a, current)) == InPacket(s);
  }

  /** Being done with a packet frees its buffer. */
  lemma CleanLater(s: State, s': State)
    requires Clean(s) && s'.mbufs == s.mbufs && s'.calls == s.calls && s'.accepted == s.accepted && s'.rx == s.rx
    requires s'.ring == s.ring && s'.handled == s.handled && DoneWith(s) <= DoneWith(s')
    ensures Clean(s')
  {
    hide NextUse;
  }

  lemma CleanCount(s: State, a: Action, current: bool)
    requires Clean(s) && Enabled(s, a, current) && (a.LcCount? || a.LcCountDrop?)
    ensures Clean(Do(s, a, current))
  {
    hide Clean, Decide;
    CleanLater(s, Do(s, a, current));
  }

  lemma CleanStep(s: State, a: Action, current: bool)
    requires Inv(s, current) && Clean(s) && Enabled(s, a, current) && (a.RxFill? ==> MayFill(s))
    ensures Clean(Do(s, a, current))
  {
    hide Inv, Do, Clean;
    match a
    case RxFill => CleanRxFill(s, current);
    case LcLookup => CleanLookup(s, current);
    case LcStamp => CleanStamp(s, current);
    case RxRing(b) => CleanRxRing(s, b, current);
    case LcCheck(_) => CleanLoop(s, a, current);
    case LcBegin => CleanLoop(s, a, current);
    case LcRing(_) => CleanLoop(s, a, current);
    case LcCount => CleanCount(s, a, current);
    case LcCountDrop => CleanCount(s, a, current);
    case Stop => CleanLoop(s, a, current);
    case _ => CleanRx(s, a, current);
  }

  lemma InitClean(s: State)
    requires IsInit(s)
    ensures Clean(s)
  {
  }

  lemma {:induction false} RunKeepsClean(s: State, acts: seq<Action>, current: bool)
    requires Inv(s, current) && Clean(s) && IsRun(s, acts, current) && Unaliased(s, acts, current)
    ensures Clean(Last(s, acts, current))
    decreases |acts|
  {
    hide Do, Enabled, Inv, Clean, MayFill;
    if acts != [] {
      StepKeepsInv(s, acts[0], current);
      CleanStep(s, acts[0], current);
      RunKeepsClean(Do(s, acts[0], current), acts[1..], current);
    }
  }

  lemma ReachableClean(f: State, current: bool)
    requires CleanlyReachable(f, current)
    ensures Inv(f, current) && Clean(f)
  {
    hide Inv, Do, Clean, IsInit;
    var s, acts :| IsInit(s) && IsRun(s, acts, current) && Unaliased(s, acts, current) && Last(s, acts, current) == f;
    InitInv(s, current);
    InitClean(s);
    RunKeepsInv(s, acts, current);
    RunKeepsClean(s, acts, current);
  }

  /** Packets for which rx_enqueue returned true, in order. */
  ghost function AcceptedPackets(f: State): (ps: seq<Packet>)
    requires forall k :: 0 <= k < |f.accepted| ==> f.accepted[k] < |f.calls|
  {
    seq(|f.accepted|, k requires 0 <= k < |f.accepted| => f.calls[f.accepted[k]])
  }

  /** In every run of whatever length that fills no buffer still in use, the packets handled are a
      prefix of those accepted, in order and with unchanged contents, and the counters are those
      of that prefix plus the drops of rx_enqueue. */
  lemma CleanIsPrefix(f: State, current: bool)
    requires CleanlyReachable(f, current)
    ensures forall k :: 0 <= k < |f.accepted| ==> f.accepted[k] < |f.calls|
    ensures f.handled <= AcceptedPackets(f)
    ensures var t := CountAll(f.rules, ZERO, f.handled);
            !InPacket(f) ==> f.stats == Stats(f.stats.rx, t.forwarded, t.dropped + f.refused, t.noPdr)
  {
    hide Inv, CountAll, FilledOk, FreshOk;
    ReachableClean(f, current);
    assert f.handled == AcceptedPackets(f)[..|f.handled|];
    if !InPacket(f) {
      StatsOfHandled(f, current);
    }
  }

  lemma StatsOfHandled(f: State, current: bool)
    requires Inv(f, current) && !InPacket(f)
    ensures var t := CountAll(f.rules, ZERO, f.handled);
            f.stats == Stats(f.stats.rx, t.forwarded, t.dropped + f.refused, t.noPdr)
  {
    hide MemoryOk, HandledOk, SlotsOk, AcceptedOk, BatchOk, NextBefore, SlotOfAlloc, R.Inv, CountAll;
  }

  // ---------------------------------------------------------------- which runs those are

  /** The same by the numbers of the calls: no call k fills its buffer while an accepted call a
      with NextUse(a) == k is not done with. */
  ghost predicate NoEarlyReuse(s: State, acts: seq<Action>, current: bool)
    requires IsRun(s, acts, current)
    decreases |acts|
  {
    acts == []
    || ((acts[0].RxFill? ==> NotNextUse(s)) && NoEarlyReuse(Do(s, acts[0], current), acts[1..], current))
  }

  ghost predicate NotNextUse(s: State)
  {
    PoolSize(|s.mbufs|) &&
    forall q :: DoneWith(s) <= q < |s.accepted| ==> NextUse(s.accepted[q], |s.mbufs|) != |s.calls| - 1
  }

  lemma {:induction false} RunByCalls(s: State, acts: seq<Action>, current: bool)
    requires Inv(s, current) && Clean(s) && IsRun(s, acts, current)
    ensures Unaliased(s, acts, current) <==> NoEarlyReuse(s, acts, current)
    decreases |acts|
  {
    hide Do, Enabled, Inv, Clean, MayFill, NotNextUse;
    if acts != [] {
      if acts[0].RxFill? {
        FillEnabled(s, current);
        FillByCalls(s, current);
      }
      if acts[0].RxFill? ==> MayFill(s) {
        StepKeepsInv(s, acts[0], current);
        CleanStep(s, acts[0], current);
        RunByCalls(Do(s, acts[0], current), acts[1..], current);
      }
    }
  }

  lemma FillByCalls(s: State, current: bool)
    requires Inv(s, current) && Clean(s) && Enabled(s, RxFill, current)
    ensures MayFill(s) <==> NotNextUse(s)
  {
    hide Inv, HeldOk, FilledOk, NextUse, Done, MayFill;
    MayFillByCalls(s, current);
  }

  /** A run from a fresh path refills no buffer in use if and only if no call comes that is the
      next to be handed the buffer of an accepted one not yet done with. */
  lemma UnaliasedByCalls(s: State, acts: seq<Action>, current: bool)
    requires IsInit(s) && IsRun(s, acts, current)
    ensures Unaliased(s, acts, current) <==> NoEarlyReuse(s, acts, current)
  {
    hide Inv, Clean, IsInit;
    InitInv(s, current);
    InitClean(s);
    RunByCalls(s, acts, current);
  }

  lemma CallsOnlyGrow(s: State, a: Action, current: bool)
    requires Enabled(s, a, current)
    ensures |s.calls| <= |Do(s, a, current).calls| && |Do(s, a, current).mbufs| == |s.mbufs|
  {
    hide R.Do, R.Enabled, Decide, Stamp, AllocNext, AllocSlot, Filled;
  }

  lemma {:induction false} RunCallsGrow(s: State, acts: seq<Action>, current: bool)
    requires IsRun(s, acts, current)
    ensures |s.calls| <= |Last(s, acts, current).calls| && |Last(s, acts, current).mbufs| == |s.mbufs|
    decreases |acts|
  {
    hide Do, Enabled;
    if acts != [] {
      CallsOnlyGrow(s, acts[0], current);
      RunCallsGrow(Do(s, acts[0], current), acts[1..], current);
    }
  }

  /** Within the first pool_size calls every buffer is handed out for the first time. */
  lemma FirstUse(s: State, current: bool)
    requires Inv(s, current) && s.rx.RxSlot? && |s.calls| <= |s.mbufs|
    ensures MayFill(s)
  {
    hide Inv, SlotOfAlloc, Done;
    BuffersAre(s, current);
    var n, k := |s.mbufs|, |s.calls| - 1;
    AllocClosedForm(k, n);
    forall q | DoneWith(s) <= q < |s.accepted| ensures s.ring.pushed[q] != s.rx.slot {
      AllocClosedForm(s.accepted[q], n);
    }
  }

  lemma {:induction false} FewCallsUnaliased(s: State, acts: seq<Action>, current: bool)
    requires Inv(s, current) && IsRun(s, acts, current) && |Last(s, acts, current).calls| <= |s.mbufs|
    ensures Unaliased(s, acts, current)
    decreases |acts|
  {
    hide Do, Enabled, Inv, MayFill;
    if acts != [] {
      var s' := Do(s, acts[0], current);
      StepKeepsInv(s, acts[0], current);
      CallsOnlyGrow(s, acts[0], current);
      RunCallsGrow(s', acts[1..], current);
      if acts[0].RxFill? {
        FillEnabled(s, current);
        FirstUse(s, current);
      }
      FewCallsUnaliased(s', acts[1..], current);
    }
  }

  lemma FillEnabled(s: State, current: bool)
    requires Enabled(s, RxFill, current)
    ensures s.rx.RxSlot?
  {
  }

  lemma FewCallsClean(f: State, current: bool)
    requires Reachable(f, current) && |f.calls| <= |f.mbufs|
    ensures CleanlyReachable(f, current)
  {
    hide Inv, Do, Enabled, IsInit, MayFill;
    var s, acts :| IsInit(s) && IsRun(s, acts, current) && Last(s, acts, current) == f;
    InitInv(s, current);
    RunCallsGrow(s, acts, current);
    FewCallsUnaliased(s, acts, current);
  }

  /** In particular in every run with at most pool_size calls. */
  lemma HandledIsPrefix(f: State, current: bool)
    requires Reachable(f, current) && |f.calls| <= |f.mbufs|
    ensures forall k :: 0 <= k < |f.accepted| ==> f.accepted[k] < |f.calls|
    ensures f.handled <= AcceptedPackets(f)
    ensures var t := CountAll(f.rules, ZERO, f.handled);
            !InPacket(f) ==> f.stats == Stats(f.stats.rx, t.forwarded, t.dropped + f.refused, t.noPdr)
  {
    hide CleanlyReachable, Reachable;
    FewCallsClean(f, current);
    CleanIsPrefix(f, current);
  }

  /** And then the producer never copies into the buffer that the lcore has in hand. */
  lemma NoBufferRace(f: State, current: bool)
    requires Reachable(f, current) && |f.calls| <= |f.mbufs| && f.rx.RxSlot? && InBatch(f)
    ensures f.i < |f.batch| && f.rx.slot != f.batch[f.i]
  {
    hide Inv, Reachable, InBatch;
    ReachableInv(f, current);
    FirstUse(f, current);
    InHand(f, current);
  }
}
