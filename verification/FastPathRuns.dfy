/** The whole poll-mode path: one thread calling rx_enqueue, the lcore thread, and a caller of
    stop(), interleaved at every access to shared memory (cursors, ring slots, buffers,
    counters, the running flag). next_ is touched by the producer only; in_use is never read. */
module FastPathRuns {
  import opened Bits
  import R = RingConcurrency
  import opened MbufPool
  import opened PfcpRules
  import opened Pipeline

  const BURST: nat := 32

  datatype RxPc =
    | RxIdle
    | RxCounted(pkt: Packet)             // pkts_rx incremented
    | RxSlot(pkt: Packet, slot: nat)     // buffer obtained
    | RxFilled(slot: nat)                // packet copied in
    | RxPush(slot: nat)                  // inside ring push
    | RxRefused(slot: nat)               // push returned false, drop not yet counted

  datatype LcPc =
    | Check                              // about to test running_
    | Ready                              // about to call pop_burst
    | Bursting                           // inside pop_burst
    | Fetch                              // about to look up batch[i]
    | Note                               // PDR found, fields not yet written
    | Tally                              // about to count
    | TallyDrop                          // no-PDR counted, drop not yet
    | Exited

  datatype State = State(
    rules: Rules,
    ring: R.Sys<nat>, next: nat, mbufs: seq<Packet>, stats: Stats, running: bool,
    rx: RxPc, lc: LcPc, draining: bool, batch: seq<nat>, i: nat, cur: Packet,
    // history
    calls: seq<Packet>,     // packet of every call that obtained a buffer
    slots: seq<nat>,        // the buffer each of them obtained
    accepted: seq<nat>,     // which of those calls returned true
    refused: nat,           // how many drops were counted by rx_enqueue
    handled: seq<Packet>,   // contents looked up by the lcore, in order
    seenAt: seq<nat>,       // how many calls had filled their buffer at that look-up
    out: seq<Packet>,       // what the buffers of the forwarded packets held, in order
    stopMark: nat)          // items published when stop() was called

  datatype Action =
    | RxEnter(pkt: Packet) | RxAlloc | RxFill | RxBegin | RxRing(a: R.Action<nat>) | RxGiveUp
    | LcCheck(saw: bool) | LcBegin | LcRing(b: R.Action<nat>)
    | LcLookup | LcStamp | LcCount | LcCountDrop
    | Stop

  ghost predicate IsInit(s: State)
  {
    && R.IsInit(s.ring) && PoolSize(|s.mbufs|)
    && s.next == 0 && s.stats == ZERO && s.running
    && s.rx == RxIdle && s.lc == Check && !s.draining && s.batch == [] && s.i == 0
    && s.calls == [] && s.slots == [] && s.accepted == [] && s.refused == 0
    && s.handled == [] && s.seenAt == [] && s.out == []
    && s.stopMark == 0
  }

  /** current: a load of head_ made after running_ was read as false sees at least what had been
      published when stop() was called. The relaxed load of running_ does not promise this. */
  predicate Enabled(s: State, a: Action, current: bool)
  {
    && |s.ring.ring.buf| >= 1
    && match a
       case RxEnter(_) => s.rx.RxIdle?
       case RxAlloc => s.rx.RxCounted?
       case RxFill => s.rx.RxSlot? && s.rx.slot < |s.mbufs|
       case RxBegin => s.rx.RxFilled? && R.Enabled(s.ring, R.BeginPush(s.rx.slot))
       case RxRing(b) =>
         && s.rx.RxPush? && (b.LoadTail? || b.WriteSlot? || b.PublishHead?) && R.Enabled(s.ring, b)
       case RxGiveUp => s.rx.RxRefused?
       case LcCheck(saw) => s.lc.Check? && (saw || !s.running)
       case LcBegin => s.lc.Ready? && R.Enabled(s.ring, R.BeginPop(BURST))
       case LcRing(b) =>
         && s.lc.Bursting? && (b.LoadHead? || b.CopySlot? || b.PublishTail?) && R.Enabled(s.ring, b)
         && (current && s.draining && b.LoadHead? ==> b.seen >= s.stopMark)
       case LcLookup => s.lc.Fetch? && s.i < |s.batch| && s.batch[s.i] < |s.mbufs|
       case LcStamp => s.lc.Note? && s.i < |s.batch| && s.batch[s.i] < |s.mbufs|
       case LcCount => s.lc.Tally? && s.i < |s.batch| && s.batch[s.i] < |s.mbufs|
       case LcCountDrop => s.lc.TallyDrop?
       case Stop => s.running
  }

  /** Calls whose packet is already in its buffer. */
  function Filled(s: State): nat
  {
    FilledOf(s.rx.RxSlot?, |s.calls|)
  }

  function FilledOf(copying: bool, calls: nat): nat
  {
    if copying && calls > 0 then calls - 1 else calls
  }

  /** After a packet: the next one of the burst, or back to the loop that popped it. */
  function NextPacket(s: State): State
  {
    if s.i + 1 < |s.batch| then s.(i := s.i + 1, lc := Fetch)
    else s.(i := 0, batch := [], lc := if s.draining then Ready else Check)
  }

  function Do(s: State, a: Action, current: bool): State
    requires Enabled(s, a, current)
  {
    match a
    case RxEnter(pkt) => s.(stats := s.stats.(rx := s.stats.rx + 1), rx := RxCounted(pkt))
    case RxAlloc =>
      var slot := AllocSlot(s.next, |s.mbufs|);
      s.(next := AllocNext(s.next, |s.mbufs|), calls := s.calls + [s.rx.pkt],
         slots := s.slots + [slot], rx := RxSlot(s.rx.pkt, slot))
    case RxFill => s.(mbufs := s.mbufs[s.rx.slot := s.rx.pkt], rx := RxFilled(s.rx.slot))
    case RxBegin => s.(ring := R.Do(s.ring, R.BeginPush(s.rx.slot)), rx := RxPush(s.rx.slot))
    case RxRing(b) =>
      var ring' := R.Do(s.ring, b);
      if b.PublishHead? then
        s.(ring := ring', rx := RxIdle, accepted := s.accepted + [if s.calls == [] then 0 else |s.calls| - 1])
      else if ring'.prod.PIdle? then s.(ring := ring', rx := RxRefused(s.rx.slot))
      else s.(ring := ring')
    case RxGiveUp =>
      s.(stats := s.stats.(dropped := s.stats.dropped + 1), refused := s.refused + 1, rx := RxIdle)
    case LcCheck(saw) => s.(draining := !saw, lc := Ready)
    case LcBegin => s.(ring := R.Do(s.ring, R.BeginPop(BURST)), lc := Bursting)
    case LcRing(b) =>
      var ring' := R.Do(s.ring, b);
      if b.PublishTail? then s.(ring := ring', lc := Fetch, batch := s.ring.cons.out, i := 0)
      else if ring'.cons.CIdle? then
        if s.draining then s.(ring := ring', lc := Exited)
        else s.(ring := ring', lc := Check)
      else s.(ring := ring')
    case LcLookup =>
      var p := s.mbufs[s.batch[s.i]];
      s.(cur := p, handled := s.handled + [p], seenAt := s.seenAt + [Filled(s)],
         lc := if Decide(s.rules, p) == NoPdr then Tally else Note)
    case LcStamp =>
      var m := s.batch[s.i];
      s.(mbufs := s.mbufs[m := Stamp(s.rules, s.cur, s.mbufs[m])], lc := Tally)
    case LcCount =>
      match Decide(s.rules, s.cur) {
        case NoPdr => s.(stats := s.stats.(noPdr := s.stats.noPdr + 1), lc := TallyDrop)
        case FarDrop => NextPacket(s.(stats := s.stats.(dropped := s.stats.dropped + 1)))
        case Forward =>
          NextPacket(s.(stats := s.stats.(forwarded := s.stats.forwarded + 1), out := s.out + [s.mbufs[s.batch[s.i]]]))
      }
    case LcCountDrop => NextPacket(s.(stats := s.stats.(dropped := s.stats.dropped + 1)))
    case Stop => s.(running := false, stopMark := |s.ring.pushed|)
  }

  // ---------------------------------------------------------------- invariant

  predicate InCall(s: State)
  {
    s.rx.RxSlot? || s.rx.RxFilled? || s.rx.RxPush? || s.rx.RxRefused?
  }

  predicate InPacket(s: State)
  {
    s.lc.Note? || s.lc.Tally? || s.lc.TallyDrop?
  }

  predicate InBatch(s: State)
  {
    s.lc.Fetch? || InPacket(s)
  }

  /** How the two threads' positions relate to the ring's own program counters. */
  ghost predicate RingLink(s: State)
  {
    && (s.ring.prod.PIdle? <==> !s.rx.RxPush?)
    && (s.rx.RxPush? ==> s.ring.prod.val == s.rx.slot)
    && (s.ring.cons.CIdle? <==> !s.lc.Bursting?)
    && (!s.ring.cons.CIdle? ==> s.ring.cons.max == BURST)
  }

  ghost predicate PoolInv(s: State)
  {
    && PoolSize(|s.mbufs|)
    && s.next == NextBefore(|s.calls|, |s.mbufs|)
    && |s.slots| == |s.calls|
    && SlotsOk(s.slots, |s.mbufs|)
    && (InCall(s) ==> s.calls != [] && s.rx.slot == s.slots[|s.calls| - 1])
    && (s.rx.RxSlot? ==> s.rx.pkt == s.calls[|s.calls| - 1])
  }

  ghost predicate SlotsOk(slots: seq<nat>, n: nat)
  {
    && (forall k {:trigger SlotOfAlloc(k, n)} :: 0 <= k < |slots| ==> slots[k] == SlotOfAlloc(k, n))
    && (forall k :: 0 <= k < |slots| ==> slots[k] < n)
  }

  /** Accepted calls, in increasing order, and the buffers published for them. */
  ghost predicate AcceptedOk(accepted: seq<nat>, pushed: seq<nat>, slots: seq<nat>)
    ensures AcceptedOk(accepted, pushed, slots) ==> |accepted| == |pushed|
  {
    && |accepted| == |pushed|
    && (forall k :: 0 <= k < |accepted| ==> accepted[k] < |slots| && pushed[k] == slots[accepted[k]])
    && (forall j, k :: 0 <= j < k < |accepted| ==> accepted[j] < accepted[k])
  }

  ghost predicate CallsInv(s: State)
  {
    && AcceptedOk(s.accepted, s.ring.pushed, s.slots)
    && (InCall(s) && s.accepted != [] ==> s.accepted[|s.accepted| - 1] < |s.calls| - 1)
    && |s.calls| == |s.accepted| + s.refused + (if InCall(s) then 1 else 0)
    && s.stats.rx == |s.calls| + (if s.rx.RxCounted? then 1 else 0)
  }

  /** No call between k and m got the same buffer. */
  ghost predicate Latest(slots: seq<nat>, k: nat, m: nat)
    requires k < m <= |slots|
  {
    forall b :: k < b < m ==> slots[b] != slots[k]
  }

  /** A buffer holds the packet of the last call that filled it. */
  ghost predicate MemoryOk(mbufs: seq<Packet>, calls: seq<Packet>, slots: seq<nat>, filled: nat)
    ensures MemoryOk(mbufs, calls, slots, filled) ==> filled <= |calls| == |slots|
  {
    && filled <= |calls| == |slots|
    && forall k {:trigger Latest(slots, k, filled)} :: 0 <= k < filled && Latest(slots, k, filled) ==>
         slots[k] < |mbufs| && Identity(mbufs[slots[k]]) == Identity(calls[k])
  }

  /** The burst being processed is the last part removed from the ring. */
  ghost predicate BatchOk(batch: seq<nat>, pushed: seq<nat>, taken: nat)
    ensures BatchOk(batch, pushed, taken) ==> |batch| <= taken <= |pushed|
  {
    |batch| <= taken <= |pushed| && batch == pushed[taken - |batch|..taken]
  }

  ghost predicate BatchInv(s: State)
  {
    && BatchOk(s.batch, s.ring.pushed, s.ring.taken)
    && (InBatch(s) <==> s.batch != [])
    && (if InBatch(s) then s.i < |s.batch| else s.i == 0)
    && |s.handled| == |s.seenAt| == s.ring.taken - |s.batch| + s.i + (if InPacket(s) then 1 else 0)
    && (InPacket(s) ==> s.cur == s.handled[|s.handled| - 1])
    && (s.lc.Note? ==> Decide(s.rules, s.cur) != NoPdr)
    && (s.lc.TallyDrop? ==> Decide(s.rules, s.cur) == NoPdr)
  }

  /** What was looked up for the j-th accepted packet is the packet of the last call that had
      filled the same buffer by then. */
  ghost predicate HandledOk(handled: seq<Packet>, seenAt: seq<nat>, accepted: seq<nat>,
                            calls: seq<Packet>, slots: seq<nat>)
    ensures HandledOk(handled, seenAt, accepted, calls, slots) ==> |handled| == |seenAt| <= |accepted|
  {
    && |handled| == |seenAt| <= |accepted| && |calls| == |slots|
    && (forall j :: 0 <= j < |handled| ==> accepted[j] < seenAt[j] <= |calls|)
    && (forall j, b {:trigger Latest(slots, b, seenAt[j])} ::
          0 <= j < |handled| && accepted[j] <= b < seenAt[j]
          && slots[b] == slots[accepted[j]] && Latest(slots, b, seenAt[j])
          ==> Identity(handled[j]) == Identity(calls[b]))
  }

  ghost predicate StatsInv(s: State)
  {
    StatsOk(s.stats, s.rules, Done(InPacket(s), s.handled), if s.lc.TallyDrop? then 1 else 0, s.refused)
  }

  ghost predicate MarksInv(s: State, current: bool)
  {
    && (s.draining ==> !s.running)
    && (!s.running ==> s.stopMark <= |s.ring.pushed|)
    && (s.lc.Exited? ==> s.draining)
    && (s.lc.Exited? && current ==> s.stopMark <= s.ring.taken)
  }

  /** Everything but the ring's own invariant. */
  ghost predicate Core(s: State, current: bool)
  {
    && RingLink(s) && PoolInv(s) && CallsInv(s)
    && MemoryOk(s.mbufs, s.calls, s.slots, Filled(s))
    && BatchInv(s) && HandledOk(s.handled, s.seenAt, s.accepted, s.calls, s.slots)
    && StatsInv(s) && MarksInv(s, current)
  }

  ghost predicate Inv(s: State, current: bool)
  {
    R.Inv(s.ring) && Core(s, current)
  }

  lemma InitInv(s: State, current: bool)
    requires IsInit(s)
    ensures Inv(s, current)
  {
    R.InitInv(s.ring);
    AllocZero(|s.mbufs|);
    assert s.ring.pushed == [] && s.ring.taken == 0 && s.ring.prod == R.PIdle && s.ring.cons == R.CIdle;
    hide NextBefore, SlotOfAlloc, R.Inv, R.IsInit;
  }

  lemma AllocZero(n: nat)
    ensures NextBefore(0, n) == 0
  {
  }

  // ---------------------------------------------------------------- histories growing

  lemma SlotsGrow(slots: seq<nat>, n: nat)
    requires SlotsOk(slots, n) && PoolSize(n)
    ensures SlotsOk(slots + [SlotOfAlloc(|slots|, n)], n)
  {
    AllocClosedForm(|slots|, n);
  }

  lemma AcceptedGrows(accepted: seq<nat>, pushed: seq<nat>, slots: seq<nat>, slot: nat)
    requires AcceptedOk(accepted, pushed, slots)
    ensures AcceptedOk(accepted, pushed, slots + [slot])
    ensures accepted != [] ==> accepted[|accepted| - 1] < |slots|
  {
  }

  lemma AcceptedPublish(accepted: seq<nat>, pushed: seq<nat>, slots: seq<nat>)
    requires AcceptedOk(accepted, pushed, slots) && slots != []
    requires accepted != [] ==> accepted[|accepted| - 1] < |slots| - 1
    ensures AcceptedOk(accepted + [|slots| - 1], pushed + [slots[|slots| - 1]], slots)
  {
  }

  lemma MemoryGrows(mbufs: seq<Packet>, calls: seq<Packet>, slots: seq<nat>, filled: nat,
                    call: Packet, slot: nat)
    requires MemoryOk(mbufs, calls, slots, filled)
    ensures MemoryOk(mbufs, calls + [call], slots + [slot], filled)
  {
    var slots' := slots + [slot];
    forall k | 0 <= k < filled && Latest(slots', k, filled)
      ensures slots'[k] < |mbufs| && Identity(mbufs[slots'[k]]) == Identity((calls + [call])[k])
    {
      forall b | k < b < filled ensures slots[b] != slots[k] {
        assert slots'[b] != slots'[k];
      }
      assert Latest(slots, k, filled);
    }
  }

  lemma MemoryFill(mbufs: seq<Packet>, calls: seq<Packet>, slots: seq<nat>, c: nat)
    requires MemoryOk(mbufs, calls, slots, c) && c == |calls| - 1 && slots[c] < |mbufs|
    ensures MemoryOk(mbufs[slots[c] := calls[c]], calls, slots, c + 1)
  {
    forall k | 0 <= k < c && Latest(slots, k, c + 1)
      ensures Latest(slots, k, c) && slots[c] != slots[k]
    {
    }
  }

  lemma MemoryStamp(mbufs: seq<Packet>, calls: seq<Packet>, slots: seq<nat>, filled: nat,
                    m: nat, p: Packet)
    requires MemoryOk(mbufs, calls, slots, filled)
    requires m < |mbufs| && Identity(p) == Identity(mbufs[m])
    ensures MemoryOk(mbufs[m := p], calls, slots, filled)
  {
  }

  lemma HandledGrows(handled: seq<Packet>, seenAt: seq<nat>, accepted: seq<nat>, calls: seq<Packet>,
                     slots: seq<nat>, accepted': seq<nat>, calls': seq<Packet>, slots': seq<nat>)
    requires HandledOk(handled, seenAt, accepted, calls, slots)
    requires accepted <= accepted' && calls <= calls' && slots <= slots' && |calls'| == |slots'|
    ensures HandledOk(handled, seenAt, accepted', calls', slots')
  {
    forall j, b | 0 <= j < |handled| && accepted'[j] <= b < seenAt[j]
                  && slots'[b] == slots'[accepted'[j]] && Latest(slots', b, seenAt[j])
      ensures Identity(handled[j]) == Identity(calls'[b])
    {
      assert accepted'[j] == accepted[j];
      forall c | b < c < seenAt[j] ensures slots[c] != slots[b] {
        assert slots'[c] != slots'[b];
      }
      assert Latest(slots, b, seenAt[j]);
    }
  }

  /** The look-up of the next accepted packet. */
  lemma HandledLookup(handled: seq<Packet>, seenAt: seq<nat>, accepted: seq<nat>, calls: seq<Packet>,
                      slots: seq<nat>, mbufs: seq<Packet>, filled: nat)
    requires HandledOk(handled, seenAt, accepted, calls, slots) && MemoryOk(mbufs, calls, slots, filled)
    requires |handled| < |accepted| && accepted[|handled|] < filled
    requires slots[accepted[|handled|]] < |mbufs|
    ensures HandledOk(handled + [mbufs[slots[accepted[|handled|]]]], seenAt + [filled], accepted, calls, slots)
  {
    var handled', seenAt' := handled + [mbufs[slots[accepted[|handled|]]]], seenAt + [filled];
    forall j, b | 0 <= j < |handled'| && accepted[j] <= b < seenAt'[j]
                  && slots[b] == slots[accepted[j]] && Latest(slots, b, seenAt'[j])
      ensures Identity(handled'[j]) == Identity(calls[b])
    {
      if j < |handled| {
        assert Latest(slots, b, seenAt[j]);
      } else {
        assert Latest(slots, b, filled);
      }
    }
  }

  lemma BatchGrows(batch: seq<nat>, pushed: seq<nat>, taken: nat, slot: nat)
    requires BatchOk(batch, pushed, taken)
    ensures BatchOk(batch, pushed + [slot], taken)
  {
  }

  lemma BatchNew(pushed: seq<nat>, taken: nat, n: nat)
    requires taken + n <= |pushed|
    ensures BatchOk(pushed[taken..taken + n], pushed, taken + n) && BatchOk([], pushed, taken)
  {
  }

  // ---------------------------------------------------------------- producer steps

  lemma KeepRxEnter(s: State, pkt: Packet, current: bool)
    requires Core(s, current) && Enabled(s, RxEnter(pkt), current)
    ensures Core(Do(s, RxEnter(pkt), current), current)
  {
    hide Done, FilledOf, BatchOk, SlotsOk, AcceptedOk, MemoryOk, HandledOk, StatsOk, NextBefore, R.Do;
    StatsRefused(s.stats, s.rules, Done(InPacket(s), s.handled), if s.lc.TallyDrop? then 1 else 0, s.refused);
  }

  lemma KeepRxAlloc(s: State, current: bool)
    requires Core(s, current) && Enabled(s, RxAlloc, current)
    ensures Core(Do(s, RxAlloc, current), current)
  {
    hide BatchOk, SlotsOk, AcceptedOk, MemoryOk, HandledOk, StatsOk, NextBefore, SlotOfAlloc, AllocNext, AllocSlot,
         R.Do;
    var s' := Do(s, RxAlloc, current);
    AllocOne(|s.calls|, |s.mbufs|);
    SlotsGrow(s.slots, |s.mbufs|);
    AcceptedGrows(s.accepted, s.ring.pushed, s.slots, s'.rx.slot);
    MemoryGrows(s.mbufs, s.calls, s.slots, Filled(s), s.rx.pkt, s'.rx.slot);
    HandledGrows(s.handled, s.seenAt, s.accepted, s.calls, s.slots, s'.accepted, s'.calls, s'.slots);
  }

  lemma KeepRxFill(s: State, current: bool)
    requires Core(s, current) && Enabled(s, RxFill, current)
    ensures Core(Do(s, RxFill, current), current)
  {
    hide BatchOk, SlotsOk, AcceptedOk, MemoryOk, HandledOk, StatsOk, NextBefore, SlotOfAlloc, R.Do;
    MemoryFill(s.mbufs, s.calls, s.slots, |s.calls| - 1);
  }

  lemma KeepRxBegin(s: State, current: bool)
    requires Core(s, current) && Enabled(s, RxBegin, current)
    ensures Core(Do(s, RxBegin, current), current)
  {
    hide Done, FilledOf, BatchOk, SlotsOk, AcceptedOk, MemoryOk, HandledOk, StatsOk, NextBefore, SlotOfAlloc, Mask;
  }

  lemma KeepLoadTail(s: State, seen: nat, current: bool)
    requires Core(s, current) && Enabled(s, RxRing(R.LoadTail(seen)), current)
    ensures Core(Do(s, RxRing(R.LoadTail(seen)), current), current)
  {
    hide Core, Do;
    if s.ring.prod.next == s.ring.tailLog[seen] {
      KeepRefused(s, seen, current);
    } else {
      KeepRoom(s, seen, current);
    }
  }

  lemma KeepRefused(s: State, seen: nat, current: bool)
    requires Core(s, current) && Enabled(s, RxRing(R.LoadTail(seen)), current)
    requires s.ring.prod.next == s.ring.tailLog[seen]
    ensures Core(Do(s, RxRing(R.LoadTail(seen)), current), current)
  {
    hide Done, FilledOf, BatchOk, SlotsOk, AcceptedOk, MemoryOk, HandledOk, StatsOk, NextBefore, SlotOfAlloc, Mask,
         Decide;
  }

  lemma KeepRoom(s: State, seen: nat, current: bool)
    requires Core(s, current) && Enabled(s, RxRing(R.LoadTail(seen)), current)
    requires s.ring.prod.next != s.ring.tailLog[seen]
    ensures Core(Do(s, RxRing(R.LoadTail(seen)), current), current)
  {
    hide Done, FilledOf, BatchOk, SlotsOk, AcceptedOk, MemoryOk, HandledOk, StatsOk, NextBefore, SlotOfAlloc, Mask,
         Decide;
  }

  lemma KeepWriteSlot(s: State, current: bool)
    requires Core(s, current) && Enabled(s, RxRing(R.WriteSlot), current)
    ensures Core(Do(s, RxRing(R.WriteSlot), current), current)
  {
    hide Done, FilledOf, BatchOk, SlotsOk, AcceptedOk, MemoryOk, HandledOk, StatsOk, NextBefore, SlotOfAlloc, Mask,
         Decide;
  }

  lemma KeepRxRing(s: State, b: R.Action<nat>, current: bool)
    requires Core(s, current) && Enabled(s, RxRing(b), current)
    ensures Core(Do(s, RxRing(b), current), current)
  {
    hide Core, Do;
    match b
    case LoadTail(seen) => KeepLoadTail(s, seen, current);
    case WriteSlot => KeepWriteSlot(s, current);
    case PublishHead => KeepPublish(s, current);
    case _ => assert false;
  }

  lemma KeepPublish(s: State, current: bool)
    requires Core(s, current) && Enabled(s, RxRing(R.PublishHead), current)
    ensures Core(Do(s, RxRing(R.PublishHead), current), current)
  {
    hide Done, FilledOf, BatchOk, SlotsOk, AcceptedOk, MemoryOk, HandledOk, StatsOk, NextBefore, SlotOfAlloc, Mask,
         Decide;
    var s' := Do(s, RxRing(R.PublishHead), current);
    AcceptedPublish(s.accepted, s.ring.pushed, s.slots);
    HandledGrows(s.handled, s.seenAt, s.accepted, s.calls, s.slots, s'.accepted, s'.calls, s'.slots);
    BatchGrows(s.batch, s.ring.pushed, s.ring.taken, s.rx.slot);
  }

  lemma KeepRxGiveUp(s: State, current: bool)
    requires Core(s, current) && Enabled(s, RxGiveUp, current)
    ensures Core(Do(s, RxGiveUp, current), current)
  {
    hide Done, FilledOf, BatchOk, SlotsOk, AcceptedOk, MemoryOk, HandledOk, StatsOk, NextBefore, SlotOfAlloc, R.Do;
    StatsRefused(s.stats, s.rules, Done(InPacket(s), s.handled), if s.lc.TallyDrop? then 1 else 0, s.refused);
    AcceptedGrows(s.accepted, s.ring.pushed, s.slots, 0);
  }

  // ---------------------------------------------------------------- lcore steps

  lemma KeepLcBegin(s: State, current: bool)
    requires Core(s, current) && Enabled(s, LcBegin, current)
    ensures Core(Do(s, LcBegin, current), current)
  {
    hide Done, FilledOf, BatchOk, SlotsOk, AcceptedOk, MemoryOk, HandledOk, StatsOk, NextBefore, SlotOfAlloc, Mask;
  }

  lemma KeepLcRing(s: State, b: R.Action<nat>, current: bool)
    requires R.Inv(s.ring) && Core(s, current) && Enabled(s, LcRing(b), current)
    ensures Core(Do(s, LcRing(b), current), current)
  {
    hide Core, R.Inv, Do;
    match b
    case LoadHead(seen) => KeepLoadHead(s, seen, current);
    case CopySlot => KeepCopySlot(s, current);
    case PublishTail => KeepPublishTail(s, current);
    case _ => assert false;
  }

  lemma KeepLoadHead(s: State, seen: nat, current: bool)
    requires R.Inv(s.ring) && Core(s, current) && Enabled(s, LcRing(R.LoadHead(seen)), current)
    ensures Core(Do(s, LcRing(R.LoadHead(seen)), current), current)
  {
    hide Core, Do, R.Inv, R.Do, R.Available;
    R.InvLoadHead(s.ring, seen);
    assert s.ring.cons.max == BURST by { LinkOnly(s, current); }
    if seen == s.ring.taken {
      KeepEmpty(s, seen, current);
    } else {
      KeepSome(s, seen, current);
    }
  }

  lemma LinkOnly(s: State, current: bool)
    requires Core(s, current)
    ensures RingLink(s)
  {
    hide Done, BatchOk, SlotsOk, AcceptedOk, MemoryOk, HandledOk, StatsOk;
  }

  lemma KeepEmpty(s: State, seen: nat, current: bool)
    requires Core(s, current) && Enabled(s, LcRing(R.LoadHead(seen)), current) && seen == s.ring.taken
    requires R.Available(s.ring, s.ring.headLog[seen], s.ring.cons.t) == 0
    ensures Core(Do(s, LcRing(R.LoadHead(seen)), current), current)
  {
    hide Done, FilledOf, BatchOk, SlotsOk, AcceptedOk, MemoryOk, HandledOk, StatsOk, NextBefore, SlotOfAlloc, Mask,
         Decide, R.Available;
  }

  lemma KeepSome(s: State, seen: nat, current: bool)
    requires Core(s, current) && Enabled(s, LcRing(R.LoadHead(seen)), current)
    requires R.Available(s.ring, s.ring.headLog[seen], s.ring.cons.t) > 0
    ensures Core(Do(s, LcRing(R.LoadHead(seen)), current), current)
  {
    hide Done, FilledOf, BatchOk, SlotsOk, AcceptedOk, MemoryOk, HandledOk, StatsOk, NextBefore, SlotOfAlloc, Mask,
         Decide, R.Available;
  }

  lemma KeepCopySlot(s: State, current: bool)
    requires Core(s, current) && Enabled(s, LcRing(R.CopySlot), current)
    ensures Core(Do(s, LcRing(R.CopySlot), current), current)
  {
    hide Done, FilledOf, BatchOk, SlotsOk, AcceptedOk, MemoryOk, HandledOk, StatsOk, NextBefore, SlotOfAlloc, Mask,
         Decide;
  }

  lemma KeepPublishTail(s: State, current: bool)
    requires R.Inv(s.ring) && Core(s, current) && Enabled(s, LcRing(R.PublishTail), current)
    ensures Core(Do(s, LcRing(R.PublishTail), current), current)
  {
    hide Done, FilledOf, BatchOk, SlotsOk, AcceptedOk, MemoryOk, HandledOk, StatsOk, NextBefore, SlotOfAlloc, Mask,
         R.Inv, Decide;
    R.AboutToPublish(s.ring);
    BatchNew(s.ring.pushed, s.ring.taken, s.ring.cons.n);
  }

  /** The packet about to be looked up is the next accepted one, and it is in its buffer. */
  lemma NextAccepted(s: State, current: bool)
    requires Core(s, current) && s.lc.Fetch?
    ensures var j := |s.handled|;
            && j < |s.accepted| == |s.ring.pushed| && s.i < |s.batch| && s.accepted[j] < |s.slots|
            && s.batch[s.i] == s.slots[s.accepted[j]]
            && s.accepted[j] < Filled(s)
  {
    hide SlotsOk, MemoryOk, HandledOk, StatsOk, NextBefore, SlotOfAlloc, R.Do, Decide;
    var j := |s.handled|;
    assert s.batch[s.i] == s.ring.pushed[j] == s.slots[s.accepted[j]];
    AcceptedBelow(s, j);
  }

  lemma KeepLcLookup(s: State, current: bool)
    requires Core(s, current) && Enabled(s, LcLookup, current)
    ensures Core(Do(s, LcLookup, current), current)
  {
    hide SlotsOk, MemoryOk, HandledOk, StatsOk, AcceptedOk, BatchOk, NextBefore, SlotOfAlloc, R.Do, Decide, Identity;
    var s' := Do(s, LcLookup, current);
    NextAccepted(s, current);
    HandledLookup(s.handled, s.seenAt, s.accepted, s.calls, s.slots, s.mbufs, Filled(s));
    assert Done(InPacket(s'), s'.handled) == s.handled;
  }

  lemma AcceptedBelow(s: State, j: nat)
    requires CallsInv(s) && j < |s.accepted| && |s.slots| == |s.calls|
    ensures s.accepted[j] < Filled(s)
  {
  }

  lemma KeepLcStamp(s: State, current: bool)
    requires Core(s, current) && Enabled(s, LcStamp, current)
    ensures Core(Do(s, LcStamp, current), current)
  {
    hide BatchOk, SlotsOk, AcceptedOk, MemoryOk, HandledOk, StatsOk, NextBefore, SlotOfAlloc, R.Do, Decide;
    var m := s.batch[s.i];
    MemoryStamp(s.mbufs, s.calls, s.slots, Filled(s), m, Stamp(s.rules, s.cur, s.mbufs[m]));
  }

  lemma KeepLcCount(s: State, current: bool)
    requires Core(s, current) && Enabled(s, LcCount, current)
    ensures Core(Do(s, LcCount, current), current)
  {
    hide BatchOk, SlotsOk, AcceptedOk, MemoryOk, HandledOk, StatsOk, NextBefore, SlotOfAlloc, R.Do, Decide, Core, Do,
         Enabled;
    if Decide(s.rules, s.cur) == NoPdr {
      KeepCountNoPdr(s, current);
    } else {
      KeepCountOther(s, current);
    }
  }

  lemma KeepCountNoPdr(s: State, current: bool)
    requires Core(s, current) && Enabled(s, LcCount, current) && Decide(s.rules, s.cur) == NoPdr
    ensures Core(Do(s, LcCount, current), current)
  {
    hide BatchOk, SlotsOk, AcceptedOk, MemoryOk, HandledOk, StatsOk, NextBefore, SlotOfAlloc, R.Do, Decide;
    StatsCounted(s.stats, s.rules, s.handled, s.refused);
  }

  lemma KeepCountOther(s: State, current: bool)
    requires Core(s, current) && Enabled(s, LcCount, current) && Decide(s.rules, s.cur) != NoPdr
    ensures Core(Do(s, LcCount, current), current)
  {
    hide BatchOk, SlotsOk, AcceptedOk, MemoryOk, HandledOk, StatsOk, NextBefore, SlotOfAlloc, R.Do, Decide, R.Enabled;
    StatsCounted(s.stats, s.rules, s.handled, s.refused);
    KeepNext(s, Do(s, LcCount, current).stats, Do(s, LcCount, current).out, current);
  }

  /** Moving on once the current packet is fully counted. */
  lemma KeepNext(s: State, stats: Stats, out: seq<Packet>, current: bool)
    requires Core(s, current) && InPacket(s) && stats.rx == s.stats.rx
    requires StatsOk(stats, s.rules, s.handled, 0, s.refused)
    ensures Core(NextPacket(s.(stats := stats, out := out)), current)
  {
    hide BatchOk, SlotsOk, AcceptedOk, MemoryOk, HandledOk, StatsOk, NextBefore, SlotOfAlloc, R.Do, Decide;
    BatchNew(s.ring.pushed, s.ring.taken, 0);
  }

  lemma KeepLcCountDrop(s: State, current: bool)
    requires Core(s, current) && Enabled(s, LcCountDrop, current)
    ensures Core(Do(s, LcCountDrop, current), current)
  {
    hide BatchOk, SlotsOk, AcceptedOk, MemoryOk, HandledOk, StatsOk, NextBefore, SlotOfAlloc, R.Do, Decide;
    StatsCountedDrop(s.stats, s.rules, s.handled, s.refused);
    KeepNext(s, Do(s, LcCountDrop, current).stats, s.out, current);
  }

  lemma KeepCheckAndStop(s: State, a: Action, current: bool)
    requires Core(s, current) && Enabled(s, a, current) && (a.LcCheck? || a.Stop?)
    ensures Core(Do(s, a, current), current)
  {
    hide Done, FilledOf, BatchOk, SlotsOk, AcceptedOk, MemoryOk, HandledOk, StatsOk, NextBefore, SlotOfAlloc, R.Do;
  }

  lemma KeepRing(s: State, a: Action, current: bool)
    requires R.Inv(s.ring) && Enabled(s, a, current)
    ensures R.Inv(Do(s, a, current).ring)
  {
    hide R.Inv, R.Do;
    match a
    case RxBegin => R.StepKeepsInv(s.ring, R.BeginPush(s.rx.slot));
    case RxRing(b) => R.StepKeepsInv(s.ring, b);
    case LcBegin => R.StepKeepsInv(s.ring, R.BeginPop(BURST));
    case LcRing(b) => R.StepKeepsInv(s.ring, b);
    case _ =>
  }

  lemma StepKeepsInv(s: State, a: Action, current: bool)
    requires Inv(s, current) && Enabled(s, a, current)
    ensures Inv(Do(s, a, current), current)
  {
    hide Core, R.Inv, Do, Enabled;
    KeepRing(s, a, current);
    match a
    case RxEnter(pkt) => KeepRxEnter(s, pkt, current);
    case RxAlloc => KeepRxAlloc(s, current);
    case RxFill => KeepRxFill(s, current);
    case RxBegin => KeepRxBegin(s, current);
    case RxRing(b) => KeepRxRing(s, b, current);
    case RxGiveUp => KeepRxGiveUp(s, current);
    case LcBegin => KeepLcBegin(s, current);
    case LcRing(b) =>
      KeepLcRing(s, b, current);
    case LcLookup => KeepLcLookup(s, current);
    case LcStamp => KeepLcStamp(s, current);
    case LcCount => KeepLcCount(s, current);
    case LcCountDrop => KeepLcCountDrop(s, current);
    case LcCheck(_) => KeepCheckAndStop(s, a, current);
    case Stop => KeepCheckAndStop(s, a, current);
  }
}
