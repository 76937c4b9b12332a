/** Runs showing, for every pool and ring, that the conditions on StopDrains and on
    HandledIsPrefix are needed. */
module FastPathLimits {
  import opened Bits
  import opened SpscRing
  import R = RingConcurrency
  import opened MbufPool
  import opened Pipeline
  import opened FastPathRuns
  import opened FastPathTheorems

  /** A run leads from s0 to s. */
  ghost predicate From(s0: State, s: State, current: bool)
  {
    exists acts :: IsRun(s0, acts, current) && Last(s0, acts, current) == s
  }

  lemma {:induction false} RunAppend(s: State, acts: seq<Action>, a: Action, current: bool)
    requires IsRun(s, acts, current) && Enabled(Last(s, acts, current), a, current)
    ensures IsRun(s, acts + [a], current) && Last(s, acts + [a], current) == Do(Last(s, acts, current), a, current)
    decreases |acts|
  {
    hide Do, Enabled;
    if acts == [] {
      assert acts + [a] == [a] && [a][1..] == [];
    } else {
      RunAppend(Do(s, acts[0], current), acts[1..], a, current);
      assert (acts + [a])[1..] == acts[1..] + [a];
    }
  }

  lemma Start(s0: State, current: bool)
    ensures From(s0, s0, current)
  {
    var none: seq<Action> := [];
    assert IsRun(s0, none, current) && Last(s0, none, current) == s0;
  }

  /** One enabled step more. */
  lemma Extend(s0: State, s: State, a: Action, current: bool) returns (s': State)
    requires From(s0, s, current) && Enabled(s, a, current)
    ensures s' == Do(s, a, current) && From(s0, s', current)
  {
    hide Do, Enabled;
    var acts :| IsRun(s0, acts, current) && Last(s0, acts, current) == s;
    RunAppend(s0, acts, a, current);
    s' := Do(s, a, current);
  }

  /** A fresh path whose ring can hold an item. */
  ghost predicate Roomy(s: State)
    ensures Roomy(s) ==> |s.ring.ring.buf| >= 2 && |s.mbufs| >= 1
  {
    IsInit(s) && |s.ring.ring.buf| >= 2
  }

  lemma MaskFirst(n: nat)
    requires IsPow2(n) && 2 <= n <= SIZE_MOD
    ensures Mask(0, n) == 0 && Mask(1, n) == 1
  {
    hide IsPow2, Mask;
    MaskIsMod(0, n);
    MaskIsMod(1, n);
    ModSmall(0, n);
    ModSmall(1, n);
  }

  // ---------------------------------------------------------------- one packet accepted

  /** The first packet is in the first buffer. */
  ghost function FirstIn(s0: State, p: Packet): State
    requires Roomy(s0)
  {
    s0.(next := AllocNext(0, |s0.mbufs|), mbufs := s0.mbufs[0 := p], stats := Stats(1, 0, 0, 0),
        calls := [p], slots := [0], rx := RxFilled(0))
  }

  /** It is also published: one item in the ring, nothing removed. */
  ghost function OneIn(s0: State, p: Packet): State
    requires Roomy(s0)
  {
    FirstIn(s0, p).(ring := s0.ring.(ring := Ring(1, 0, s0.ring.ring.buf[0 := 0]),
                                     headLog := map[0 := 0, 1 := 1], pushed := [0]),
                    rx := RxIdle, accepted := [0])
  }

  lemma FirstCopied(s0: State, p: Packet, current: bool)
    requires Roomy(s0)
    ensures From(s0, FirstIn(s0, p), current)
  {
    hide Decide, NextBefore, From;
    Start(s0, current);
    var s := Extend(s0, s0, RxEnter(p), current);
    s := Extend(s0, s, RxAlloc, current);
    s := Extend(s0, s, RxFill, current);
    assert s == FirstIn(s0, p);
  }

  /** It is about to be published: room was found and the slot is written. */
  ghost function Written(s0: State, p: Packet): State
    requires Roomy(s0)
  {
    FirstIn(s0, p).(ring := s0.ring.(ring := Ring(0, 0, s0.ring.ring.buf[0 := 0]), prod := R.PWrote(0, 0, 1)),
                    rx := RxPush(0))
  }

  lemma FirstWritten(s0: State, p: Packet, current: bool)
    requires Roomy(s0)
    ensures From(s0, Written(s0, p), current)
  {
    hide Decide, NextBefore, From, Mask, AllocNext;
    MaskFirst(|s0.ring.ring.buf|);
    FirstCopied(s0, p, current);
    var s := Extend(s0, FirstIn(s0, p), RxBegin, current);
    s := Extend(s0, s, RxRing(R.LoadTail(0)), current);
    s := Extend(s0, s, RxRing(R.WriteSlot), current);
    assert s == Written(s0, p);
  }

  lemma FirstPushed(s0: State, p: Packet, current: bool)
    requires Roomy(s0)
    ensures From(s0, OneIn(s0, p), current)
  {
    hide Decide, NextBefore, From, Mask, AllocNext;
    FirstWritten(s0, p, current);
    var s := Extend(s0, Written(s0, p), RxRing(R.PublishHead), current);
    assert s == OneIn(s0, p);
  }

  /** The lcore is inside pop_burst, before its load of head_. */
  ghost function Popping(s: State): State
  {
    s.(ring := s.ring.(cons := R.CTail(BURST, s.ring.ring.tail)), lc := Bursting)
  }

  lemma StartPop(s0: State, s: State, saw: bool, current: bool)
    requires From(s0, s, current) && s.lc.Check? && s.ring.cons.CIdle? && |s.ring.ring.buf| >= 1
    requires saw || !s.running
    ensures From(s0, Popping(s.(draining := !saw)), current)
  {
    hide Decide, From, Mask;
    var s' := Extend(s0, s, LcCheck(saw), current);
    s' := Extend(s0, s', LcBegin, current);
  }

  /** If the lcore may still read the head_ of before stop(), then on every path it can exit and
      leave a packet behind that was published first. */
  lemma StaleExit(s0: State, p: Packet)
    requires IsInit(s0) && |s0.ring.ring.buf| >= 2
    ensures exists f :: From(s0, f, false) && f.lc.Exited? && f.rx.RxIdle? && f.stopMark == 1
                        && Queued(f) == 1 && f.stats.rx == 1 && f.stats.forwarded + f.stats.dropped == 0
  {
    hide Decide, From, Mask, AllocNext;
    FirstPushed(s0, p, false);
    var s := OneIn(s0, p);
    var s1 := Extend(s0, s, Stop, false);
    assert s1 == s.(running := false, stopMark := 1);
    StartPop(s0, s1, false, false);
    var f := StaleLoad(s0, Popping(s1.(draining := true)));
  }

  lemma StaleLoad(s0: State, s: State) returns (f: State)
    requires From(s0, s, false) && s.lc.Bursting? && s.draining && |s.ring.ring.buf| >= 2
    requires IsPow2(|s.ring.ring.buf|) && |s.ring.ring.buf| <= SIZE_MOD
    requires s.ring.cons == R.CTail(BURST, 0) && s.ring.headSeen == 0
    requires 0 in s.ring.headLog && s.ring.headLog[0] == 0
    ensures From(s0, f, false) && f == s.(ring := s.ring.(cons := R.CIdle), lc := Exited)
  {
    hide Decide, From, Mask;
    MaskFirst(|s.ring.ring.buf|);
    f := Extend(s0, s, LcRing(R.LoadHead(0)), false);
  }

  // ---------------------------------------------------------------- the pool comes round

  /** The lcore holds the first buffer and is about to look into it; k calls were made. */
  ghost predicate Looking(s: State, p: Packet, k: nat)
  {
    && s.lc.Fetch? && s.batch == [0] && s.i == 0 && s.handled == [] && s.rx.RxIdle?
    && |s.calls| == k >= 1 && s.calls[0] == p && s.accepted != [] && s.accepted[0] == 0
  }

  /** The lcore has found one item to copy; copied says how far it is. */
  ghost function Counted(s0: State, p: Packet, copied: seq<nat>): State
    requires Roomy(s0)
  {
    var s := OneIn(s0, p);
    s.(ring := s.ring.(headSeen := 1, cons := R.CCopy(BURST, 0, 1, copied)), lc := Bursting)
  }

  lemma FirstCounted(s0: State, p: Packet, current: bool)
    requires Roomy(s0)
    ensures From(s0, Counted(s0, p, []), current)
  {
    hide Decide, From, Mask, AllocNext;
    MaskFirst(|s0.ring.ring.buf|);
    FirstPushed(s0, p, current);
    StartPop(s0, OneIn(s0, p), true, current);
    var s := Extend(s0, Popping(OneIn(s0, p)), LcRing(R.LoadHead(1)), current);
    assert s == Counted(s0, p, []);
  }

  lemma FirstRead(s0: State, p: Packet, current: bool)
    requires Roomy(s0)
    ensures From(s0, Counted(s0, p, [0]), current)
  {
    hide Decide, From, Mask, AllocNext;
    FirstCounted(s0, p, current);
    CopyFirst(Counted(s0, p, []).ring);
    hide R.Do;
    var s := Extend(s0, Counted(s0, p, []), LcRing(R.CopySlot), current);
    assert s == Counted(s0, p, [0]);
  }

  lemma CopyFirst(r: R.Sys<nat>)
    requires IsPow2(|r.ring.buf|) && 2 <= |r.ring.buf| <= SIZE_MOD && r.ring.buf[0] == 0
    requires r.cons == R.CCopy(BURST, 0, 1, [])
    ensures R.Enabled(r, R.CopySlot) && R.Do(r, R.CopySlot) == r.(cons := R.CCopy(BURST, 0, 1, [0]))
  {
    hide Mask;
    MaskFirst(|r.ring.buf|);
    assert [] + [0] == [0];
  }

  lemma FirstPopped(s0: State, p: Packet, current: bool) returns (s: State)
    requires Roomy(s0)
    ensures From(s0, s, current) && Looking(s, p, 1)
  {
    hide Decide, From, Mask, AllocNext;
    FirstRead(s0, p, current);
    s := Extend(s0, Counted(s0, p, [0]), LcRing(R.PublishTail), current);
  }

  /** What the producer's steps ask of the state. */
  lemma Ready(s0: State, s: State, current: bool)
    requires IsInit(s0) && From(s0, s, current) && s.rx.RxIdle?
    ensures |s.mbufs| == |s0.mbufs| >= 1 && |s.ring.ring.buf| >= 1
    ensures s.next == NextBefore(|s.calls|, |s.mbufs|)
    ensures s.ring.prod.PIdle? && s.ring.ring.head < |s.ring.ring.buf|
    ensures s.ring.taken in s.ring.tailLog && s.ring.tailSeen <= s.ring.taken
  {
    var acts :| IsRun(s0, acts, current) && Last(s0, acts, current) == s;
    RunCallsGrow(s0, acts, current);
    assert Reachable(s, current);
    hide Do, Enabled, IsInit, Reachable;
    ReachableInv(s, current);
    hide SlotsOk, MemoryOk, HandledOk, AcceptedOk, StatsOk, BatchOk, NextBefore, SlotOfAlloc, R.SlotsInv, R.ProdInv,
         R.ConsInv;
  }

  /** One more call up to the filled buffer, while the lcore does not move. */
  lemma OneMoreFill(s0: State, s: State, p: Packet, q: Packet, k: nat, current: bool) returns (s': State)
    requires IsInit(s0) && From(s0, s, current) && Looking(s, p, k)
    ensures From(s0, s', current) && s'.rx.RxFilled? && Looking(s'.(rx := RxIdle), p, k + 1)
    ensures s'.rx.slot == AllocSlot(NextBefore(k, |s.mbufs|), |s.mbufs|) < |s.mbufs| == |s0.mbufs|
    ensures s'.ring == s.ring && |s.ring.ring.buf| >= 1 && s'.mbufs == s.mbufs[s'.rx.slot := q]
  {
    hide Decide, From, Mask, IsInit, NextBefore;
    Ready(s0, s, current);
    s' := Extend(s0, s, RxEnter(q), current);
    s' := Extend(s0, s', RxAlloc, current);
    s' := Extend(s0, s', RxFill, current);
  }

  /** ... and on to its end: accepted if there is room, refused if not. */
  lemma OneMoreCall(s0: State, s: State, p: Packet, q: Packet, k: nat, current: bool) returns (s': State)
    requires IsInit(s0) && From(s0, s, current) && Looking(s, p, k)
    ensures From(s0, s', current) && Looking(s', p, k + 1)
  {
    hide Decide, From, Mask, IsInit, NextBefore, AllocSlot;
    Ready(s0, s, current);
    s' := OneMoreFill(s0, s, p, q, k, current);
    s' := Extend(s0, s', RxBegin, current);
    s' := Extend(s0, s', RxRing(R.LoadTail(s.ring.taken)), current);
    if s'.rx.RxRefused? {
      s' := Extend(s0, s', RxGiveUp, current);
    } else {
      s' := OneMorePublish(s0, s', p, k + 1, current);
    }
  }

  lemma OneMorePublish(s0: State, s: State, p: Packet, k: nat, current: bool) returns (s': State)
    requires From(s0, s, current) && s.rx.RxPush? && Looking(s.(rx := RxIdle), p, k)
    requires s.ring.prod.PRoom? && s.ring.prod.h < |s.ring.ring.buf|
    ensures From(s0, s', current) && Looking(s', p, k)
  {
    hide Decide, From, Mask;
    s' := Extend(s0, s, RxRing(R.WriteSlot), current);
    s' := Extend(s0, s', RxRing(R.PublishHead), current);
  }

  lemma {:induction false} MoreCalls(s0: State, p: Packet, q: Packet, k: nat, current: bool) returns (s: State)
    requires Roomy(s0) && k >= 1
    ensures From(s0, s, current) && Looking(s, p, k)
  {
    hide From, Looking;
    if k == 1 {
      s := FirstPopped(s0, p, current);
    } else {
      s := MoreCalls(s0, p, q, k - 1, current);
      s := OneMoreCall(s0, s, p, q, k - 1, current);
    }
  }

  /** Whatever the sizes of pool and ring, one call more than the pool has buffers is enough: the
      lcore finds any other packet q in the buffer of the accepted packet p. */
  lemma OneCallTooMany(s0: State, p: Packet, q: Packet, current: bool)
    requires IsInit(s0) && |s0.ring.ring.buf| >= 2
    ensures exists f :: From(s0, f, current) && |f.calls| == |f.mbufs| + 1 && |f.mbufs| == |s0.mbufs|
                        && f.accepted != [] && f.accepted[0] == 0 && f.calls[0] == p && f.handled == [q]
  {
    hide Decide, From, IsInit, NextBefore, Mod;
    var n := |s0.mbufs|;
    assert PoolSize(n) by { SizesOf(s0); }
    var s := MoreCalls(s0, p, q, n, current);
    NextClosedForm(n, n);
    ModSmall(n, n + 1);
    s := OneMoreFill(s0, s, p, q, n, current);
    s := Extend(s0, s, LcLookup, current);
  }

  lemma SizesOf(s: State)
    requires IsInit(s)
    ensures PoolSize(|s.mbufs|)
  {
  }
}
