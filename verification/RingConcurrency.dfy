/** One producer and one consumer on the ring, interleaved at every atomic access and every
    slot access. A cursor load may return any store the loading thread has not already been
    told was superseded (coherence of one atomic variable); the run that always returns the
    newest store is the sequentially consistent special case. */
module RingConcurrency {
  import opened Bits
  import opened SpscRing

  // Program counters hold the registers that push and pop_burst carry from one access to the
  // next. pop is the same accesses with max = 1.

  datatype ProdPc<T> =
    | PIdle
    | PHead(val: T, h: nat, next: nat)   // own head loaded, next slot computed
    | PRoom(val: T, h: nat, next: nat)   // tail loaded, ring not full
    | PWrote(val: T, h: nat, next: nat)  // slot written, head not yet stored

  datatype ConsPc<T> =
    | CIdle
    | CTail(max: nat, t: nat)                             // own tail loaded
    | CCopy(max: nat, t: nat, n: nat, out: seq<T>)        // n > 0 items to copy

  /** The ring, both threads, the stores made to each cursor (keyed by how many items had
      been pushed or taken at that store), and the history of the run. */
  datatype Sys<T> = Sys(
    ring: Ring<T>,
    prod: ProdPc<T>,
    cons: ConsPc<T>,
    headLog: map<nat, nat>,
    tailLog: map<nat, nat>,
    headSeen: nat,          // newest head store the consumer has read
    tailSeen: nat,          // newest tail store the producer has read
    pushed: seq<T>,         // every value published so far
    taken: nat)             // how many of them were removed

  datatype Action<T> =
    | BeginPush(val: T)
    | LoadTail(seen: nat)
    | WriteSlot
    | PublishHead
    | BeginPop(max: nat)
    | LoadHead(seen: nat)
    | CopySlot
    | PublishTail

  /** What a caller can observe of an action. */
  datatype Event<T> =
    | Internal
    | Pushed(val: T)
    | Refused(val: T, seen: nat)
    | Counted(max: nat, n: nat, seen: nat)
    | Popped(items: seq<T>)

  ghost predicate IsInit<T>(s: Sys<T>)
  {
    && IsPow2(|s.ring.buf|) && |s.ring.buf| <= SIZE_MOD
    && s.ring.head == 0 && s.ring.tail == 0
    && s.prod == PIdle && s.cons == CIdle
    && s.headLog == map[0 := 0] && s.tailLog == map[0 := 0]
    && s.headSeen == 0 && s.tailSeen == 0 && s.pushed == [] && s.taken == 0
  }

  predicate Enabled<T>(s: Sys<T>, a: Action<T>)
  {
    match a
    case BeginPush(_) => s.prod.PIdle?
    case LoadTail(seen) => s.prod.PHead? && seen in s.tailLog && s.tailSeen <= seen
    case WriteSlot => s.prod.PRoom? && s.prod.h < |s.ring.buf|
    case PublishHead => s.prod.PWrote?
    case BeginPop(_) => s.cons.CIdle?
    case LoadHead(seen) => s.cons.CTail? && seen in s.headLog && s.headSeen <= seen
    case CopySlot => s.cons.CCopy? && |s.cons.out| < s.cons.n
    case PublishTail => s.cons.CCopy? && |s.cons.out| == s.cons.n
  }

  /** How many items pop_burst finds when it compares a loaded head with its own tail. */
  function Available<T>(s: Sys<T>, h: nat, t: nat): nat
    requires |s.ring.buf| >= 1
  {
    Mask(h - t, |s.ring.buf|)
  }

  function Do<T>(s: Sys<T>, a: Action<T>): Sys<T>
    requires |s.ring.buf| >= 1 && Enabled(s, a)
  {
    var n := |s.ring.buf|;
    match a
    case BeginPush(val) =>
      s.(prod := PHead(val, s.ring.head, Mask(s.ring.head + 1, n)))
    case LoadTail(seen) =>
      s.(tailSeen := seen,
         prod := if s.prod.next == s.tailLog[seen] then PIdle
                 else PRoom(s.prod.val, s.prod.h, s.prod.next))
    case WriteSlot =>
      s.(ring := s.ring.(buf := s.ring.buf[s.prod.h := s.prod.val]),
         prod := PWrote(s.prod.val, s.prod.h, s.prod.next))
    case PublishHead =>
      s.(ring := s.ring.(head := s.prod.next), prod := PIdle,
         pushed := s.pushed + [s.prod.val],
         headLog := s.headLog[|s.pushed| + 1 := s.prod.next])
    case BeginPop(max) =>
      s.(cons := CTail(max, s.ring.tail))
    case LoadHead(seen) =>
      var c := Min(Available(s, s.headLog[seen], s.cons.t), s.cons.max);
      s.(headSeen := seen,
         cons := if c == 0 then CIdle else CCopy(s.cons.max, s.cons.t, c, []))
    case CopySlot =>
      BitAndBound(s.cons.t + |s.cons.out|, n);
      var v := s.ring.buf[Mask(s.cons.t + |s.cons.out|, n)];
      s.(cons := s.cons.(out := s.cons.out + [v]))
    case PublishTail =>
      var t := Mask(s.cons.t + s.cons.n, n);
      s.(ring := s.ring.(tail := t), cons := CIdle,
         taken := s.taken + s.cons.n,
         tailLog := s.tailLog[s.taken + s.cons.n := t])
  }

  lemma BitAndBound(x: int, n: nat)
    requires n >= 1
    ensures Mask(x, n) < n
  {
    BitAndAtMost(x % SIZE_MOD, n - 1);
  }

  lemma {:induction false} BitAndAtMost(x: nat, y: nat)
    ensures BitAnd(x, y) <= y
    decreases x
  {
    if x > 0 {
      BitAndAtMost(x / 2, y / 2);
    }
  }

  function EventOf<T>(s: Sys<T>, a: Action<T>): Event<T>
    requires |s.ring.buf| >= 1 && Enabled(s, a)
  {
    match a
    case LoadTail(seen) =>
      if s.prod.next == s.tailLog[seen] then Refused(s.prod.val, seen) else Internal
    case PublishHead => Pushed(s.prod.val)
    case LoadHead(seen) =>
      Counted(s.cons.max, Min(Available(s, s.headLog[seen], s.cons.t), s.cons.max), seen)
    case PublishTail => Popped(s.cons.out)
    case _ => Internal
  }

  // ---------------------------------------------------------------- invariant

  ghost predicate CursorsInv<T>(s: Sys<T>)
  {
    var n := |s.ring.buf|;
    && n >= 1 && IsPow2(n) && n <= SIZE_MOD
    && s.ring.head == Mod(|s.pushed|, n) && s.ring.tail == Mod(s.taken, n)
    && s.tailSeen <= s.taken <= s.headSeen <= |s.pushed| <= s.tailSeen + n - 1
    && |s.pushed| in s.headLog && s.taken in s.tailLog
    && (forall k :: k in s.headLog ==> k <= |s.pushed| && s.headLog[k] == Mod(k, n))
    && (forall k :: k in s.tailLog ==> k <= s.taken && s.tailLog[k] == Mod(k, n))
  }

  /** Every unread position still holds the value published there. */
  ghost predicate SlotsInv<T>(buf: seq<T>, pushed: seq<T>, taken: nat)
    requires |buf| >= 1
  {
    forall q :: taken <= q < |pushed| ==> buf[Mod(q, |buf|)] == pushed[q]
  }

  ghost predicate ProdInv<T>(s: Sys<T>)
    requires |s.ring.buf| >= 1
  {
    var n := |s.ring.buf|;
    && (!s.prod.PIdle? ==> s.prod.h == Mod(|s.pushed|, n) && s.prod.next == Mod(|s.pushed| + 1, n))
    && (s.prod.PRoom? || s.prod.PWrote? ==> |s.pushed| + 1 <= s.tailSeen + n - 1)
    && (s.prod.PWrote? ==> s.ring.buf[s.prod.h] == s.prod.val)
  }

  ghost predicate ConsInv<T>(s: Sys<T>)
    requires |s.ring.buf| >= 1
  {
    && (!s.cons.CIdle? ==> s.cons.t == Mod(s.taken, |s.ring.buf|))
    && (s.cons.CCopy? ==>
          && s.taken <= s.headSeen <= |s.pushed|
          && 1 <= s.cons.n == Min(s.headSeen - s.taken, s.cons.max)
          && |s.cons.out| <= s.cons.n
          && s.cons.out == s.pushed[s.taken..s.taken + |s.cons.out|])
  }

  ghost predicate Inv<T>(s: Sys<T>)
    ensures Inv(s) ==> |s.ring.buf| >= 1
  {
    CursorsInv(s) && SlotsInv(s.ring.buf, s.pushed, s.taken) && ProdInv(s) && ConsInv(s)
  }

  lemma InitInv<T>(s: Sys<T>)
    requires IsInit(s)
    ensures Inv(s)
  {
    ModSmall(0, |s.ring.buf|);
  }

  // ---------------------------------------------------------------- specification

  /** A bounded first-in first-out queue, by its history. */
  datatype Fifo<T> = Fifo(pushed: seq<T>, taken: nat)

  function Abs<T>(s: Sys<T>): Fifo<T>
  {
    Fifo(s.pushed, s.taken)
  }

  ghost function Queue<T>(f: Fifo<T>): seq<T>
    requires f.taken <= |f.pushed|
  {
    f.pushed[f.taken..]
  }

  ghost predicate FifoStep<T>(cap: nat, f: Fifo<T>, e: Event<T>, f': Fifo<T>)
  {
    && f.taken <= |f.pushed| && f'.taken <= |f'.pushed|
    && match e
       case Internal => f' == f
       case Pushed(v) => |Queue(f)| < cap && f' == Fifo(f.pushed + [v], f.taken)
       // Refused only if the queue was full counting from the tail value that was read.
       case Refused(_, seen) => f' == f && seen <= f.taken && |f.pushed| - seen == cap
       case Counted(max, n, seen) =>
         f' == f && f.taken <= seen <= |f.pushed| && n == Min(seen - f.taken, max)
       case Popped(items) => items <= Queue(f) && f' == Fifo(f.pushed, f.taken + |items|)
  }

  // ---------------------------------------------------------------- one step

  lemma StepLoadTail<T>(s: Sys<T>, seen: nat)
    requires Inv(s) && Enabled(s, LoadTail(seen))
    ensures s.prod.next == s.tailLog[seen] <==> |s.pushed| - seen == |s.ring.buf| - 1
  {
    hide Mod, IsPow2;
    var n := |s.ring.buf|;
    if |s.pushed| + 1 - seen < n {
      ModInjective(|s.pushed| + 1, seen, n);
    } else {
      assert |s.pushed| + 1 == seen + n;
      ModPeriod(seen, 1, n);
    }
  }

  /** The slot being filled belongs to no unread position. */
  lemma FreeSlot<T>(s: Sys<T>, q: nat)
    requires Inv(s) && s.prod.PRoom? && s.taken <= q < |s.pushed|
    ensures Mod(q, |s.ring.buf|) != s.prod.h
  {
    hide Mod, IsPow2;
    ModInjective(|s.pushed|, q, |s.ring.buf|);
  }

  lemma InvWriteSlot<T>(s: Sys<T>)
    requires Inv(s) && Enabled(s, WriteSlot)
    ensures Inv(Do(s, WriteSlot))
  {
    hide Mod, IsPow2, Mask;
    forall q | s.taken <= q < |s.pushed| ensures Mod(q, |s.ring.buf|) != s.prod.h {
      FreeSlot(s, q);
    }
  }

  lemma InvPublishHead<T>(s: Sys<T>)
    requires Inv(s) && Enabled(s, PublishHead)
    ensures Inv(Do(s, PublishHead))
  {
    hide Mod, IsPow2, Mask;
  }

  lemma InvLoadHead<T>(s: Sys<T>, seen: nat)
    requires Inv(s) && Enabled(s, LoadHead(seen))
    ensures Available(s, s.headLog[seen], s.cons.t) == seen - s.taken
    ensures Inv(Do(s, LoadHead(seen)))
  {
    hide Mod, IsPow2, Mask;
    var n := |s.ring.buf|;
    MaskIsMod(s.headLog[seen] - s.cons.t, n);
    ModDiff(seen, s.taken, n);
  }

  lemma CopiedValue<T>(s: Sys<T>)
    requires Inv(s) && Enabled(s, CopySlot)
    ensures Do(s, CopySlot).cons.out == s.cons.out + [s.pushed[s.taken + |s.cons.out|]]
  {
    hide Mod, IsPow2, Mask;
    var n, i := |s.ring.buf|, |s.cons.out|;
    MaskIsMod(s.cons.t + i, n);
    ModAdd(s.taken, i, n);
    assert s.ring.buf[Mod(s.taken + i, n)] == s.pushed[s.taken + i];
  }

  lemma InvCopySlot<T>(s: Sys<T>)
    requires Inv(s) && Enabled(s, CopySlot)
    ensures Inv(Do(s, CopySlot))
  {
    hide Mod, IsPow2, Mask, SlotsInv;
    CopiedValue(s);
    var i := s.taken + |s.cons.out|;
    assert s.pushed[s.taken..i] + [s.pushed[i]] == s.pushed[s.taken..i + 1];
  }

  lemma InvPublishTail<T>(s: Sys<T>)
    requires Inv(s) && Enabled(s, PublishTail)
    ensures Inv(Do(s, PublishTail))
  {
    hide Mod, IsPow2, Mask;
    MaskIsMod(s.cons.t + s.cons.n, |s.ring.buf|);
    ModAdd(s.taken, s.cons.n, |s.ring.buf|);
  }

  lemma InvBeginPush<T>(s: Sys<T>, val: T)
    requires Inv(s) && Enabled(s, BeginPush(val))
    ensures Inv(Do(s, BeginPush(val)))
  {
    hide Mod, IsPow2, Mask;
    MaskIsMod(s.ring.head + 1, |s.ring.buf|);
    ModAdd(|s.pushed|, 1, |s.ring.buf|);
  }

  lemma InvLoadTail<T>(s: Sys<T>, seen: nat)
    requires Inv(s) && Enabled(s, LoadTail(seen))
    ensures Inv(Do(s, LoadTail(seen)))
  {
    hide Mod, IsPow2, Mask;
    StepLoadTail(s, seen);
  }

  lemma InvBeginPop<T>(s: Sys<T>, max: nat)
    requires Inv(s) && Enabled(s, BeginPop(max))
    ensures Inv(Do(s, BeginPop(max)))
  {
    hide Mod, IsPow2, Mask;
  }

  lemma StepKeepsInv<T>(s: Sys<T>, a: Action<T>)
    requires Inv(s) && Enabled(s, a)
    ensures Inv(Do(s, a))
  {
    hide Mod, IsPow2, Mask, Inv, Do;
    match a
    case BeginPush(val) => InvBeginPush(s, val);
    case LoadTail(seen) => InvLoadTail(s, seen);
    case WriteSlot => InvWriteSlot(s);
    case PublishHead => InvPublishHead(s);
    case BeginPop(max) => InvBeginPop(s, max);
    case LoadHead(seen) => InvLoadHead(s, seen);
    case CopySlot => InvCopySlot(s);
    case PublishTail => InvPublishTail(s);
  }

  /** What the consumer holds when it is about to store the tail. */
  lemma AboutToPublish<T>(s: Sys<T>)
    requires Inv(s) && Enabled(s, PublishTail)
    ensures 1 <= s.cons.n == |s.cons.out| && s.taken + s.cons.n <= |s.pushed|
    ensures s.cons.out == s.pushed[s.taken..s.taken + s.cons.n]
  {
    hide Mod, IsPow2, Mask, SlotsInv;
  }

  /** Whatever either thread does next keeps the invariant and is a step of the bounded
      queue of capacity N - 1. */
  lemma StepRefines<T>(s: Sys<T>, a: Action<T>)
    requires Inv(s) && Enabled(s, a)
    ensures Inv(Do(s, a)) && |Do(s, a).ring.buf| == |s.ring.buf|
    ensures FifoStep(|s.ring.buf| - 1, Abs(s), EventOf(s, a), Abs(Do(s, a)))
  {
    hide Mod, IsPow2, Mask, SlotsInv;
    StepKeepsInv(s, a);
    match a
    case LoadTail(seen) => StepLoadTail(s, seen);
    case LoadHead(seen) => InvLoadHead(s, seen);
    case _ =>
  }

  // ---------------------------------------------------------------- whole runs

  /** A finite interleaving: each action is enabled in the state the previous ones left. */
  ghost predicate IsRun<T>(s: Sys<T>, acts: seq<Action<T>>)
    decreases |acts|
  {
    acts == [] || (|s.ring.buf| >= 1 && Enabled(s, acts[0]) && IsRun(Do(s, acts[0]), acts[1..]))
  }

  ghost function Last<T>(s: Sys<T>, acts: seq<Action<T>>): Sys<T>
    requires IsRun(s, acts)
    decreases |acts|
  {
    if acts == [] then s else Last(Do(s, acts[0]), acts[1..])
  }

  ghost function Trace<T>(s: Sys<T>, acts: seq<Action<T>>): seq<Event<T>>
    requires IsRun(s, acts)
    decreases |acts|
  {
    if acts == [] then [] else [EventOf(s, acts[0])] + Trace(Do(s, acts[0]), acts[1..])
  }

  /** The events are a behaviour of the bounded queue from f to f'. */
  ghost predicate FifoRun<T(!new)>(cap: nat, f: Fifo<T>, es: seq<Event<T>>, f': Fifo<T>)
    decreases |es|
  {
    if es == [] then f' == f
    else exists g :: FifoStep(cap, f, es[0], g) && FifoRun(cap, g, es[1..], f')
  }

  lemma {:induction false} RunKeepsInv<T(!new)>(s: Sys<T>, acts: seq<Action<T>>)
    requires Inv(s) && IsRun(s, acts)
    ensures Inv(Last(s, acts)) && |Last(s, acts).ring.buf| == |s.ring.buf|
    ensures FifoRun(|s.ring.buf| - 1, Abs(s), Trace(s, acts), Abs(Last(s, acts)))
    decreases |acts|
  {
    hide Inv, Do, Enabled, EventOf, FifoStep;
    if acts != [] {
      StepRefines(s, acts[0]);
      RunKeepsInv(Do(s, acts[0]), acts[1..]);
      assert Trace(s, acts)[1..] == Trace(Do(s, acts[0]), acts[1..]);
    }
  }

  /** Main result: under every interleaving, and whatever not-yet-superseded cursor value each
      load returns, the ring is a FIFO queue of capacity N - 1. */
  lemma RingRefinesFifo<T(!new)>(s: Sys<T>, acts: seq<Action<T>>)
    requires IsInit(s) && IsRun(s, acts)
    ensures FifoRun(|s.ring.buf| - 1, Fifo([], 0), Trace(s, acts), Abs(Last(s, acts)))
  {
    InitInv(s);
    RunKeepsInv(s, acts);
  }

  /** All values accepted, and all values delivered, in the order of the run. */
  ghost function Accepted<T>(es: seq<Event<T>>): seq<T>
  {
    if es == [] then []
    else (if es[0].Pushed? then [es[0].val] else []) + Accepted(es[1..])
  }

  ghost function Delivered<T>(es: seq<Event<T>>): seq<T>
  {
    if es == [] then []
    else (if es[0].Popped? then es[0].items else []) + Delivered(es[1..])
  }

  lemma {:induction false} FifoRunTotals<T(!new)>(cap: nat, f: Fifo<T>, es: seq<Event<T>>, f': Fifo<T>)
    requires FifoRun(cap, f, es, f') && f.taken <= |f.pushed|
    ensures f'.taken <= |f'.pushed|
    ensures f'.pushed == f.pushed + Accepted(es)
    ensures f.pushed[..f.taken] + Delivered(es) == f'.pushed[..f'.taken]
    ensures |Queue(f)| <= cap ==> |Queue(f')| <= cap
    decreases |es|
  {
    if es != [] {
      var g :| FifoStep(cap, f, es[0], g) && FifoRun(cap, g, es[1..], f');
      var rest := es[1..];
      FifoRunTotals(cap, g, rest, f');
      FifoStepTotals(cap, f, es[0], g);
      Associative(f.pushed, if es[0].Pushed? then [es[0].val] else [], Accepted(rest));
      Associative(f.pushed[..f.taken], if es[0].Popped? then es[0].items else [], Delivered(rest));
    } else {
      assert f.pushed + [] == f.pushed;
    }
  }

  lemma Associative<T>(a: seq<T>, b: seq<T>, c: seq<T>)
    ensures (a + b) + c == a + (b + c)
  {
  }

  lemma FifoStepTotals<T>(cap: nat, f: Fifo<T>, e: Event<T>, g: Fifo<T>)
    requires FifoStep(cap, f, e, g)
    ensures g.pushed == f.pushed + (if e.Pushed? then [e.val] else [])
    ensures g.pushed[..g.taken] == f.pushed[..f.taken] + (if e.Popped? then e.items else [])
    ensures |Queue(f)| <= cap ==> |Queue(g)| <= cap
  {
    if e.Popped? {
      assert g.pushed[..g.taken] == f.pushed[..f.taken] + e.items;
    }
  }

  /** Nothing is lost, duplicated, invented or reordered: what came out is a prefix of what
      went in, and at most N - 1 values are inside. */
  lemma DeliveredIsPrefix<T(!new)>(s: Sys<T>, acts: seq<Action<T>>)
    requires IsInit(s) && IsRun(s, acts)
    ensures var es := Trace(s, acts);
            Delivered(es) <= Accepted(es) && |Accepted(es)| - |Delivered(es)| <= |s.ring.buf| - 1
  {
    RingRefinesFifo(s, acts);
    var f0, f := Abs(s), Abs(Last(s, acts));
    FifoRunTotals(|s.ring.buf| - 1, f0, Trace(s, acts), f);
    assert f.pushed == Accepted(Trace(s, acts));
    assert f.pushed[..f.taken] == Delivered(Trace(s, acts)) by {
      assert f0.pushed[..f0.taken] + Delivered(Trace(s, acts)) == Delivered(Trace(s, acts));
    }
  }

  /** The queue of the interleaved machine is what the slot array holds between its two
      cursors, the same reading that specifies the ring object's methods. */
  lemma ContentsIsQueue<T>(s: Sys<T>)
    requires Inv(s)
    ensures WellFormed(s.ring) && Contents(s.ring) == Queue(Abs(s))
  {
    hide Mod, IsPow2;
    var n := |s.ring.buf|;
    ModDiff(|s.pushed|, s.taken, n);
    forall i: nat | i < Used(s.ring) ensures s.ring.buf[SlotOf(s.ring, i)] == s.pushed[s.taken + i] {
      ModAdd(s.taken, i, n);
      assert s.ring.buf[Mod(s.taken + i, n)] == s.pushed[s.taken + i];
    }
    assert Contents(s.ring) == s.pushed[s.taken..];
  }

  // ---------------------------------------------------------------- exactness of the answers

  /** A load that returns the newest store: a refused push then met a full queue, and a burst
      that was counted takes exactly min(max, queue length). */
  lemma CurrentLoadsAreExact<T>(s: Sys<T>, a: Action<T>)
    requires Inv(s) && Enabled(s, a)
    requires a.LoadTail? ==> a.seen == s.taken
    requires a.LoadHead? ==> a.seen == |s.pushed|
    ensures a.LoadTail? ==> (Do(s, a).prod.PIdle? <==> |Queue(Abs(s))| == |s.ring.buf| - 1)
    ensures a.LoadHead? ==>
              EventOf(s, a) == Counted(s.cons.max, Min(|Queue(Abs(s))|, s.cons.max), a.seen)
  {
    StepRefines(s, a);
    if a.LoadTail? {
      StepLoadTail(s, a.seen);
    }
  }

  /** The items a burst publishes are as many as were counted, whatever the producer did in
      between, and they are the oldest ones. */
  lemma BurstIsExact<T>(s: Sys<T>)
    requires Inv(s) && Enabled(s, PublishTail)
    ensures s.cons.out == Queue(Abs(s))[..Min(s.headSeen - s.taken, s.cons.max)]
  {
  }

  /** No two unordered accesses to one slot: while the producer is about to write, its slot is
      none that the consumer may still read, the slot's previous value was removed by a tail
      store the producer has read, and the consumer only copies positions published by a head
      store it has read. */
  lemma NoSlotRace<T>(s: Sys<T>, acts: seq<Action<T>>)
    requires IsInit(s) && IsRun(s, acts)
    ensures var f := Last(s, acts);
            f.prod.PRoom? && |f.ring.buf| >= 1 ==>
              && (forall q :: f.taken <= q < |f.pushed| ==> Mod(q, |f.ring.buf|) != f.prod.h)
              && |f.pushed| < f.tailSeen + |f.ring.buf|
    ensures var f := Last(s, acts);
            f.cons.CCopy? && |f.cons.out| < f.cons.n ==> f.taken + |f.cons.out| < f.headSeen
  {
    InitInv(s);
    InvOnly(s, acts);
    var f := Last(s, acts);
    if f.prod.PRoom? {
      forall q | f.taken <= q < |f.pushed| ensures Mod(q, |f.ring.buf|) != f.prod.h {
        FreeSlot(f, q);
      }
    }
  }

  lemma {:induction false} InvOnly<T>(s: Sys<T>, acts: seq<Action<T>>)
    requires Inv(s) && IsRun(s, acts)
    ensures Inv(Last(s, acts))
    decreases |acts|
  {
    hide Inv, Do, Enabled;
    if acts != [] {
      StepKeepsInv(s, acts[0]);
      InvOnly(Do(s, acts[0]), acts[1..]);
    }
  }
}
