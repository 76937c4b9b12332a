/** Packets, packet buffers, and the circular bump allocator that hands the buffers out. */
module MbufPool {
  import opened Bits

  datatype Direction = UL | DL

  datatype Packet = Packet(
    teid: nat, ueIp: nat, dscp: nat, payloadLen: nat, arrivalNs: nat, qfi: nat,
    pdrId: nat, farId: nat, classified: bool, dropped: bool, seqNo: nat, dir: Direction)

  datatype Mbuf = Mbuf(pkt: Packet, inUse: bool)

  /** One alloc on a pool of n buffers: what next_ becomes and which slot is returned.
      fetch_add wraps at 2^32; the exhausted pool restarts by storing 0 and returning slot 0. */
  function AllocNext(next: nat, n: nat): nat
  {
    if next >= n then 0 else (next + 1) % U32_MOD
  }

  function AllocSlot(next: nat, n: nat): (slot: nat)
  {
    if next >= n then 0 else next
  }

  /** next_ before the k-th alloc (counting from 0) of a fresh pool. */
  function NextBefore(k: nat, n: nat): nat
  {
    if k == 0 then 0 else AllocNext(NextBefore(k - 1, n), n)
  }

  /** Slot returned by the k-th alloc of a fresh pool. */
  function SlotOfAlloc(k: nat, n: nat): nat
  {
    AllocSlot(NextBefore(k, n), n)
  }

  ghost predicate PoolSize(n: nat)
  {
    1 <= n < U32_MOD
  }

  lemma {:induction false} NextClosedForm(k: nat, n: nat)
    requires PoolSize(n)
    ensures NextBefore(k, n) == Mod(k, n + 1)
  {
    hide Mod;
    if k == 0 {
      ModSmall(0, n + 1);
    } else {
      NextClosedForm(k - 1, n);
      ModStep(k - 1, 1, n + 1);
    }
  }

  lemma AllocOne(k: nat, n: nat)
    ensures SlotOfAlloc(k, n) == AllocSlot(NextBefore(k, n), n)
    ensures NextBefore(k + 1, n) == AllocNext(NextBefore(k, n), n)
  {
  }

  /** Identity for the first n allocations, then period n + 1 in which slot 0 comes twice in
      a row and every other slot once. The slot is always inside the pool. */
  lemma AllocClosedForm(k: nat, n: nat)
    requires PoolSize(n)
    ensures SlotOfAlloc(k, n) == if Mod(k, n + 1) == n then 0 else Mod(k, n + 1)
    ensures k < n ==> SlotOfAlloc(k, n) == k
    ensures SlotOfAlloc(k + (n + 1), n) == SlotOfAlloc(k, n)
    ensures SlotOfAlloc(k, n) < n
  {
    hide Mod, NextBefore;
    NextClosedForm(k, n);
    NextClosedForm(k + (n + 1), n);
    ModPeriod(k, 1, n + 1);
    if k < n {
      ModSmall(k, n + 1);
    }
  }

  /** next_ never exceeds n at a call boundary, so n + 1 is the most it reaches inside a call. */
  lemma NextBounded(k: nat, n: nat)
    requires PoolSize(n)
    ensures NextBefore(k, n) <= n
    ensures NextBefore(k, n) == n <==> Mod(k, n + 1) == n
  {
    NextClosedForm(k, n);
  }

  /** Two allocations fewer than n apart share a slot exactly when they are the adjacent pair
      at a wrap: the one that found the pool exhausted and the next one. */
  lemma SlotReuse(i: nat, j: nat, n: nat)
    requires PoolSize(n) && i < j < i + n
    ensures SlotOfAlloc(i, n) == SlotOfAlloc(j, n) <==> j == i + 1 && Mod(i, n + 1) == n
  {
    hide Mod, NextBefore;
    NextClosedForm(i, n);
    NextClosedForm(j, n);
    ModStep(i, j - i, n + 1);
    assert i + (j - i) == j;
  }

  /** A buffer comes round again after at most n + 1 allocations, whether or not the consumer
      has freed it: the flag in_use plays no part in the choice. */
  lemma FirstReuse(i: nat, n: nat)
    requires PoolSize(n)
    ensures exists j :: i < j <= i + n + 1 && SlotOfAlloc(j, n) == SlotOfAlloc(i, n)
  {
    AllocClosedForm(i, n);
    assert SlotOfAlloc(i + (n + 1), n) == SlotOfAlloc(i, n);
  }

  /** The first call after a that is handed the same buffer. */
  function NextUse(a: nat, n: nat): nat
    requires PoolSize(n)
  {
    if Mod(a, n + 1) == n then a + 1 else if Mod(a, n + 1) == 0 then a + n else a + n + 1
  }

  /** NextUse is what its name says: that call gets the buffer of a, and none in between does. */
  lemma NextUseIsNext(a: nat, n: nat)
    requires PoolSize(n)
    ensures SlotOfAlloc(NextUse(a, n), n) == SlotOfAlloc(a, n)
    ensures forall c :: a < c < NextUse(a, n) ==> SlotOfAlloc(c, n) != SlotOfAlloc(a, n)
  {
    hide Mod, NextBefore, SlotOfAlloc;
    AllocClosedForm(a, n);
    if Mod(a, n + 1) == n {
      ModStep(a, 1, n + 1);
      AllocClosedForm(a + 1, n);
    } else if Mod(a, n + 1) == 0 {
      ModStep(a, n, n + 1);
      AllocClosedForm(a + n, n);
    }
    forall c | a < c < NextUse(a, n) ensures SlotOfAlloc(c, n) != SlotOfAlloc(a, n) {
      ModStep(a, c - a, n + 1);
      assert a + (c - a) == c;
      AllocClosedForm(c, n);
    }
  }

  /** The last of the calls a, ..., m - 1 that is handed the buffer of a. */
  function LastUse(a: nat, m: nat, n: nat): (b: nat)
    requires a < m
    ensures a <= b < m && SlotOfAlloc(b, n) == SlotOfAlloc(a, n)
    ensures forall c :: b < c < m ==> SlotOfAlloc(c, n) != SlotOfAlloc(a, n)
  {
    if SlotOfAlloc(m - 1, n) == SlotOfAlloc(a, n) then m - 1 else LastUse(a, m - 1, n)
  }

  /** A buffer still belongs to call a when m calls were made exactly if the next call that is
      handed the same buffer is not among them. */
  lemma OwnUntil(a: nat, m: nat, n: nat)
    requires PoolSize(n) && a < m
    ensures LastUse(a, m, n) == a <==> m <= NextUse(a, n)
  {
    hide SlotOfAlloc, LastUse;
    NextUseIsNext(a, n);
    var b := LastUse(a, m, n);
  }

  class MbufPool {
    var pool: seq<Mbuf>
    var next: nat
    ghost var allocs: nat   // calls to Alloc so far

    ghost predicate Valid()
      reads this
    {
      PoolSize(|pool|) && next == NextBefore(allocs, |pool|)
    }

    constructor (n: nat, blank: Packet)
      requires PoolSize(n)
      ensures Valid() && |pool| == n && allocs == 0
      ensures forall i :: 0 <= i < n ==> pool[i] == Mbuf(blank, false)
    {
      pool := seq(n, _ => Mbuf(blank, false));
      next := 0;
      allocs := 0;
    }

    /** Returns a slot of the pool in every call: there is no exhausted answer. */
    method Alloc() returns (slot: nat)
      requires Valid()
      modifies this
      ensures Valid() && allocs == old(allocs) + 1
      ensures slot == SlotOfAlloc(old(allocs), |old(pool)|) < |old(pool)|
      ensures pool == old(pool)[slot := old(pool)[slot].(inUse := true)]
    {
      hide Mod;
      AllocClosedForm(allocs, |pool|);
      slot := next;
      next := (next + 1) % U32_MOD;
      if slot >= |pool| {
        next := 0;
        slot := 0;
      }
      pool := pool[slot := pool[slot].(inUse := true)];
      allocs := allocs + 1;
    }

    method FreeMbuf(slot: nat)
      requires Valid() && slot < |pool|
      modifies this`pool
      ensures Valid() && pool == old(pool)[slot := old(pool)[slot].(inUse := false)]
    {
      pool := pool[slot := pool[slot].(inUse := false)];
    }
  }
}
