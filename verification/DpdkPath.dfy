/** The poll-mode path as one thread at a time runs it: rx_enqueue, process_burst, the drain
    loop. The two-thread interleaving is in FastPathRuns. */
module DpdkPath {
  import opened Bits
  import opened MbufPool
  import opened SpscRing
  import opened PfcpRules
  import opened Pipeline

  const BURST_SIZE: nat := 32
  const RING_SIZE: nat := 4096
  const POOL_SIZE: nat := 65536

  class DpdkPath {
    const rules: Rules
    const ring: SpscRing<nat>
    const pool: MbufPool
    var stats: Stats

    ghost predicate Valid()
      reads this, ring, ring.buf, pool
    {
      && ring.Valid() && pool.Valid()
      && SlotsIn(Queued(), |pool.pool|)
    }

    /** Slots waiting in the ring, oldest first. */
    ghost function Queued(): seq<nat>
      requires ring.Valid()
      reads this, ring, ring.buf
    {
      Contents(ring.View())
    }

    ghost function View(): Work
      reads this, pool
    {
      Work(pool.pool, stats)
    }

    constructor (rules: Rules, blank: Packet)
      ensures Valid() && fresh(ring) && fresh(ring.buf) && fresh(pool)
      ensures this.rules == rules && Queued() == [] && stats == ZERO
      ensures |pool.pool| == 65536 && ring.buf.Length == 4096 && pool.allocs == 0
    {
      this.rules := rules;
      assert IsPow2(RING_SIZE) by {
        assert IsPow2(64) by { assert IsPow2(8); }
        Pow2Product(64, 64);
      }
      ring := new SpscRing<nat>(RING_SIZE);
      pool := new MbufPool(POOL_SIZE, blank);
      stats := ZERO;
    }

    /** Always takes the next buffer of the pool and overwrites it, whoever still uses it;
        queues it if the ring has room, and otherwise counts a drop. */
    method RxEnqueue(pkt: Packet) returns (ok: bool)
      requires Valid()
      modifies this, ring`head, ring.buf, pool
      ensures Valid()
      ensures var slot := SlotOfAlloc(old(pool.allocs), |old(pool.pool)|);
              && slot < |old(pool.pool)|
              && pool.allocs == old(pool.allocs) + 1
              && pool.pool == old(pool.pool)[slot := Mbuf(pkt, ok)]
              && Queued() == if ok then old(Queued()) + [slot] else old(Queued())
      ensures ok <==> |old(Queued())| < ring.buf.Length - 1
      ensures stats == old(stats).(rx := old(stats).rx + 1,
                                   dropped := old(stats).dropped + if ok then 0 else 1)
    {
      stats := stats.(rx := stats.rx + 1);
      var m := pool.Alloc();
      pool.pool := pool.pool[m := Mbuf(pkt, true)];
      ok := ring.Push(m);
      if !ok {
        pool.FreeMbuf(m);
        stats := stats.(dropped := stats.dropped + 1);
      }
    }

    /** The three stages for one buffer, which is then freed. */
    method ProcessOne(m: nat)
      requires Valid() && m < |pool.pool|
      modifies this, pool`pool
      ensures Valid() && View() == HandleOne(rules, old(View()), m)
    {
      var pkt := pool.pool[m].pkt;
      var pdr := MatchPdr(rules, pkt);
      if pdr.None? {
        stats := stats.(noPdr := stats.noPdr + 1);
        stats := stats.(dropped := stats.dropped + 1);
        pool.FreeMbuf(m);
        return;
      }
      pkt := pkt.(pdrId := pdr.value.pdrId, farId := pdr.value.farId, classified := true);
      var far := Lookup(rules.fars, pdr.value.farId);
      if far.None? || far.value.action == DROP {
        pkt := pkt.(dropped := true);
        stats := stats.(dropped := stats.dropped + 1);
      } else {
        stats := stats.(forwarded := stats.forwarded + 1);
      }
      pool.pool := pool.pool[m := pool.pool[m].(pkt := pkt)];
      pool.FreeMbuf(m);
    }

    /** Classifies the buffers of one burst in order. */
    method ProcessBurst(burst: array<nat>, n: nat)
      requires Valid() && n <= burst.Length && SlotsIn(burst[..n], |pool.pool|)
      modifies this, pool`pool
      ensures Valid()
      ensures View() == HandleAll(rules, old(View()), burst[..n])
    {
      hide HandleOne;
      for i := 0 to n
        invariant Valid()
        invariant |pool.pool| == |old(pool.pool)|
        invariant View() == HandleAll(rules, old(View()), burst[..i])
      {
        assert burst[..i + 1][..i] == burst[..i];
        assert burst[i] == burst[..n][i];
        ProcessOne(burst[i]);
      }
    }

    /** One turn of the poll loop: up to BURST_SIZE slots off the ring, handled in order. */
    method PollOnce(burst: array<nat>) returns (n: nat)
      requires Valid() && burst.Length == BURST_SIZE && burst != ring.buf
      modifies this, ring`tail, pool`pool, burst
      ensures Valid() && |pool.pool| == |old(pool.pool)|
      ensures n == Min(|old(Queued())|, 32)
      ensures Queued() == old(Queued())[n..]
      ensures View() == HandleAll(rules, old(View()), old(Queued())[..n])
    {
      n := ring.PopBurst(burst, BURST_SIZE);
      if n == 0 {
        return;
      }
      assert burst[..n] == old(Queued())[..n];
      ProcessBurst(burst, n);
    }

    /** The loop after running_ went false: burst after burst until the ring is empty. The
        whole queue is handled in order, however it is cut into bursts. */
    method Drain()
      requires Valid()
      modifies this, ring`tail, pool`pool
      ensures Valid() && Queued() == []
      ensures View() == HandleAll(rules, old(View()), old(Queued()))
    {
      hide HandleAll, Contents, WellFormed;
      var burst := new nat[BURST_SIZE];
      ghost var q0, w0 := Queued(), View();
      ghost var done: nat := 0;
      while true
        invariant Valid() && fresh(burst) && burst.Length == BURST_SIZE
        invariant |pool.pool| == |w0.mbufs| && done <= |q0| && Queued() == q0[done..]
        invariant View() == HandleAll(rules, w0, q0[..done])
        decreases |q0| - done
      {
        var n := PollOnce(burst);
        if n == 0 {
          assert q0[..done] == q0;
          break;
        }
        HandleAllSplit(rules, w0, q0[..done], q0[done..][..n]);
        assert q0[..done + n] == q0[..done] + q0[done..][..n];
        done := done + n;
      }
    }
  }
}
