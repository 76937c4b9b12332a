/** The socket twin as one thread at a time runs it: enqueue, process_one, one turn of the
    worker loop, and the loops run after stop(). The interleaving is in SocketRuns. */
module SocketPath {
  import opened MbufPool
  import opened PfcpRules
  import opened Pipeline

  const MAX_QUEUE_DEPTH: nat := 4096

  class SocketPath {
    const rules: Rules
    var queue: seq<Packet>
    var stats: Stats
    var running: bool

    constructor (rules: Rules)
      ensures this.rules == rules && queue == [] && stats == ZERO && !running
    {
      this.rules := rules;
      queue := [];
      stats := ZERO;
      running := false;
    }

    /** Queues a copy; at 4096 waiting packets it drops instead. */
    method Enqueue(pkt: Packet) returns (ok: bool)
      modifies this`queue, this`stats
      ensures ok <==> |old(queue)| < 4096
      ensures queue == if ok then old(queue) + [pkt] else old(queue)
      ensures stats == old(stats).(rx := old(stats).rx + 1, dropped := old(stats).dropped + if ok then 0 else 1)
    {
      stats := stats.(rx := stats.rx + 1);
      if |queue| >= MAX_QUEUE_DEPTH {
        stats := stats.(dropped := stats.dropped + 1);
        return false;
      }
      queue := queue + [pkt];
      return true;
    }

    /** The same three stages as the poll-mode path, on a private copy. */
    method ProcessOne(p: Packet) returns (pkt: Packet)
      modifies this`stats
      ensures pkt == Annotate(rules, p)
      ensures stats == Count(old(stats), Decide(rules, p))
    {
      pkt := p;
      var pdr := MatchPdr(rules, pkt);
      if pdr.None? {
        stats := stats.(noPdr := stats.noPdr + 1);
        stats := stats.(dropped := stats.dropped + 1);
        return;
      }
      pkt := pkt.(pdrId := pdr.value.pdrId, farId := pdr.value.farId, classified := true);
      var far := Lookup(rules.fars, pdr.value.farId);
      if far.None? || far.value.action == DROP {
        pkt := pkt.(dropped := true);
        stats := stats.(dropped := stats.dropped + 1);
        return;
      }
      stats := stats.(forwarded := stats.forwarded + 1);
    }

    /** One turn of the worker loop once its wait has returned. */
    method WorkerTurn() returns (leave: bool)
      requires queue != [] || !running
      modifies this`queue, this`stats
      ensures leave <==> old(queue) == []
      ensures leave ==> queue == [] && stats == old(stats)
      ensures !leave ==> queue == old(queue)[1..] && stats == Count(old(stats), Decide(rules, old(queue)[0]))
    {
      if queue == [] {
        return true;
      }
      var pkt := queue[0];
      queue := queue[1..];
      var _ := ProcessOne(pkt);
      return false;
    }

    /** The loop after the worker loop: everything still queued, in order. */
    method Drain()
      modifies this`queue, this`stats
      ensures queue == [] && stats == CountAll(rules, old(stats), old(queue))
    {
      hide Decide;
      ghost var done: nat := 0;
      while queue != []
        invariant done <= |old(queue)| && queue == old(queue)[done..]
        invariant stats == CountAll(rules, old(stats), old(queue)[..done])
        decreases |queue|
      {
        var pkt := queue[0];
        queue := queue[1..];
        var _ := ProcessOne(pkt);
        assert old(queue)[..done + 1][..done] == old(queue)[..done];
        done := done + 1;
      }
      assert old(queue)[..done] == old(queue);
    }

    /** The worker thread from the moment running_ is false: the wait no longer blocks, and the
        whole queue is handled in order before the thread exits. */
    method WorkerLoop()
      requires !running
      modifies this`queue, this`stats
      ensures queue == [] && stats == CountAll(rules, old(stats), old(queue))
    {
      hide Decide;
      ghost var done: nat := 0;
      while true
        invariant done <= |old(queue)| && queue == old(queue)[done..]
        invariant stats == CountAll(rules, old(stats), old(queue)[..done])
        decreases |queue|
      {
        var leave := WorkerTurn();
        if leave {
          break;
        }
        assert old(queue)[..done + 1][..done] == old(queue)[..done];
        done := done + 1;
      }
      assert old(queue)[..done] == old(queue);
      Drain();
    }
  }
}
