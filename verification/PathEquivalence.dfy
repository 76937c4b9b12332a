/** The poll-mode path and the socket path treat the same accepted packets alike. */
module PathEquivalence {
  import opened MbufPool
  import opened PfcpRules
  import opened Pipeline
  import F = FastPathRuns
  import T = FastPathTheorems
  import O = FastPathOutput
  import S = SocketRuns

  /** What a path did with the packets it handled, drops before acceptance aside. */
  datatype Outcome = Outcome(handled: seq<Packet>, forwarded: seq<Packet>, forwardedCount: nat, noPdr: nat, dropped: int)

  function PollOutcome(f: F.State): Outcome
  {
    Outcome(f.handled, f.out, f.stats.forwarded, f.stats.noPdr, f.stats.dropped - f.refused)
  }

  function SocketOutcome(g: S.State): Outcome
  {
    Outcome(g.handled, g.out, g.stats.forwarded, g.stats.noPdr, g.stats.dropped - g.refused)
  }

  /** The outcome that the rules prescribe for these packets. */
  function Prescribed(r: Rules, ps: seq<Packet>): Outcome
  {
    var t := CountAll(r, ZERO, ps);
    Outcome(ps, ForwardedOf(r, ps), t.forwarded, t.noPdr, t.dropped)
  }

  /** However long the run, however the stream was cut into bursts, wherever polling handed over
      to draining and however the threads interleaved, as long as no buffer still in use is filled. */
  lemma PollFollowsRules(f: F.State, current: bool)
    requires T.CleanlyReachable(f, current) && !F.InPacket(f)
    ensures forall k :: 0 <= k < |f.accepted| ==> f.accepted[k] < |f.calls|
    ensures f.handled <= T.AcceptedPackets(f)
    ensures PollOutcome(f) == Prescribed(f.rules, f.handled)
  {
    hide T.CleanlyReachable, F.InPacket;
    T.CleanIsPrefix(f, current);
    O.OutIsForwarded(f, current);
  }

  lemma SocketFollowsRules(g: S.State)
    requires S.Reachable(g) && !S.InHand(g)
    ensures g.handled <= g.accepted && SocketOutcome(g) == Prescribed(g.rules, g.handled)
  {
    S.FifoAndCounted(g);
  }

  /** Same rules, same accepted packets, no buffer in use refilled: whenever both paths have handled
      equally many (all of them, for instance), they handled the same packets, forwarded the
      same annotated packets in the same order, and agree on every counter. */
  lemma SameOutcome(f: F.State, current: bool, g: S.State)
    requires T.CleanlyReachable(f, current) && !F.InPacket(f)
    requires S.Reachable(g) && !S.InHand(g)
    requires f.rules == g.rules && |f.handled| == |g.handled|
    requires forall k :: 0 <= k < |f.accepted| ==> f.accepted[k] < |f.calls|
    requires T.AcceptedPackets(f) == g.accepted
    ensures PollOutcome(f) == SocketOutcome(g)
  {
    hide PollOutcome, SocketOutcome, Prescribed, T.CleanlyReachable;
    PollFollowsRules(f, current);
    SocketFollowsRules(g);
    assert f.handled == g.accepted[..|f.handled|] == g.handled;
    assert PollOutcome(f) == Prescribed(f.rules, f.handled);
  }

  /** After both were stopped with no later arrivals, the two outcomes are those of all packets
      accepted. */
  lemma SameAfterStop(f: F.State, g: S.State)
    requires T.CleanlyReachable(f, true)
    requires f.lc.Exited? && |f.ring.pushed| == f.stopMark
    requires S.Reachable(g) && g.worker.Exited? && |g.accepted| == g.stopMark
    requires f.rules == g.rules
    requires forall k :: 0 <= k < |f.accepted| ==> f.accepted[k] < |f.calls|
    requires T.AcceptedPackets(f) == g.accepted
    ensures PollOutcome(f) == SocketOutcome(g) == Prescribed(g.rules, g.accepted)
  {
    hide PollOutcome, SocketOutcome, Prescribed, T.CleanlyReachable;
    T.CleanIsReachable(f, true);
    T.StopDrains(f);
    S.StopDrains(g);
    S.FifoAndCounted(g);
    AllHandled(f);
    assert g.handled == g.accepted && |T.AcceptedPackets(f)| == |f.accepted|;
    SameOutcome(f, true, g);
    SocketFollowsRules(g);
  }

  /** In particular within the first pool_size calls. */
  lemma SameOutcomeEarly(f: F.State, current: bool, g: S.State)
    requires T.Reachable(f, current) && |f.calls| <= |f.mbufs| && !F.InPacket(f)
    requires S.Reachable(g) && !S.InHand(g)
    requires f.rules == g.rules && |f.handled| == |g.handled|
    requires forall k :: 0 <= k < |f.accepted| ==> f.accepted[k] < |f.calls|
    requires T.AcceptedPackets(f) == g.accepted
    ensures PollOutcome(f) == SocketOutcome(g)
  {
    hide T.CleanlyReachable, T.Reachable, S.Reachable, PollOutcome, SocketOutcome;
    T.FewCallsClean(f, current);
    SameOutcome(f, current, g);
  }

  lemma AllHandled(f: F.State)
    requires T.Reachable(f, true) && f.lc.Exited? && T.Queued(f) == 0
    ensures |f.handled| == |f.accepted|
  {
    T.ReachableInv(f, true);
    hide F.SlotsOk, F.MemoryOk, F.HandledOk, F.BatchOk, F.AcceptedOk, StatsOk, NextBefore, SlotOfAlloc, F.R.Inv;
  }
}
