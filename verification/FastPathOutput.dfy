/** What the poll-mode path forwards: while buffers are not shared, exactly the annotated
    packets that the rules say, in order. */
module FastPathOutput {
  import R = RingConcurrency
  import opened MbufPool
  import opened PfcpRules
  import opened Pipeline
  import opened FastPathRuns
  import opened FastPathTheorems

  /** Forwarded so far is what the packets fully counted give, and the buffer of the packet in
      hand holds what was looked up, then the same with the rule written in. */
  ghost predicate OutOk(s: State)
  {
    && s.out == ForwardedOf(s.rules, Done(InPacket(s), s.handled))
    && (s.lc.Note? || s.lc.Tally? ==> s.i < |s.batch| && s.batch[s.i] < |s.mbufs|)
    && (s.lc.Note? ==> s.mbufs[s.batch[s.i]] == s.cur)
    && (s.lc.Tally? && Decide(s.rules, s.cur) != NoPdr ==> s.mbufs[s.batch[s.i]] == Annotate(s.rules, s.cur))
  }

  lemma OutRx(s: State, a: Action, current: bool)
    requires OutOk(s) && Enabled(s, a, current)
    requires a.RxEnter? || a.RxAlloc? || a.RxBegin? || a.RxGiveUp?
    ensures OutOk(Do(s, a, current))
  {
    hide R.Do, R.Enabled, Decide, ForwardedOf, Annotate, Done;
  }

  lemma OutRxRing(s: State, b: R.Action<nat>, current: bool)
    requires OutOk(s) && Enabled(s, RxRing(b), current)
    ensures OutOk(Do(s, RxRing(b), current))
  {
    hide R.Do, R.Enabled, Decide, ForwardedOf, Annotate, Done;
  }

  lemma OutRxFill(s: State, current: bool)
    requires Inv(s, current) && OutOk(s) && Enabled(s, RxFill, current) && MayFill(s)
    ensures OutOk(Do(s, RxFill, current))
  {
    if InPacket(s) {
      InHand(s, current);
    }
    hide Inv, Decide, ForwardedOf, Annotate, Done;
  }

  lemma OutLookup(s: State, current: bool)
    requires OutOk(s) && Enabled(s, LcLookup, current)
    ensures OutOk(Do(s, LcLookup, current))
  {
    hide Decide, ForwardedOf, Annotate;
    var s' := Do(s, LcLookup, current);
    assert s'.handled[..|s'.handled| - 1] == s.handled;
  }

  lemma OutCount(s: State, current: bool)
    requires Inv(s, current) && OutOk(s) && Enabled(s, LcCount, current)
    ensures OutOk(Do(s, LcCount, current))
  {
    hide Inv, Decide, ForwardedOf, Annotate;
    CurIsLast(s, current);
    ForwardedLast(s.rules, s.handled);
  }

  lemma OutCountDrop(s: State, current: bool)
    requires Inv(s, current) && OutOk(s) && Enabled(s, LcCountDrop, current)
    ensures OutOk(Do(s, LcCountDrop, current))
  {
    hide Inv, Decide, ForwardedOf, Annotate;
    CurIsLast(s, current);
    ForwardedLast(s.rules, s.handled);
  }

  lemma ForwardedLast(r: Rules, ps: seq<Packet>)
    requires ps != []
    ensures var p := ps[|ps| - 1];
            ForwardedOf(r, ps) == ForwardedOf(r, ps[..|ps| - 1])
                                  + if Decide(r, p) == Forward then [Annotate(r, p)] else []
  {
  }

  lemma CurIsLast(s: State, current: bool)
    requires Inv(s, current) && InPacket(s)
    ensures s.handled != [] && s.cur == s.handled[|s.handled| - 1]
    ensures s.lc.TallyDrop? ==> Decide(s.rules, s.cur) == NoPdr
  {
    hide MemoryOk, HandledOk, StatsOk, SlotsOk, AcceptedOk, R.Inv;
  }

  lemma OutOther(s: State, a: Action, current: bool)
    requires OutOk(s) && Enabled(s, a, current)
    requires a.LcStamp? || a.LcCheck? || a.LcBegin? || a.LcRing? || a.Stop?
    ensures OutOk(Do(s, a, current))
  {
    hide R.Do, R.Enabled, Decide, ForwardedOf;
  }

  lemma OutStep(s: State, a: Action, current: bool)
    requires Inv(s, current) && OutOk(s) && Enabled(s, a, current) && (a.RxFill? ==> MayFill(s))
    ensures OutOk(Do(s, a, current))
  {
    hide Inv, Do, OutOk, MayFill;
    match a
    case RxEnter(_) => OutRx(s, a, current);
    case RxAlloc => OutRx(s, a, current);
    case RxFill => OutRxFill(s, current);
    case RxBegin => OutRx(s, a, current);
    case RxRing(b) => OutRxRing(s, b, current);
    case RxGiveUp => OutRx(s, a, current);
    case LcLookup => OutLookup(s, current);
    case LcCount => OutCount(s, current);
    case LcCountDrop => OutCountDrop(s, current);
    case _ => OutOther(s, a, current);
  }

  lemma {:induction false} RunKeepsOut(s: State, acts: seq<Action>, current: bool)
    requires Inv(s, current) && OutOk(s) && IsRun(s, acts, current) && Unaliased(s, acts, current)
    ensures OutOk(Last(s, acts, current))
    decreases |acts|
  {
    hide Do, Enabled, Inv, OutOk, MayFill;
    if acts != [] {
      StepKeepsInv(s, acts[0], current);
      OutStep(s, acts[0], current);
      RunKeepsOut(Do(s, acts[0], current), acts[1..], current);
    }
  }

  /** In every run that fills no buffer still in use: what left is what the rules make of the
      packets handled, each annotated, in order. */
  lemma OutIsForwarded(f: State, current: bool)
    requires CleanlyReachable(f, current)
    ensures f.out == ForwardedOf(f.rules, Done(InPacket(f), f.handled))
  {
    hide Inv, Do, InPacket, ForwardedOf, MayFill;
    var s, acts :| IsInit(s) && IsRun(s, acts, current) && Unaliased(s, acts, current) && Last(s, acts, current) == f;
    InitInv(s, current);
    assert OutOk(s) by { InitOut(s); }
    RunKeepsOut(s, acts, current);
  }

  lemma InitOut(s: State)
    requires IsInit(s)
    ensures OutOk(s)
  {
  }
}
