/** What both paths do with one packet: PDR, then QER (looked up only), then FAR. */
module Pipeline {
  import opened MbufPool
  import opened PfcpRules

  datatype Verdict = NoPdr | FarDrop | Forward

  datatype Stats = Stats(rx: nat, forwarded: nat, dropped: nat, noPdr: nat)

  const ZERO := Stats(0, 0, 0, 0)

  /** FAR missing or DROP discards; BUFFER is forwarded like FORWARD. */
  function Decide(r: Rules, p: Packet): Verdict
  {
    match MatchPdr(r, p)
    case None => NoPdr
    case Some(pdr) =>
      match Lookup(r.fars, pdr.farId)
      case None => FarDrop
      case Some(far) => if far.action == DROP then FarDrop else Forward
  }

  /** The fields written into the buffer after packet p was looked up; mem is what the buffer
      holds at that moment. */
  function Stamp(r: Rules, p: Packet, mem: Packet): Packet
  {
    match MatchPdr(r, p)
    case None => mem
    case Some(pdr) =>
      mem.(pdrId := pdr.pdrId, farId := pdr.farId, classified := true,
           dropped := mem.dropped || Decide(r, p) == FarDrop)
  }

  function Annotate(r: Rules, p: Packet): Packet
  {
    Stamp(r, p, p)
  }

  /** The packet without the fields that the pipeline writes. */
  function Identity(p: Packet): Packet
  {
    p.(pdrId := 0, farId := 0, classified := false, dropped := false)
  }

  /** Classification reads none of the fields it writes. */
  lemma IdentityDecides(r: Rules, p: Packet, q: Packet)
    requires Identity(p) == Identity(q)
    ensures MatchPdr(r, p) == MatchPdr(r, q) && Decide(r, p) == Decide(r, q)
    ensures Identity(Stamp(r, p, q)) == Identity(q)
  {
    assert p.teid == Identity(q).teid && p.ueIp == Identity(q).ueIp && p.dir == Identity(q).dir;
  }

  function Count(s: Stats, v: Verdict): Stats
  {
    match v
    case NoPdr => s.(noPdr := s.noPdr + 1, dropped := s.dropped + 1)
    case FarDrop => s.(dropped := s.dropped + 1)
    case Forward => s.(forwarded := s.forwarded + 1)
  }

  // ---------------------------------------------------------------- a stream of packets

  function CountAll(r: Rules, s: Stats, ps: seq<Packet>): Stats
  {
    if ps == [] then s else Count(CountAll(r, s, ps[..|ps| - 1]), Decide(r, ps[|ps| - 1]))
  }

  /** The packets forwarded, annotated, in arrival order. */
  function ForwardedOf(r: Rules, ps: seq<Packet>): seq<Packet>
  {
    if ps == [] then []
    else
      var p := ps[|ps| - 1];
      ForwardedOf(r, ps[..|ps| - 1]) + (if Decide(r, p) == Forward then [Annotate(r, p)] else [])
  }

  /** Each packet handled is counted exactly once, as forwarded or as dropped, and the
      no-PDR packets are among the dropped ones. */
  lemma {:induction false} CountAllTotals(r: Rules, s: Stats, ps: seq<Packet>)
    ensures var t := CountAll(r, s, ps);
            && t.rx == s.rx
            && t.forwarded == s.forwarded + |ForwardedOf(r, ps)|
            && t.forwarded + t.dropped == s.forwarded + s.dropped + |ps|
            && s.noPdr <= t.noPdr && t.noPdr - s.noPdr <= t.dropped - s.dropped
  {
    if ps != [] {
      CountAllTotals(r, s, ps[..|ps| - 1]);
    }
  }

  /** Cutting the stream anywhere does not matter. */
  lemma {:induction false} CountAllSplit(r: Rules, s: Stats, a: seq<Packet>, b: seq<Packet>)
    ensures CountAll(r, s, a + b) == CountAll(r, CountAll(r, s, a), b)
    ensures ForwardedOf(r, a + b) == ForwardedOf(r, a) + ForwardedOf(r, b)
  {
    if b == [] {
      assert a + b == a;
    } else {
      var c := b[..|b| - 1];
      CountAllSplit(r, s, a, c);
      assert (a + b)[..|a + b| - 1] == a + c;
    }
  }

  // ---------------------------------------------------------------- a stream partly counted

  /** Packets fully counted: all looked up, except the one in hand. */
  function Done(inHand: bool, handled: seq<Packet>): seq<Packet>
  {
    if inHand && handled != [] then handled[..|handled| - 1] else handled
  }

  ghost predicate StatsOk(stats: Stats, rules: Rules, counted: seq<Packet>, half: nat, refused: nat)
  {
    var t := CountAll(rules, ZERO, counted);
    && stats.forwarded == t.forwarded
    && stats.noPdr == t.noPdr + half
    && stats.dropped == t.dropped + refused
  }

  lemma StatsCounted(stats: Stats, rules: Rules, handled: seq<Packet>, refused: nat)
    requires handled != []
    requires StatsOk(stats, rules, handled[..|handled| - 1], 0, refused)
    ensures var v := Decide(rules, handled[|handled| - 1]);
            && (v == Forward ==> StatsOk(stats.(forwarded := stats.forwarded + 1), rules, handled, 0, refused))
            && (v == FarDrop ==> StatsOk(stats.(dropped := stats.dropped + 1), rules, handled, 0, refused))
            && StatsOk(stats.(noPdr := stats.noPdr + 1), rules, handled[..|handled| - 1], 1, refused)
  {
    hide Decide;
  }

  lemma StatsCountedDrop(stats: Stats, rules: Rules, handled: seq<Packet>, refused: nat)
    requires handled != [] && Decide(rules, handled[|handled| - 1]) == NoPdr
    requires StatsOk(stats, rules, handled[..|handled| - 1], 1, refused)
    ensures StatsOk(stats.(dropped := stats.dropped + 1), rules, handled, 0, refused)
  {
    hide Decide;
  }

  lemma StatsRefused(stats: Stats, rules: Rules, counted: seq<Packet>, half: nat, refused: nat)
    requires StatsOk(stats, rules, counted, half, refused)
    ensures StatsOk(stats.(rx := stats.rx + 1), rules, counted, half, refused)
    ensures StatsOk(stats.(dropped := stats.dropped + 1), rules, counted, half, refused + 1)
  {
    hide CountAll;
  }

  // ---------------------------------------------------------------- packets held in buffers

  /** Buffers and counters after handling these slots in order; a slot may occur twice. */
  datatype Work = Work(mbufs: seq<Mbuf>, stats: Stats)

  ghost predicate SlotsIn(slots: seq<nat>, n: nat)
  {
    forall i :: 0 <= i < |slots| ==> slots[i] < n
  }

  function HandleOne(r: Rules, w: Work, slot: nat): (w': Work)
    requires slot < |w.mbufs|
    ensures |w'.mbufs| == |w.mbufs|
  {
    var p := w.mbufs[slot].pkt;
    Work(w.mbufs[slot := Mbuf(Annotate(r, p), false)], Count(w.stats, Decide(r, p)))
  }

  ghost function HandleAll(r: Rules, w: Work, slots: seq<nat>): (w': Work)
    requires SlotsIn(slots, |w.mbufs|)
    ensures |w'.mbufs| == |w.mbufs|
    ensures slots == [] ==> w' == w
  {
    if slots == [] then w
    else HandleOne(r, HandleAll(r, w, slots[..|slots| - 1]), slots[|slots| - 1])
  }

  lemma {:induction false} HandleAllSplit(r: Rules, w: Work, a: seq<nat>, b: seq<nat>)
    requires SlotsIn(a, |w.mbufs|) && SlotsIn(b, |w.mbufs|)
    ensures HandleAll(r, w, a + b) == HandleAll(r, HandleAll(r, w, a), b)
    decreases |b|
  {
    if b == [] {
      assert a + b == a;
    } else {
      var c := b[..|b| - 1];
      HandleAllSplit(r, w, a, c);
      assert (a + b)[..|a + b| - 1] == a + c;
    }
  }

  ghost function PacketsIn(w: Work, slots: seq<nat>): seq<Packet>
    requires SlotsIn(slots, |w.mbufs|)
  {
    seq(|slots|, i requires 0 <= i < |slots| => w.mbufs[slots[i]].pkt)
  }

  ghost predicate NoAliasing(slots: seq<nat>)
  {
    forall i, j :: 0 <= i < j < |slots| ==> slots[i] != slots[j]
  }

  /** Distinct buffers: the counters are those of the stream of packets, every buffer in the list
      is free afterwards and holds its packet with the rule written in, and the others keep their
      content. */
  lemma {:induction false} HandleAllIsCountAll(r: Rules, w: Work, slots: seq<nat>)
    requires SlotsIn(slots, |w.mbufs|) && NoAliasing(slots)
    ensures HandleAll(r, w, slots).stats == CountAll(r, w.stats, PacketsIn(w, slots))
    ensures forall s :: 0 <= s < |w.mbufs| ==>
              HandleAll(r, w, slots).mbufs[s] == if s in slots then Mbuf(Annotate(r, w.mbufs[s].pkt), false)
                                                 else w.mbufs[s]
  {
    if slots != [] {
      var init, last := slots[..|slots| - 1], slots[|slots| - 1];
      HandleAllIsCountAll(r, w, init);
      hide Annotate, Decide;
      assert last !in init;
      assert PacketsIn(w, slots)[..|slots| - 1] == PacketsIn(w, init);
    }
  }
}
