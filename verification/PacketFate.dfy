/** What becomes of a packet, told from what was installed: the rule that the precedence scan
    finds, and the forwarding rule last added under the id it names. */
module PacketFate {
  import opened Common
  import opened MbufPool
  import opened PfcpRules
  import opened Pipeline
  import F = FastPathRuns
  import T = FastPathTheorems
  import O = FastPathOutput
  import S = SocketRuns

  datatype Add = AddPdr(pdr: Pdr) | AddFar(far: Far) | AddQer(qer: Qer)

  /** The table after these calls of add_pdr, add_far and add_qer, first to last. */
  function Table(adds: seq<Add>): Rules
  {
    if adds == [] then EMPTY
    else
      var r := Table(adds[..|adds| - 1]);
      match adds[|adds| - 1]
      case AddPdr(p) => WithPdr(r, p)
      case AddFar(f) => WithFar(r, f)
      case AddQer(q) => WithQer(r, q)
  }

  function Pdrs(adds: seq<Add>): seq<Pdr>
  {
    if adds == [] then []
    else
      var last := adds[|adds| - 1];
      Pdrs(adds[..|adds| - 1]) + if last.AddPdr? then [last.pdr] else []
  }

  /** The FAR last added under an id. */
  function LastFar(adds: seq<Add>, id: nat): Option<Far>
  {
    if adds == [] then None
    else
      var last := adds[|adds| - 1];
      if last.AddFar? && last.far.farId == id then Some(last.far) else LastFar(adds[..|adds| - 1], id)
  }

  /** The QER last added under an id. */
  function LastQer(adds: seq<Add>, id: nat): Option<Qer>
  {
    if adds == [] then None
    else
      var last := adds[|adds| - 1];
      if last.AddQer? && last.qer.qerId == id then Some(last.qer) else LastQer(adds[..|adds| - 1], id)
  }

  ghost predicate Conditions(adds: seq<Add>)
  {
    DistinctIds(Pdrs(adds)) && DistinctKeys(Pdrs(adds))
  }

  /** The PDR that the scan of all rules in precedence order finds. */
  function Scanned(adds: seq<Add>, pkt: Packet): Option<Pdr>
  {
    Scan(ByPrecedence(Pdrs(adds)), pkt)
  }

  lemma {:induction false} FarsAre(adds: seq<Add>, id: nat)
    ensures Lookup(Table(adds).fars, id) == LastFar(adds, id)
  {
    if adds != [] {
      FarsAre(adds[..|adds| - 1], id);
    }
  }

  lemma {:induction false} QersAre(adds: seq<Add>, id: nat)
    ensures Lookup(Table(adds).qers, id) == LastQer(adds, id)
  {
    if adds != [] {
      QersAre(adds[..|adds| - 1], id);
    }
  }

  /** What is added between PDRs makes no difference to them. */
  lemma {:induction false} PdrsAre(adds: seq<Add>)
    ensures var r, i := Table(adds), Install(Pdrs(adds));
            r.pdrs == i.pdrs && r.teidToPdr == i.teidToPdr && r.ueipToPdr == i.ueipToPdr
  {
    if adds != [] {
      var init, last := adds[..|adds| - 1], adds[|adds| - 1];
      PdrsAre(init);
      if last.AddPdr? {
        InstallOne(Pdrs(init), last.pdr);
      } else {
        assert Pdrs(adds) == Pdrs(init);
      }
      hide Install;
    }
  }

  lemma InstallOne(ps: seq<Pdr>, p: Pdr)
    ensures Install(ps + [p]) == WithPdr(Install(ps), p)
  {
    assert (ps + [p])[..|ps|] == ps;
  }

  /** With distinct PDR ids and keys: a packet is of an unknown session exactly if the scan finds
      no rule for it; it is forwarded exactly if the scan finds one and the FAR last added under
      the id which that names says FORWARD or BUFFER; it is dropped if there is no such FAR, or
      if that says DROP. */
  lemma FateByScan(adds: seq<Add>, pkt: Packet)
    requires Conditions(adds)
    ensures var found := Scanned(adds, pkt);
            && MatchPdr(Table(adds), pkt) == found
            && (Decide(Table(adds), pkt) == NoPdr <==> found.None?)
            && (Decide(Table(adds), pkt) == Forward <==>
                  found.Some? && LastFar(adds, found.value.farId).Some?
                  && LastFar(adds, found.value.farId).value.action in {FORWARD, BUFFER})
            && (Decide(Table(adds), pkt) == FarDrop <==>
                  found.Some? && (LastFar(adds, found.value.farId).None?
                                  || LastFar(adds, found.value.farId).value.action == DROP))
  {
    PdrsAre(adds);
    IndexEqualsScan(Pdrs(adds), pkt);
    hide Install, LastFar, Scan, ByPrecedence, Table;
    assert MatchPdr(Table(adds), pkt) == MatchPdr(Install(Pdrs(adds)), pkt);
    if Scanned(adds, pkt).Some? {
      FarsAre(adds, Scanned(adds, pkt).value.farId);
    }
  }

  /** The QER consulted for it is the one last added under the id that the rule names. */
  lemma QerByScan(adds: seq<Add>, pkt: Packet)
    requires Conditions(adds) && Scanned(adds, pkt).Some?
    ensures var pdr := MatchPdr(Table(adds), pkt);
            pdr.Some? && Lookup(Table(adds).qers, pdr.value.qerId) == LastQer(adds, Scanned(adds, pkt).value.qerId)
  {
    QersAre(adds, Scanned(adds, pkt).value.qerId);
    FateByScan(adds, pkt);
  }

  // ---------------------------------------------------------------- streams

  /** The scan finds a rule whose FAR lets the packet pass. */
  predicate Passes(adds: seq<Add>, pkt: Packet)
  {
    var found := Scanned(adds, pkt);
    found.Some? && LastFar(adds, found.value.farId).Some?
    && LastFar(adds, found.value.farId).value.action in {FORWARD, BUFFER}
  }

  /** What is written into the packet: nothing if no rule matches; otherwise the ids of the rule
      found, and the mark of a drop exactly if its FAR does not let it pass. */
  lemma MarksByScan(adds: seq<Add>, pkt: Packet)
    requires Conditions(adds)
    ensures var found := Scanned(adds, pkt);
            Annotate(Table(adds), pkt) ==
            if found.None? then pkt
            else pkt.(pdrId := found.value.pdrId, farId := found.value.farId, classified := true,
                      dropped := pkt.dropped || !Passes(adds, pkt))
  {
    hide Conditions, Decide, Scanned, LastFar, Table, MatchPdr;
    FateByScan(adds, pkt);
  }

  /** The packets that pass, in order, each with the ids of the rule that the scan finds. */
  function Passed(adds: seq<Add>, ps: seq<Packet>): seq<Packet>
  {
    if ps == [] then []
    else
      var p := ps[|ps| - 1];
      Passed(adds, ps[..|ps| - 1])
      + if Passes(adds, p) then
          [p.(pdrId := Scanned(adds, p).value.pdrId, farId := Scanned(adds, p).value.farId, classified := true)]
        else []
  }

  /** How many of the packets no rule matches. */
  function Unmatched(adds: seq<Add>, ps: seq<Packet>): nat
  {
    if ps == [] then 0
    else Unmatched(adds, ps[..|ps| - 1]) + if Scanned(adds, ps[|ps| - 1]).None? then 1 else 0
  }

  /** What the rules prescribe for a stream, by the scan. */
  lemma {:induction false} StreamByScan(adds: seq<Add>, ps: seq<Packet>)
    requires Conditions(adds)
    ensures ForwardedOf(Table(adds), ps) == Passed(adds, ps)
    ensures var t := CountAll(Table(adds), ZERO, ps);
            && t.forwarded == |Passed(adds, ps)| && t.noPdr == Unmatched(adds, ps)
            && t.dropped == |ps| - |Passed(adds, ps)|
  {
    hide Conditions, Decide, Scanned, LastFar, Table, MatchPdr;
    if ps != [] {
      StreamByScan(adds, ps[..|ps| - 1]);
      FateByScan(adds, ps[|ps| - 1]);
    }
  }

  /** In every run of the poll-mode path that fills no buffer in use: forwarded, dropped and
      no-PDR counts, and the packets that left with the ids written into them, are those of the
      scan over what was handled. */
  lemma PollByScan(f: F.State, current: bool, adds: seq<Add>)
    requires T.CleanlyReachable(f, current) && !F.InPacket(f) && Conditions(adds) && f.rules == Table(adds)
    ensures f.out == Passed(adds, f.handled)
    ensures f.stats.forwarded == |Passed(adds, f.handled)| && f.stats.noPdr == Unmatched(adds, f.handled)
    ensures f.stats.dropped == |f.handled| - |Passed(adds, f.handled)| + f.refused
  {
    hide T.CleanlyReachable, Conditions, Table, Passed, Unmatched, F.InPacket, CountAll, ForwardedOf;
    T.CleanIsPrefix(f, current);
    O.OutIsForwarded(f, current);
    StreamByScan(adds, f.handled);
  }

  /** The same in every run of the socket path. */
  lemma SocketByScan(g: S.State, adds: seq<Add>)
    requires S.Reachable(g) && !S.InHand(g) && Conditions(adds) && g.rules == Table(adds)
    ensures g.out == Passed(adds, g.handled)
    ensures g.stats.forwarded == |Passed(adds, g.handled)| && g.stats.noPdr == Unmatched(adds, g.handled)
    ensures g.stats.dropped == |g.handled| - |Passed(adds, g.handled)| + g.refused
  {
    hide S.Reachable, Conditions, Table, Passed, Unmatched, CountAll, ForwardedOf;
    S.FifoAndCounted(g);
    StreamByScan(adds, g.handled);
  }
}
