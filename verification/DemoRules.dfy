/** The demo rule set: two PDRs, two FARs and one QER per UE, with 32-bit ids that wrap. */
module DemoRules {
  import opened Common
  import opened Bits
  import opened MbufPool
  import opened PfcpRules
  import opened Pipeline

  const BASE_UE_IP := 0x0A2D_0001
  const BASE_TEID := 1000
  const N6_GATEWAY := 0x0808_0808
  const GNB_N3 := 0x0A0A_0001
  const HALF := 0x8000_0000   // 2^31

  const QFI_CYCLE: seq<nat> := [1, 2, 9]
  const MBR_UL: seq<nat> := [64, 4000, 100000]
  const MBR_DL: seq<nat> := [64, 8000, 100000]
  const GBR_UL: seq<nat> := [64, 2000, 0]
  const GBR_DL: seq<nat> := [64, 4000, 0]

  function Teid(i: nat): nat { (BASE_TEID + i) % U32_MOD }
  function UeIp(i: nat): nat { (BASE_UE_IP + i) % U32_MOD }
  function UlId(i: nat): nat { (2 * i + 1) % U32_MOD }
  function DlId(i: nat): nat { (2 * i + 2) % U32_MOD }
  function QerId(i: nat): nat { (i + 1) % U32_MOD }

  function UlPdr(i: nat): Pdr { Pdr(UlId(i), Teid(i), UeIp(i), UL, UlId(i), QerId(i), 100) }
  function DlPdr(i: nat): Pdr { Pdr(DlId(i), Teid(i), UeIp(i), DL, DlId(i), QerId(i), 100) }
  function UlFar(i: nat): Far { Far(UlId(i), FORWARD, N6_GATEWAY, 0, false) }
  function DlFar(i: nat): Far { Far(DlId(i), FORWARD, GNB_N3, 2152, true) }
  function UeQer(i: nat): Qer
  {
    var k := i % 3;
    Qer(QerId(i), QFI_CYCLE[k], MBR_UL[k], MBR_DL[k], GBR_UL[k], GBR_DL[k])
  }

  function WithUe(r: Rules, i: nat): Rules
  {
    WithQer(WithFar(WithFar(WithPdr(WithPdr(r, UlPdr(i)), DlPdr(i)), UlFar(i)), DlFar(i)), UeQer(i))
  }

  /** The table built for n UEs. */
  function Rules(n: nat): PfcpRules.Rules
  {
    if n == 0 then EMPTY else WithUe(Rules(n - 1), n - 1)
  }

  method BuildDemoRules(numUes: nat) returns (rt: RuleTable)
    requires numUes < U32_MOD
    ensures fresh(rt) && rt.View() == Rules(numUes)
  {
    rt := new RuleTable();
    for i := 0 to numUes
      invariant fresh(rt) && rt.View() == Rules(i)
    {
      var ueIp, teid := (BASE_UE_IP + i) % U32_MOD, (BASE_TEID + i) % U32_MOD;
      var qi := i % 3;
      var ulId, dlId, qerId := (2 * i + 1) % U32_MOD, (2 * i + 2) % U32_MOD, (i + 1) % U32_MOD;
      rt.AddPdr(Pdr(ulId, teid, ueIp, UL, ulId, qerId, 100));
      rt.AddPdr(Pdr(dlId, teid, ueIp, DL, dlId, qerId, 100));
      rt.AddFar(Far(ulId, FORWARD, N6_GATEWAY, 0, false));
      rt.AddFar(Far(dlId, FORWARD, GNB_N3, 2152, true));
      rt.AddQer(Qer(qerId, QFI_CYCLE[qi], MBR_UL[qi], MBR_DL[qi], GBR_UL[qi], GBR_DL[qi]));
    }
  }

  // ---------------------------------------------------------------- no collisions up to 2^31

  lemma IdValues(i: nat)
    requires i < HALF
    ensures UlId(i) == 2 * i + 1 && QerId(i) == i + 1
    ensures DlId(i) == if i == HALF - 1 then 0 else 2 * i + 2
  {
  }

  /** Different UEs, and the two rules of one UE, never share an id below 2^31 UEs. */
  lemma IdsDistinct(i: nat, j: nat)
    requires i < HALF && j < HALF
    ensures UlId(i) != DlId(j)
    ensures i != j ==> UlId(i) != UlId(j) && DlId(i) != DlId(j) && QerId(i) != QerId(j)
  {
    IdValues(i);
    IdValues(j);
    hide UlId, DlId, QerId;
  }

  lemma KeysDistinct(i: nat, j: nat)
    requires i < j < i + U32_MOD
    ensures Teid(i) != Teid(j) && UeIp(i) != UeIp(j)
  {
  }

  /** Everything installed for UE i is still there after the later UEs. */
  ghost predicate Installed(r: PfcpRules.Rules, i: nat)
  {
    && Lookup(r.teidToPdr, Teid(i)) == Some(UlId(i)) && Lookup(r.ueipToPdr, UeIp(i)) == Some(DlId(i))
    && Lookup(r.pdrs, UlId(i)) == Some(UlPdr(i)) && Lookup(r.pdrs, DlId(i)) == Some(DlPdr(i))
    && Lookup(r.fars, UlId(i)) == Some(UlFar(i)) && Lookup(r.fars, DlId(i)) == Some(DlFar(i))
    && Lookup(r.qers, QerId(i)) == Some(UeQer(i))
  }

  lemma {:induction false} StaysInstalled(n: nat, i: nat)
    requires i < n <= HALF
    ensures Installed(Rules(n), i)
  {
    hide Installed, WithUe, Teid, UeIp, UlId, DlId, QerId;
    IdsDistinct(n - 1, n - 1);
    if i == n - 1 {
      FreshlyInstalled(Rules(n - 1), i);
    } else {
      StaysInstalled(n - 1, i);
      IdsDistinct(i, n - 1);
      IdsDistinct(n - 1, i);
      KeysDistinct(i, n - 1);
      KeepsInstalled(Rules(n - 1), i, n - 1);
    }
  }

  lemma FreshlyInstalled(r: PfcpRules.Rules, i: nat)
    requires UlId(i) != DlId(i)
    ensures Installed(WithUe(r, i), i)
  {
    hide Teid, UeIp, UlId, DlId, QerId;
  }

  lemma KeepsInstalled(r: PfcpRules.Rules, i: nat, j: nat)
    requires Installed(r, i)
    requires UlId(i) != UlId(j) && UlId(i) != DlId(j) && DlId(i) != UlId(j) && DlId(i) != DlId(j)
    requires QerId(i) != QerId(j) && Teid(i) != Teid(j) && UeIp(i) != UeIp(j)
    ensures Installed(WithUe(r, j), i)
  {
    hide Teid, UeIp, UlId, DlId, QerId;
  }

  /** The UE a 32-bit key belongs to: the key's distance above its base, modulo 2^32. */
  function UeOfTeid(teid: nat): nat { (teid - BASE_TEID) % U32_MOD }
  function UeOfIp(ip: nat): nat { (ip - BASE_UE_IP) % U32_MOD }

  lemma KeyOwner(key: nat, m: nat)
    requires key < U32_MOD && m < U32_MOD
    ensures Teid(m) == key <==> UeOfTeid(key) == m
    ensures UeIp(m) == key <==> UeOfIp(key) == m
  {
  }

  lemma {:induction false} NoOtherKeys(n: nat, key: nat)
    requires n < U32_MOD && key < U32_MOD
    ensures key in Rules(n).teidToPdr <==> UeOfTeid(key) < n
    ensures key in Rules(n).ueipToPdr <==> UeOfIp(key) < n
  {
    if n > 0 {
      hide WithUe, Rules, Teid, UeIp, UlId, DlId, UeOfTeid, UeOfIp;
      NoOtherKeys(n - 1, key);
      KeyOwner(key, n - 1);
      KeysStep(n);
    }
  }

  /** The n-th UE adds one key to each index. */
  lemma KeysStep(n: nat)
    requires n > 0
    ensures Rules(n).teidToPdr == Rules(n - 1).teidToPdr[Teid(n - 1) := UlId(n - 1)]
    ensures Rules(n).ueipToPdr == Rules(n - 1).ueipToPdr[UeIp(n - 1) := DlId(n - 1)]
  {
    hide Teid, UeIp, UlId, DlId;
  }

  /** Main result: up to 2^31 UEs every 32-bit key inside the configured ranges gets its own
      PDR, FAR and QER, and every other key gets nothing. */
  lemma DemoRulesResolve(n: nat, pkt: Packet)
    requires n <= HALF && pkt.teid < U32_MOD && pkt.ueIp < U32_MOD
    ensures var i := if pkt.dir.UL? then UeOfTeid(pkt.teid) else UeOfIp(pkt.ueIp);
            var r := Rules(n);
            if i >= n then MatchPdr(r, pkt) == None
            else
              && MatchPdr(r, pkt) == Some(if pkt.dir.UL? then UlPdr(i) else DlPdr(i))
              && Lookup(r.fars, MatchPdr(r, pkt).value.farId) == Some(if pkt.dir.UL? then UlFar(i) else DlFar(i))
              && Lookup(r.qers, MatchPdr(r, pkt).value.qerId) == Some(UeQer(i))
  {
    NoOtherKeys(n, pkt.teid);
    NoOtherKeys(n, pkt.ueIp);
    var i := if pkt.dir.UL? then UeOfTeid(pkt.teid) else UeOfIp(pkt.ueIp);
    if i < n {
      StaysInstalled(n, i);
      KeyOwner(if pkt.dir.UL? then pkt.teid else pkt.ueIp, i);
    }
  }

  /** What the sessions are given. For up to 2^31 UEs: a packet of a session is forwarded, uplink
      to the internet gateway 8.8.8.8 as it is, downlink to the gNB at 10.10.0.1, port 2152, inside
      GTP-U; voice, video and data flows with their rates take turns; any other packet is of no
      session. */
  lemma DemoRulesForward(n: nat, pkt: Packet)
    requires n <= 0x8000_0000 && pkt.teid < 0x1_0000_0000 && pkt.ueIp < 0x1_0000_0000
    ensures var i := (if pkt.dir.UL? then pkt.teid - 1000 else pkt.ueIp - 0x0A2D_0001) % 0x1_0000_0000;
            var r := Rules(n);
            if i >= n then Decide(r, pkt) == NoPdr
            else
              && Decide(r, pkt) == Forward && MatchPdr(r, pkt).Some?
              && var pdr := MatchPdr(r, pkt).value;
                 && pdr.dir == pkt.dir && pdr.precedence == 100
                 && pdr.teid == (1000 + i) % 0x1_0000_0000 && pdr.ueIp == (0x0A2D_0001 + i) % 0x1_0000_0000
                 && Lookup(r.fars, pdr.farId).Some? && Lookup(r.qers, pdr.qerId).Some?
                 && var far, qer := Lookup(r.fars, pdr.farId).value, Lookup(r.qers, pdr.qerId).value;
                    && far.action == FORWARD
                    && (far.dstIp, far.dstPort, far.encapGtpu)
                       == (if pkt.dir.UL? then (0x0808_0808, 0, false) else (0x0A0A_0001, 2152, true))
                    && (qer.qfi, qer.ulMbr, qer.dlMbr, qer.ulGbr, qer.dlGbr)
                       == (if i % 3 == 0 then (1, 64, 64, 64, 64)
                           else if i % 3 == 1 then (2, 4000, 8000, 2000, 4000) else (9, 100000, 100000, 0, 0))
  {
    hide Rules, MatchPdr, UlPdr, DlPdr, UlFar, DlFar, UeQer, Decide, Lookup;
    DemoRulesResolve(n, pkt);
    Verdicts(Rules(n), pkt);
    var i := if pkt.dir.UL? then UeOfTeid(pkt.teid) else UeOfIp(pkt.ueIp);
    if i < n {
      SessionPdrs(i);
      SessionFars(i);
      SessionQer(i);
      hide UeOfTeid, UeOfIp;
      if pkt.dir.UL? {
        assert MatchPdr(Rules(n), pkt).value == UlPdr(i);
      } else {
        assert MatchPdr(Rules(n), pkt).value == DlPdr(i);
      }
    }
  }

  lemma Verdicts(r: PfcpRules.Rules, pkt: Packet)
    ensures var pdr := MatchPdr(r, pkt);
            && (pdr.None? ==> Decide(r, pkt) == NoPdr)
            && (pdr.Some? && Lookup(r.fars, pdr.value.farId).Some?
                && Lookup(r.fars, pdr.value.farId).value.action == FORWARD ==>
                  Decide(r, pkt) == Forward)
  {
    hide MatchPdr, Lookup;
  }

  lemma SessionPdrs(i: nat)
    ensures UlPdr(i).dir == UL && DlPdr(i).dir == DL && UlPdr(i).precedence == 100 == DlPdr(i).precedence
    ensures UlPdr(i).teid == (1000 + i) % 0x1_0000_0000 == DlPdr(i).teid
    ensures UlPdr(i).ueIp == (0x0A2D_0001 + i) % 0x1_0000_0000 == DlPdr(i).ueIp
  {
    hide UlId, DlId, QerId;
  }

  lemma SessionFars(i: nat)
    ensures UlFar(i).action == FORWARD && DlFar(i).action == FORWARD
    ensures (UlFar(i).dstIp, UlFar(i).dstPort, UlFar(i).encapGtpu) == (0x0808_0808, 0, false)
    ensures (DlFar(i).dstIp, DlFar(i).dstPort, DlFar(i).encapGtpu) == (0x0A0A_0001, 2152, true)
  {
    hide UlId, DlId;
  }

  lemma SessionQer(i: nat)
    ensures var q := UeQer(i);
            (q.qfi, q.ulMbr, q.dlMbr, q.ulGbr, q.dlGbr)
            == (if i % 3 == 0 then (1, 64, 64, 64, 64)
                else if i % 3 == 1 then (2, 4000, 8000, 2000, 4000) else (9, 100000, 100000, 0, 0))
  {
    hide QerId;
  }

  // ---------------------------------------------------------------- and not beyond

  ghost predicate EveryUeResolves(n: nat)
  {
    forall i: nat, pkt: Packet :: i < n && pkt.teid == Teid(i) && pkt.ueIp == UeIp(i) ==>
      MatchPdr(Rules(n), pkt) == Some(if pkt.dir.UL? then UlPdr(i) else DlPdr(i))
  }

  lemma {:induction false} FirstUeOverwritten(n: nat)
    requires HALF < n < U32_MOD
    ensures Lookup(Rules(n).teidToPdr, Teid(0)) == Some(1)
    ensures Lookup(Rules(n).pdrs, 1) == Some(UlPdr(HALF))
  {
    hide Lookup, WithUe;
    if n == HALF + 1 {
      StaysInstalled(HALF, 0);
    } else {
      FirstUeOverwritten(n - 1);
    }
    KeysDistinct(0, n - 1);
    OverwriteStep(Rules(n - 1), n - 1);
  }

  lemma OverwriteStep(r: PfcpRules.Rules, i: nat)
    requires HALF <= i < U32_MOD - 1 && Teid(i) != Teid(0)
    ensures Lookup(WithUe(r, i).teidToPdr, Teid(0)) == Lookup(r.teidToPdr, Teid(0))
    ensures Lookup(WithUe(r, i).pdrs, 1) == if i == HALF then Some(UlPdr(HALF)) else Lookup(r.pdrs, 1)
  {
    assert DlId(i) != 1;
    assert UlId(i) == 1 <==> i == HALF;
  }

  /** The ids collide exactly from 2^31 + 1 UEs on. */
  lemma CollisionFreeBound(n: nat)
    requires n < U32_MOD
    ensures EveryUeResolves(n) <==> n <= HALF
  {
    if n <= HALF {
      forall i: nat, pkt: Packet | i < n && pkt.teid == Teid(i) && pkt.ueIp == UeIp(i)
        ensures MatchPdr(Rules(n), pkt) == Some(if pkt.dir.UL? then UlPdr(i) else DlPdr(i))
      {
        StaysInstalled(n, i);
      }
    } else {
      FirstUeOverwritten(n);
      var pkt := Packet(Teid(0), UeIp(0), 0, 0, 0, 0, 0, 0, false, false, 0, UL);
      assert MatchPdr(Rules(n), pkt) == Some(UlPdr(HALF));
      assert UlPdr(HALF).teid != UlPdr(0).teid;
    }
  }
}
