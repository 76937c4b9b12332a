/** One session at a time: whatever timed out, got lost or crossed before, a session asked for
    while the GTP side is idle gets its own address if neither wait for it times out. */
module S1Waits {
  import opened S1Nodes
  import opened S1Runs
  import opened S1Theorems
  import opened S1Sessions

  /** Nothing under way between MME, S-GW and P-GW. */
  predicate GtpIdle(s: State)
  {
    && s.sgw.pc.SgwReady?
    && Waiting(s.s11q) == 0 && Waiting(s.s11r) == 0 && Waiting(s.s5q) == 0 && Waiting(s.s5r) == 0
  }

  /** The request of UE id, or its answer, is the only thing under way. before and held are the
      addresses allocated and the bearers held when it was sent. */
  ghost predicate WaitInv(s: State, id: nat, imsi: nat, before: seq<nat>, held: seq<Bearer>)
  {
    && s.mme.pc == AwaitingCreate(id) && id in s.mme.store
    && s.mme.store[id].imsi == imsi && s.mme.store[id].bearers == held
    && s.pgw.nextIp == IpAt(|s.ipOwner|)
    && OneAtATime(s.mme.pc, s.sgw.pc, Waiting(s.s11q), Waiting(s.s11r), Waiting(s.s5q), Waiting(s.s5r))
    && (s.sgw.pc.AwaitingPgw? ==> s.sgw.pc.imsi == imsi)
    && (HasNext(s.s11q) ==> Head(s.s11q) == CreateSession(imsi) && s.ipOwner == before)
    && (HasNext(s.s5q) ==> Head(s.s5q) == imsi && s.ipOwner == before)
    && (HasNext(s.s5r) && Head(s.s5r).cause == ACCEPTED ==>
          s.ipOwner == before + [imsi] && Head(s.s5r).ueIp == IpAt(|before|))
    && (HasNext(s.s11r) ==>
          Head(s.s11r).Created? && s.ipOwner == before + [imsi] && Head(s.s11r).ueIp == IpAt(|before|))
  }

  /** Any step but an answer or a timeout of one of the two waits. */
  predicate DuringWait(a: Action)
  {
    !a.MmeAnswer? && !a.MmeTimeout? && !a.SgwTimeout?
  }

  lemma WaitSgw(s: State, a: Action, id: nat, imsi: nat, before: seq<nat>, held: seq<Bearer>)
    requires WaitInv(s, id, imsi, before, held) && Enabled(s, a) && (a.SgwReceive? || a.SgwAnswer? || a.PgwReceive?)
    ensures WaitInv(Do(s, a), id, imsi, before, held)
  {
    NextIpAt(|s.ipOwner|);
    hide IpAt;
  }

  lemma WaitElsewhere(s: State, a: Action, id: nat, imsi: nat, before: seq<nat>, held: seq<Bearer>)
    requires WaitInv(s, id, imsi, before, held) && Enabled(s, a) && DuringWait(a)
    requires !a.SgwReceive? && !a.SgwAnswer? && !a.PgwReceive?
    ensures WaitInv(Do(s, a), id, imsi, before, held)
  {
    hide IpAt, EnbOnMessage, EnbOnCommand, PhaseOnEnb;
  }

  lemma WaitStep(s: State, a: Action, id: nat, imsi: nat, before: seq<nat>, held: seq<Bearer>)
    requires WaitInv(s, id, imsi, before, held) && Enabled(s, a) && DuringWait(a)
    ensures WaitInv(Do(s, a), id, imsi, before, held)
  {
    hide WaitInv, Do, Enabled;
    if a.SgwReceive? || a.SgwAnswer? || a.PgwReceive? {
      WaitSgw(s, a, id, imsi, before, held);
    } else {
      WaitElsewhere(s, a, id, imsi, before, held);
    }
  }

  lemma {:induction false} WaitRun(s: State, wait: seq<Action>, id: nat, imsi: nat, before: seq<nat>, held: seq<Bearer>)
    requires WaitInv(s, id, imsi, before, held) && IsRun(s, wait) && forall a :: a in wait ==> DuringWait(a)
    ensures WaitInv(Last(s, wait), id, imsi, before, held)
    decreases |wait|
  {
    hide WaitInv, Do, Enabled, DuringWait;
    if wait != [] {
      WaitStep(s, wait[0], id, imsi, before, held);
      WaitRun(Do(s, wait[0]), wait[1..], id, imsi, before, held);
    }
  }

  lemma WaitBegins(s: State)
    requires Reachable(s) && Enabled(s, MmeReceive) && Do(s, MmeReceive).mme.pc.AwaitingCreate? && GtpIdle(s)
    ensures HasNext(s.up) && Head(s.up).AuthResponse? && Head(s.up).mmeId in s.mme.store
    ensures var id := Head(s.up).mmeId;
            WaitInv(Do(s, MmeReceive), id, s.mme.store[id].imsi, s.ipOwner, s.mme.store[id].bearers)
  {
    hide Reachable, Authentic, IpAt, SwitchTeid, DefaultAt, PhaseOnMme;
    NextIpIs(s);
  }

  lemma NextIpIs(s: State)
    requires Reachable(s)
    ensures s.pgw.nextIp == IpAt(|s.ipOwner|)
  {
    hide Do, Enabled, IsInit, IpAt, OneAtATime, CreateOnly, BearersServed, OnBehalfOf;
    var s0, acts :| IsInit(s0) && IsRun(s0, acts) && Last(s0, acts) == s;
    InitGtp(s0);
    RunKeepsGtp(s0, acts);
  }

  /** The answer is for this UE. */
  lemma WaitEnds(s: State, id: nat, imsi: nat, before: seq<nat>, held: seq<Bearer>)
    requires WaitInv(s, id, imsi, before, held) && Enabled(s, MmeAnswer)
    ensures var f := Do(s, MmeAnswer);
            && f.ipOwner == before + [imsi] && id in f.mme.store && f.mme.store[id].imsi == imsi
            && |f.mme.store[id].bearers| == |held| + 1 && f.mme.store[id].bearers[..|held|] == held
            && f.mme.store[id].bearers[|held|].ueIp == IpAt(|before|)
  {
    hide IpAt, DefaultAt, DefaultBearer;
  }

  /** Whatever happened before: if the MME asks for a session while nothing is under way between
      MME, S-GW and P-GW, then up to its answer, whatever else the system does in the meantime,
      the P-GW allocates one address, for this UE's IMSI, and that address is what the answer
      adds to this UE's context. */
  lemma SessionIsOwn(s: State, wait: seq<Action>)
    requires Reachable(s) && Enabled(s, MmeReceive) && Do(s, MmeReceive).mme.pc.AwaitingCreate? && GtpIdle(s)
    requires IsRun(Do(s, MmeReceive), wait) && forall a :: a in wait ==> DuringWait(a)
    requires Enabled(Last(Do(s, MmeReceive), wait), MmeAnswer)
    ensures Head(s.up).AuthResponse? && Head(s.up).mmeId in s.mme.store
    ensures var id, f := Head(s.up).mmeId, Do(Last(Do(s, MmeReceive), wait), MmeAnswer);
            var held := s.mme.store[id].bearers;
            && f.ipOwner == s.ipOwner + [s.mme.store[id].imsi]
            && id in f.mme.store && f.mme.store[id].imsi == s.mme.store[id].imsi
            && |f.mme.store[id].bearers| == |held| + 1 && f.mme.store[id].bearers[..|held|] == held
            && f.mme.store[id].bearers[|held|].ueIp == IpAt(|s.ipOwner|)
  {
    hide Reachable, WaitInv, IpAt, Enabled, Do, DuringWait, GtpIdle;
    WaitBegins(s);
    var id := Head(s.up).mmeId;
    var imsi, held := s.mme.store[id].imsi, s.mme.store[id].bearers;
    WaitRun(Do(s, MmeReceive), wait, id, imsi, s.ipOwner, held);
    WaitEnds(Last(Do(s, MmeReceive), wait), id, imsi, s.ipOwner, held);
  }
}
