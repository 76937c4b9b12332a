/** GTP sessions: whose IP address ends up in whose context. Answers are matched to requests by
    nothing but order, so ownership needs that no wait has timed out; distinctness does not. */
module S1Sessions {
  import opened Bits
  import opened S1Nodes
  import opened S1Runs
  import opened S1Invariant
  import opened S1MmeSteps
  import opened S1Theorems

  function IpAt(n: nat): nat
  {
    (FIRST_UE_IP + n) % U32_MOD
  }

  /** ip is an address that the P-GW allocated for this IMSI. */
  ghost predicate Serves(owners: seq<nat>, imsi: nat, ip: nat)
  {
    exists n :: 0 <= n < |owners| && owners[n] == imsi && ip == IpAt(n)
  }

  function Waiting<T>(l: Link<T>): int
  {
    |l.sent| - l.read
  }

  // ---------------------------------------------------------------- one request at a time

  /** Without timeouts at most one GTP message or pending answer exists, and only while the MME
      waits. */
  predicate OneAtATime(pc: MmePc, sgw: SgwPc, q11: int, r11: int, q5: int, r5: int)
  {
    && q11 >= 0 && r11 >= 0 && q5 >= 0 && r5 >= 0
    && q11 + r11 + q5 + r5 <= 1
    && (!AwaitingSgw(pc) ==> q11 + r11 + q5 + r5 == 0 && sgw.SgwReady?)
    && (q5 + r5 == 1 ==> sgw.AwaitingPgw?)
    && (sgw.AwaitingPgw? ==> q11 == 0 && r11 == 0 && pc.AwaitingCreate?)
  }

  /** What is under way is for the UE that the MME waits for. */
  ghost predicate OnBehalfOf(s: State, imsi: nat)
  {
    && (HasNext(s.s11q) && Head(s.s11q).CreateSession? ==> Head(s.s11q).imsi == imsi)
    && (s.sgw.pc.AwaitingPgw? ==> s.sgw.pc.imsi == imsi)
    && (HasNext(s.s5q) ==> Head(s.s5q) == imsi)
    && (HasNext(s.s5r) && Head(s.s5r).cause == ACCEPTED ==> Serves(s.ipOwner, imsi, Head(s.s5r).ueIp))
    && (HasNext(s.s11r) && Head(s.s11r).Created? ==> Serves(s.ipOwner, imsi, Head(s.s11r).ueIp))
  }

  ghost predicate BearersServed(store: map<nat, Ue>, owners: seq<nat>)
  {
    forall id, m :: id in store && 0 <= m < |store[id].bearers| ==>
      Serves(owners, store[id].imsi, store[id].bearers[m].ueIp)
  }

  /** Only a wait for a session has a request for one under way. */
  predicate CreateOnly(s: State)
  {
    !s.mme.pc.AwaitingCreate? ==>
      && (HasNext(s.s11q) ==> Head(s.s11q).ModifyBearer?)
      && (HasNext(s.s11r) ==> Head(s.s11r).Modified?)
  }

  ghost predicate GtpInv(s: State)
  {
    && s.pgw.nextIp == IpAt(|s.ipOwner|)
    && (!s.timedOut ==>
          && OneAtATime(s.mme.pc, s.sgw.pc, Waiting(s.s11q), Waiting(s.s11r), Waiting(s.s5q), Waiting(s.s5r))
          && CreateOnly(s)
          && (s.mme.pc.AwaitingCreate? ==> OnBehalfOf(s, ImsiOf(s.mme, s.mme.pc.mmeId)))
          && BearersServed(s.mme.store, s.ipOwner))
  }

  lemma InitGtp(s: State)
    requires IsInit(s)
    ensures GtpInv(s)
  {
  }

  lemma ServesGrows(owners: seq<nat>, more: seq<nat>, imsi: nat, ip: nat)
    requires Serves(owners, imsi, ip)
    ensures Serves(owners + more, imsi, ip)
  {
    var n :| 0 <= n < |owners| && owners[n] == imsi && ip == IpAt(n);
    assert (owners + more)[n] == imsi;
  }

  lemma BearersGrow(store: map<nat, Ue>, owners: seq<nat>, more: seq<nat>)
    requires BearersServed(store, owners)
    ensures BearersServed(store, owners + more)
  {
    hide Serves;
    forall id, m | id in store && 0 <= m < |store[id].bearers|
      ensures Serves(owners + more, store[id].imsi, store[id].bearers[m].ueIp)
    {
      ServesGrows(owners, more, store[id].imsi, store[id].bearers[m].ueIp);
    }
  }

  /** Changing one context without touching IMSI or IP addresses. */
  lemma BearersUpdate(store: map<nat, Ue>, owners: seq<nat>, id: nat, u: Ue)
    requires BearersServed(store, owners)
    requires u.bearers != [] ==> id in store && u.imsi == store[id].imsi && |u.bearers| == |store[id].bearers|
    requires u.bearers != [] ==> forall m :: 0 <= m < |u.bearers| ==> u.bearers[m].ueIp == store[id].bearers[m].ueIp
    ensures BearersServed(store[id := u], owners)
  {
    hide Serves;
  }

  lemma BearersAdd(store: map<nat, Ue>, owners: seq<nat>, id: nat, b: Bearer)
    requires BearersServed(store, owners) && id in store && Serves(owners, store[id].imsi, b.ueIp)
    ensures BearersServed(store[id := store[id].(bearers := store[id].bearers + [b])], owners)
  {
    hide Serves;
  }

  lemma KeepBearers(s: State)
    requires BearersServed(s.mme.store, s.ipOwner) && Enabled(s, MmeReceive)
    ensures BearersServed(Do(s, MmeReceive).mme.store, s.ipOwner)
  {
    hide BearersServed, PhaseOnMme, SwitchTeid, Authentic;
    var store' := Do(s, MmeReceive).mme.store;
    match Head(s.up)
    case InitialUe(_, _) => BearersUpdate(s.mme.store, s.ipOwner, s.mme.nextId, store'[s.mme.nextId]);
    case AuthResponse(id, _, _) =>
      if id in s.mme.store { BearersUpdate(s.mme.store, s.ipOwner, id, s.mme.store[id].(emm := SessionPending)); }
    case SetupResponse(id, _, t) =>
      if id in s.mme.store { BearersUpdate(s.mme.store, s.ipOwner, id, WithTeid(s.mme.store[id], t)); }
    case AttachComplete(id, _) =>
      if id in s.mme.store { BearersUpdate(s.mme.store, s.ipOwner, id, s.mme.store[id].(emm := Registered)); }
    case HoAck(id, _, t) =>
      if id in s.mme.store { BearersUpdate(s.mme.store, s.ipOwner, id, WithTeid(s.mme.store[id], t)); }
    case _ =>
  }

  lemma GtpMmeReceive(s: State)
    requires GtpInv(s) && Enabled(s, MmeReceive)
    ensures GtpInv(Do(s, MmeReceive))
  {
    if !s.timedOut {
      KeepBearers(s);
    }
    hide BearersServed, PhaseOnMme, SwitchTeid, Authentic, Serves, WithTeid, IpAt;
  }

  lemma GtpVectors(s: State, drop: bool)
    requires GtpInv(s) && Enabled(s, MmeVectors(drop))
    ensures GtpInv(Do(s, MmeVectors(drop)))
  {
    hide BearersServed, Serves, IpAt;
    var id := s.mme.pc.mmeId;
    if !s.timedOut && id in s.mme.store {
      BearersUpdate(s.mme.store, s.ipOwner, id, Do(s, MmeVectors(drop)).mme.store[id]);
    }
  }

  lemma GtpAnswer(s: State)
    requires GtpInv(s) && Enabled(s, MmeAnswer)
    ensures GtpInv(Do(s, MmeAnswer))
  {
    hide BearersServed, Serves, IpAt, DefaultAt;
    if !s.timedOut && s.mme.pc.AwaitingCreate? && Head(s.s11r).Created? && s.mme.pc.mmeId in s.mme.store {
      var rsp := Head(s.s11r);
      BearersAdd(s.mme.store, s.ipOwner, s.mme.pc.mmeId, Bearer(DEFAULT_EBI, 9, rsp.s11, rsp.s1u, 0, rsp.ueIp));
    }
  }

  lemma GtpSgwReceive(s: State)
    requires GtpInv(s) && Enabled(s, SgwReceive)
    ensures GtpInv(Do(s, SgwReceive))
  {
    hide BearersServed, Serves, IpAt, ImsiOf;
  }

  lemma GtpSgwAnswer(s: State)
    requires GtpInv(s) && Enabled(s, SgwAnswer)
    ensures GtpInv(Do(s, SgwAnswer))
  {
    hide BearersServed, Serves, IpAt, ImsiOf;
  }

  lemma GtpPgw(s: State, grant: bool)
    requires GtpInv(s) && Enabled(s, PgwReceive(grant))
    ensures GtpInv(Do(s, PgwReceive(grant)))
  {
    hide BearersServed, Serves, IpAt, ImsiOf;
    NextIpAt(|s.ipOwner|);
    if grant {
      PgwServes(s.ipOwner, Head(s.s5q));
      if !s.timedOut {
        BearersGrow(s.mme.store, s.ipOwner, [Head(s.s5q)]);
      }
    }
  }

  lemma NextIpAt(n: nat)
    ensures Next32(IpAt(n)) == IpAt(n + 1)
  {
    ModAdd(FIRST_UE_IP + n, 1, U32_MOD);
  }

  lemma PgwServes(owners: seq<nat>, imsi: nat)
    ensures Serves(owners + [imsi], imsi, IpAt(|owners|))
  {
    assert (owners + [imsi])[|owners|] == imsi;
  }

  lemma GtpElsewhere(s: State, a: Action)
    requires GtpInv(s) && Enabled(s, a)
    requires !a.MmeReceive? && !a.MmeVectors? && !a.MmeAnswer? && !a.SgwReceive? && !a.SgwAnswer? && !a.PgwReceive?
    ensures GtpInv(Do(s, a))
  {
    hide BearersServed, Serves, IpAt, EnbOnMessage, EnbOnCommand, PhaseOnEnb;
  }

  lemma StepKeepsGtp(s: State, a: Action)
    requires GtpInv(s) && Enabled(s, a)
    ensures GtpInv(Do(s, a))
  {
    hide GtpInv, Do, Enabled;
    match a
    case MmeReceive => GtpMmeReceive(s);
    case MmeVectors(drop) => GtpVectors(s, drop);
    case MmeAnswer => GtpAnswer(s);
    case SgwReceive => GtpSgwReceive(s);
    case SgwAnswer => GtpSgwAnswer(s);
    case PgwReceive(grant) => GtpPgw(s, grant);
    case _ => GtpElsewhere(s, a);
  }

  // ---------------------------------------------------------------- one address per IMSI

  ghost predicate OwnersPastAuth(owners: seq<nat>, phase: map<nat, Phase>)
  {
    forall n :: 0 <= n < |owners| ==>
      owners[n] >= BASE_IMSI && owners[n] - BASE_IMSI in phase && PastAuth(phase[owners[n] - BASE_IMSI])
  }

  ghost predicate Distinct(owners: seq<nat>)
  {
    forall m, n :: 0 <= m < n < |owners| ==> owners[m] != owners[n]
  }

  /** While no wait has timed out, a request for a session is under way at most once per IMSI. */
  ghost predicate OnceInv(s: State)
  {
    !s.timedOut ==>
      && OwnersPastAuth(s.ipOwner, s.phase) && Distinct(s.ipOwner)
      && (HasNext(s.s11q) && Head(s.s11q).CreateSession? ==> Head(s.s11q).imsi !in s.ipOwner)
      && (HasNext(s.s5q) ==> Head(s.s5q) !in s.ipOwner)
  }

  /** No step takes a UE back to before its authentication. */
  lemma PastAuthStays(s: State, a: Action, id: nat)
    requires Core(s) && Enabled(s, a) && FewAttaches(Do(s, a)) && id in s.phase && PastAuth(s.phase[id])
    ensures id in Do(s, a).phase && PastAuth(Do(s, a).phase[id])
  {
    hide Core, Do;
    match a
    case EnbCommand(c) => PastAuthCommand(s, c, id);
    case EnbReceive => PastAuthEnb(s, id);
    case MmeReceive => PastAuthMme(s, id);
    case _ => PastAuthElsewhere(s, a, id);
  }

  lemma PastAuthCommand(s: State, c: Command, id: nat)
    requires Core(s) && FewAttaches(Do(s, EnbCommand(c))) && id in s.phase && PastAuth(s.phase[id])
    ensures id in Do(s, EnbCommand(c)).phase && PastAuth(Do(s, EnbCommand(c)).phase[id])
  {
    hide Core, EnbOnCommand;
    if c.AttachOne? {
      FreshNotStored(s);
    }
  }

  lemma PastAuthEnb(s: State, id: nat)
    requires Core(s) && Enabled(s, EnbReceive) && id in s.phase && PastAuth(s.phase[id])
    ensures id in Do(s, EnbReceive).phase && PastAuth(Do(s, EnbReceive).phase[id])
  {
    hide Core, EnbOnMessage, NotedOnEnb, OwnersOnEnb;
    ReadDown(s);
  }

  lemma PastAuthMme(s: State, id: nat)
    requires Core(s) && Enabled(s, MmeReceive) && id in s.phase && PastAuth(s.phase[id])
    ensures id in Do(s, MmeReceive).phase && PastAuth(Do(s, MmeReceive).phase[id])
  {
    hide Core, MmeOnMessage;
    ReadUp(s);
  }

  lemma PastAuthElsewhere(s: State, a: Action, id: nat)
    requires Core(s) && Enabled(s, a) && !a.EnbCommand? && !a.EnbReceive? && !a.MmeReceive?
    requires id in s.phase && PastAuth(s.phase[id])
    ensures id in Do(s, a).phase && PastAuth(Do(s, a).phase[id])
  {
    hide Core, OnVectors, MmeOnAnswer, MmeOnTimeout, EnbComplete, SgwOnCreate, SgwOnPgw, PgwOnCreate;
    CoreWaits(s);
  }

  lemma CoreWaits(s: State)
    requires Core(s)
    ensures WaitsOk(s.mme.pc, s.enb.completing, s.phase)
  {
    hide StoreOk, DownOk, UpOk, PhaseSent, AuthOk, IdsOk, TeidsOk;
  }

  lemma OwnersStay(s: State, a: Action)
    requires Core(s) && Enabled(s, a) && FewAttaches(Do(s, a)) && OwnersPastAuth(s.ipOwner, s.phase)
    ensures OwnersPastAuth(s.ipOwner, Do(s, a).phase)
  {
    hide Core, Do, Enabled, PastAuth;
    forall n | 0 <= n < |s.ipOwner|
      ensures s.ipOwner[n] >= BASE_IMSI && s.ipOwner[n] - BASE_IMSI in Do(s, a).phase
           && PastAuth(Do(s, a).phase[s.ipOwner[n] - BASE_IMSI])
    {
      PastAuthStays(s, a, s.ipOwner[n] - BASE_IMSI);
    }
  }

  /** The UE whose session the MME waits for. */
  lemma WaitingUe(s: State)
    requires Core(s) && s.mme.pc.AwaitingCreate?
    ensures ImsiOf(s.mme, s.mme.pc.mmeId) == BASE_IMSI + s.mme.pc.mmeId
    ensures s.mme.pc.mmeId in s.phase && PastAuth(s.phase[s.mme.pc.mmeId])
  {
    hide Core, Owned, Authentic;
    CoreWaits(s);
    UeAt(s, s.mme.pc.mmeId);
  }

  lemma OnceMmeReceive(s: State)
    requires Core(s) && GtpInv(s) && OnceInv(s) && Enabled(s, MmeReceive) && FewAttaches(s) && !s.timedOut
    ensures OnceInv(Do(s, MmeReceive))
  {
    hide Core, OwnersPastAuth, Distinct, OnBehalfOf, BearersServed, UeOk, PhaseOnMme, SwitchTeid, Authentic;
    OwnersStay(s, MmeReceive);
    if Head(s.up).AuthResponse? && Head(s.up).mmeId in s.mme.store {
      NotServedYet(s);
    }
  }

  /** No address has been given out for a UE whose Auth Response is only now being read. */
  lemma NotServedYet(s: State)
    requires Core(s) && HasNext(s.up) && Head(s.up).AuthResponse? && OwnersPastAuth(s.ipOwner, s.phase)
    requires Head(s.up).mmeId in s.mme.store
    ensures s.mme.store[Head(s.up).mmeId].imsi !in s.ipOwner
  {
    hide Core, Owned, Authentic;
    ReadUp(s);
    UeKnown(s, Head(s.up).mmeId);
  }

  lemma OncePgw(s: State, grant: bool)
    requires Core(s) && GtpInv(s) && OnceInv(s) && Enabled(s, PgwReceive(grant)) && FewAttaches(s) && !s.timedOut
    ensures OnceInv(Do(s, PgwReceive(grant)))
  {
    hide Core, BearersServed, Serves, IpAt;
    WaitingUe(s);
  }

  lemma OnceElsewhere(s: State, a: Action)
    requires Core(s) && GtpInv(s) && OnceInv(s) && Enabled(s, a) && !s.timedOut && !a.MmeReceive? && !a.PgwReceive?
    requires FewAttaches(Do(s, a))
    ensures OnceInv(Do(s, a))
  {
    hide Core, OwnersPastAuth, Distinct, OnBehalfOf, BearersServed, PhaseOnEnb, EnbOnMessage, DefaultAt, IpAt;
    OwnersStay(s, a);
  }

  lemma StepKeepsOnce(s: State, a: Action)
    requires Core(s) && GtpInv(s) && OnceInv(s) && Enabled(s, a) && FewAttaches(Do(s, a))
    ensures OnceInv(Do(s, a))
  {
    hide Core, GtpInv;
    AttachesGrow(s, a);
    if s.timedOut {
      TimedOutStays(s, a);
    } else if a.MmeReceive? {
      OnceMmeReceive(s);
    } else if a.PgwReceive? {
      OncePgw(s, a.grant);
    } else {
      OnceElsewhere(s, a);
    }
  }

  lemma TimedOutStays(s: State, a: Action)
    requires Enabled(s, a) && s.timedOut
    ensures Do(s, a).timedOut
  {
  }

  // ---------------------------------------------------------------- all runs

  lemma {:induction false} RunKeepsGtp(s: State, acts: seq<Action>)
    requires GtpInv(s) && IsRun(s, acts)
    ensures GtpInv(Last(s, acts))
    decreases |acts|
  {
    hide GtpInv, Do, Enabled;
    if acts != [] {
      StepKeepsGtp(s, acts[0]);
      RunKeepsGtp(Do(s, acts[0]), acts[1..]);
    }
  }

  lemma {:induction false} RunKeepsOnce(s: State, acts: seq<Action>)
    requires Core(s) && GtpInv(s) && OnceInv(s) && IsRun(s, acts) && FewAttaches(Last(s, acts))
    ensures OnceInv(Last(s, acts))
    decreases |acts|
  {
    hide GtpInv, OnceInv, Core, Do, Enabled;
    if acts != [] {
      RunKeepsCore(Do(s, acts[0]), acts[1..]);
      StepKeepsCore(s, acts[0]);
      StepKeepsGtp(s, acts[0]);
      StepKeepsOnce(s, acts[0]);
      RunKeepsOnce(Do(s, acts[0]), acts[1..]);
    }
  }

  /** If no GTP wait has timed out, every address in a context is one that the P-GW allocated
      for that context's IMSI. */
  lemma IpIsOwn(f: State, id: nat, m: nat)
    requires Reachable(f) && !f.timedOut && id in f.mme.store && m < |f.mme.store[id].bearers|
    ensures Serves(f.ipOwner, f.mme.store[id].imsi, f.mme.store[id].bearers[m].ueIp)
  {
    hide Do, Enabled, IsInit, Serves, OneAtATime, OnBehalfOf;
    var s, acts :| IsInit(s) && IsRun(s, acts) && Last(s, acts) == f;
    InitGtp(s);
    RunKeepsGtp(s, acts);
  }

  /** And the P-GW allocates at most one per IMSI, so it is the only one. */
  lemma OneIpPerImsi(f: State)
    requires Reachable(f) && !f.timedOut && FewAttaches(f)
    ensures Distinct(f.ipOwner)
  {
    hide Do, Enabled, IsInit, Core, GtpInv;
    var s, acts :| IsInit(s) && IsRun(s, acts) && Last(s, acts) == f;
    InitGtp(s);
    InitCore(s);
    assert OnceInv(s) by { InitOnce(s); }
    RunKeepsOnce(s, acts);
  }

  lemma InitOnce(s: State)
    requires IsInit(s)
    ensures OnceInv(s)
  {
  }
}
