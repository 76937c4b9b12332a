/** What every run of the 4G attach and handover system guarantees about the MME's contexts. */
module S1Theorems {
  import opened Bits
  import opened S1Nodes
  import opened S1Runs
  import opened S1Invariant
  import opened S1MmeSteps

  ghost predicate IsRun(s: State, acts: seq<Action>)
    decreases |acts|
  {
    acts == [] || (Enabled(s, acts[0]) && IsRun(Do(s, acts[0]), acts[1..]))
  }

  ghost function Last(s: State, acts: seq<Action>): State
    requires IsRun(s, acts)
    decreases |acts|
  {
    if acts == [] then s else Last(Do(s, acts[0]), acts[1..])
  }

  ghost predicate Reachable(f: State)
  {
    exists s, acts :: IsInit(s) && IsRun(s, acts) && Last(s, acts) == f
  }

  /** At most 2^32 attaches started: no 32-bit identifier has come again. */
  predicate FewAttaches(s: State)
  {
    s.attaches <= U32_MOD
  }

  lemma AttachesGrow(s: State, a: Action)
    requires Enabled(s, a)
    ensures s.attaches <= Do(s, a).attaches
  {
    hide EnbOnMessage, EnbOnCommand, EnbComplete, MmeOnMessage, OnVectors, MmeOnAnswer, MmeOnTimeout, PhaseOnMme,
         PhaseOnEnb, NotedOnEnb, OwnersOnEnb, SgwOnCreate, SgwOnPgw, PgwOnCreate;
  }

  lemma {:induction false} RunKeepsCore(s: State, acts: seq<Action>)
    requires IsRun(s, acts) && FewAttaches(Last(s, acts))
    ensures FewAttaches(s) && (Core(s) ==> Core(Last(s, acts)))
    decreases |acts|
  {
    hide Core, Do, Enabled;
    if acts != [] {
      AttachesGrow(s, acts[0]);
      RunKeepsCore(Do(s, acts[0]), acts[1..]);
      if Core(s) {
        StepKeepsCore(s, acts[0]);
      }
    }
  }

  lemma ReachableCore(f: State)
    requires Reachable(f) && FewAttaches(f)
    ensures Core(f)
  {
    hide Core, Do, Enabled, IsInit;
    var s, acts :| IsInit(s) && IsRun(s, acts) && Last(s, acts) == f;
    InitCore(s);
    RunKeepsCore(s, acts);
  }

  /** A registered UE was authenticated and has its default bearer and the TEID that the eNB
      allocated for it, although Attach Complete itself checks nothing. */
  lemma RegisteredIsComplete(f: State, id: nat)
    requires Reachable(f) && FewAttaches(f) && id in f.mme.store && f.mme.store[id].emm == Registered
    ensures var u := f.mme.store[id];
            && HasDefault(u) && Owned(f.teidOwner, id, DefaultBearer(u).enbTeid)
            && id in f.answers && Authentic(f.answers[id], u.xres)
  {
    hide TeidsOk, DownOk, UpOk, PhaseSent, AuthOk, Owned, Authentic, IdsOk;
    ReachableCore(f);
    UeKnown(f, id);
  }

  lemma UeKnown(f: State, id: nat)
    requires Core(f) && id in f.mme.store
    ensures id in f.phase && UeOk(f.mme.store[id], id, f.phase[id], f.up.read, f.teidOwner, f.answers)
    ensures !f.phase[id].Announced?
  {
    hide TeidsOk, DownOk, UpOk, PhaseSent, AuthOk, UeOk;
  }

  /** Whenever the MME reads a Setup Response: the context takes the TEID that it carries, which the
      eNB allocated for this UE, and the S-GW is told just that, under the UE's IMSI. */
  lemma SetupIsTold(s: State)
    requires Reachable(s) && FewAttaches(s) && Enabled(s, MmeReceive) && Head(s.up).SetupResponse?
    ensures var id, t, f := Head(s.up).mmeId, Head(s.up).teid, Do(s, MmeReceive);
            && f.s11q.sent == s.s11q.sent + [ModifyBearer(BASE_IMSI + id, t)]
            && id in f.mme.store && HasDefault(f.mme.store[id]) && DefaultBearer(f.mme.store[id]).enbTeid == t
            && Owned(f.teidOwner, id, t)
  {
    hide Reachable, Core, Owned, Authentic, PhaseOnMme;
    ReachableCore(s);
    ReadUp(s);
    TeidMessage(s);
    UeAt(s, Head(s.up).mmeId);
  }

  /** Whenever the MME takes an answer for that to its request for a session: with an address, the
      UE gets its one bearer with what the answer carries, and the eNB is told the S-GW's TEID and
      the address; without, the UE gets no bearer and the eNB hears nothing. */
  lemma AnswerIsTold(s: State)
    requires Reachable(s) && FewAttaches(s) && Enabled(s, MmeAnswer) && s.mme.pc.AwaitingCreate?
    ensures var id, rsp, f := s.mme.pc.mmeId, Head(s.s11r), Do(s, MmeAnswer);
            && id in f.mme.store && f.s11q.sent == s.s11q.sent
            && f.mme.store[id].bearers ==
               (if rsp.Created? then [Bearer(5, 9, rsp.s11, rsp.s1u, 0, rsp.ueIp)] else [])
            && f.down.sent ==
               s.down.sent + (if rsp.Created? then [SetupRequest(id, id, rsp.s1u, rsp.ueIp)] else [])
  {
    hide Reachable, StoreOk, DownOk, UpOk, PhaseSent, AuthOk, IdsOk, TeidsOk, Owned, Authentic;
    ReachableCore(s);
    UeAt(s, s.mme.pc.mmeId);
  }

  /** The wait for the S-GW's word on a changed bearer ends alike with an answer and without: the
      source of a handover is released, an attach just goes on. */
  lemma ModifyWaitEnds(s: State, a: Action)
    requires Enabled(s, a) && (a.MmeAnswer? || a.MmeTimeout?) && !s.mme.pc.AwaitingCreate?
    ensures var f := Do(s, a);
            && f.mme == s.mme.(pc := Dispatching) && f.s11q.sent == s.s11q.sent
            && f.down.sent == s.down.sent + (if s.mme.pc.AwaitingPathSwitch?
                                             then [ReleaseCommand(s.mme.pc.mmeId, s.mme.pc.enbId)] else [])
  {
    hide OnCreateAnswer;
  }

  /** The AUTH FAILED branch is never taken. */
  lemma NoAuthFailure(f: State)
    requires Reachable(f) && FewAttaches(f)
    ensures f.mme.authFailures == 0
  {
    hide TeidsOk, DownOk, UpOk, PhaseSent, AuthOk, StoreOk, IdsOk;
    ReachableCore(f);
  }

  /** Both ends number the UEs alike, and the IMSI is the base plus that number: what TAU and
      HO commands assume. */
  lemma Lockstep(f: State, id: nat)
    requires Reachable(f) && FewAttaches(f) && id in f.mme.store
    ensures var u := f.mme.store[id]; u.mmeId == u.enbId == id && u.imsi == BASE_IMSI + id
    ensures id < U32_MOD && IdNo(id) < f.attaches
  {
    hide TeidsOk, DownOk, UpOk, PhaseSent, AuthOk, Owned, Authentic;
    ReachableCore(f);
    UeKnown(f, id);
  }

  /** No step takes a context, or its EMM state, back. */
  lemma EmmNeverBack(s: State, a: Action, id: nat)
    requires Reachable(s) && FewAttaches(s) && Enabled(s, a) && id in s.mme.store
    ensures id in Do(s, a).mme.store
    ensures Rank(s.mme.store[id].emm) <= Rank(Do(s, a).mme.store[id].emm)
  {
    hide Core, Do, Enabled;
    ReachableCore(s);
    UeKnown(s, id);
    if a.MmeReceive? {
      EmmReceive(s, id);
    } else if a.MmeVectors? {
      EmmVectors(s, a.drop, id);
    } else {
      EmmElsewhere(s, a, id);
    }
  }

  lemma EmmReceive(s: State, id: nat)
    requires Core(s) && Enabled(s, MmeReceive) && id in s.mme.store
    ensures id in Do(s, MmeReceive).mme.store
    ensures Rank(s.mme.store[id].emm) <= Rank(Do(s, MmeReceive).mme.store[id].emm)
  {
    hide Core, Do;
    if Head(s.up).InitialUe? {
      EmmInitialUe(s, id);
    } else if Head(s.up).AuthResponse? {
      EmmAuthResponse(s, id);
    } else {
      EmmOtherUp(s, id);
    }
  }

  lemma EmmInitialUe(s: State, id: nat)
    requires Core(s) && Enabled(s, MmeReceive) && id in s.mme.store && Head(s.up).InitialUe?
    ensures id in Do(s, MmeReceive).mme.store && Do(s, MmeReceive).mme.store[id] == s.mme.store[id]
  {
    hide Core;
    UeKnown(s, id);
    NextAnnounced(s);
  }

  lemma EmmAuthResponse(s: State, id: nat)
    requires Core(s) && Enabled(s, MmeReceive) && id in s.mme.store && Head(s.up).AuthResponse?
    ensures id in Do(s, MmeReceive).mme.store
    ensures Rank(s.mme.store[id].emm) <= Rank(Do(s, MmeReceive).mme.store[id].emm)
  {
    hide Core, Authentic;
    AnsweredState(s);
  }

  lemma EmmOtherUp(s: State, id: nat)
    requires Enabled(s, MmeReceive) && id in s.mme.store && !Head(s.up).InitialUe? && !Head(s.up).AuthResponse?
    ensures id in Do(s, MmeReceive).mme.store
    ensures Rank(s.mme.store[id].emm) <= Rank(Do(s, MmeReceive).mme.store[id].emm)
  {
    ReceiveStore(s);
    hide Do, MmeOnMessage;
    EmmMessage(s.mme, Head(s.up), id);
  }

  lemma ReceiveStore(s: State)
    requires Enabled(s, MmeReceive)
    ensures Do(s, MmeReceive).mme == MmeOnMessage(s.mme, Head(s.up)).mme
  {
    hide PhaseOnMme, MmeOnMessage;
  }

  lemma EmmMessage(m: Mme, msg: ToMme, id: nat)
    requires m.pc.Dispatching? && id in m.store && !msg.InitialUe? && !msg.AuthResponse?
    ensures var m' := MmeOnMessage(m, msg).mme;
            id in m'.store && Rank(m.store[id].emm) <= Rank(m'.store[id].emm)
  {
    hide WithTeid, SwitchTeid;
    if (msg.SetupResponse? || msg.HoAck?) && msg.mmeId in m.store {
      TeidKeepsEmm(m.store[msg.mmeId], msg.teid);
    }
  }

  lemma TeidKeepsEmm(u: Ue, t: nat)
    ensures WithTeid(u, t).emm == u.emm
  {
  }

  /** An Auth Response always meets a context that is waiting for it. */
  lemma AnsweredState(s: State)
    requires Core(s) && HasNext(s.up) && Head(s.up).AuthResponse?
    ensures Head(s.up).mmeId in s.mme.store ==> s.mme.store[Head(s.up).mmeId].emm == AuthPending
  {
    hide Core, Owned, Authentic;
    ReadUp(s);
    if Head(s.up).mmeId in s.mme.store {
      UeKnown(s, Head(s.up).mmeId);
    }
  }

  lemma EmmVectors(s: State, drop: bool, id: nat)
    requires Core(s) && Enabled(s, MmeVectors(drop)) && id in s.mme.store
    ensures id in Do(s, MmeVectors(drop)).mme.store
    ensures Rank(s.mme.store[id].emm) <= Rank(Do(s, MmeVectors(drop)).mme.store[id].emm)
  {
    hide TeidsOk, DownOk, UpOk, PhaseSent, AuthOk, Owned, Authentic, IdsOk, StoreOk;
    UeKnown(s, id);
  }

  lemma EmmElsewhere(s: State, a: Action, id: nat)
    requires Enabled(s, a) && !a.MmeReceive? && !a.MmeVectors? && id in s.mme.store
    ensures id in Do(s, a).mme.store && Do(s, a).mme.store[id].emm == s.mme.store[id].emm
  {
    if a.MmeAnswer? || a.MmeTimeout? {
      WaitStore(s, a);
      hide Do, Enabled, DefaultAt, DefaultBearer;
    } else {
      StoreUntouched(s, a);
    }
  }

  predicate MmeStep(a: Action)
  {
    a.MmeReceive? || a.MmeVectors? || a.MmeAnswer? || a.MmeTimeout?
  }

  lemma StoreUntouched(s: State, a: Action)
    requires Enabled(s, a) && !MmeStep(a)
    ensures Do(s, a).mme.store == s.mme.store
  {
    hide EnbOnMessage, EnbOnCommand, EnbComplete, MmeOnMessage, OnVectors, MmeOnAnswer, MmeOnTimeout, PhaseOnMme,
         PhaseOnEnb, NotedOnEnb, OwnersOnEnb, SgwOnCreate, SgwOnPgw, PgwOnCreate;
  }

  lemma WaitStore(s: State, a: Action)
    requires Enabled(s, a) && (a.MmeAnswer? || a.MmeTimeout?)
    ensures Do(s, a).mme == if a.MmeAnswer? then MmeOnAnswer(s.mme, Head(s.s11r)).mme else MmeOnTimeout(s.mme).mme
    ensures AwaitingSgw(s.mme.pc)
  {
    hide MmeOnAnswer, MmeOnTimeout;
  }

  predicate HandoverMessage(m: ToMme)
  {
    m.HoRequired? || m.HoAck? || m.EnbStatus? || m.HoNotify? || m.ReleaseComplete?
  }

  /** Same UE, same EMM state, same bearers but for the eNB's TEID. */
  predicate SameSession(u: Ue, v: Ue)
  {
    && u.imsi == v.imsi && u.emm == v.emm && |u.bearers| == |v.bearers|
    && forall i :: 0 <= i < |u.bearers| ==> u.bearers[i].(enbTeid := v.bearers[i].enbTeid) == v.bearers[i]
  }

  /** The MME does nothing in this step but serve handovers; the other nodes may do anything. */
  predicate HandoverStep(s: State, a: Action)
    requires Enabled(s, a)
  {
    match a
    case MmeReceive => HandoverMessage(Head(s.up))
    case MmeAnswer => s.mme.pc.AwaitingPathSwitch?
    case MmeTimeout => s.mme.pc.AwaitingPathSwitch?
    case MmeVectors(_) => false
    case _ => true
  }

  lemma HandoverKeepsSessions(s: State, a: Action, id: nat)
    requires Enabled(s, a) && HandoverStep(s, a) && id in s.mme.store
    ensures id in Do(s, a).mme.store && SameSession(s.mme.store[id], Do(s, a).mme.store[id])
  {
    hide Do;
    if a.MmeReceive? {
      HandoverReceive(s, id);
    } else {
      HandoverElsewhere(s, a, id);
    }
  }

  lemma HandoverReceive(s: State, id: nat)
    requires Enabled(s, MmeReceive) && HandoverMessage(Head(s.up)) && id in s.mme.store
    ensures id in Do(s, MmeReceive).mme.store && SameSession(s.mme.store[id], Do(s, MmeReceive).mme.store[id])
  {
    hide PhaseOnMme, SwitchTeid;
  }

  lemma HandoverElsewhere(s: State, a: Action, id: nat)
    requires Enabled(s, a) && !a.MmeReceive? && HandoverStep(s, a) && id in s.mme.store
    ensures id in Do(s, a).mme.store && Do(s, a).mme.store[id] == s.mme.store[id]
  {
    if a.MmeAnswer? || a.MmeTimeout? {
      WaitStore(s, a);
      hide Do, Enabled, OnCreateAnswer;
    } else {
      StoreUntouched(s, a);
    }
  }

  ghost predicate HandoverRun(s: State, acts: seq<Action>)
    requires IsRun(s, acts)
    decreases |acts|
  {
    acts == [] || (HandoverStep(s, acts[0]) && HandoverRun(Do(s, acts[0]), acts[1..]))
  }

  lemma SameSessionTransitive(u: Ue, v: Ue, w: Ue)
    requires SameSession(u, v) && SameSession(v, w)
    ensures SameSession(u, w)
  {
    forall i | 0 <= i < |u.bearers|
      ensures u.bearers[i].(enbTeid := w.bearers[i].enbTeid) == w.bearers[i]
    {
      assert u.bearers[i].(enbTeid := v.bearers[i].enbTeid) == v.bearers[i];
      assert v.bearers[i].(enbTeid := w.bearers[i].enbTeid) == w.bearers[i];
    }
  }

  /** However many handovers run, interleaved in whatever way, lost, timed out or repeated: from
      no state do they change the EMM state, the UE IP or any other part of a session but the
      eNB's TEID. */
  lemma {:induction false} HandoversKeepSessions(s: State, acts: seq<Action>, id: nat)
    requires IsRun(s, acts) && HandoverRun(s, acts) && id in s.mme.store
    ensures id in Last(s, acts).mme.store && SameSession(s.mme.store[id], Last(s, acts).mme.store[id])
    decreases |acts|
  {
    hide Do, Enabled, HandoverStep, SameSession;
    if acts == [] {
      SameSessionReflexive(s.mme.store[id]);
    } else {
      var s' := Do(s, acts[0]);
      HandoverKeepsSessions(s, acts[0], id);
      HandoversKeepSessions(s', acts[1..], id);
      SameSessionTransitive(s.mme.store[id], s'.mme.store[id], Last(s, acts).mme.store[id]);
    }
  }

  lemma SameSessionReflexive(u: Ue)
    ensures SameSession(u, u)
  {
  }

  lemma TeidInjective(m: nat, n: nat)
    requires m < U32_MOD && n < U32_MOD && TeidAt(m) == TeidAt(n)
    ensures m == n
  {
  }

  /** While at most 2^32 TEIDs have been allocated, no two UEs hold the same eNB TEID, however many
      handovers there were. A 0 is no TEID as long as the UE's Setup Response was not read; a
      registered UE's is one. */
  lemma EnbTeidsDistinct(f: State, i: nat, j: nat, m: nat, n: nat)
    requires Reachable(f) && FewAttaches(f) && |f.teidOwner| <= U32_MOD
    requires i in f.mme.store && j in f.mme.store && i != j
    requires m < |f.mme.store[i].bearers| && n < |f.mme.store[j].bearers|
    ensures var u, v := f.mme.store[i], f.mme.store[j];
            u.bearers[m].enbTeid != 0 || (u.emm == Registered && v.emm == Registered) ==>
              u.bearers[m].enbTeid != v.bearers[n].enbTeid
  {
    hide Reachable, Owned;
    HeldTeid(f, i, m);
    HeldTeid(f, j, n);
    var ti, tj := f.mme.store[i].bearers[m].enbTeid, f.mme.store[j].bearers[n].enbTeid;
    if Owned(f.teidOwner, i, ti) && Owned(f.teidOwner, j, tj) {
      OwnersDiffer(f.teidOwner, i, j, ti, tj);
    }
  }

  /** The TEID in a context is 0 or was allocated for that UE, and is not unset once registered. */
  lemma HeldTeid(f: State, id: nat, m: nat)
    requires Reachable(f) && FewAttaches(f) && id in f.mme.store && m < |f.mme.store[id].bearers|
    ensures var t := f.mme.store[id].bearers[m].enbTeid;
            (t == 0 && f.mme.store[id].emm != Registered) || Owned(f.teidOwner, id, t)
  {
    hide Reachable, Core, Owned, Authentic;
    ReachableCore(f);
    UeKnown(f, id);
  }

  lemma OwnersDiffer(owners: seq<nat>, i: nat, j: nat, ti: nat, tj: nat)
    requires |owners| <= U32_MOD && i != j && Owned(owners, i, ti) && Owned(owners, j, tj)
    ensures ti != tj
  {
    hide TeidAt;
    var m :| 0 <= m < |owners| && owners[m] == i && ti == TeidAt(m);
    var n :| 0 <= n < |owners| && owners[n] == j && tj == TeidAt(n);
    if ti == tj {
      TeidInjective(m, n);
    }
  }
}
