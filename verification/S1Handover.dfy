/** S1 handover: which TEID the S-GW is told at path switch, compared with the one that the
    target eNB allocated. */
module S1Handover {
  import opened Bits
  import opened S1Nodes
  import opened S1Runs
  import opened S1Invariant
  import opened S1MmeSteps
  import opened S1Theorems

  /** The message carries a TEID that the MME will store for this UE. */
  predicate Carries(m: ToMme, id: nat)
  {
    (m.SetupResponse? || m.HoAck?) && m.mmeId == id
  }

  /** What the MME will have stored for the UE once it has read sent[lo..hi], holding x now. */
  function LastTeid(sent: seq<ToMme>, lo: nat, hi: nat, id: nat, x: nat): nat
    requires hi <= |sent|
  {
    if hi <= lo then x
    else if Carries(sent[hi - 1], id) then sent[hi - 1].teid
    else LastTeid(sent, lo, hi - 1, id, x)
  }

  /** The TEID most recently allocated for the UE; 0 if there is none. */
  function LatestTeid(owners: seq<nat>, id: nat): nat
  {
    if owners == [] then 0
    else if owners[|owners| - 1] == id then TeidAt(|owners| - 1)
    else LatestTeid(owners[..|owners| - 1], id)
  }

  lemma {:induction false} LastTeidSent(sent: seq<ToMme>, more: seq<ToMme>, lo: nat, hi: nat, id: nat, x: nat)
    requires hi <= |sent|
    ensures LastTeid(sent + more, lo, hi, id, x) == LastTeid(sent, lo, hi, id, x)
    decreases hi
  {
    if hi > lo {
      LastTeidSent(sent, more, lo, hi - 1, id, x);
    }
  }

  lemma {:induction false} LastTeidRead(sent: seq<ToMme>, lo: nat, hi: nat, id: nat, x: nat)
    requires lo < hi <= |sent|
    ensures LastTeid(sent, lo, hi, id, x) ==
            LastTeid(sent, lo + 1, hi, id, if Carries(sent[lo], id) then sent[lo].teid else x)
    decreases hi
  {
    if hi > lo + 1 {
      LastTeidRead(sent, lo, hi - 1, id, x);
    }
  }

  /** The TEID in the context's bearer. */
  function Stored(store: map<nat, Ue>, id: nat): nat
  {
    if id in store && store[id].bearers != [] then store[id].bearers[0].enbTeid else 0
  }

  predicate SetUp(p: Phase)
  {
    p.Setting? || p.Finishing? || p.Attached?
  }

  predicate SetUpBefore(phase: map<nat, Phase>, id: nat, k: nat)
  {
    id in phase && SetUp(phase[id]) && phase[id].k < k
  }

  /** Once everything on the uplink is read, the MME holds the latest TEID of every UE that has
      been set up. */
  ghost predicate LatestOk(up: Link<ToMme>, store: map<nat, Ue>, phase: map<nat, Phase>, owners: seq<nat>)
  {
    forall id :: id in phase && SetUp(phase[id]) ==>
      LastTeid(up.sent, up.read, |up.sent|, id, Stored(store, id)) == LatestTeid(owners, id)
  }

  /** When a HandoverNotify is read, the MME holds the TEID that was the UE's latest when it was
      sent; the notify itself carries the one handed out last to anybody. */
  ghost predicate NotifyOk(up: Link<ToMme>, store: map<nat, Ue>, phase: map<nat, Phase>, owners: seq<nat>,
                           notedAt: map<nat, nat>, k: nat)
    requires k < |up.sent| && up.sent[k].HoNotify?
  {
    var id := up.sent[k].mmeId;
    && k in notedAt && notedAt[k] <= |owners| && up.sent[k].teid == (TeidAt(notedAt[k]) - 1) % U32_MOD
    && (SetUpBefore(phase, id, k) ==>
          && id in owners[..notedAt[k]]
          && LastTeid(up.sent, up.read, k, id, Stored(store, id)) == LatestTeid(owners[..notedAt[k]], id))
  }

  ghost predicate NotedOk(up: Link<ToMme>, store: map<nat, Ue>, phase: map<nat, Phase>, owners: seq<nat>,
                          notedAt: map<nat, nat>)
  {
    forall k :: up.read <= k < |up.sent| && up.sent[k].HoNotify? ==> NotifyOk(up, store, phase, owners, notedAt, k)
  }

  ghost predicate HoInv(s: State)
  {
    && LatestOk(s.up, s.mme.store, s.phase, s.teidOwner)
    && NotedOk(s.up, s.mme.store, s.phase, s.teidOwner, s.notedAt)
  }

  // ---------------------------------------------------------------- links growing and being read

  lemma NotedSend(up: Link<ToMme>, store: map<nat, Ue>, phase: map<nat, Phase>, owners: seq<nat>,
                  notedAt: map<nat, nat>, m: ToMme, more: seq<nat>)
    requires NotedOk(up, store, phase, owners, notedAt) && !m.HoNotify?
    ensures NotedOk(Send(up, [m]), store, phase, owners + more, notedAt)
  {
    var up' := Send(up, [m]);
    forall k | up'.read <= k < |up'.sent| && up'.sent[k].HoNotify?
      ensures NotifyOk(up', store, phase, owners + more, notedAt, k)
    {
      NotifySend(up, store, phase, owners, notedAt, m, more, k);
    }
  }

  lemma NotifySend(up: Link<ToMme>, store: map<nat, Ue>, phase: map<nat, Phase>, owners: seq<nat>,
                   notedAt: map<nat, nat>, m: ToMme, more: seq<nat>, k: nat)
    requires k < |up.sent| && up.sent[k].HoNotify? && NotifyOk(up, store, phase, owners, notedAt, k)
    ensures NotifyOk(Send(up, [m]), store, phase, owners + more, notedAt, k)
  {
    hide LastTeid, LatestTeid;
    var id := up.sent[k].mmeId;
    LastTeidSent(up.sent, [m], up.read, k, id, Stored(store, id));
    assert (owners + more)[..notedAt[k]] == owners[..notedAt[k]];
  }

  lemma LatestSend(up: Link<ToMme>, store: map<nat, Ue>, phase: map<nat, Phase>, owners: seq<nat>, m: ToMme)
    requires up.read <= |up.sent|
    requires LatestOk(up, store, phase, owners) && !m.SetupResponse? && !m.HoAck?
    ensures LatestOk(Send(up, [m]), store, phase, owners)
  {
    forall id | id in phase && SetUp(phase[id])
      ensures LastTeid(up.sent + [m], up.read, |up.sent| + 1, id, Stored(store, id)) == LatestTeid(owners, id)
    {
      LastTeidSent(up.sent, [m], up.read, |up.sent|, id, Stored(store, id));
    }
  }

  /** A TEID is allocated and sent; its UE may become set up by that. */
  lemma LatestAllocate(up: Link<ToMme>, store: map<nat, Ue>, phase: map<nat, Phase>, owners: seq<nat>, m: ToMme,
                       phase': map<nat, Phase>)
    requires up.read <= |up.sent|
    requires LatestOk(up, store, phase, owners) && (m.SetupResponse? || m.HoAck?) && m.teid == TeidAt(|owners|)
    requires forall id :: id in phase' && SetUp(phase'[id]) && id != m.mmeId ==> id in phase && SetUp(phase[id])
    ensures LatestOk(Send(up, [m]), store, phase', owners + [m.mmeId])
  {
    var owners' := owners + [m.mmeId];
    assert owners'[..|owners'| - 1] == owners;
    forall id | id in phase' && SetUp(phase'[id])
      ensures LastTeid(up.sent + [m], up.read, |up.sent| + 1, id, Stored(store, id)) == LatestTeid(owners', id)
    {
      LastTeidSent(up.sent, [m], up.read, |up.sent|, id, Stored(store, id));
    }
  }

  /** A HandoverNotify is sent. */
  lemma NotedNotify(up: Link<ToMme>, store: map<nat, Ue>, phase: map<nat, Phase>, owners: seq<nat>,
                    notedAt: map<nat, nat>, m: ToMme)
    requires NotedOk(up, store, phase, owners, notedAt) && LatestOk(up, store, phase, owners)
    requires up.read <= |up.sent| && m.HoNotify? && m.teid == (TeidAt(|owners|) - 1) % U32_MOD
    requires SetUpBefore(phase, m.mmeId, |up.sent|) ==> m.mmeId in owners
    ensures NotedOk(Send(up, [m]), store, phase, owners, notedAt[|up.sent| := |owners|])
  {
    var up', notedAt' := Send(up, [m]), notedAt[|up.sent| := |owners|];
    forall k | up'.read <= k < |up'.sent| && up'.sent[k].HoNotify?
      ensures NotifyOk(up', store, phase, owners, notedAt', k)
    {
      if k < |up.sent| {
        assert NotifyOk(up, store, phase, owners, notedAt, k);
        NotifySend(up, store, phase, owners, notedAt, m, [], k);
        assert owners + [] == owners;
      } else {
        LastTeidSent(up.sent, [m], up.read, k, m.mmeId, Stored(store, m.mmeId));
        assert owners[..|owners|] == owners;
      }
    }
  }

  /** The MME reads a message and stores the TEID it carries, if any. */
  lemma HoRead(up: Link<ToMme>, store: map<nat, Ue>, phase: map<nat, Phase>, owners: seq<nat>,
               notedAt: map<nat, nat>, store': map<nat, Ue>)
    requires NotedOk(up, store, phase, owners, notedAt) && LatestOk(up, store, phase, owners) && HasNext(up)
    requires forall id :: id in phase && SetUp(phase[id]) ==>
               Stored(store', id) == if Carries(Head(up), id) then Head(up).teid else Stored(store, id)
    ensures NotedOk(Receive(up), store', phase, owners, notedAt) && LatestOk(Receive(up), store', phase, owners)
  {
    hide LatestTeid, Stored;
    forall id | id in phase && SetUp(phase[id])
      ensures LastTeid(up.sent, up.read + 1, |up.sent|, id, Stored(store', id)) == LatestTeid(owners, id)
    {
      LastTeidRead(up.sent, up.read, |up.sent|, id, Stored(store, id));
    }
    forall k | up.read + 1 <= k < |up.sent| && up.sent[k].HoNotify?
      ensures NotifyOk(Receive(up), store', phase, owners, notedAt, k)
    {
      assert NotifyOk(up, store, phase, owners, notedAt, k);
      LastTeidRead(up.sent, up.read, k, up.sent[k].mmeId, Stored(store, up.sent[k].mmeId));
    }
  }

  /** Phases move, contexts change, but no UE that is set up is touched and none becomes so. */
  lemma HoFrame(up: Link<ToMme>, store: map<nat, Ue>, phase: map<nat, Phase>, owners: seq<nat>,
                notedAt: map<nat, nat>, store': map<nat, Ue>, phase': map<nat, Phase>)
    requires NotedOk(up, store, phase, owners, notedAt) && LatestOk(up, store, phase, owners)
    requires forall id :: id in phase' && SetUp(phase'[id]) ==>
               && id in phase && SetUp(phase[id]) && phase[id].k == phase'[id].k
               && Stored(store', id) == Stored(store, id)
    ensures NotedOk(up, store', phase', owners, notedAt) && LatestOk(up, store', phase', owners)
  {
    hide LatestTeid, LastTeid, Stored;
    forall k | up.read <= k < |up.sent| && up.sent[k].HoNotify?
      ensures NotifyOk(up, store', phase', owners, notedAt, k)
    {
      assert NotifyOk(up, store, phase, owners, notedAt, k);
    }
  }

  /** A UE becomes set up by the message about to be sent: no notify already sent counts. */
  lemma NotedPhase(up: Link<ToMme>, store: map<nat, Ue>, phase: map<nat, Phase>, owners: seq<nat>,
                   notedAt: map<nat, nat>, id: nat)
    requires NotedOk(up, store, phase, owners, notedAt)
    ensures NotedOk(up, store, phase[id := Setting(|up.sent|)], owners, notedAt)
  {
    hide LatestTeid, LastTeid, Stored;
    forall k | up.read <= k < |up.sent| && up.sent[k].HoNotify?
      ensures NotifyOk(up, store, phase[id := Setting(|up.sent|)], owners, notedAt, k)
    {
      assert NotifyOk(up, store, phase, owners, notedAt, k);
    }
  }

  // ---------------------------------------------------------------- the steps

  lemma HoCommandStep(s: State, c: Command)
    requires Core(s) && HoInv(s) && (c.AttachOne? ==> s.attaches < U32_MOD)
    ensures HoInv(Do(s, EnbCommand(c)))
  {
    hide Core, LatestOk, NotedOk, Stored;
    HaveRead(s);
    var s' := Do(s, EnbCommand(c));
    var m := EnbOnCommand(s.enb, c).mme[0];
    assert s'.up == Send(s.up, [m]) && s.teidOwner + [] == s.teidOwner;
    if c.AttachOne? {
      FreshNotStored(s);
    }
    HoFrame(s.up, s.mme.store, s.phase, s.teidOwner, s.notedAt, s.mme.store, s'.phase);
    LatestSend(s.up, s.mme.store, s'.phase, s.teidOwner, m);
    NotedSend(s.up, s.mme.store, s'.phase, s.teidOwner, s.notedAt, m, []);
  }

  lemma HoSetupRequest(s: State)
    requires Core(s) && HoInv(s) && Enabled(s, EnbReceive) && Head(s.down).SetupRequest?
    ensures HoInv(Do(s, EnbReceive))
  {
    hide Core, LatestOk, NotedOk, Stored;
    HaveRead(s);
    NextTeidIs(s);
    var id := Head(s.down).mmeId;
    var m := SetupResponse(id, Head(s.down).enbId, s.enb.nextTeid);
    var phase' := s.phase[id := Setting(|s.up.sent|)];
    NotedPhase(s.up, s.mme.store, s.phase, s.teidOwner, s.notedAt, id);
    NotedSend(s.up, s.mme.store, phase', s.teidOwner, s.notedAt, m, [id]);
    LatestAllocate(s.up, s.mme.store, s.phase, s.teidOwner, m, phase');
  }

  lemma NextTeidIs(s: State)
    requires Core(s)
    ensures s.enb.nextTeid == TeidAt(|s.teidOwner|)
  {
    hide StoreOk, DownOk, UpOk, PhaseSent, AuthOk, IdsOk, Owned;
  }

  lemma HoHoRequest(s: State)
    requires Core(s) && HoInv(s) && Enabled(s, EnbReceive) && Head(s.down).HoRequest?
    ensures HoInv(Do(s, EnbReceive))
  {
    hide Core, LatestOk, NotedOk, Stored;
    HaveRead(s);
    NextTeidIs(s);
    var id := Head(s.down).mmeId;
    var m := HoAck(id, Head(s.down).enbId, s.enb.nextTeid);
    NotedSend(s.up, s.mme.store, s.phase, s.teidOwner, s.notedAt, m, [id]);
    LatestAllocate(s.up, s.mme.store, s.phase, s.teidOwner, m, s.phase);
  }

  lemma HoMmeStatus(s: State)
    requires Core(s) && HoInv(s) && Enabled(s, EnbReceive) && Head(s.down).MmeStatus?
    ensures HoInv(Do(s, EnbReceive))
  {
    hide Core, LatestOk, NotedOk, Stored;
    HaveRead(s);
    NextTeidIs(s);
    var m := HoNotify(Head(s.down).mmeId, Head(s.down).enbId, (s.enb.nextTeid - 1) % U32_MOD);
    if SetUpBefore(s.phase, m.mmeId, |s.up.sent|) {
      SetUpOwns(s, m.mmeId);
    }
    NotedNotify(s.up, s.mme.store, s.phase, s.teidOwner, s.notedAt, m);
    LatestSend(s.up, s.mme.store, s.phase, s.teidOwner, m);
  }

  /** A UE that is set up has been allocated a TEID. */
  lemma SetUpOwns(s: State, id: nat)
    requires Core(s) && id in s.phase && SetUp(s.phase[id])
    ensures id in s.teidOwner
  {
    hide StoreOk, DownOk, UpOk, AuthOk, IdsOk, WaitsOk;
    var m := s.up.sent[s.phase[id].k];
    assert Owned(s.teidOwner, m.mmeId, m.teid);
  }

  lemma HoOtherDown(s: State)
    requires Core(s) && HoInv(s) && Enabled(s, EnbReceive)
    requires var m := Head(s.down); !m.SetupRequest? && !m.HoRequest? && !m.MmeStatus?
    ensures HoInv(Do(s, EnbReceive))
  {
    hide Core, LatestOk, NotedOk, Stored;
    HaveRead(s);
    ReadDown(s);
    var s' := Do(s, EnbReceive);
    var ms := EnbOnMessage(s.enb, Head(s.down)).mme;
    HoFrame(s.up, s.mme.store, s.phase, s.teidOwner, s.notedAt, s.mme.store, s'.phase);
    assert s.teidOwner + [] == s.teidOwner;
    if ms == [] {
      assert s'.up == s.up;
    } else {
      assert ms == [ms[0]];
      LatestSend(s.up, s.mme.store, s'.phase, s.teidOwner, ms[0]);
      NotedSend(s.up, s.mme.store, s'.phase, s.teidOwner, s.notedAt, ms[0], []);
    }
  }

  lemma HoEnbReceive(s: State)
    requires Core(s) && HoInv(s) && Enabled(s, EnbReceive)
    ensures HoInv(Do(s, EnbReceive))
  {
    hide Core, HoInv, Do;
    match Head(s.down)
    case SetupRequest(_, _, _, _) => HoSetupRequest(s);
    case HoRequest(_, _) => HoHoRequest(s);
    case MmeStatus(_, _) => HoMmeStatus(s);
    case _ => HoOtherDown(s);
  }

  lemma HoEnbFinish(s: State)
    requires Core(s) && HoInv(s) && Enabled(s, EnbFinish)
    ensures HoInv(Do(s, EnbFinish))
  {
    hide Core, LatestOk, NotedOk, Stored;
    HaveRead(s);
    var s' := Do(s, EnbFinish);
    var m := EnbComplete(s.enb).mme[0];
    HoFrame(s.up, s.mme.store, s.phase, s.teidOwner, s.notedAt, s.mme.store, s'.phase);
    assert s.teidOwner + [] == s.teidOwner && s'.up == Send(s.up, [m]);
    LatestSend(s.up, s.mme.store, s'.phase, s.teidOwner, m);
    NotedSend(s.up, s.mme.store, s'.phase, s.teidOwner, s.notedAt, m, []);
  }

  /** A UE that is set up has one bearer. */
  lemma SetUpBearer(s: State, id: nat)
    requires Core(s) && id in s.phase && SetUp(s.phase[id])
    ensures id in s.mme.store && |s.mme.store[id].bearers| == 1 && s.mme.store[id].bearers[0].ebi == DEFAULT_EBI
  {
    hide Core, Owned, Authentic;
    UeAt(s, id);
  }

  lemma StoredAfterInitialUe(s: State, id: nat)
    requires Core(s) && Enabled(s, MmeReceive) && Head(s.up).InitialUe? && id in s.mme.store
    ensures Stored(Do(s, MmeReceive).mme.store, id) == Stored(s.mme.store, id)
  {
    hide Core;
    NextAnnounced(s);
    UeKnown(s, id);
  }

  lemma StoredAfterOther(s: State, id: nat)
    requires Enabled(s, MmeReceive) && !Head(s.up).InitialUe?
    requires id in s.mme.store && |s.mme.store[id].bearers| == 1 && s.mme.store[id].bearers[0].ebi == DEFAULT_EBI
    ensures Stored(Do(s, MmeReceive).mme.store, id) ==
            if Carries(Head(s.up), id) then Head(s.up).teid else Stored(s.mme.store, id)
  {
    hide PhaseOnMme, Authentic, SwitchTeid;
  }

  /** Reading a message changes the TEID of a UE that is set up exactly if the message carries
      one for it, and makes no UE set up. */
  lemma StoredAfterRead(s: State, id: nat)
    requires Core(s) && Enabled(s, MmeReceive) && id in s.phase && SetUp(s.phase[id])
    ensures Stored(Do(s, MmeReceive).mme.store, id) ==
            if Carries(Head(s.up), id) then Head(s.up).teid else Stored(s.mme.store, id)
  {
    hide Core, Do;
    SetUpBearer(s, id);
    if Head(s.up).InitialUe? {
      StoredAfterInitialUe(s, id);
    } else {
      StoredAfterOther(s, id);
    }
  }

  lemma PhaseAfterRead(s: State, id: nat)
    requires Core(s) && Enabled(s, MmeReceive)
    requires id in Do(s, MmeReceive).phase && SetUp(Do(s, MmeReceive).phase[id])
    ensures id in s.phase && SetUp(s.phase[id]) && s.phase[id].k == Do(s, MmeReceive).phase[id].k
  {
    hide Core, MmeOnMessage;
  }

  lemma HoMmeReceive(s: State)
    requires Core(s) && HoInv(s) && Enabled(s, MmeReceive)
    ensures HoInv(Do(s, MmeReceive))
  {
    var s' := Do(s, MmeReceive);
    assert s'.up == Receive(s.up) && s'.teidOwner == s.teidOwner && s'.notedAt == s.notedAt;
    hide Core, LatestOk, NotedOk, Stored, Do;
    forall id | id in s.phase && SetUp(s.phase[id])
      ensures Stored(s'.mme.store, id) == if Carries(Head(s.up), id) then Head(s.up).teid else Stored(s.mme.store, id)
    {
      StoredAfterRead(s, id);
    }
    HoRead(s.up, s.mme.store, s.phase, s.teidOwner, s.notedAt, s'.mme.store);
    forall id | id in s'.phase && SetUp(s'.phase[id])
      ensures id in s.phase && SetUp(s.phase[id]) && s.phase[id].k == s'.phase[id].k
    {
      PhaseAfterRead(s, id);
    }
    HoFrame(s'.up, s'.mme.store, s.phase, s.teidOwner, s.notedAt, s'.mme.store, s'.phase);
  }

  predicate WaitEnds(a: Action)
  {
    a.MmeVectors? || a.MmeAnswer? || a.MmeTimeout?
  }

  lemma WaitFrame(s: State, a: Action)
    requires Enabled(s, a) && WaitEnds(a)
    ensures var s' := Do(s, a); s'.up == s.up && s'.teidOwner == s.teidOwner && s'.notedAt == s.notedAt
  {
    hide DefaultAt, DefaultBearer, OnCreateAnswer;
  }

  /** A wait of the MME that ends moves only a UE that is not set up. */
  lemma WaitMoves(s: State, a: Action, id: nat)
    requires Core(s) && Enabled(s, a) && WaitEnds(a) && id in Do(s, a).phase && SetUp(Do(s, a).phase[id])
    ensures id in s.phase && s.phase[id] == Do(s, a).phase[id]
    ensures s.mme.pc.AwaitingAuth? || s.mme.pc.AwaitingCreate? ==> id != s.mme.pc.mmeId
  {
    hide Core, DefaultAt, DefaultBearer, OnCreateAnswer;
    WaitPhase(s);
  }

  lemma WaitStores(s: State, a: Action, id: nat)
    requires Enabled(s, a) && WaitEnds(a)
    requires s.mme.pc.AwaitingAuth? || s.mme.pc.AwaitingCreate? ==> id != s.mme.pc.mmeId
    ensures Stored(Do(s, a).mme.store, id) == Stored(s.mme.store, id)
  {
    hide DefaultAt, DefaultBearer;
  }

  lemma HoWaitEnds(s: State, a: Action)
    requires Core(s) && HoInv(s) && Enabled(s, a) && WaitEnds(a)
    ensures HoInv(Do(s, a))
  {
    hide Core, LatestOk, NotedOk, Do, Enabled, Stored;
    var s' := Do(s, a);
    WaitFrame(s, a);
    forall id | id in s'.phase && SetUp(s'.phase[id])
      ensures id in s.phase && s.phase[id] == s'.phase[id] && Stored(s'.mme.store, id) == Stored(s.mme.store, id)
    {
      WaitMoves(s, a, id);
      WaitStores(s, a, id);
    }
    HoFrame(s.up, s.mme.store, s.phase, s.teidOwner, s.notedAt, s'.mme.store, s'.phase);
  }

  lemma WaitPhase(s: State)
    requires Core(s)
    ensures s.mme.pc.AwaitingAuth? ==> s.mme.pc.mmeId in s.phase && s.phase[s.mme.pc.mmeId] == Fetching
    ensures s.mme.pc.AwaitingCreate? ==> s.mme.pc.mmeId in s.phase && s.phase[s.mme.pc.mmeId] == Opening
  {
    hide StoreOk, DownOk, UpOk, PhaseSent, AuthOk, IdsOk, TeidsOk;
  }

  lemma HoElsewhere(s: State, a: Action)
    requires HoInv(s) && Enabled(s, a)
    requires !a.EnbCommand? && !a.EnbReceive? && !a.EnbFinish? && !a.MmeReceive?
          && !a.MmeVectors? && !a.MmeAnswer? && !a.MmeTimeout?
    ensures HoInv(Do(s, a))
  {
    hide LatestOk, NotedOk;
  }

  lemma StepKeepsHo(s: State, a: Action)
    requires Core(s) && HoInv(s) && Enabled(s, a) && FewAttaches(Do(s, a))
    ensures HoInv(Do(s, a))
  {
    hide Core, HoInv, Do, Enabled;
    match a
    case EnbCommand(c) =>
      if c.AttachOne? {
        AttachCounts(s);
      }
      HoCommandStep(s, c);
    case EnbReceive => HoEnbReceive(s);
    case EnbFinish => HoEnbFinish(s);
    case MmeReceive => HoMmeReceive(s);
    case MmeVectors(_) => HoWaitEnds(s, a);
    case MmeAnswer => HoWaitEnds(s, a);
    case MmeTimeout => HoWaitEnds(s, a);
    case _ => HoElsewhere(s, a);
  }

  lemma {:induction false} RunKeepsHo(s: State, acts: seq<Action>)
    requires Core(s) && HoInv(s) && IsRun(s, acts) && FewAttaches(Last(s, acts))
    ensures HoInv(Last(s, acts))
    decreases |acts|
  {
    hide Core, HoInv, Do, Enabled;
    if acts != [] {
      RunKeepsCore(Do(s, acts[0]), acts[1..]);
      StepKeepsCore(s, acts[0]);
      StepKeepsHo(s, acts[0]);
      RunKeepsHo(Do(s, acts[0]), acts[1..]);
    }
  }

  lemma ReachableHo(f: State)
    requires Reachable(f) && FewAttaches(f)
    ensures HoInv(f)
  {
    hide Core, Do, Enabled, IsInit, HoInv;
    var s, acts :| IsInit(s) && IsRun(s, acts) && Last(s, acts) == f;
    InitCore(s);
    InitHo(s);
    RunKeepsHo(s, acts);
  }

  lemma InitHo(s: State)
    requires IsInit(s)
    ensures HoInv(s)
  {
  }

  // ---------------------------------------------------------------- the path switch

  /** The latest TEID of a UE is that of its last allocation. */
  lemma {:induction false} LatestIndex(owners: seq<nat>, id: nat) returns (j: nat)
    requires id in owners
    ensures j < |owners| && owners[j] == id && LatestTeid(owners, id) == TeidAt(j)
    ensures forall i :: j < i < |owners| ==> owners[i] != id
  {
    if owners[|owners| - 1] == id {
      j := |owners| - 1;
    } else {
      j := LatestIndex(owners[..|owners| - 1], id);
    }
  }

  lemma LatestOwner(owners: seq<nat>, id: nat)
    requires |owners| <= U32_MOD && id in owners
    ensures LatestTeid(owners, id) == TeidAt(|owners| - 1) <==> owners[|owners| - 1] == id
  {
    hide LatestTeid, TeidAt;
    var j := LatestIndex(owners, id);
    if TeidAt(j) == TeidAt(|owners| - 1) {
      TeidInjective(j, |owners| - 1);
    }
  }

  /** At the path switch of a UE whose Setup Response the MME has read, the S-GW is told the TEID
      that the MME stored at HandoverRequestAck if and only if the last TEID the eNB had allocated
      to anybody, when it sent HandoverNotify, was this UE's, or was 0: for the MME 0 means that
      the notify carries none, and it falls back on the stored one. */
  lemma PathSwitchTeid(s: State)
    requires Reachable(s) && FewAttaches(s) && |s.teidOwner| <= U32_MOD
    requires Enabled(s, MmeReceive) && Head(s.up).HoNotify?
    requires Head(s.up).mmeId in s.phase && SetupSeen(s.phase[Head(s.up).mmeId], s.up.read)
    ensures Head(s.up).mmeId in s.mme.store
    ensures var id := Head(s.up).mmeId;
            var u := s.mme.store[id];
            var told := SwitchTeid(s.mme, id, Head(s.up).teid);
            && HasDefault(u) && s.up.read in s.notedAt && 1 <= s.notedAt[s.up.read] <= |s.teidOwner|
            && Do(s, MmeReceive).s11q.sent == s.s11q.sent + [ModifyBearer(u.imsi, told)]
            && (told == DefaultBearer(u).enbTeid <==>
                  s.teidOwner[s.notedAt[s.up.read] - 1] == id || TeidAt(s.notedAt[s.up.read] - 1) == 0)
  {
    hide Reachable, Core, Do, NotifyOk, Owned;
    ReachableCore(s);
    SetUpBearer(s, Head(s.up).mmeId);
    SwitchSends(s);
    ReachableHo(s);
    assert NotifyOk(s.up, s.mme.store, s.phase, s.teidOwner, s.notedAt, s.up.read);
    NotifiedTeid(s);
  }

  /** A registered UE is one of those. */
  lemma RegisteredIsSetUp(s: State, id: nat)
    requires Reachable(s) && FewAttaches(s) && id in s.mme.store && s.mme.store[id].emm == Registered
    ensures id in s.phase && SetupSeen(s.phase[id], s.up.read)
  {
    hide Reachable, Core, Owned, Authentic;
    ReachableCore(s);
    UeKnown(s, id);
  }

  lemma SwitchSends(s: State)
    requires Enabled(s, MmeReceive) && Head(s.up).HoNotify? && Head(s.up).mmeId in s.mme.store
    ensures var id := Head(s.up).mmeId;
            Do(s, MmeReceive).s11q.sent
            == s.s11q.sent + [ModifyBearer(s.mme.store[id].imsi, SwitchTeid(s.mme, id, Head(s.up).teid))]
  {
    hide SwitchTeid;
  }

  lemma NotifiedTeid(s: State)
    requires |s.teidOwner| <= U32_MOD && HasNext(s.up) && Head(s.up).HoNotify?
    requires NotifyOk(s.up, s.mme.store, s.phase, s.teidOwner, s.notedAt, s.up.read)
    requires var id := Head(s.up).mmeId;
             && id in s.mme.store && SetUpBefore(s.phase, id, s.up.read)
             && |s.mme.store[id].bearers| == 1 && s.mme.store[id].bearers[0].ebi == DEFAULT_EBI
    ensures s.up.read in s.notedAt
    ensures var id, n := Head(s.up).mmeId, s.notedAt[s.up.read];
            && 1 <= n <= |s.teidOwner|
            && (SwitchTeid(s.mme, id, Head(s.up).teid) == s.mme.store[id].bearers[0].enbTeid
                <==> s.teidOwner[n - 1] == id || TeidAt(n - 1) == 0)
  {
    hide LatestTeid, TeidAt;
    var id, n := Head(s.up).mmeId, s.notedAt[s.up.read];
    var stored := s.mme.store[id].bearers[0].enbTeid;
    assert stored == LatestTeid(s.teidOwner[..n], id) by { LastTeidHere(s, id); }
    LatestOwner(s.teidOwner[..n], id);
    TeidBefore(n);
  }

  lemma TeidBefore(n: nat)
    requires n >= 1
    ensures (TeidAt(n) - 1) % U32_MOD == TeidAt(n - 1)
  {
    ModAdd(FIRST_ENB_TEID + n, -1, U32_MOD);
  }

  lemma LastTeidHere(s: State, id: nat)
    requires s.up.read <= |s.up.sent|
    ensures LastTeid(s.up.sent, s.up.read, s.up.read, id, Stored(s.mme.store, id)) == Stored(s.mme.store, id)
  {
  }
}
