/** What every reachable state of the 4G system satisfies while at most 2^32 attaches have been
    started: identities run in lockstep, each UE's attach has exactly one message or
    wait that carries it on, and the context agrees with how far it has come. */
module S1Invariant {
  import opened Common
  import opened Bits
  import opened S1Nodes
  import opened S1Runs

  // ---------------------------------------------------------------- identities

  /** The identifier after n others: both counters start at 1 and wrap. */
  function IdAt(n: nat): nat
  {
    (n + 1) % U32_MOD
  }

  /** How many identifiers come before this one. */
  function IdNo(id: nat): (n: nat)
    ensures n < U32_MOD
  {
    (id - 1) % U32_MOD
  }

  lemma IdAtNo(n: nat)
    requires n < U32_MOD
    ensures IdAt(n) < U32_MOD && IdNo(IdAt(n)) == n
  {
  }

  lemma IdNoAt(id: nat)
    requires id < U32_MOD
    ensures IdAt(IdNo(id)) == id
  {
  }

  lemma NextIdAt(n: nat)
    ensures Next32(IdAt(n)) == IdAt(n + 1)
  {
  }

  /** Identifiers 1, 2, 3, ... on both sides; the MME has seen the first so many, has yet to see
      exactly those announced, and will see them in order. */
  ghost predicate IdsOk(attaches: nat, nextUeId: nat, seen: nat, phase: map<nat, Phase>, read: nat, len: nat)
  {
    && attaches <= U32_MOD && nextUeId == IdAt(attaches) && seen <= attaches
    && (forall id: nat :: id in phase <==> id < U32_MOD && IdNo(id) < attaches)
    && (forall id :: id in phase ==> (phase[id].Announced? <==> seen <= IdNo(id)))
    && (forall id :: id in phase && phase[id].Announced? ==> read <= phase[id].k < len)
    && (forall i, j :: i in phase && j in phase && seen <= IdNo(i) < IdNo(j) ==> phase[i].k < phase[j].k)
  }

  // ---------------------------------------------------------------- messages

  ghost predicate UpMsgOk(m: ToMme, k: nat, phase: map<nat, Phase>)
  {
    match m
    case InitialUe(id, imsi) => id in phase && phase[id] == Announced(k) && imsi == BASE_IMSI + id
    case AuthResponse(id, _, res) => id in phase && phase[id] == Answered(k, res) && |res| == 8
    case SetupResponse(id, _, _) => id in phase && (phase[id].Setting? || phase[id].Finishing?) && phase[id].k == k
    case AttachComplete(id, _) => id in phase && phase[id].Finishing? && phase[id].j == k
    case _ => true
  }

  ghost predicate UpOk(up: Link<ToMme>, phase: map<nat, Phase>)
  {
    up.read <= |up.sent| && forall k :: up.read <= k < |up.sent| ==> UpMsgOk(up.sent[k], k, phase)
  }

  ghost predicate DownMsgOk(m: ToEnb, k: nat, phase: map<nat, Phase>)
  {
    match m
    case AuthRequest(id, _, rand) =>
      |rand| == 16 && id in phase && phase[id] == Challenged(k, Xor55(rand[..8]))
    case SetupRequest(id, enbId, _, _) => id in phase && phase[id] == Accepted(k) && enbId == id
    case _ => true
  }

  ghost predicate DownOk(down: Link<ToEnb>, phase: map<nat, Phase>)
  {
    down.read <= |down.sent| && forall k :: down.read <= k < |down.sent| ==> DownMsgOk(down.sent[k], k, phase)
  }

  /** An Attach Request and a Setup Response, once sent, are in the history at the index their
      UE remembers, and the Attach Complete comes after the latter. */
  ghost predicate PhaseSent(sent: seq<ToMme>, phase: map<nat, Phase>)
  {
    && (forall id :: id in phase && (phase[id].Setting? || phase[id].Finishing? || phase[id].Attached?) ==>
          phase[id].k < |sent| && sent[phase[id].k].SetupResponse? && sent[phase[id].k].mmeId == id)
    && (forall id :: id in phase && phase[id].Finishing? ==> phase[id].k < phase[id].j)
    && (forall id :: id in phase && phase[id].Announced? ==>
          phase[id].k < |sent| && sent[phase[id].k] == InitialUe(id, BASE_IMSI + id))
  }

  // ---------------------------------------------------------------- eNB TEIDs

  function TeidAt(n: nat): nat
  {
    (FIRST_ENB_TEID + n) % U32_MOD
  }

  /** t is a TEID that the eNB allocated for this UE. */
  ghost predicate Owned(owners: seq<nat>, id: nat, t: nat)
  {
    exists n :: 0 <= n < |owners| && owners[n] == id && t == TeidAt(n)
  }

  ghost predicate TeidsOk(nextTeid: nat, sent: seq<ToMme>, owners: seq<nat>)
  {
    && nextTeid == TeidAt(|owners|)
    && forall k :: 0 <= k < |sent| && (sent[k].SetupResponse? || sent[k].HoAck?) ==>
         Owned(owners, sent[k].mmeId, sent[k].teid)
  }

  // ---------------------------------------------------------------- contexts

  predicate HasSession(p: Phase)
  {
    p.Accepted? || p.Setting? || p.Finishing? || p.Attached?
  }

  predicate PastAuth(p: Phase)
  {
    p.Opening? || p.Refused? || HasSession(p)
  }

  function EmmOf(p: Phase): Emm
  {
    if p.Fetching? || p.Announced? then RegInitiated
    else if p.Abandoned? || p.Challenged? || p.Answered? then AuthPending
    else if p.Attached? then Registered
    else SessionPending
  }

  /** The MME has processed this UE's Setup Response. */
  predicate SetupSeen(p: Phase, read: nat)
  {
    (p.Setting? || p.Finishing? || p.Attached?) && p.k < read
  }

  ghost predicate UeOk(u: Ue, id: nat, p: Phase, read: nat, owners: seq<nat>, answers: map<nat, Bytes>)
  {
    && u.mmeId == id && u.enbId == id && u.imsi == BASE_IMSI + id
    && u.emm == EmmOf(p)
    && (p.Challenged? || p.Answered? ==> u.xres == p.xres)
    && (PastAuth(p) ==> id in answers && Authentic(answers[id], u.xres))
    && (if HasSession(p) then |u.bearers| == 1 && u.bearers[0].ebi == DEFAULT_EBI else u.bearers == [])
    && (HasSession(p) ==> u.bearers[0].enbTeid == 0 || Owned(owners, id, u.bearers[0].enbTeid))
    && (SetupSeen(p, read) ==> Owned(owners, id, u.bearers[0].enbTeid))
    && (p.Attached? ==> p.k < read)
  }

  ghost predicate StoreOk(store: map<nat, Ue>, seen: nat, phase: map<nat, Phase>, read: nat,
                          owners: seq<nat>, answers: map<nat, Bytes>)
  {
    && (forall id: nat :: id in store <==> id < U32_MOD && IdNo(id) < seen)
    && forall id :: id in store ==> id in phase && UeOk(store[id], id, phase[id], read, owners, answers)
  }

  // ---------------------------------------------------------------- threads and vectors

  ghost predicate WaitsOk(pc: MmePc, completing: Option<(nat, nat)>, phase: map<nat, Phase>)
  {
    && (pc.AwaitingAuth? ==> pc.mmeId in phase && phase[pc.mmeId] == Fetching && pc.enbId == pc.mmeId)
    && (pc.AwaitingCreate? ==> pc.mmeId in phase && phase[pc.mmeId] == Opening)
    && (completing.Some? ==> completing.value.0 in phase && phase[completing.value.0].Setting?)
  }

  predicate VectorsOk(av: Vectors)
  {
    |av.rand| == 16 && av.xres == Xor55(av.rand[..8])
  }

  ghost predicate AuthOk(aia: Link<AuthAnswer>, pending: map<nat, Vectors>)
  {
    && (forall k :: 0 <= k < |aia.sent| ==> VectorsOk(aia.sent[k].av))
    && (forall imsi :: imsi in pending ==> VectorsOk(pending[imsi]))
  }

  ghost predicate Core(s: State)
  {
    && IdsOk(s.attaches, s.enb.nextUeId, s.contexts, s.phase, s.up.read, |s.up.sent|)
    && UpOk(s.up, s.phase) && DownOk(s.down, s.phase) && PhaseSent(s.up.sent, s.phase)
    && TeidsOk(s.enb.nextTeid, s.up.sent, s.teidOwner)
    && StoreOk(s.mme.store, s.contexts, s.phase, s.up.read, s.teidOwner, s.answers)
    && WaitsOk(s.mme.pc, s.enb.completing, s.phase)
    && AuthOk(s.aia, s.mme.pending)
    && s.mme.nextId == IdAt(s.contexts) && s.mme.authFailures == 0
  }

  lemma InitCore(s: State)
    requires IsInit(s)
    ensures Core(s)
  {
  }

  // ---------------------------------------------------------------- appending to a link

  lemma UpAppend(up: Link<ToMme>, phase: map<nat, Phase>, m: ToMme)
    requires UpOk(up, phase) && UpMsgOk(m, |up.sent|, phase)
    ensures UpOk(Send(up, [m]), phase)
  {
  }

  lemma DownAppend(down: Link<ToEnb>, phase: map<nat, Phase>, m: ToEnb)
    requires DownOk(down, phase) && DownMsgOk(m, |down.sent|, phase)
    ensures DownOk(Send(down, [m]), phase)
  {
  }

  lemma SentAppend(sent: seq<ToMme>, phase: map<nat, Phase>, ms: seq<ToMme>)
    requires PhaseSent(sent, phase)
    ensures PhaseSent(sent + ms, phase)
  {
  }

  lemma OwnedGrows(owners: seq<nat>, more: seq<nat>, id: nat, t: nat)
    requires Owned(owners, id, t)
    ensures Owned(owners + more, id, t)
  {
    var n :| 0 <= n < |owners| && owners[n] == id && t == TeidAt(n);
    assert (owners + more)[n] == id;
  }

  lemma TeidsAppend(nextTeid: nat, sent: seq<ToMme>, owners: seq<nat>, m: ToMme)
    requires TeidsOk(nextTeid, sent, owners) && !m.SetupResponse? && !m.HoAck?
    ensures TeidsOk(nextTeid, sent + [m], owners)
  {
    hide Owned;
  }

  /** The eNB allocates a TEID for a UE and sends it. */
  lemma TeidsAllocate(nextTeid: nat, sent: seq<ToMme>, owners: seq<nat>, m: ToMme)
    requires TeidsOk(nextTeid, sent, owners)
    requires (m.SetupResponse? || m.HoAck?) && m.teid == nextTeid
    ensures TeidsOk(Next32(nextTeid), sent + [m], owners + [m.mmeId])
  {
    var owners' := owners + [m.mmeId];
    assert Owned(owners', m.mmeId, m.teid) by { assert owners'[|owners|] == m.mmeId; }
    forall k | 0 <= k < |sent| && (sent[k].SetupResponse? || sent[k].HoAck?)
      ensures Owned(owners', sent[k].mmeId, sent[k].teid)
    {
      OwnedGrows(owners, [m.mmeId], sent[k].mmeId, sent[k].teid);
    }
    hide Owned;
  }

  lemma UeOwners(u: Ue, id: nat, p: Phase, read: nat, owners: seq<nat>, answers: map<nat, Bytes>, more: seq<nat>)
    requires UeOk(u, id, p, read, owners, answers)
    ensures UeOk(u, id, p, read, owners + more, answers)
  {
    hide Owned, Authentic;
    if HasSession(p) && Owned(owners, id, u.bearers[0].enbTeid) {
      OwnedGrows(owners, more, id, u.bearers[0].enbTeid);
    }
  }

  lemma StoreOwners(store: map<nat, Ue>, seen: nat, phase: map<nat, Phase>, read: nat,
                    owners: seq<nat>, answers: map<nat, Bytes>, more: seq<nat>)
    requires StoreOk(store, seen, phase, read, owners, answers)
    ensures StoreOk(store, seen, phase, read, owners + more, answers)
  {
    hide UeOk;
    forall id | id in store ensures UeOk(store[id], id, phase[id], read, owners + more, answers) {
      UeOwners(store[id], id, phase[id], read, owners, answers, more);
    }
  }

  // ---------------------------------------------------------------- one UE moving on

  /** No message still on the uplink carries this UE's attach once `read` messages are read. */
  predicate ClearOfUp(p: Phase, read: nat)
  {
    match p
    case Announced(k) => k < read
    case Answered(k, _) => k < read
    case Setting(_) => false
    case Finishing(k, j) => k < j < read
    case _ => true
  }

  lemma UpMove(up: Link<ToMme>, read: nat, phase: map<nat, Phase>, id: nat, p: Phase)
    requires UpOk(up, phase) && up.read <= read <= |up.sent|
    requires id in phase ==> ClearOfUp(phase[id], read) || (phase[id].Setting? && p.Finishing? && p.k == phase[id].k)
    ensures UpOk(Link(up.sent, read), phase[id := p])
  {
  }

  predicate ClearOfDown(p: Phase, read: nat)
  {
    match p
    case Challenged(k, _) => k < read
    case Accepted(k) => k < read
    case _ => true
  }

  lemma DownMove(down: Link<ToEnb>, read: nat, phase: map<nat, Phase>, id: nat, p: Phase)
    requires DownOk(down, phase) && down.read <= read <= |down.sent|
    requires id in phase ==> ClearOfDown(phase[id], read)
    ensures DownOk(Link(down.sent, read), phase[id := p])
  {
  }

  lemma SentMove(sent: seq<ToMme>, phase: map<nat, Phase>, id: nat, p: Phase)
    requires PhaseSent(sent, phase)
    requires p.Setting? || p.Finishing? || p.Attached? ==>
               p.k < |sent| && sent[p.k].SetupResponse? && sent[p.k].mmeId == id && (p.Finishing? ==> p.k < p.j)
    requires p.Announced? ==> p.k < |sent| && sent[p.k] == InitialUe(id, BASE_IMSI + id)
    ensures PhaseSent(sent, phase[id := p])
  {
  }

  lemma IdsMove(attaches: nat, nextUeId: nat, seen: nat, phase: map<nat, Phase>, read: nat, len: nat,
                id: nat, p: Phase, read': nat, len': nat)
    requires IdsOk(attaches, nextUeId, seen, phase, read, len)
    requires id in phase && !phase[id].Announced? && !p.Announced? && len <= len'
    requires read' == read || (read' == read + 1 && forall i :: i in phase && phase[i].Announced? ==> phase[i].k != read)
    ensures IdsOk(attaches, nextUeId, seen, phase[id := p], read', len')
  {
  }

  lemma IdsRead(attaches: nat, nextUeId: nat, seen: nat, phase: map<nat, Phase>, read: nat, len: nat, len': nat)
    requires IdsOk(attaches, nextUeId, seen, phase, read, len) && len <= len'
    ensures IdsOk(attaches, nextUeId, seen, phase, read, len')
    ensures (forall i :: i in phase && phase[i].Announced? ==> phase[i].k != read) ==>
              IdsOk(attaches, nextUeId, seen, phase, read + 1, len')
  {
  }

  lemma StoreMove(store: map<nat, Ue>, seen: nat, phase: map<nat, Phase>, read: nat, owners: seq<nat>,
                  answers: map<nat, Bytes>, id: nat, u: Ue, p: Phase)
    requires StoreOk(store, seen, phase, read, owners, answers)
    requires id in store && UeOk(u, id, p, read, owners, answers)
    ensures StoreOk(store[id := u], seen, phase[id := p], read, owners, answers)
  {
    hide UeOk;
  }

  /** A phase change that leaves the context right as it is. */
  lemma StorePhase(store: map<nat, Ue>, seen: nat, phase: map<nat, Phase>, read: nat, owners: seq<nat>,
                   answers: map<nat, Bytes>, id: nat, p: Phase)
    requires StoreOk(store, seen, phase, read, owners, answers)
    requires id in store ==> UeOk(store[id], id, p, read, owners, answers)
    ensures StoreOk(store, seen, phase[id := p], read, owners, answers)
  {
    hide UeOk;
  }

  /** Reading a message that is not a Setup Response. */
  lemma StoreRead(store: map<nat, Ue>, seen: nat, phase: map<nat, Phase>, up: Link<ToMme>, owners: seq<nat>,
                  answers: map<nat, Bytes>)
    requires StoreOk(store, seen, phase, up.read, owners, answers) && PhaseSent(up.sent, phase)
    requires HasNext(up) && !up.sent[up.read].SetupResponse?
    ensures StoreOk(store, seen, phase, up.read + 1, owners, answers)
  {
    hide Owned, Authentic;
    forall id | id in store ensures UeOk(store[id], id, phase[id], up.read + 1, owners, answers) {
      var p := phase[id];
      assert (p.Setting? || p.Finishing?) ==> p.k != up.read;
      assert SetupSeen(p, up.read + 1) ==> SetupSeen(p, up.read);
    }
  }

  lemma StoreAnswers(store: map<nat, Ue>, seen: nat, phase: map<nat, Phase>, read: nat, owners: seq<nat>,
                     answers: map<nat, Bytes>, id: nat, res: Bytes)
    requires StoreOk(store, seen, phase, read, owners, answers)
    requires id in phase && !PastAuth(phase[id])
    ensures StoreOk(store, seen, phase, read, owners, answers[id := res])
  {
    hide Owned, Authentic;
  }

  // ---------------------------------------------------------------- eNB steps

  lemma KeepAttach(s: State)
    requires Core(s) && s.attaches < U32_MOD
    ensures Core(Do(s, EnbCommand(AttachOne)))
  {
    hide StoreOk, TeidsOk, DownOk, UpOk, PhaseSent, AuthOk, IdsOk, IdAt, IdNo;
    var s' := Do(s, EnbCommand(AttachOne));
    var id, p, m := s.enb.nextUeId, Announced(|s.up.sent|), InitialUe(s.enb.nextUeId, BASE_IMSI + s.enb.nextUeId);
    assert s'.up == Send(s.up, [m]) && s'.phase == s.phase[id := p];
    HaveRead(s);
    FreshNotStored(s);
    assert s.enb.nextUeId == IdAt(s.attaches) by { NextUeIdIs(s); }
    IdsAnnounce(s.attaches, s.contexts, s.phase, s.up.read, |s.up.sent|);
    NextIdAt(s.attaches);
    UpMove(s.up, s.up.read, s.phase, id, p);
    UpAppend(s.up, s'.phase, m);
    DownMove(s.down, s.down.read, s.phase, id, p);
    SentAppend(s.up.sent, s.phase, [m]);
    SentMove(s'.up.sent, s.phase, id, p);
    TeidsAppend(s.enb.nextTeid, s.up.sent, s.teidOwner, m);
    StorePhase(s.mme.store, s.contexts, s.phase, s.up.read, s.teidOwner, s.answers, id, p);
  }

  lemma NextUeIdIs(s: State)
    requires Core(s)
    ensures s.enb.nextUeId == IdAt(s.attaches)
  {
    hide StoreOk, TeidsOk, DownOk, UpOk, PhaseSent, AuthOk;
  }

  /** One more identifier is announced. */
  lemma IdsAnnounce(attaches: nat, seen: nat, phase: map<nat, Phase>, read: nat, len: nat)
    requires IdsOk(attaches, IdAt(attaches), seen, phase, read, len) && attaches < U32_MOD && read <= len
    ensures IdsOk(attaches + 1, IdAt(attaches + 1), seen, phase[IdAt(attaches) := Announced(len)], read, len + 1)
  {
    IdAtNo(attaches);
    hide IdNo, IdAt;
    forall id: nat ensures id < U32_MOD && IdNo(id) == attaches ==> id == IdAt(attaches) {
      if id < U32_MOD {
        IdNoAt(id);
      }
    }
  }

  lemma HaveRead(s: State)
    requires Core(s)
    ensures s.up.read <= |s.up.sent| && s.down.read <= |s.down.sent|
  {
    hide UpMsgOk, DownMsgOk, StoreOk, TeidsOk, PhaseSent, AuthOk;
  }

  lemma FreshNotStored(s: State)
    requires Core(s) && s.attaches < U32_MOD
    ensures s.enb.nextUeId !in s.mme.store && s.enb.nextUeId !in s.phase
  {
    IdAtNo(s.attaches);
    hide UeOk, TeidsOk, DownOk, UpOk, PhaseSent, AuthOk;
  }

  /** TAU and HO commands carry no attach forward. */
  lemma KeepCommand(s: State, c: Command)
    requires Core(s) && !c.AttachOne?
    ensures Core(Do(s, EnbCommand(c)))
  {
    hide StoreOk, TeidsOk, DownOk, UpOk, PhaseSent, AuthOk, IdsOk, IdAt, IdNo;
    var m := EnbOnCommand(s.enb, c).mme[0];
    PlainUp(s, m);
  }

  /** Messages that no attach depends on. */
  predicate Plain(m: ToMme)
  {
    !m.InitialUe? && !m.AuthResponse? && !m.SetupResponse? && !m.AttachComplete?
  }

  /** Sending a message that no attach depends on, and no TEID. */
  lemma PlainUp(s: State, m: ToMme)
    requires Core(s) && Plain(m) && !m.HoAck?
    ensures UpOk(Send(s.up, [m]), s.phase) && PhaseSent(s.up.sent + [m], s.phase)
    ensures TeidsOk(s.enb.nextTeid, s.up.sent + [m], s.teidOwner)
    ensures IdsOk(s.attaches, s.enb.nextUeId, s.contexts, s.phase, s.up.read, |s.up.sent| + 1)
  {
    hide StoreOk, TeidsOk, DownOk, UpOk, PhaseSent, AuthOk;
    UpAppend(s.up, s.phase, m);
    SentAppend(s.up.sent, s.phase, [m]);
    TeidsAppend(s.enb.nextTeid, s.up.sent, s.teidOwner, m);
  }

  lemma ReadDown(s: State)
    requires Core(s) && HasNext(s.down)
    ensures DownOk(Receive(s.down), s.phase) && DownMsgOk(Head(s.down), s.down.read, s.phase)
  {
    hide StoreOk, TeidsOk, UpOk, PhaseSent, AuthOk, DownMsgOk;
  }

  lemma KeepAuthRequest(s: State)
    requires Core(s) && Enabled(s, EnbReceive) && Head(s.down).AuthRequest?
    ensures Core(Do(s, EnbReceive))
  {
    hide StoreOk, TeidsOk, DownOk, UpOk, PhaseSent, AuthOk, IdsOk, IdAt, IdNo;
    var s' := Do(s, EnbReceive);
    ReadDown(s);
    HaveRead(s);
    var req := Head(s.down);
    var id, p := req.mmeId, Answered(|s.up.sent|, Xor55(req.rand[..8]));
    var m := AuthResponse(id, req.enbId, p.xres);
    assert s'.phase == s.phase[id := p] && s'.up == Send(s.up, [m]);
    UpMove(s.up, s.up.read, s.phase, id, p);
    UpAppend(s.up, s'.phase, m);
    DownMove(s.down, s.down.read + 1, s.phase, id, p);
    SentMove(s.up.sent, s.phase, id, p);
    SentAppend(s.up.sent, s'.phase, [m]);
    TeidsAppend(s.enb.nextTeid, s.up.sent, s.teidOwner, m);
    IdsMove(s.attaches, s.enb.nextUeId, s.contexts, s.phase, s.up.read, |s.up.sent|, id, p, s.up.read, |s'.up.sent|);
    UeAt(s, id);
    StorePhase(s.mme.store, s.contexts, s.phase, s.up.read, s.teidOwner, s.answers, id, p);
  }

  /** The context of a UE that has been announced and read. */
  lemma UeAt(s: State, id: nat)
    requires Core(s) && id in s.phase && !s.phase[id].Announced?
    ensures id in s.mme.store && UeOk(s.mme.store[id], id, s.phase[id], s.up.read, s.teidOwner, s.answers)
  {
    hide UeOk, TeidsOk, DownOk, UpOk, PhaseSent, AuthOk;
  }

  lemma KeepSetupRequest(s: State)
    requires Core(s) && Enabled(s, EnbReceive) && Head(s.down).SetupRequest?
    ensures Core(Do(s, EnbReceive))
  {
    hide StoreOk, TeidsOk, DownOk, UpOk, PhaseSent, AuthOk, Owned, Authentic, IdsOk, IdAt, IdNo;
    var s' := Do(s, EnbReceive);
    ReadDown(s);
    HaveRead(s);
    var id, p := Head(s.down).mmeId, Setting(|s.up.sent|);
    var m := SetupResponse(id, Head(s.down).enbId, s.enb.nextTeid);
    assert s'.phase == s.phase[id := p] && s'.up == Send(s.up, [m]) && s'.teidOwner == s.teidOwner + [id];
    UpMove(s.up, s.up.read, s.phase, id, p);
    UpAppend(s.up, s'.phase, m);
    DownMove(s.down, s.down.read + 1, s.phase, id, p);
    SentAppend(s.up.sent, s.phase, [m]);
    SentMove(s'.up.sent, s.phase, id, p);
    TeidsAllocate(s.enb.nextTeid, s.up.sent, s.teidOwner, m);
    IdsMove(s.attaches, s.enb.nextUeId, s.contexts, s.phase, s.up.read, |s.up.sent|, id, p, s.up.read, |s'.up.sent|);
    UeAt(s, id);
    StorePhase(s.mme.store, s.contexts, s.phase, s.up.read, s.teidOwner, s.answers, id, p);
    StoreOwners(s.mme.store, s.contexts, s'.phase, s.up.read, s.teidOwner, s.answers, [id]);
  }

  lemma KeepHoRequest(s: State)
    requires Core(s) && Enabled(s, EnbReceive) && Head(s.down).HoRequest?
    ensures Core(Do(s, EnbReceive))
  {
    hide StoreOk, TeidsOk, DownOk, UpOk, PhaseSent, AuthOk, IdsOk, IdAt, IdNo;
    var s' := Do(s, EnbReceive);
    ReadDown(s);
    var id := Head(s.down).mmeId;
    var m := HoAck(id, Head(s.down).enbId, s.enb.nextTeid);
    assert s'.up == Send(s.up, [m]);
    UpAppend(s.up, s.phase, m);
    SentAppend(s.up.sent, s.phase, [m]);
    IdsRead(s.attaches, s.enb.nextUeId, s.contexts, s.phase, s.up.read, |s.up.sent|, |s'.up.sent|);
    TeidsAllocate(s.enb.nextTeid, s.up.sent, s.teidOwner, m);
    StoreOwners(s.mme.store, s.contexts, s.phase, s.up.read, s.teidOwner, s.answers, [id]);
  }

  lemma KeepOtherDown(s: State)
    requires Core(s) && Enabled(s, EnbReceive)
    requires var m := Head(s.down); !m.AuthRequest? && !m.SetupRequest? && !m.HoRequest?
    ensures Core(Do(s, EnbReceive))
  {
    hide StoreOk, TeidsOk, DownOk, UpOk, PhaseSent, AuthOk, IdsOk, IdAt, IdNo;
    ReadDown(s);
    var o := EnbOnMessage(s.enb, Head(s.down));
    if o.mme != [] {
      assert o.mme == [o.mme[0]];
      PlainUp(s, o.mme[0]);
    } else {
      assert Send(s.up, o.mme) == s.up;
    }
  }

  lemma KeepEnbReceive(s: State)
    requires Core(s) && Enabled(s, EnbReceive)
    ensures Core(Do(s, EnbReceive))
  {
    hide Core, Do;
    match Head(s.down)
    case AuthRequest(_, _, _) => KeepAuthRequest(s);
    case SetupRequest(_, _, _, _) => KeepSetupRequest(s);
    case HoRequest(_, _) => KeepHoRequest(s);
    case _ => KeepOtherDown(s);
  }

  lemma KeepEnbFinish(s: State)
    requires Core(s) && Enabled(s, EnbFinish)
    ensures Core(Do(s, EnbFinish))
  {
    hide StoreOk, TeidsOk, DownOk, UpOk, PhaseSent, AuthOk, Owned, Authentic, IdsOk, IdAt, IdNo;
    var s' := Do(s, EnbFinish);
    HaveRead(s);
    var id := s.enb.completing.value.0;
    var p, m := Finishing(s.phase[id].k, |s.up.sent|), AttachComplete(id, s.enb.completing.value.1);
    assert s'.phase == s.phase[id := p] && s'.up == Send(s.up, [m]);
    SetupIndex(s.up.sent, s.phase, id);
    UpMove(s.up, s.up.read, s.phase, id, p);
    UpAppend(s.up, s'.phase, m);
    DownMove(s.down, s.down.read, s.phase, id, p);
    SentMove(s.up.sent, s.phase, id, p);
    SentAppend(s.up.sent, s'.phase, [m]);
    TeidsAppend(s.enb.nextTeid, s.up.sent, s.teidOwner, m);
    IdsMove(s.attaches, s.enb.nextUeId, s.contexts, s.phase, s.up.read, |s.up.sent|, id, p, s.up.read, |s'.up.sent|);
    UeAt(s, id);
    StorePhase(s.mme.store, s.contexts, s.phase, s.up.read, s.teidOwner, s.answers, id, p);
  }

  lemma SetupIndex(sent: seq<ToMme>, phase: map<nat, Phase>, id: nat)
    requires PhaseSent(sent, phase) && id in phase
    requires phase[id].Setting? || phase[id].Finishing? || phase[id].Attached?
    ensures phase[id].k < |sent| && sent[phase[id].k].SetupResponse? && sent[phase[id].k].mmeId == id
    ensures phase[id].Finishing? ==> phase[id].k < phase[id].j
  {
  }
}
