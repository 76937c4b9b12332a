/** Every step of the 4G system keeps the invariant: the MME's steps, and all together. */
module S1MmeSteps {
  import opened Common
  import opened Bits
  import opened S1Nodes
  import opened S1Runs
  import opened S1Invariant

  lemma ReadUp(s: State)
    requires Core(s) && HasNext(s.up)
    ensures UpOk(Receive(s.up), s.phase) && UpMsgOk(Head(s.up), s.up.read, s.phase)
  {
    hide StoreOk, TeidsOk, DownOk, PhaseSent, AuthOk, UpMsgOk;
  }

  /** Receiving anything but an Attach Request leaves every announcement unread. */
  lemma ReadIds(s: State)
    requires Core(s) && HasNext(s.up) && !Head(s.up).InitialUe?
    ensures forall i :: i in s.phase && s.phase[i].Announced? ==> s.phase[i].k != s.up.read
  {
    hide StoreOk, TeidsOk, DownOk, AuthOk, UpOk;
  }

  /** Receiving a message that no attach depends on. */
  lemma ReadPlain(s: State)
    requires Core(s) && HasNext(s.up) && Plain(Head(s.up))
    ensures IdsOk(s.attaches, s.enb.nextUeId, s.contexts, s.phase, s.up.read + 1, |s.up.sent|)
    ensures StoreOk(s.mme.store, s.contexts, s.phase, s.up.read + 1, s.teidOwner, s.answers)
    ensures UpOk(Receive(s.up), s.phase)
  {
    hide StoreOk, TeidsOk, DownOk, UpOk, AuthOk, PhaseSent;
    ReadUp(s);
    ReadIds(s);
    IdsRead(s.attaches, s.enb.nextUeId, s.contexts, s.phase, s.up.read, |s.up.sent|, |s.up.sent|);
    StoreRead(s.mme.store, s.contexts, s.phase, s.up, s.teidOwner, s.answers);
  }

  /** The first Attach Request on the uplink is that of the next identifier. */
  lemma NextAnnounced(s: State)
    requires Core(s) && HasNext(s.up) && Head(s.up).InitialUe?
    ensures Head(s.up) == InitialUe(s.mme.nextId, BASE_IMSI + s.mme.nextId)
    ensures s.mme.nextId in s.phase && s.phase[s.mme.nextId] == Announced(s.up.read)
    ensures s.contexts < U32_MOD && s.mme.nextId == IdAt(s.contexts)
  {
    hide StoreOk, TeidsOk, DownOk, UpOk, AuthOk, PhaseSent;
    ReadUp(s);
    var id := Head(s.up).enbId;
    InOrder(s.attaches, s.enb.nextUeId, s.contexts, s.phase, s.up.read, |s.up.sent|, id);
  }

  lemma InOrder(attaches: nat, nextUeId: nat, seen: nat, phase: map<nat, Phase>, read: nat, len: nat, id: nat)
    requires IdsOk(attaches, nextUeId, seen, phase, read, len) && id in phase && phase[id].Announced?
    ensures seen < U32_MOD && seen <= IdNo(id) && IdAt(seen) in phase && phase[IdAt(seen)].Announced?
    ensures id != IdAt(seen) ==> read <= phase[IdAt(seen)].k < phase[id].k
  {
    IdAtNo(seen);
    IdNoAt(id);
    hide IdAt, IdNo;
  }

  lemma IdsInsert(attaches: nat, nextUeId: nat, seen: nat, phase: map<nat, Phase>, read: nat, len: nat)
    requires IdsOk(attaches, nextUeId, seen, phase, read, len)
    requires seen < U32_MOD && IdAt(seen) in phase && phase[IdAt(seen)] == Announced(read)
    ensures IdsOk(attaches, nextUeId, seen + 1, phase[IdAt(seen) := Fetching], read + 1, len)
  {
    IdAtNo(seen);
    hide IdAt, IdNo;
    var next := IdAt(seen);
    forall id | id in phase && id != next ensures IdNo(id) != seen {
      IdNoAt(id);
    }
    forall id | id in phase && id != next && phase[id].Announced? ensures read < phase[id].k {
      assert phase[next].k < phase[id].k;
    }
  }

  lemma StoreInsert(store: map<nat, Ue>, seen: nat, phase: map<nat, Phase>, read: nat, owners: seq<nat>,
                    answers: map<nat, Bytes>, u: Ue)
    requires StoreOk(store, seen, phase, read, owners, answers) && seen < U32_MOD
    requires UeOk(u, IdAt(seen), Fetching, read, owners, answers)
    ensures StoreOk(store[IdAt(seen) := u], seen + 1, phase[IdAt(seen) := Fetching], read, owners, answers)
  {
    IdAtNo(seen);
    hide UeOk, IdAt, IdNo;
    forall id: nat | id < U32_MOD && IdNo(id) == seen ensures id == IdAt(seen) {
      IdNoAt(id);
    }
  }

  lemma KeepInitialUe(s: State)
    requires Core(s) && Enabled(s, MmeReceive) && Head(s.up).InitialUe?
    ensures Core(Do(s, MmeReceive))
  {
    hide StoreOk, TeidsOk, DownOk, UpOk, AuthOk, PhaseSent, Owned, Authentic, IdsOk, IdAt, IdNo;
    var s' := Do(s, MmeReceive);
    HaveRead(s);
    NextAnnounced(s);
    var id := s.mme.nextId;
    assert s'.phase == s.phase[id := Fetching] && Send(s.down, []) == s.down;
    NextIdAt(s.contexts);
    IdsInsert(s.attaches, s.enb.nextUeId, s.contexts, s.phase, s.up.read, |s.up.sent|);
    UpMove(s.up, s.up.read + 1, s.phase, id, Fetching);
    DownMove(s.down, s.down.read, s.phase, id, Fetching);
    SentMove(s.up.sent, s.phase, id, Fetching);
    StoreRead(s.mme.store, s.contexts, s.phase, s.up, s.teidOwner, s.answers);
    StoreInsert(s.mme.store, s.contexts, s.phase, s.up.read + 1, s.teidOwner, s.answers, s'.mme.store[id]);
  }

  lemma KeepAuthResponse(s: State)
    requires Core(s) && Enabled(s, MmeReceive) && Head(s.up).AuthResponse?
    ensures Core(Do(s, MmeReceive))
  {
    hide StoreOk, TeidsOk, DownOk, UpOk, AuthOk, PhaseSent, Owned, IdsOk, IdAt, IdNo;
    var s' := Do(s, MmeReceive);
    HaveRead(s);
    ReadUp(s);
    ReadIds(s);
    var id, res := Head(s.up).mmeId, Head(s.up).res;
    UeAt(s, id);
    assert Authentic(res, s.mme.store[id].xres) by { assert res[..8] == res; }
    var m := SecurityCommand(id, s.mme.store[id].enbId);
    assert s'.phase == s.phase[id := Opening] && s'.down == Send(s.down, [m]);
    IdsMove(s.attaches, s.enb.nextUeId, s.contexts, s.phase, s.up.read, |s.up.sent|, id, Opening,
            s.up.read + 1, |s.up.sent|);
    UpMove(s.up, s.up.read + 1, s.phase, id, Opening);
    DownMove(s.down, s.down.read, s.phase, id, Opening);
    DownAppend(s.down, s'.phase, m);
    SentMove(s.up.sent, s.phase, id, Opening);
    StoreRead(s.mme.store, s.contexts, s.phase, s.up, s.teidOwner, s.answers);
    StoreAnswers(s.mme.store, s.contexts, s.phase, s.up.read + 1, s.teidOwner, s.answers, id, res);
    StoreMove(s.mme.store, s.contexts, s.phase, s.up.read + 1, s.teidOwner, s'.answers, id, s'.mme.store[id], Opening);
  }

  /** Storing a TEID for the UE it was allocated for. */
  lemma StoreTeid(store: map<nat, Ue>, seen: nat, phase: map<nat, Phase>, read: nat, owners: seq<nat>,
                  answers: map<nat, Bytes>, id: nat, t: nat)
    requires StoreOk(store, seen, phase, read, owners, answers) && Owned(owners, id, t)
    ensures id in store ==> StoreOk(store[id := WithTeid(store[id], t)], seen, phase, read, owners, answers)
  {
    hide Owned, Authentic, UeOk;
    if id in store {
      UeTeid(store[id], id, phase[id], read, owners, answers, t);
    }
  }

  lemma UeTeid(u: Ue, id: nat, p: Phase, read: nat, owners: seq<nat>, answers: map<nat, Bytes>, t: nat)
    requires UeOk(u, id, p, read, owners, answers) && Owned(owners, id, t)
    ensures UeOk(WithTeid(u, t), id, p, read, owners, answers)
    ensures HasSession(p) ==> WithTeid(u, t).bearers[0].enbTeid == t
  {
    hide Owned, Authentic;
  }

  lemma TeidMessage(s: State)
    requires Core(s) && HasNext(s.up) && (Head(s.up).SetupResponse? || Head(s.up).HoAck?)
    ensures Owned(s.teidOwner, Head(s.up).mmeId, Head(s.up).teid)
  {
    hide Owned, StoreOk, DownOk, UpOk, AuthOk, PhaseSent;
  }

  lemma KeepSetupResponse(s: State)
    requires Core(s) && Enabled(s, MmeReceive) && Head(s.up).SetupResponse?
    ensures Core(Do(s, MmeReceive))
  {
    hide StoreOk, TeidsOk, DownOk, UpOk, AuthOk, PhaseSent, Owned, IdsOk, IdAt, IdNo;
    var s' := Do(s, MmeReceive);
    ReadUp(s);
    ReadIds(s);
    TeidMessage(s);
    var id := Head(s.up).mmeId;
    UeAt(s, id);
    assert Send(s.down, []) == s.down;
    IdsRead(s.attaches, s.enb.nextUeId, s.contexts, s.phase, s.up.read, |s.up.sent|, |s.up.sent|);
    StoreTeid(s.mme.store, s.contexts, s.phase, s.up.read, s.teidOwner, s.answers, id, Head(s.up).teid);
    UeTeid(s.mme.store[id], id, s.phase[id], s.up.read, s.teidOwner, s.answers, Head(s.up).teid);
    StoreReadSetup(s'.mme.store, s.contexts, s.phase, s.up, s.teidOwner, s.answers);
  }

  /** Reading a Setup Response whose TEID has been stored. */
  lemma StoreReadSetup(store: map<nat, Ue>, seen: nat, phase: map<nat, Phase>, up: Link<ToMme>, owners: seq<nat>,
                       answers: map<nat, Bytes>)
    requires StoreOk(store, seen, phase, up.read, owners, answers) && PhaseSent(up.sent, phase)
    requires HasNext(up) && up.sent[up.read].SetupResponse? && up.sent[up.read].mmeId in store
    requires var id := up.sent[up.read].mmeId;
             store[id].bearers != [] && Owned(owners, id, store[id].bearers[0].enbTeid)
    ensures StoreOk(store, seen, phase, up.read + 1, owners, answers)
  {
    hide Owned, Authentic;
    forall id | id in store ensures UeOk(store[id], id, phase[id], up.read + 1, owners, answers) {
      var p := phase[id];
      if id != up.sent[up.read].mmeId {
        assert (p.Setting? || p.Finishing?) ==> p.k != up.read;
        assert SetupSeen(p, up.read + 1) ==> SetupSeen(p, up.read);
      }
    }
  }

  lemma KeepAttachComplete(s: State)
    requires Core(s) && Enabled(s, MmeReceive) && Head(s.up).AttachComplete?
    ensures Core(Do(s, MmeReceive))
  {
    hide StoreOk, TeidsOk, DownOk, UpOk, AuthOk, PhaseSent, Owned, Authentic, IdsOk, IdAt, IdNo;
    var s' := Do(s, MmeReceive);
    HaveRead(s);
    ReadUp(s);
    ReadIds(s);
    var id := Head(s.up).mmeId;
    var p := Attached(s.phase[id].k);
    UeAt(s, id);
    SetupIndex(s.up.sent, s.phase, id);
    assert s'.phase == s.phase[id := p] && Send(s.down, []) == s.down;
    IdsMove(s.attaches, s.enb.nextUeId, s.contexts, s.phase, s.up.read, |s.up.sent|, id, p, s.up.read + 1, |s.up.sent|);
    UpMove(s.up, s.up.read + 1, s.phase, id, p);
    DownMove(s.down, s.down.read, s.phase, id, p);
    SentMove(s.up.sent, s.phase, id, p);
    StoreRead(s.mme.store, s.contexts, s.phase, s.up, s.teidOwner, s.answers);
    StoreMove(s.mme.store, s.contexts, s.phase, s.up.read + 1, s.teidOwner, s.answers, id, s'.mme.store[id], p);
  }

  lemma KeepHoAck(s: State)
    requires Core(s) && Enabled(s, MmeReceive) && Head(s.up).HoAck?
    ensures Core(Do(s, MmeReceive))
  {
    hide StoreOk, TeidsOk, DownOk, UpOk, AuthOk, PhaseSent, Owned, IdsOk, IdAt, IdNo;
    ReadPlain(s);
    TeidMessage(s);
    var id := Head(s.up).mmeId;
    StoreTeid(s.mme.store, s.contexts, s.phase, s.up.read + 1, s.teidOwner, s.answers, id, Head(s.up).teid);
    DownAppend(s.down, s.phase, HoCommand(id, Head(s.up).enbId));
  }

  /** What the MME does on such a message: at most one message back, the store untouched. */
  lemma OtherUpFrame(s: State)
    requires Enabled(s, MmeReceive) && Plain(Head(s.up)) && !Head(s.up).HoAck?
    ensures var o := MmeOnMessage(s.mme, Head(s.up));
            && o.mme == s.mme.(pc := o.mme.pc) && !o.mme.pc.AwaitingAuth? && !o.mme.pc.AwaitingCreate?
            && Do(s, MmeReceive) == Deliver(s, o).(up := Receive(s.up))
            && (o.enb == [] || (o.enb == [o.enb[0]] && !o.enb[0].AuthRequest? && !o.enb[0].SetupRequest?))
  {
  }

  lemma KeepOtherUp(s: State)
    requires Core(s) && Enabled(s, MmeReceive) && Plain(Head(s.up)) && !Head(s.up).HoAck?
    ensures Core(Do(s, MmeReceive))
  {
    hide StoreOk, TeidsOk, DownOk, UpOk, AuthOk, PhaseSent, IdsOk, MmeOnMessage, Do;
    ReadPlain(s);
    OtherUpFrame(s);
    var o := MmeOnMessage(s.mme, Head(s.up));
    if o.enb != [] {
      DownAppend(s.down, s.phase, o.enb[0]);
    } else {
      assert Send(s.down, o.enb) == s.down;
    }
  }

  lemma KeepMmeReceive(s: State)
    requires Core(s) && Enabled(s, MmeReceive)
    ensures Core(Do(s, MmeReceive))
  {
    hide Core, Do;
    match Head(s.up)
    case InitialUe(_, _) => KeepInitialUe(s);
    case AuthResponse(_, _, _) => KeepAuthResponse(s);
    case SetupResponse(_, _, _) => KeepSetupResponse(s);
    case AttachComplete(_, _) => KeepAttachComplete(s);
    case HoAck(_, _, _) => KeepHoAck(s);
    case _ => KeepOtherUp(s);
  }

  // ---------------------------------------------------------------- waits that end

  /** One UE moving on without a message on the uplink being read. */
  lemma MoveOn(s: State, id: nat, u: Ue, p: Phase, enb: seq<ToEnb>)
    requires Core(s) && id in s.phase && !s.phase[id].Announced? && !p.Announced?
    requires ClearOfUp(s.phase[id], s.up.read) && ClearOfDown(s.phase[id], s.down.read)
    requires !p.Setting? && !p.Finishing? && !p.Attached?
    requires UeOk(u, id, p, s.up.read, s.teidOwner, s.answers)
    requires enb == [] || (|enb| == 1 && DownMsgOk(enb[0], |s.down.sent|, s.phase[id := p]))
    ensures IdsOk(s.attaches, s.enb.nextUeId, s.contexts, s.phase[id := p], s.up.read, |s.up.sent|)
    ensures UpOk(s.up, s.phase[id := p]) && PhaseSent(s.up.sent, s.phase[id := p])
    ensures DownOk(Send(s.down, enb), s.phase[id := p])
    ensures StoreOk(s.mme.store[id := u], s.contexts, s.phase[id := p], s.up.read, s.teidOwner, s.answers)
  {
    hide StoreOk, TeidsOk, DownOk, UpOk, AuthOk, PhaseSent, UeOk, DownMsgOk;
    HaveRead(s);
    UeAt(s, id);
    IdsMove(s.attaches, s.enb.nextUeId, s.contexts, s.phase, s.up.read, |s.up.sent|, id, p, s.up.read, |s.up.sent|);
    UpMove(s.up, s.up.read, s.phase, id, p);
    DownMove(s.down, s.down.read, s.phase, id, p);
    SentMove(s.up.sent, s.phase, id, p);
    StoreMove(s.mme.store, s.contexts, s.phase, s.up.read, s.teidOwner, s.answers, id, u, p);
    if enb == [] {
      assert Send(s.down, enb) == s.down;
    } else {
      assert enb == [enb[0]];
      DownAppend(s.down, s.phase[id := p], enb[0]);
    }
  }

  lemma PendingOk(s: State, imsi: nat)
    requires Core(s) && imsi in s.mme.pending
    ensures VectorsOk(s.mme.pending[imsi])
  {
    hide StoreOk, TeidsOk, DownOk, UpOk, PhaseSent, IdsOk;
  }

  lemma AuthTaken(aia: Link<AuthAnswer>, pending: map<nat, Vectors>, imsi: nat)
    requires AuthOk(aia, pending)
    ensures AuthOk(aia, pending - {imsi})
  {
  }

  lemma ChallengeOk(id: nat, enbId: nat, av: Vectors, k: nat, phase: map<nat, Phase>)
    requires VectorsOk(av)
    ensures DownMsgOk(AuthRequest(id, enbId, av.rand), k, phase[id := Challenged(k, av.xres)])
  {
  }

  lemma KeepChallenge(s: State)
    requires Core(s) && Enabled(s, MmeVectors(false))
    ensures Core(Do(s, MmeVectors(false)))
  {
    hide StoreOk, TeidsOk, DownOk, UpOk, PhaseSent, Owned, Authentic, IdsOk, AuthOk, DownMsgOk, VectorsOk;
    var s' := Do(s, MmeVectors(false));
    var id, av := s.mme.pc.mmeId, s.mme.pending[s.mme.pc.imsi];
    UeAt(s, id);
    PendingOk(s, s.mme.pc.imsi);
    ChallengeOk(id, s.mme.pc.enbId, av, |s.down.sent|, s.phase);
    AuthTaken(s.aia, s.mme.pending, s.mme.pc.imsi);
    MoveOn(s, id, s'.mme.store[id], Challenged(|s.down.sent|, av.xres), [AuthRequest(id, s.mme.pc.enbId, av.rand)]);
  }

  lemma KeepDropped(s: State)
    requires Core(s) && Enabled(s, MmeVectors(true))
    ensures Core(Do(s, MmeVectors(true)))
  {
    hide StoreOk, TeidsOk, DownOk, UpOk, PhaseSent, Owned, Authentic, IdsOk, AuthOk;
    var s' := Do(s, MmeVectors(true));
    var id := s.mme.pc.mmeId;
    UeAt(s, id);
    AuthTaken(s.aia, s.mme.pending, s.mme.pc.imsi);
    MoveOn(s, id, s'.mme.store[id], Abandoned, []);
  }

  lemma KeepCreated(s: State)
    requires Core(s) && Enabled(s, MmeAnswer) && s.mme.pc.AwaitingCreate?
    ensures Core(Do(s, MmeAnswer))
  {
    hide StoreOk, TeidsOk, DownOk, UpOk, PhaseSent, AuthOk, Owned, Authentic, IdsOk, IdAt, IdNo;
    var s' := Do(s, MmeAnswer);
    var id := s.mme.pc.mmeId;
    UeAt(s, id);
    var enb := MmeOnAnswer(s.mme, Head(s.s11r)).enb;
    MoveOn(s, id, s'.mme.store[id], s'.phase[id], enb);
    assert s'.mme.store == s.mme.store[id := s'.mme.store[id]];
  }

  lemma KeepCreateTimeout(s: State)
    requires Core(s) && Enabled(s, MmeTimeout) && s.mme.pc.AwaitingCreate?
    ensures Core(Do(s, MmeTimeout))
  {
    hide StoreOk, TeidsOk, DownOk, UpOk, PhaseSent, AuthOk, Owned, Authentic, IdsOk, IdAt, IdNo;
    var s' := Do(s, MmeTimeout);
    var id := s.mme.pc.mmeId;
    UeAt(s, id);
    MoveOn(s, id, s.mme.store[id], Refused, []);
    assert s'.mme.store == s.mme.store[id := s'.mme.store[id]];
  }

  lemma KeepModified(s: State, a: Action)
    requires Core(s) && Enabled(s, a) && (a.MmeAnswer? || a.MmeTimeout?) && !s.mme.pc.AwaitingCreate?
    ensures Core(Do(s, a))
  {
    hide StoreOk, TeidsOk, DownOk, UpOk, PhaseSent, AuthOk, IdsOk, IdAt, IdNo;
    var enb := AfterModify(s.mme).enb;
    if enb == [] {
      assert Send(s.down, enb) == s.down;
    } else {
      DownAppend(s.down, s.phase, enb[0]);
    }
  }

  /** The HSS link and the MME's table of vectors. */
  lemma KeepAuthLink(s: State, a: Action)
    requires Core(s) && Enabled(s, a) && (a.MmeStop? || a.HssReceive? || a.AuthArrives?)
    ensures Core(Do(s, a))
  {
    hide StoreOk, TeidsOk, DownOk, UpOk, PhaseSent, IdsOk;
  }

  /** Steps of the S-GW and the P-GW, and lost datagrams. */
  lemma KeepElsewhere(s: State, a: Action)
    requires Core(s) && Enabled(s, a)
    requires a.SgwReceive? || a.SgwAnswer? || a.SgwTimeout? || a.PgwReceive?
          || a.LoseS11Request? || a.LoseS11Answer? || a.LoseS5Request? || a.LoseS5Answer?
    ensures Core(Do(s, a))
  {
    hide StoreOk, TeidsOk, DownOk, UpOk, PhaseSent, IdsOk, AuthOk, WaitsOk;
  }

  lemma StepKeepsCore(s: State, a: Action)
    requires Core(s) && Enabled(s, a) && Do(s, a).attaches <= U32_MOD
    ensures Core(Do(s, a))
  {
    hide Core, Do, Enabled;
    match a
    case EnbCommand(c) =>
      if c.AttachOne? {
        assert Do(s, a).attaches == s.attaches + 1 by { AttachCounts(s); }
        KeepAttach(s);
      } else {
        KeepCommand(s, c);
      }
    case EnbReceive => KeepEnbReceive(s);
    case EnbFinish => KeepEnbFinish(s);
    case MmeReceive => KeepMmeReceive(s);
    case MmeVectors(drop) =>
      if drop { KeepDropped(s); } else { KeepChallenge(s); }
    case MmeAnswer =>
      if s.mme.pc.AwaitingCreate? { KeepCreated(s); } else { KeepModified(s, a); }
    case MmeTimeout =>
      if s.mme.pc.AwaitingCreate? { KeepCreateTimeout(s); } else { KeepModified(s, a); }
    case MmeStop => KeepAuthLink(s, a);
    case HssReceive(_) => KeepAuthLink(s, a);
    case AuthArrives => KeepAuthLink(s, a);
    case _ => KeepElsewhere(s, a);
  }

  lemma AttachCounts(s: State)
    ensures Do(s, EnbCommand(AttachOne)).attaches == s.attaches + 1
  {
  }
}
