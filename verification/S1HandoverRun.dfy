/** The handover procedure: from every reachable state with nothing under way, what a command HO
    makes the nodes send, message by message, and where it ends. */
module S1HandoverRun {
  import opened Bits
  import opened Common
  import opened S1Nodes
  import opened S1Runs
  import opened S1Invariant
  import opened S1Theorems
  import opened S1Handover
  import opened S1Progress

  // ---------------------------------------------------------------- the messages

  function HoUp(id: nat, t: nat): seq<ToMme>
  {
    [HoRequired(id, id), HoAck(id, id, t), EnbStatus(id, id), HoNotify(id, id, t), ReleaseComplete(id, id)]
  }

  function HoDown(id: nat): seq<ToEnb>
  {
    [HoRequest(id, id), HoCommand(id, id), MmeStatus(id, id), ReleaseCommand(id, id)]
  }

  /** How many of them have been sent and received after k of the steps that follow the command.
      One thing happens at a time. */
  function UpSent(k: nat): nat
  {
    if k < 2 then 1 else if k < 4 then 2 else if k < 6 then 3 else if k < 10 then 4 else 5
  }

  function UpRead(k: nat): nat
  {
    if k < 1 then 0 else if k < 3 then 1 else if k < 5 then 2 else if k < 7 then 3 else if k < 11 then 4 else 5
  }

  function DownSent(k: nat): nat
  {
    if k < 1 then 0 else if k < 3 then 1 else if k < 5 then 2 else if k < 9 then 3 else 4
  }

  function DownRead(k: nat): nat
  {
    if k < 2 then 0 else if k < 4 then 1 else if k < 6 then 2 else if k < 10 then 3 else 4
  }

  // ---------------------------------------------------------------- the nodes

  /** The context holds this TEID in its one bearer, and is otherwise as it was. */
  function Switched(m: Mme, id: nat, t: nat): Mme
    requires id in m.store && |m.store[id].bearers| == 1
  {
    var u := m.store[id];
    m.(store := m.store[id := u.(bearers := [u.bearers[0].(enbTeid := t)])])
  }

  function MmeAt(m: Mme, id: nat, t: nat, k: nat): Mme
    requires id in m.store && |m.store[id].bearers| == 1
  {
    var m' := if k < 3 then m else Switched(m, id, t);
    if 7 <= k < 9 then m'.(pc := AwaitingPathSwitch(id, id)) else m'
  }

  /** A UE whose attach came to a session. */
  predicate Served(m: Mme, id: nat)
  {
    && id in m.store && m.store[id].imsi == BASE_IMSI + id
    && |m.store[id].bearers| == 1 && m.store[id].bearers[0].ebi == DEFAULT_EBI
  }

  /** f comes k steps after the command given in s. */
  ghost predicate HoStage(s: State, id: nat, k: nat, f: State)
    requires Served(s.mme, id)
  {
    var t := s.enb.nextTeid;
    && On(s.up, f.up, HoUp(id, t), UpSent(k), UpRead(k))
    && On(s.down, f.down, HoDown(id), DownSent(k), DownRead(k))
    && On(s.s11q, f.s11q, [ModifyBearer(BASE_IMSI + id, t)], From(k, 7), From(k, 8))
    && On(s.s11r, f.s11r, [Modified], From(k, 8), From(k, 9))
    && f.mme == MmeAt(s.mme, id, t, k)
    && f.enb == (if k < 2 then s.enb else s.enb.(nextTeid := Next32(t)))
    && f.sgw == s.sgw && f.pgw == s.pgw
    && f.air == s.air && f.aia == s.aia && f.s5q == s.s5q && f.s5r == s.s5r
  }

  /** The one step that can follow. */
  function HoMove(k: nat): Action
  {
    if k == 7 then SgwReceive
    else if k == 8 then MmeAnswer
    else if k == 1 || k == 3 || k == 5 || k == 9 then EnbReceive
    else MmeReceive
  }

  predicate Ready(s: State, id: nat)
  {
    Quiescent(s) && Served(s.mme, id) && s.enb.nextTeid < U32_MOD
  }

  lemma HoBegins(s: State, id: nat)
    requires Ready(s, id)
    ensures HoStage(s, id, 0, Do(s, EnbCommand(Handover(id))))
  {
    var f := Do(s, EnbCommand(Handover(id)));
    var t := s.enb.nextTeid;
    OnStart(s.up, HoUp(id, t));
    OnSend(s.up, s.up, HoUp(id, t), 0, 0);
    OnStart(s.down, HoDown(id));
    OnStart(s.s11q, [ModifyBearer(BASE_IMSI + id, t)]);
    OnStart(s.s11r, [Modified]);
    hide On;
  }

  /** Which links have something to read. */
  lemma HoLinks(s: State, id: nat, k: nat, f: State)
    requires Ready(s, id) && HoStage(s, id, k, f)
    ensures HasNext(f.up) <==> UpRead(k) < UpSent(k)
    ensures HasNext(f.down) <==> DownRead(k) < DownSent(k)
    ensures HasNext(f.s11q) <==> k == 7
    ensures HasNext(f.s11r) <==> k == 8
    ensures HasNext(f.up) ==> Head(f.up) == HoUp(id, s.enb.nextTeid)[UpRead(k)]
    ensures HasNext(f.down) ==> Head(f.down) == HoDown(id)[DownRead(k)]
    ensures k == 7 ==> Head(f.s11q) == ModifyBearer(BASE_IMSI + id, s.enb.nextTeid)
    ensures k == 8 ==> Head(f.s11r) == Modified
  {
    hide On, UpSent, UpRead, DownSent, DownRead, MmeAt;
    OnNext(s.up, f.up, HoUp(id, s.enb.nextTeid), UpSent(k), UpRead(k));
    OnNext(s.down, f.down, HoDown(id), DownSent(k), DownRead(k));
    OnNext(s.s11q, f.s11q, [ModifyBearer(BASE_IMSI + id, s.enb.nextTeid)], From(k, 7), From(k, 8));
    OnNext(s.s11r, f.s11r, [Modified], From(k, 8), From(k, 9));
  }

  /** Left alone, the system can take exactly one step, up to the eleventh, and then none. */
  lemma HoOnly(s: State, id: nat, k: nat, f: State, a: Action)
    requires Ready(s, id) && HoStage(s, id, k, f)
    ensures Undisturbed(a) && Enabled(f, a) <==> k < 11 && a == HoMove(k)
  {
    HoLinks(s, id, k, f);
    hide On, Switched;
  }

  // ---------------------------------------------------------------- the steps

  /** The command's message, the reports of the source and the release: answered as they come. */
  lemma MmePasses(s: State, id: nat, k: nat, f: State)
    requires Ready(s, id) && HoStage(s, id, k, f) && (k == 0 || k == 4)
    ensures Enabled(f, MmeReceive) && HoStage(s, id, k + 1, Do(f, MmeReceive))
  {
    HoLinks(s, id, k, f);
    OnNext(s.up, f.up, HoUp(id, s.enb.nextTeid), UpSent(k), UpRead(k));
    OnSend(s.down, f.down, HoDown(id), DownSent(k), DownRead(k));
    SendNothing(f.air);
    SendNothing(f.s11q);
    hide On;
  }

  /** The acknowledgement: the context takes the TEID. */
  lemma MmeTakesTeid(s: State, id: nat, f: State)
    requires Ready(s, id) && HoStage(s, id, 2, f)
    ensures Enabled(f, MmeReceive) && HoStage(s, id, 3, Do(f, MmeReceive))
  {
    hide On, WithTeid, Switched;
    HoLinks(s, id, 2, f);
    var t := s.enb.nextTeid;
    OnNext(s.up, f.up, HoUp(id, t), 2, 1);
    OnSend(s.down, f.down, HoDown(id), 1, 1);
    SendNothing(f.air);
    SendNothing(f.s11q);
    TakesTeid(s.mme, id, t);
  }

  lemma TakesTeid(m: Mme, id: nat, t: nat)
    requires Served(m, id)
    ensures m.(store := m.store[id := WithTeid(m.store[id], t)]) == Switched(m, id, t)
  {
    assert m.store[id].bearers[0 := m.store[id].bearers[0].(enbTeid := t)] == [m.store[id].bearers[0].(enbTeid := t)];
  }

  /** The notify: the S-GW is told. */
  lemma MmeSwitches(s: State, id: nat, f: State)
    requires Ready(s, id) && HoStage(s, id, 6, f)
    ensures Enabled(f, MmeReceive) && HoStage(s, id, 7, Do(f, MmeReceive))
  {
    HoLinks(s, id, 6, f);
    var t := s.enb.nextTeid;
    OnNext(s.up, f.up, HoUp(id, t), 4, 3);
    OnSend(s.s11q, f.s11q, [ModifyBearer(BASE_IMSI + id, t)], 0, 0);
    SendNothing(f.down);
    SendNothing(f.air);
    hide On;
  }

  /** The source is released. */
  lemma MmeEnds(s: State, id: nat, f: State)
    requires Ready(s, id) && HoStage(s, id, 10, f)
    ensures Enabled(f, MmeReceive) && HoStage(s, id, 11, Do(f, MmeReceive))
  {
    HoLinks(s, id, 10, f);
    OnNext(s.up, f.up, HoUp(id, s.enb.nextTeid), 5, 4);
    SendNothing(f.down);
    SendNothing(f.air);
    SendNothing(f.s11q);
    hide On;
  }

  lemma EnbAnswers(s: State, id: nat, k: nat, f: State)
    requires Ready(s, id) && HoStage(s, id, k, f) && (k == 1 || k == 3 || k == 5 || k == 9)
    ensures Enabled(f, EnbReceive) && HoStage(s, id, k + 1, Do(f, EnbReceive))
  {
    HoLinks(s, id, k, f);
    var t := s.enb.nextTeid;
    OnNext(s.down, f.down, HoDown(id), DownSent(k), DownRead(k));
    OnSend(s.up, f.up, HoUp(id, t), UpSent(k), UpRead(k));
    assert k == 5 ==> (Next32(t) - 1) % U32_MOD == t;
    hide On;
  }

  lemma SgwModifies(s: State, id: nat, f: State)
    requires Ready(s, id) && HoStage(s, id, 7, f)
    ensures Enabled(f, SgwReceive) && HoStage(s, id, 8, Do(f, SgwReceive))
  {
    HoLinks(s, id, 7, f);
    OnNext(s.s11q, f.s11q, [ModifyBearer(BASE_IMSI + id, s.enb.nextTeid)], 1, 0);
    OnSend(s.s11r, f.s11r, [Modified], 0, 0);
    hide On;
  }

  lemma MmeReleases(s: State, id: nat, f: State)
    requires Ready(s, id) && HoStage(s, id, 8, f)
    ensures Enabled(f, MmeAnswer) && HoStage(s, id, 9, Do(f, MmeAnswer))
  {
    HoLinks(s, id, 8, f);
    OnNext(s.s11r, f.s11r, [Modified], 1, 0);
    OnSend(s.down, f.down, HoDown(id), 3, 3);
    SendNothing(f.air);
    SendNothing(f.s11q);
    hide On;
  }

  lemma HoStep(s: State, id: nat, k: nat, f: State)
    requires Ready(s, id) && HoStage(s, id, k, f) && k < 11
    ensures Enabled(f, HoMove(k)) && HoStage(s, id, k + 1, Do(f, HoMove(k)))
  {
    hide HoStage, Do, Enabled;
    match k
    case 0 => MmePasses(s, id, k, f);
    case 2 => MmeTakesTeid(s, id, f);
    case 4 => MmePasses(s, id, k, f);
    case 6 => MmeSwitches(s, id, f);
    case 7 => SgwModifies(s, id, f);
    case 8 => MmeReleases(s, id, f);
    case 10 => MmeEnds(s, id, f);
    case _ => EnbAnswers(s, id, k, f);
  }

  // ---------------------------------------------------------------- the procedure

  /** The messages of a handover in the order in which they are sent. */
  function HoTrace(id: nat, t: nat): seq<Put>
  {
    [PutUp(HoRequired(id, id)), PutDown(HoRequest(id, id)), PutUp(HoAck(id, id, t)), PutDown(HoCommand(id, id)),
     PutUp(EnbStatus(id, id)), PutDown(MmeStatus(id, id)), PutUp(HoNotify(id, id, t)),
     PutS11Q(ModifyBearer(BASE_IMSI + id, t)), PutS11R(Modified), PutDown(ReleaseCommand(id, id)),
     PutUp(ReleaseComplete(id, id))]
  }

  lemma StageAside(s: State, id: nat, k: nat, f: State, f': State)
    requires Ready(s, id) && HoStage(s, id, k, f) && HoStage(s, id, k + 1, f')
    ensures Aside(f, f')
  {
    hide On, MmeAt, New;
    NewNone(s.air);
    NewNone(s.aia);
    NewNone(s.s5q);
    NewNone(s.s5r);
  }

  lemma StageNew(s: State, id: nat, k: nat, f: State, f': State)
    requires Ready(s, id) && HoStage(s, id, k, f) && HoStage(s, id, k + 1, f')
    ensures UpSent(k) <= UpSent(k + 1) <= 5 && New(f.up, f'.up) == HoUp(id, s.enb.nextTeid)[UpSent(k)..UpSent(k + 1)]
    ensures DownSent(k) <= DownSent(k + 1) <= 4 && New(f.down, f'.down) == HoDown(id)[DownSent(k)..DownSent(k + 1)]
    ensures New(f.s11q, f'.s11q) == if k == 6 then [ModifyBearer(BASE_IMSI + id, s.enb.nextTeid)] else []
    ensures New(f.s11r, f'.s11r) == if k == 7 then [Modified] else []
  {
    var t := s.enb.nextTeid;
    var mb := [ModifyBearer(BASE_IMSI + id, t)];
    OnNew(s.up, f.up, f'.up, HoUp(id, t), UpSent(k), UpRead(k), UpSent(k + 1), UpRead(k + 1));
    OnNew(s.down, f.down, f'.down, HoDown(id), DownSent(k), DownRead(k), DownSent(k + 1), DownRead(k + 1));
    OnNew(s.s11q, f.s11q, f'.s11q, mb, From(k, 7), From(k, 8), From(k + 1, 7), From(k + 1, 8));
    OnNew(s.s11r, f.s11r, f'.s11r, [Modified], From(k, 8), From(k, 9), From(k + 1, 8), From(k + 1, 9));
    hide On, New, MmeAt;
  }

  lemma StagePuts(s: State, id: nat, k: nat, f: State, f': State)
    requires Ready(s, id) && k < 11 && HoStage(s, id, k, f) && HoStage(s, id, k + 1, f')
    ensures Puts(f, f') == if k < 10 then [HoTrace(id, s.enb.nextTeid)[k + 1]] else []
  {
    hide Puts, New, HoStage, Aside;
    StageAside(s, id, k, f, f');
    StageNew(s, id, k, f, f');
    PutsOne(f, f');
    if k == 1 || k == 3 || k == 5 || k == 9 {
      assert New(f.up, f'.up) == [HoUp(id, s.enb.nextTeid)[UpSent(k)]];
    } else if k < 6 || k == 8 {
      assert New(f.down, f'.down) == [HoDown(id)[DownSent(k)]];
    }
  }

  /** How many messages have been sent after k steps: the last step only receives one. */
  function Upto(k: nat): nat
  {
    if k < 10 then k + 1 else 11
  }

  lemma UptoNext(ms: seq<Put>, k: nat, n: nat)
    requires |ms| == 11 && k < n <= 11
    ensures Upto(k) <= Upto(k + 1) <= Upto(n) <= 11
    ensures (if k < 10 then [ms[k + 1]] else []) + ms[Upto(k + 1)..Upto(n)] == ms[Upto(k)..Upto(n)]
  {
  }

  lemma {:induction false} HoRun(s: State, id: nat, k: nat, f: State, acts: seq<Action>)
    requires Ready(s, id) && k <= 11 && HoStage(s, id, k, f)
    requires IsRun(f, acts) && forall a :: a in acts ==> Undisturbed(a)
    ensures k + |acts| <= 11 && HoStage(s, id, k + |acts|, Last(f, acts))
    ensures Trace(f, acts) == HoTrace(id, s.enb.nextTeid)[Upto(k)..Upto(k + |acts|)]
    decreases |acts|
  {
    var ms := HoTrace(id, s.enb.nextTeid);
    assert |ms| == 11;
    hide HoStage, Do, Enabled, Undisturbed, Puts, HoTrace, HoMove, Upto, Ready;
    if acts == [] {
    } else {
      HoOnly(s, id, k, f, acts[0]);
      HoStep(s, id, k, f);
      StagePuts(s, id, k, f, Do(f, acts[0]));
      HoRun(s, id, k + 1, Do(f, acts[0]), acts[1..]);
      UptoNext(ms, k, k + |acts|);
    }
  }

  lemma ServedReady(s: State, id: nat)
    requires Reachable(s) && FewAttaches(s) && Quiescent(s) && id in s.mme.store && HasDefault(s.mme.store[id])
    ensures Ready(s, id)
  {
    hide Reachable, Core, Quiescent, Owned, Authentic;
    ReachableCore(s);
    UeKnown(s, id);
    NextTeidIs(s);
  }

  /** How things stand when a handover is over: nothing is under way, the UE's default bearer holds
      the TEID that the eNB allocated, and no more has changed. */
  ghost predicate HandedOver(s: State, id: nat, f: State)
    requires id in s.mme.store && HasDefault(s.mme.store[id])
  {
    && Quiescent(f) && f.mme.store.Keys == s.mme.store.Keys
    && (forall j :: j in s.mme.store && j != id ==> f.mme.store[j] == s.mme.store[j])
    && SameSession(s.mme.store[id], f.mme.store[id]) && HasDefault(f.mme.store[id])
    && DefaultBearer(f.mme.store[id]) == DefaultBearer(s.mme.store[id]).(enbTeid := s.enb.nextTeid)
    && f.mme.nextId == s.mme.nextId && f.sgw == s.sgw && f.pgw == s.pgw
  }

  lemma HoEnds(s: State, id: nat, f: State)
    requires Ready(s, id) && HasDefault(s.mme.store[id]) && HoStage(s, id, 11, f)
    ensures HandedOver(s, id, f)
  {
    var t := s.enb.nextTeid;
    OnDone(s.up, f.up, HoUp(id, t));
    OnDone(s.down, f.down, HoDown(id));
    OnDone(s.s11q, f.s11q, [ModifyBearer(BASE_IMSI + id, t)]);
    OnDone(s.s11r, f.s11r, [Modified]);
    hide On;
  }

  lemma HoTraceWhole(s: State, id: nat, acts: seq<Action>)
    requires Ready(s, id) && IsRun(Do(s, EnbCommand(Handover(id))), acts) && forall a :: a in acts ==> Undisturbed(a)
    ensures |acts| <= 11 && HoStage(s, id, |acts|, Last(Do(s, EnbCommand(Handover(id))), acts))
    ensures Puts(s, Do(s, EnbCommand(Handover(id)))) + Trace(Do(s, EnbCommand(Handover(id))), acts)
            == HoTrace(id, s.enb.nextTeid)[..Upto(|acts|)]
  {
    hide HoStage, Do, Undisturbed, Puts, HoTrace, Ready, IsRun, Trace, Last;
    var f := Do(s, EnbCommand(Handover(id)));
    CommandPuts(s, id);
    HoBegins(s, id);
    HoRun(s, id, 0, f, acts);
    HoFirst(id, s.enb.nextTeid, Upto(|acts|));
  }

  lemma HoFirst(id: nat, t: nat, n: nat)
    requires 1 <= n <= 11
    ensures |HoTrace(id, t)| == 11 && [PutUp(HoRequired(id, id))] + HoTrace(id, t)[1..n] == HoTrace(id, t)[..n]
  {
  }

  lemma CommandPuts(s: State, id: nat)
    ensures Puts(s, Do(s, EnbCommand(Handover(id)))) == [PutUp(HoRequired(id, id))]
  {
  }

  lemma HoGoesOn(s: State, id: nat, k: nat, f: State)
    requires Ready(s, id) && HoStage(s, id, k, f)
    ensures (exists a :: Undisturbed(a) && Enabled(f, a)) <==> k < 11
  {
    forall a ensures Undisturbed(a) && Enabled(f, a) <==> k < 11 && a == HoMove(k) {
      HoOnly(s, id, k, f, a);
    }
    hide HoStage, Ready, Enabled, Undisturbed, HoMove;
    assert k < 11 ==> Undisturbed(HoMove(k)) && Enabled(f, HoMove(k));
  }

  /** The handover of any UE with a session, from any reachable state with nothing under way, and
      the whole of it: left alone, the nodes can only take the eleven steps that send these
      messages in this order, the last one received by the MME, and then stop. */
  lemma HandoverProcedure(s: State, id: nat, acts: seq<Action>)
    requires Reachable(s) && FewAttaches(s) && Quiescent(s) && id in s.mme.store && HasDefault(s.mme.store[id])
    requires IsRun(s, [EnbCommand(Handover(id))] + acts) && forall a :: a in acts ==> Undisturbed(a)
    ensures var f := Last(s, [EnbCommand(Handover(id))] + acts);
            && |acts| <= 11
            && Trace(s, [EnbCommand(Handover(id))] + acts) == HoTrace(id, s.enb.nextTeid)[..Upto(|acts|)]
            && ((exists a :: Undisturbed(a) && Enabled(f, a)) <==> |acts| < 11)
            && (|acts| == 11 ==> HandedOver(s, id, f))
  {
    hide Do, Enabled, Undisturbed, HoStage, Ready, Reachable, Puts, HandedOver, Upto, HoTrace, Quiescent, HasDefault;
    var c, run := EnbCommand(Handover(id)), [EnbCommand(Handover(id))] + acts;
    assert run[0] == c && run[1..] == acts;
    ServedReady(s, id);
    HoTraceWhole(s, id, acts);
    HoGoesOn(s, id, |acts|, Last(Do(s, c), acts));
    if |acts| == 11 {
      HoEnds(s, id, Last(Do(s, c), acts));
    }
  }

  // ---------------------------------------------------------------- tracking area update

  lemma TauRequested(s: State, id: nat) returns (s': State)
    requires Quiescent(s)
    ensures s' == Do(s, EnbCommand(Tau(id))) && Puts(s, s') == [PutUp(TauRequest(id, id, BASE_IMSI + id))]
    ensures s'.mme == s.mme && s'.enb == s.enb && s'.sgw == s.sgw && s'.down == s.down
    ensures s'.up == Send(s.up, [TauRequest(id, id, BASE_IMSI + id)])
    ensures s'.air == s.air && s'.aia == s.aia && s'.s11q == s.s11q && s'.s11r == s.s11r && s'.s5q == s.s5q && s'.s5r == s.s5r
  {
    s' := Do(s, EnbCommand(Tau(id)));
  }

  lemma TauAnswered(s: State, m: ToMme) returns (s': State)
    requires s.mme.pc.Dispatching? && HasNext(s.up) && Head(s.up) == m && m.TauRequest?
    ensures Enabled(s, MmeReceive) && s' == Do(s, MmeReceive) && Puts(s, s') == [PutDown(TauAccept(m.mmeId, m.enbId))]
    ensures s'.mme == s.mme && s'.enb == s.enb && s'.sgw == s.sgw && s'.up == Receive(s.up)
    ensures s'.down == Send(s.down, [TauAccept(m.mmeId, m.enbId)])
    ensures s'.air == s.air && s'.aia == s.aia && s'.s11q == s.s11q && s'.s11r == s.s11r && s'.s5q == s.s5q && s'.s5r == s.s5r
  {
    s' := Do(s, MmeReceive);
    SendNothing(s.air);
    SendNothing(s.s11q);
  }

  lemma TauTaken(s: State) returns (s': State)
    requires s.enb.completing.None? && HasNext(s.down) && Head(s.down).TauAccept?
    ensures Enabled(s, EnbReceive) && s' == Do(s, EnbReceive) && Puts(s, s') == []
    ensures s'.mme == s.mme && s'.enb == s.enb && s'.sgw == s.sgw && s'.up == s.up && s'.down == Receive(s.down)
    ensures s'.air == s.air && s'.aia == s.aia && s'.s11q == s.s11q && s'.s11r == s.s11r && s'.s5q == s.s5q && s'.s5r == s.s5r
  {
    s' := Do(s, EnbReceive);
    SendNothing(s.up);
  }

  /** A tracking area update from a state with nothing under way: accepted, nothing changed. */
  lemma TauProcedure(s: State, id: nat)
    requires Quiescent(s)
    ensures var run := [EnbCommand(Tau(id)), MmeReceive, EnbReceive];
            && IsRun(s, run) && Quiescent(Last(s, run))
            && Trace(s, run) == [PutUp(TauRequest(id, id, BASE_IMSI + id)), PutDown(TauAccept(id, id))]
            && Last(s, run).mme == s.mme && Last(s, run).enb == s.enb
  {
    hide Do, Enabled, Puts;
    var s1 := TauRequested(s, id);
    var s2 := TauAnswered(s1, TauRequest(id, id, BASE_IMSI + id));
    var s3 := TauTaken(s2);
    CommandsEnabled(s, Tau(id));
    var none: seq<Action> := [];
    assert IsRun(s3, none) && Last(s3, none) == s3 && Trace(s3, none) == [];
    hide IsRun, Last, Trace;
    RunBefore(s2, EnbReceive, none);
    RunBefore(s1, MmeReceive, [EnbReceive] + none);
    RunBefore(s, EnbCommand(Tau(id)), [MmeReceive] + ([EnbReceive] + none));
    assert [EnbCommand(Tau(id))] + ([MmeReceive] + ([EnbReceive] + none)) == [EnbCommand(Tau(id)), MmeReceive, EnbReceive];
  }

  lemma CommandsEnabled(s: State, c: Command)
    ensures Enabled(s, EnbCommand(c))
  {
  }
}
