/** The 4G nodes' messages, state, and what each handler does to them. A handler that blocks
    (for the HSS, or for the S-GW) is cut where it waits. */
module S1Nodes {
  import opened Common
  import opened Bits

  const BASE_IMSI: nat := 404100000000000
  const FIRST_ENB_TEID: nat := 100
  const FIRST_SGW_TEID: nat := 1000
  const FIRST_UE_IP: nat := 0x0A00_0001
  const DEFAULT_EBI: nat := 5
  const ACCEPTED: nat := 16
  const DENIED: nat := 64


  // ---------------------------------------------------------------- messages

  datatype ToMme =
    | InitialUe(enbId: nat, imsi: nat)
    | AuthResponse(mmeId: nat, enbId: nat, res: Bytes)
    | SecurityComplete(mmeId: nat, enbId: nat)
    | SetupResponse(mmeId: nat, enbId: nat, teid: nat)
    | AttachComplete(mmeId: nat, enbId: nat)
    | TauRequest(mmeId: nat, enbId: nat, imsi: nat)
    | HoRequired(mmeId: nat, enbId: nat)
    | HoAck(mmeId: nat, enbId: nat, teid: nat)
    | EnbStatus(mmeId: nat, enbId: nat)
    | HoNotify(mmeId: nat, enbId: nat, teid: nat)
    | ReleaseComplete(mmeId: nat, enbId: nat)

  datatype ToEnb =
    | AuthRequest(mmeId: nat, enbId: nat, rand: Bytes)
    | SecurityCommand(mmeId: nat, enbId: nat)
    | SetupRequest(mmeId: nat, enbId: nat, sgwTeid: nat, ueIp: nat)
    | TauAccept(mmeId: nat, enbId: nat)
    | HoRequest(mmeId: nat, enbId: nat)
    | HoCommand(mmeId: nat, enbId: nat)
    | MmeStatus(mmeId: nat, enbId: nat)
    | ReleaseCommand(mmeId: nat, enbId: nat)

  datatype Vectors = Vectors(rand: Bytes, xres: Bytes)

  datatype AuthAnswer = AuthAnswer(imsi: nat, av: Vectors)

  datatype ToSgw = CreateSession(imsi: nat) | ModifyBearer(imsi: nat, enbTeid: nat)

  /** Every answer of the S-GW carries cause 16; only a create answer carries TEIDs and an IP. */
  datatype FromSgw = Created(s11: nat, s1u: nat, ueIp: nat) | Modified

  datatype FromPgw = PgwAnswer(cause: nat, ueIp: nat)

  // ---------------------------------------------------------------- MME

  datatype Emm = Deregistered | RegInitiated | AuthPending | SessionPending | Registered

  function Rank(e: Emm): nat
  {
    match e
    case Deregistered => 0
    case RegInitiated => 1
    case AuthPending => 2
    case SessionPending => 3
    case Registered => 4
  }

  datatype Bearer = Bearer(ebi: nat, qci: nat, s11: nat, s1u: nat, enbTeid: nat, ueIp: nat)

  datatype Ue = Ue(imsi: nat, mmeId: nat, enbId: nat, emm: Emm, xres: Bytes, bearers: seq<Bearer>)

  const NO_VECTORS := Vectors([0, 0, 0, 0, 0, 0, 0, 0, 0, 0, 0, 0, 0, 0, 0, 0], [0, 0, 0, 0, 0, 0, 0, 0])

  /** Position of the first bearer with EBI 5, or the number of bearers. */
  function DefaultAt(bs: seq<Bearer>): (i: nat)
    ensures i <= |bs|
    ensures i < |bs| ==> bs[i].ebi == DEFAULT_EBI
    ensures forall j :: 0 <= j < i ==> bs[j].ebi != DEFAULT_EBI
  {
    if bs == [] || bs[0].ebi == DEFAULT_EBI then 0 else 1 + DefaultAt(bs[1..])
  }

  predicate HasDefault(u: Ue)
  {
    DefaultAt(u.bearers) < |u.bearers|
  }

  function DefaultBearer(u: Ue): Bearer
    requires HasDefault(u)
  {
    u.bearers[DefaultAt(u.bearers)]
  }

  /** Writes the eNB's TEID into the default bearer, if there is one. */
  function WithTeid(u: Ue, teid: nat): Ue
  {
    var i := DefaultAt(u.bearers);
    if i < |u.bearers| then u.(bearers := u.bearers[i := u.bearers[i].(enbTeid := teid)]) else u
  }

  /** What the dispatch thread is blocked on. */
  datatype MmePc =
    | Dispatching
    | AwaitingAuth(mmeId: nat, enbId: nat, imsi: nat)
    | AwaitingCreate(mmeId: nat)
    | AwaitingSetupModify
    | AwaitingPathSwitch(mmeId: nat, enbId: nat)
    | Stopped

  datatype Mme = Mme(store: map<nat, Ue>, nextId: nat, pending: map<nat, Vectors>, pc: MmePc, authFailures: nat)

  /** A handler's effect: the new state and what it sent on each link, in order. */
  datatype MmeOut = MmeOut(mme: Mme, enb: seq<ToEnb>, hss: seq<nat>, sgw: seq<ToSgw>)

  function Quiet(m: Mme): MmeOut
  {
    MmeOut(m, [], [], [])
  }

  function ImsiOf(m: Mme, mmeId: nat): nat
  {
    if mmeId in m.store then m.store[mmeId].imsi else 0
  }

  function Next32(x: nat): nat
  {
    (x + 1) % U32_MOD
  }

  /** Attach Request: a new context, and the request to the HSS. */
  function OnInitialUe(m: Mme, enbId: nat, imsi: nat): MmeOut
  {
    var id := m.nextId;
    var ue := Ue(imsi, id, enbId, RegInitiated, NO_VECTORS.xres, []);
    MmeOut(m.(store := m.store[id := ue], nextId := Next32(id), pc := AwaitingAuth(id, enbId, imsi)), [], [imsi], [])
  }

  /** The vectors have arrived; a chaos drop ends the attach silently. */
  function OnVectors(m: Mme, drop: bool): MmeOut
    requires m.pc.AwaitingAuth? && m.pc.imsi in m.pending
  {
    var id, av := m.pc.mmeId, m.pending[m.pc.imsi];
    var m' := m.(pending := m.pending - {m.pc.imsi}, pc := Dispatching,
                 store := if id in m.store then m.store[id := m.store[id].(xres := av.xres, emm := AuthPending)]
                          else m.store);
    if drop then Quiet(m')
    else MmeOut(m', [AuthRequest(id, m.pc.enbId, av.rand)], [], [])
  }

  /** The answer must carry at least 8 bytes, and the first 8 must equal XRES. */
  predicate Authentic(res: Bytes, xres: Bytes)
  {
    |res| >= 8 && res[..8] == xres
  }

  function OnAuthResponse(m: Mme, id: nat, res: Bytes): MmeOut
  {
    if id !in m.store then Quiet(m)
    else
      var u := m.store[id];
      if Authentic(res, u.xres) then
        MmeOut(m.(store := m.store[id := u.(emm := SessionPending)], pc := AwaitingCreate(id)),
               [SecurityCommand(id, u.enbId)], [], [CreateSession(u.imsi)])
      else Quiet(m.(authFailures := m.authFailures + 1))
  }

  /** Whatever datagram comes back first is taken for the answer. One without an IP address
      fails the attach; one with an address becomes the default bearer. */
  function OnCreateAnswer(m: Mme, rsp: FromSgw): MmeOut
    requires m.pc.AwaitingCreate?
  {
    var id, m' := m.pc.mmeId, m.(pc := Dispatching);
    if rsp.Modified? || id !in m.store then Quiet(m')
    else
      var u := m.store[id];
      var u' := u.(bearers := u.bearers + [Bearer(DEFAULT_EBI, 9, rsp.s11, rsp.s1u, 0, rsp.ueIp)]);
      assert u'.bearers[|u.bearers|].ebi == DEFAULT_EBI;
      var b := DefaultBearer(u');
      MmeOut(m'.(store := m.store[id := u']), [SetupRequest(id, u.enbId, b.s1u, b.ueIp)], [], [])
  }

  function OnSetupResponse(m: Mme, id: nat, teid: nat): MmeOut
  {
    MmeOut(m.(store := if id in m.store then m.store[id := WithTeid(m.store[id], teid)] else m.store,
              pc := AwaitingSetupModify),
           [], [], [ModifyBearer(ImsiOf(m, id), teid)])
  }

  /** No check of the state the context is in. */
  function OnAttachComplete(m: Mme, id: nat): MmeOut
  {
    if id !in m.store then Quiet(m)
    else Quiet(m.(store := m.store[id := m.store[id].(emm := Registered)]))
  }

  function OnHoAck(m: Mme, id: nat, enbId: nat, teid: nat): MmeOut
  {
    MmeOut(m.(store := if id in m.store then m.store[id := WithTeid(m.store[id], teid)] else m.store),
           [HoCommand(id, enbId)], [], [])
  }

  /** TEID announced to the S-GW at path switch. */
  function SwitchTeid(m: Mme, id: nat, teid: nat): nat
  {
    if teid != 0 then teid
    else if id in m.store && HasDefault(m.store[id]) then DefaultBearer(m.store[id]).enbTeid
    else 200
  }

  function OnHoNotify(m: Mme, id: nat, enbId: nat, teid: nat): MmeOut
  {
    MmeOut(m.(pc := AwaitingPathSwitch(id, enbId)), [], [], [ModifyBearer(ImsiOf(m, id), SwitchTeid(m, id, teid))])
  }

  function MmeOnMessage(m: Mme, msg: ToMme): MmeOut
    requires m.pc.Dispatching?
  {
    match msg
    case InitialUe(enbId, imsi) => OnInitialUe(m, enbId, imsi)
    case AuthResponse(id, _, res) => OnAuthResponse(m, id, res)
    case SecurityComplete(_, _) => Quiet(m)
    case SetupResponse(id, _, teid) => OnSetupResponse(m, id, teid)
    case AttachComplete(id, _) => OnAttachComplete(m, id)
    case TauRequest(id, enbId, _) => MmeOut(m, [TauAccept(id, enbId)], [], [])
    case HoRequired(id, enbId) => MmeOut(m, [HoRequest(id, enbId)], [], [])
    case HoAck(id, enbId, teid) => OnHoAck(m, id, enbId, teid)
    case EnbStatus(id, enbId) => MmeOut(m, [MmeStatus(id, enbId)], [], [])
    case HoNotify(id, enbId, teid) => OnHoNotify(m, id, enbId, teid)
    case ReleaseComplete(_, _) => Quiet(m)
  }

  predicate AwaitingSgw(pc: MmePc)
  {
    pc.AwaitingCreate? || pc.AwaitingSetupModify? || pc.AwaitingPathSwitch?
  }

  /** After a modify wait, answered or not, the path switch goes on to release the source. */
  function AfterModify(m: Mme): MmeOut
  {
    MmeOut(m.(pc := Dispatching),
           if m.pc.AwaitingPathSwitch? then [ReleaseCommand(m.pc.mmeId, m.pc.enbId)] else [], [], [])
  }

  function MmeOnAnswer(m: Mme, rsp: FromSgw): MmeOut
    requires AwaitingSgw(m.pc)
  {
    if m.pc.AwaitingCreate? then OnCreateAnswer(m, rsp) else AfterModify(m)
  }

  function MmeOnTimeout(m: Mme): MmeOut
    requires AwaitingSgw(m.pc)
  {
    if m.pc.AwaitingCreate? then Quiet(m.(pc := Dispatching)) else AfterModify(m)
  }

  // ---------------------------------------------------------------- eNB

  function Xor55(b: Bytes): (r: Bytes)
    ensures |r| == |b|
  {
    seq(|b|, i requires 0 <= i < |b| => b[i] ^ 0x55)
  }

  /** Answer and challenge give 0x55 away in every byte, and the answer to the answer is the
      challenge. */
  lemma Xor55Meaning(b: Bytes)
    ensures forall i :: 0 <= i < |b| ==> Xor55(b)[i] ^ b[i] == 0x55
    ensures Xor55(Xor55(b)) == b
  {
    var x := Xor55(b);
    forall i | 0 <= i < |b| ensures x[i] ^ b[i] == 0x55 && Xor55(x)[i] == b[i] {
      XorSame(b[i], 0x55);
    }
  }

  lemma XorSame(x: bv8, y: bv8)
    ensures (x ^ y) ^ x == y && (x ^ y) ^ y == x
  {
  }

  /** completing: the UE whose Attach Complete the receive thread still has to send. */
  datatype Enb = Enb(nextTeid: nat, nextUeId: nat, completing: Option<(nat, nat)>)

  datatype EnbOut = EnbOut(enb: Enb, mme: seq<ToMme>)

  /** The receive thread handling one message up to its first pause. */
  function EnbOnMessage(e: Enb, msg: ToEnb): EnbOut
    requires e.completing.None?
  {
    match msg
    case AuthRequest(id, enbId, rand) =>
      EnbOut(e, if |rand| >= 8 then [AuthResponse(id, enbId, Xor55(rand[..8]))] else [])
    case SecurityCommand(id, enbId) => EnbOut(e, [SecurityComplete(id, enbId)])
    case SetupRequest(id, enbId, _, _) =>
      EnbOut(e.(nextTeid := Next32(e.nextTeid), completing := Some((id, enbId))),
             [SetupResponse(id, enbId, e.nextTeid)])
    case TauAccept(_, _) => EnbOut(e, [])
    case HoRequest(id, enbId) =>
      EnbOut(e.(nextTeid := Next32(e.nextTeid)), [HoAck(id, enbId, e.nextTeid)])
    case HoCommand(id, enbId) => EnbOut(e, [EnbStatus(id, enbId)])
    case MmeStatus(id, enbId) =>
      // the counter minus one: the TEID handed out last, to whichever UE
      EnbOut(e, [HoNotify(id, enbId, (e.nextTeid - 1) % U32_MOD)])
    case ReleaseCommand(id, enbId) => EnbOut(e, [ReleaseComplete(id, enbId)])
  }

  /** The receive thread after its pause: the UE's Attach Complete. */
  function EnbComplete(e: Enb): EnbOut
    requires e.completing.Some?
  {
    EnbOut(e.(completing := None), [AttachComplete(e.completing.value.0, e.completing.value.1)])
  }

  datatype Command = AttachOne | Tau(ueId: nat) | Handover(ueId: nat)

  /** The command thread. TAU and HO use the typed number for both identifiers. */
  function EnbOnCommand(e: Enb, c: Command): EnbOut
  {
    match c
    case AttachOne =>
      EnbOut(e.(nextUeId := Next32(e.nextUeId)), [InitialUe(e.nextUeId, BASE_IMSI + e.nextUeId)])
    case Tau(id) => EnbOut(e, [TauRequest(id, id, BASE_IMSI + id)])
    case Handover(id) => EnbOut(e, [HoRequired(id, id)])
  }

  // ---------------------------------------------------------------- HSS

  /** The generator's output is a parameter; XRES is derived from it. */
  function HssVectors(rand: Bytes): Vectors
    requires |rand| == 16
  {
    Vectors(rand, Xor55(rand[..8]))
  }

  // ---------------------------------------------------------------- S-GW and P-GW

  datatype SgwPc = SgwReady | AwaitingPgw(imsi: nat, s11: nat, s1u: nat)

  datatype Sgw = Sgw(nextTeid: nat, pc: SgwPc)

  /** Create: two TEIDs, and the request is passed on. Modify: answered at once. */
  function SgwOnCreate(g: Sgw, imsi: nat): Sgw
  {
    Sgw(Next32(Next32(g.nextTeid)), AwaitingPgw(imsi, g.nextTeid, Next32(g.nextTeid)))
  }

  /** A refusal by the P-GW is not passed on: the MME is left to time out. */
  function SgwOnPgw(g: Sgw, rsp: FromPgw): seq<FromSgw>
    requires g.pc.AwaitingPgw?
  {
    if rsp.cause == ACCEPTED then [Created(g.pc.s11, g.pc.s1u, rsp.ueIp)] else []
  }

  datatype Pgw = Pgw(nextIp: nat)

  /** grant: the PCRF's answer. */
  function PgwOnCreate(p: Pgw, grant: bool): (Pgw, FromPgw)
  {
    if grant then (Pgw(Next32(p.nextIp)), PgwAnswer(ACCEPTED, p.nextIp)) else (p, PgwAnswer(DENIED, 0))
  }
}
