/** The 4G nodes as the objects they are: handlers that update fields and send. Their dispatch
    switches do what S1Nodes says of one step. Methods stop where the code blocks, and a second
    one resumes. */
module S1Objects {
  import opened Common
  import opened Bits
  import opened S1Nodes

  class MmeNode {
    var store: map<nat, Ue>
    var nextId: nat
    var pending: map<nat, Vectors>
    var pc: MmePc
    var authFailures: nat
    // frames and datagrams sent, per link
    var toEnb: seq<ToEnb>
    var toHss: seq<nat>
    var toSgw: seq<ToSgw>

    ghost function View(): Mme
      reads this
    {
      Mme(store, nextId, pending, pc, authFailures)
    }

    /** The fields after a handler with effect o, started in the given state. */
    ghost predicate After(o: MmeOut, enb: seq<ToEnb>, hss: seq<nat>, sgw: seq<ToSgw>)
      reads this
    {
      View() == o.mme && toEnb == enb + o.enb && toHss == hss + o.hss && toSgw == sgw + o.sgw
    }

    constructor ()
      ensures View() == Mme(map[], 1, map[], Dispatching, 0) && toEnb == [] && toHss == [] && toSgw == []
    {
      store, nextId, pending, pc, authFailures := map[], 1, map[], Dispatching, 0;
      toEnb, toHss, toSgw := [], [], [];
    }

    method HandleInitialUe(enbId: nat, imsi: nat)
      modifies this
      ensures After(OnInitialUe(old(View()), enbId, imsi), old(toEnb), old(toHss), old(toSgw))
    {
      var id := nextId;
      nextId := Next32(nextId);
      store := store[id := Ue(imsi, id, enbId, RegInitiated, NO_VECTORS.xres, [])];
      toHss := toHss + [imsi];
      pc := AwaitingAuth(id, enbId, imsi);
    }

    method ResumeInitialUe(drop: bool)
      requires pc.AwaitingAuth? && pc.imsi in pending
      modifies this
      ensures After(OnVectors(old(View()), drop), old(toEnb), old(toHss), old(toSgw))
    {
      var id, enbId, av := pc.mmeId, pc.enbId, pending[pc.imsi];
      pending := pending - {pc.imsi};
      pc := Dispatching;
      if id in store {
        store := store[id := store[id].(xres := av.xres, emm := AuthPending)];
      }
      if drop {
        return;
      }
      toEnb := toEnb + [AuthRequest(id, enbId, av.rand)];
    }

    method HandleAuthResponse(id: nat, res: Bytes)
      requires pc.Dispatching?
      modifies this
      ensures After(OnAuthResponse(old(View()), id, res), old(toEnb), old(toHss), old(toSgw))
    {
      if id !in store {
        return;
      }
      var ue := store[id];
      var ok := |res| >= 8 && res[..8] == ue.xres;
      if ok {
        toEnb := toEnb + [SecurityCommand(id, ue.enbId)];
        store := store[id := ue.(emm := SessionPending)];
        toSgw := toSgw + [CreateSession(ue.imsi)];
        pc := AwaitingCreate(id);
      } else {
        authFailures := authFailures + 1;
      }
    }

    method ResumeCreateSession(rsp: FromSgw)
      requires pc.AwaitingCreate?
      modifies this
      ensures After(OnCreateAnswer(old(View()), rsp), old(toEnb), old(toHss), old(toSgw))
    {
      var id := pc.mmeId;
      pc := Dispatching;
      if rsp.Modified? {
        return;
      }
      if id in store {
        var ue := store[id];
        ue := ue.(bearers := ue.bearers + [Bearer(DEFAULT_EBI, 9, rsp.s11, rsp.s1u, 0, rsp.ueIp)]);
        store := store[id := ue];
        assert ue.bearers[|ue.bearers| - 1].ebi == DEFAULT_EBI;
        var at := FindDefault(ue.bearers);
        toEnb := toEnb + [SetupRequest(id, ue.enbId, ue.bearers[at].s1u, ue.bearers[at].ueIp)];
      }
    }

    method HandleSetupResponse(id: nat, teid: nat)
      requires pc.Dispatching?
      modifies this
      ensures After(OnSetupResponse(old(View()), id, teid), old(toEnb), old(toHss), old(toSgw))
    {
      StoreTeid(id, teid);
      var imsi := if id in store then store[id].imsi else 0;
      toSgw := toSgw + [ModifyBearer(imsi, teid)];
      pc := AwaitingSetupModify;
    }

    /** Writes a TEID into the default bearer of a context that has one. */
    method StoreTeid(id: nat, teid: nat)
      modifies this`store
      ensures store == if id in old(store) then old(store)[id := WithTeid(old(store)[id], teid)] else old(store)
    {
      if id in store {
        var ue := store[id];
        var at := FindDefault(ue.bearers);
        if at < |ue.bearers| {
          ue := ue.(bearers := ue.bearers[at := ue.bearers[at].(enbTeid := teid)]);
        }
        store := store[id := ue];
      }
    }

    method HandleAttachComplete(id: nat)
      requires pc.Dispatching?
      modifies this
      ensures After(OnAttachComplete(old(View()), id), old(toEnb), old(toHss), old(toSgw))
    {
      if id !in store {
        return;
      }
      store := store[id := store[id].(emm := Registered)];
    }

    method HandleHoAck(id: nat, enbId: nat, teid: nat)
      requires pc.Dispatching?
      modifies this
      ensures After(OnHoAck(old(View()), id, enbId, teid), old(toEnb), old(toHss), old(toSgw))
    {
      StoreTeid(id, teid);
      toEnb := toEnb + [HoCommand(id, enbId)];
    }

    method HandleHoNotify(id: nat, enbId: nat, teid: nat)
      requires pc.Dispatching?
      modifies this
      ensures After(OnHoNotify(old(View()), id, enbId, teid), old(toEnb), old(toHss), old(toSgw))
    {
      var finalTeid := teid;
      if teid == 0 {
        finalTeid := 200;
        if id in store {
          var at := FindDefault(store[id].bearers);
          if at < |store[id].bearers| {
            finalTeid := store[id].bearers[at].enbTeid;
          }
        }
      }
      var imsi := if id in store then store[id].imsi else 0;
      toSgw := toSgw + [ModifyBearer(imsi, finalTeid)];
      pc := AwaitingPathSwitch(id, enbId);
    }

    /** One message of the eNB. */
    method Dispatch(msg: ToMme)
      requires pc.Dispatching?
      modifies this
      ensures After(MmeOnMessage(old(View()), msg), old(toEnb), old(toHss), old(toSgw))
    {
      match msg
      case InitialUe(enbId, imsi) => HandleInitialUe(enbId, imsi);
      case AuthResponse(id, _, res) => HandleAuthResponse(id, res);
      case SecurityComplete(_, _) =>
      case SetupResponse(id, _, teid) => HandleSetupResponse(id, teid);
      case AttachComplete(id, _) => HandleAttachComplete(id);
      case TauRequest(id, enbId, _) => toEnb := toEnb + [TauAccept(id, enbId)];
      case HoRequired(id, enbId) => toEnb := toEnb + [HoRequest(id, enbId)];
      case HoAck(id, enbId, teid) => HandleHoAck(id, enbId, teid);
      case EnbStatus(id, enbId) => toEnb := toEnb + [MmeStatus(id, enbId)];
      case HoNotify(id, enbId, teid) => HandleHoNotify(id, enbId, teid);
      case ReleaseComplete(_, _) =>
    }

    /** The wait for the S-GW ends, with a datagram or without. */
    method ResumeGtp(rsp: Option<FromSgw>)
      requires AwaitingSgw(pc)
      modifies this
      ensures After(if rsp.Some? then MmeOnAnswer(old(View()), rsp.value) else MmeOnTimeout(old(View())),
                    old(toEnb), old(toHss), old(toSgw))
    {
      if pc.AwaitingCreate? && rsp.Some? {
        ResumeCreateSession(rsp.value);
        return;
      }
      if pc.AwaitingPathSwitch? {
        toEnb := toEnb + [ReleaseCommand(pc.mmeId, pc.enbId)];
      }
      pc := Dispatching;
    }
  }

  /** The search for the bearer with EBI 5. */
  method FindDefault(bs: seq<Bearer>) returns (at: nat)
    ensures at == DefaultAt(bs)
  {
    at := 0;
    while at < |bs| && bs[at].ebi != DEFAULT_EBI
      invariant at <= |bs| && DefaultAt(bs) == at + DefaultAt(bs[at..])
    {
      at := at + 1;
    }
  }

  class EnbNode {
    var nextTeid: nat
    var nextUeId: nat
    var completing: Option<(nat, nat)>
    var toMme: seq<ToMme>

    ghost function View(): Enb
      reads this
    {
      Enb(nextTeid, nextUeId, completing)
    }

    ghost predicate After(o: EnbOut, mme: seq<ToMme>)
      reads this
    {
      View() == o.enb && toMme == mme + o.mme
    }

    constructor ()
      ensures View() == Enb(FIRST_ENB_TEID, 1, None) && toMme == []
    {
      nextTeid, nextUeId, completing, toMme := FIRST_ENB_TEID, 1, None, [];
    }

    /** CR n: one Attach Request per UE, identifiers counting on. */
    method AttachUes(n: nat)
      modifies this
      ensures |toMme| == |old(toMme)| + n && toMme[..|old(toMme)|] == old(toMme)
      ensures forall i :: 0 <= i < n ==>
                toMme[|old(toMme)| + i] == InitialUe(UeIdAfter(old(nextUeId), i), BASE_IMSI + UeIdAfter(old(nextUeId), i))
      ensures View() == old(View()).(nextUeId := UeIdAfter(old(nextUeId), n))
    {
      for i := 0 to n
        invariant |toMme| == |old(toMme)| + i && toMme[..|old(toMme)|] == old(toMme)
        invariant View() == old(View()).(nextUeId := UeIdAfter(old(nextUeId), i))
        invariant forall j :: 0 <= j < i ==>
                    toMme[|old(toMme)| + j] == InitialUe(UeIdAfter(old(nextUeId), j), BASE_IMSI + UeIdAfter(old(nextUeId), j))
      {
        toMme := toMme + [InitialUe(nextUeId, BASE_IMSI + nextUeId)];
        nextUeId := Next32(nextUeId);
      }
    }

    method HandleDlNas(msg: ToEnb)
      requires completing.None? && (msg.AuthRequest? || msg.SecurityCommand?)
      modifies this
      ensures After(EnbOnMessage(old(View()), msg), old(toMme))
    {
      if msg.SecurityCommand? {
        toMme := toMme + [SecurityComplete(msg.mmeId, msg.enbId)];
        return;
      }
      if |msg.rand| >= 8 {
        var res := XorLoop(msg.rand);
        toMme := toMme + [AuthResponse(msg.mmeId, msg.enbId, res)];
      }
    }

    method HandleSetupRequest(msg: ToEnb)
      requires completing.None? && msg.SetupRequest?
      modifies this
      ensures After(EnbOnMessage(old(View()), msg), old(toMme))
    {
      var teid := nextTeid;
      nextTeid := Next32(nextTeid);
      toMme := toMme + [SetupResponse(msg.mmeId, msg.enbId, teid)];
      completing := Some((msg.mmeId, msg.enbId));
    }

    method ResumeSetupRequest()
      requires completing.Some?
      modifies this
      ensures After(EnbComplete(old(View())), old(toMme))
    {
      toMme := toMme + [AttachComplete(completing.value.0, completing.value.1)];
      completing := None;
    }

    method HandleHandover(msg: ToEnb)
      requires completing.None? && (msg.HoRequest? || msg.HoCommand? || msg.MmeStatus? || msg.ReleaseCommand?)
      modifies this
      ensures After(EnbOnMessage(old(View()), msg), old(toMme))
    {
      match msg
      case HoRequest(id, enbId) =>
        var teid := nextTeid;
        nextTeid := Next32(nextTeid);
        toMme := toMme + [HoAck(id, enbId, teid)];
      case HoCommand(id, enbId) => toMme := toMme + [EnbStatus(id, enbId)];
      case MmeStatus(id, enbId) => toMme := toMme + [HoNotify(id, enbId, (nextTeid - 1) % U32_MOD)];
      case ReleaseCommand(id, enbId) => toMme := toMme + [ReleaseComplete(id, enbId)];
    }

    /** One message of the MME. */
    method Dispatch(msg: ToEnb)
      requires completing.None?
      modifies this
      ensures After(EnbOnMessage(old(View()), msg), old(toMme))
    {
      if msg.AuthRequest? || msg.SecurityCommand? {
        HandleDlNas(msg);
      } else if msg.SetupRequest? {
        HandleSetupRequest(msg);
      } else if !msg.TauAccept? {
        HandleHandover(msg);
      }
    }
  }

  /** The identifier counter after n attaches. */
  function UeIdAfter(first: nat, n: nat): nat
  {
    if n == 0 then first else Next32(UeIdAfter(first, n - 1))
  }

  /** RES, byte by byte, from the first 8 bytes of RAND. */
  method XorLoop(rand: Bytes) returns (res: Bytes)
    requires |rand| >= 8
    ensures res == Xor55(rand[..8])
  {
    res := [];
    for i := 0 to 8
      invariant |res| == i && forall j :: 0 <= j < i ==> res[j] == rand[j] ^ 0x55
    {
      res := res + [rand[i] ^ 0x55];
    }
  }

  /** The HSS's vectors from the next 16 bytes that its generator draws. */
  method GenerateAuthVectors(draws: Bytes) returns (av: Vectors)
    requires |draws| == 16
    ensures av == HssVectors(draws) && Authentic(Xor55(av.rand[..8]), av.xres)
  {
    var rand: Bytes := [];
    for i := 0 to 16
      invariant rand == draws[..i]
    {
      rand := rand + [draws[i]];
    }
    var xres := XorLoop(rand);
    av := Vectors(rand, xres);
    assert rand == draws && Xor55(rand[..8])[..8] == Xor55(rand[..8]);
  }

  class SgwNode {
    var nextTeid: nat
    var pc: SgwPc
    var toMme: seq<FromSgw>
    var toPgw: seq<nat>

    constructor ()
      ensures nextTeid == FIRST_SGW_TEID && pc == SgwReady && toMme == [] && toPgw == []
    {
      nextTeid, pc, toMme, toPgw := FIRST_SGW_TEID, SgwReady, [], [];
    }

    method HandleCreateSession(imsi: nat)
      requires pc.SgwReady?
      modifies this
      ensures Sgw(nextTeid, pc) == SgwOnCreate(old(Sgw(nextTeid, pc)), imsi)
      ensures toPgw == old(toPgw) + [imsi] && toMme == old(toMme)
    {
      var s11 := nextTeid;
      nextTeid := Next32(nextTeid);
      var s1u := nextTeid;
      nextTeid := Next32(nextTeid);
      toPgw := toPgw + [imsi];
      pc := AwaitingPgw(imsi, s11, s1u);
    }

    method ResumeCreateSession(rsp: FromPgw)
      requires pc.AwaitingPgw?
      modifies this
      ensures toMme == old(toMme) + SgwOnPgw(old(Sgw(nextTeid, pc)), rsp)
      ensures pc == SgwReady && nextTeid == old(nextTeid) && toPgw == old(toPgw)
    {
      if rsp.cause != ACCEPTED {
        pc := SgwReady;
        return;
      }
      toMme := toMme + [Created(pc.s11, pc.s1u, rsp.ueIp)];
      pc := SgwReady;
    }
  }

  class PgwNode {
    var nextIp: nat
    var toSgw: seq<FromPgw>

    constructor ()
      ensures nextIp == FIRST_UE_IP && toSgw == []
    {
      nextIp, toSgw := FIRST_UE_IP, [];
    }

    method HandleCreateSession(grant: bool)
      modifies this
      ensures Pgw(nextIp) == PgwOnCreate(old(Pgw(nextIp)), grant).0
      ensures toSgw == old(toSgw) + [PgwOnCreate(old(Pgw(nextIp)), grant).1]
    {
      if !grant {
        toSgw := toSgw + [PgwAnswer(DENIED, 0)];
        return;
      }
      var ip := nextIp;
      nextIp := Next32(nextIp);
      toSgw := toSgw + [PgwAnswer(ACCEPTED, ip)];
    }
  }
}
