/** The 4G network as one system: MME dispatch thread and HSS receive thread, two eNB threads,
    HSS, S-GW, P-GW, and the links between them. Every link delivers in order; a receive
    timeout may strike whenever a thread waits for a GTP answer, and the answer may still come
    later; a datagram may be lost when it is next in line. */
module S1Runs {
  import opened Common
  import opened S1Nodes

  /** Everything ever sent on a link, and how much of it has been received. */
  datatype Link<T> = Link(sent: seq<T>, read: nat)

  predicate Unused<T(==)>(l: Link<T>)
  {
    l.sent == [] && l.read == 0
  }

  predicate HasNext<T>(l: Link<T>)
  {
    l.read < |l.sent|
  }

  function Head<T>(l: Link<T>): T
    requires HasNext(l)
  {
    l.sent[l.read]
  }

  function Receive<T>(l: Link<T>): Link<T>
  {
    l.(read := l.read + 1)
  }

  function Send<T>(l: Link<T>, ms: seq<T>): Link<T>
  {
    l.(sent := l.sent + ms)
  }

  /** How far one UE's attach has come; kept for the proofs, no node looks at it. An index is a
      position in the history of the link that carries the UE's current message. */
  datatype Phase =
    | Announced(k: nat)                 // Attach Request on its way to the MME
    | Fetching                          // the MME waits for vectors
    | Abandoned                         // chaos drop
    | Challenged(k: nat, xres: Bytes)   // Auth Request on its way to the eNB
    | Answered(k: nat, xres: Bytes)     // Auth Response on its way to the MME
    | Opening                           // the MME waits for the session
    | Refused                           // no session
    | Accepted(k: nat)                  // Setup Request on its way to the eNB
    | Setting(k: nat)                   // Setup Response sent, Attach Complete not yet
    | Finishing(k: nat, j: nat)         // Attach Complete on its way to the MME
    | Attached(k: nat)

  datatype State = State(
    mme: Mme, enb: Enb, sgw: Sgw, pgw: Pgw,
    up: Link<ToMme>, down: Link<ToEnb>,
    air: Link<nat>, aia: Link<AuthAnswer>,
    s11q: Link<ToSgw>, s11r: Link<FromSgw>, s5q: Link<nat>, s5r: Link<FromPgw>,
    // history
    phase: map<nat, Phase>,
    attaches: nat,               // Attach Requests sent
    contexts: nat,               // Attach Requests read by the MME
    teidOwner: seq<nat>,         // for whom each eNB TEID was allocated, in order
    sessions: nat,               // sessions opened by the S-GW
    ipOwner: seq<nat>,           // the IMSI each UE IP was allocated for, in order
    notedAt: map<nat, nat>,      // for each HoNotify on `up`: eNB TEIDs allocated by then
    answers: map<nat, Bytes>,    // the RES last received for each context
    timedOut: bool)              // some GTP wait has timed out

  datatype Action =
    | EnbCommand(c: Command)
    | EnbReceive
    | EnbFinish
    | MmeReceive
    | MmeVectors(drop: bool)
    | MmeAnswer
    | MmeTimeout
    | MmeStop
    | HssReceive(rand: Bytes)
    | AuthArrives
    | SgwReceive
    | SgwAnswer
    | SgwTimeout
    | PgwReceive(grant: bool)
    | LoseS11Request | LoseS11Answer | LoseS5Request | LoseS5Answer

  ghost predicate IsInit(s: State)
  {
    && s.mme == Mme(map[], 1, map[], Dispatching, 0)
    && s.enb == Enb(FIRST_ENB_TEID, 1, None) && s.sgw == Sgw(FIRST_SGW_TEID, SgwReady) && s.pgw == Pgw(FIRST_UE_IP)
    && Unused(s.up) && Unused(s.down) && Unused(s.air) && Unused(s.aia)
    && Unused(s.s11q) && Unused(s.s11r) && Unused(s.s5q) && Unused(s.s5r)
    && s.phase == map[] && s.attaches == 0 && s.contexts == 0 && s.teidOwner == [] && s.sessions == 0 && s.ipOwner == []
    && s.notedAt == map[] && s.answers == map[] && !s.timedOut
  }

  predicate Enabled(s: State, a: Action)
  {
    match a
    case EnbCommand(_) => true
    case EnbReceive => s.enb.completing.None? && HasNext(s.down)
    case EnbFinish => s.enb.completing.Some?
    case MmeReceive => s.mme.pc.Dispatching? && HasNext(s.up)
    case MmeVectors(_) => s.mme.pc.AwaitingAuth? && s.mme.pc.imsi in s.mme.pending
    case MmeAnswer => AwaitingSgw(s.mme.pc) && HasNext(s.s11r)
    case MmeTimeout => AwaitingSgw(s.mme.pc)
    case MmeStop => s.mme.pc.Dispatching? || s.mme.pc.AwaitingAuth?
    case HssReceive(rand) => HasNext(s.air) && |rand| == 16
    case AuthArrives => HasNext(s.aia)
    case SgwReceive => s.sgw.pc.SgwReady? && HasNext(s.s11q)
    case SgwAnswer => s.sgw.pc.AwaitingPgw? && HasNext(s.s5r)
    case SgwTimeout => s.sgw.pc.AwaitingPgw?
    case PgwReceive(_) => HasNext(s.s5q)
    case LoseS11Request => HasNext(s.s11q)
    case LoseS11Answer => HasNext(s.s11r)
    case LoseS5Request => HasNext(s.s5q)
    case LoseS5Answer => HasNext(s.s5r)
  }

  /** An MME handler's effect on the system. */
  function Deliver(s: State, o: MmeOut): State
  {
    s.(mme := o.mme, down := Send(s.down, o.enb), air := Send(s.air, o.hss), s11q := Send(s.s11q, o.sgw))
  }

  // How one UE's phase moves, per step.

  function PhaseOnMme(s: State, msg: ToMme, o: MmeOut): map<nat, Phase>
  {
    match msg
    case InitialUe(id, _) => s.phase[id := Fetching]
    case AuthResponse(id, _, _) => if o.mme.pc.AwaitingCreate? then s.phase[id := Opening] else s.phase
    case AttachComplete(id, _) =>
      if id in s.phase && s.phase[id].Finishing? then s.phase[id := Attached(s.phase[id].k)] else s.phase
    case _ => s.phase
  }

  function PhaseOnEnb(s: State, msg: ToEnb): map<nat, Phase>
  {
    match msg
    case AuthRequest(id, _, _) =>
      if id in s.phase && s.phase[id].Challenged? then s.phase[id := Answered(|s.up.sent|, s.phase[id].xres)] else s.phase
    case SetupRequest(id, _, _, _) => s.phase[id := Setting(|s.up.sent|)]
    case _ => s.phase
  }

  function NotedOnEnb(s: State, msg: ToEnb): map<nat, nat>
  {
    if msg.MmeStatus? then s.notedAt[|s.up.sent| := |s.teidOwner|] else s.notedAt
  }

  function OwnersOnEnb(s: State, msg: ToEnb): seq<nat>
  {
    if msg.SetupRequest? || msg.HoRequest? then s.teidOwner + [msg.mmeId] else s.teidOwner
  }

  function DoEnbReceive(s: State): State
    requires Enabled(s, EnbReceive)
  {
    var msg := Head(s.down);
    var o := EnbOnMessage(s.enb, msg);
    s.(enb := o.enb, down := Receive(s.down), up := Send(s.up, o.mme),
       phase := PhaseOnEnb(s, msg), notedAt := NotedOnEnb(s, msg), teidOwner := OwnersOnEnb(s, msg))
  }

  function DoEnbCommand(s: State, c: Command): State
  {
    var o := EnbOnCommand(s.enb, c);
    s.(enb := o.enb, up := Send(s.up, o.mme),
       attaches := if c.AttachOne? then s.attaches + 1 else s.attaches,
       phase := if c.AttachOne? then s.phase[s.enb.nextUeId := Announced(|s.up.sent|)] else s.phase)
  }

  function DoEnbFinish(s: State): State
    requires Enabled(s, EnbFinish)
  {
    var id := s.enb.completing.value.0;
    var o := EnbComplete(s.enb);
    s.(enb := o.enb, up := Send(s.up, o.mme),
       phase := if id in s.phase && s.phase[id].Setting? then s.phase[id := Finishing(s.phase[id].k, |s.up.sent|)]
                else s.phase)
  }

  function DoMmeReceive(s: State): State
    requires Enabled(s, MmeReceive)
  {
    var msg := Head(s.up);
    var o := MmeOnMessage(s.mme, msg);
    Deliver(s, o).(up := Receive(s.up), phase := PhaseOnMme(s, msg, o),
                   contexts := if msg.InitialUe? then s.contexts + 1 else s.contexts,
                   answers := if msg.AuthResponse? then s.answers[msg.mmeId := msg.res] else s.answers)
  }

  function DoMmeVectors(s: State, drop: bool): State
    requires Enabled(s, MmeVectors(drop))
  {
    Deliver(s, OnVectors(s.mme, drop)).(
      phase := s.phase[s.mme.pc.mmeId :=
                 if drop then Abandoned else Challenged(|s.down.sent|, s.mme.pending[s.mme.pc.imsi].xres)])
  }

  function DoMmeAnswer(s: State): State
    requires Enabled(s, MmeAnswer)
  {
    var o := MmeOnAnswer(s.mme, Head(s.s11r));
    Deliver(s, o).(s11r := Receive(s.s11r),
                   phase := if s.mme.pc.AwaitingCreate? then
                              s.phase[s.mme.pc.mmeId := if o.enb == [] then Refused else Accepted(|s.down.sent|)]
                            else s.phase)
  }

  function DoMmeTimeout(s: State): State
    requires Enabled(s, MmeTimeout)
  {
    Deliver(s, MmeOnTimeout(s.mme)).(
      timedOut := true,
      phase := if s.mme.pc.AwaitingCreate? then s.phase[s.mme.pc.mmeId := Refused] else s.phase)
  }

  function DoSgwReceive(s: State): State
    requires Enabled(s, SgwReceive)
  {
    match Head(s.s11q)
    case CreateSession(imsi) =>
      s.(s11q := Receive(s.s11q), sgw := SgwOnCreate(s.sgw, imsi), s5q := Send(s.s5q, [imsi]), sessions := s.sessions + 1)
    case ModifyBearer(_, _) =>
      s.(s11q := Receive(s.s11q), s11r := Send(s.s11r, [Modified]))
  }

  function DoPgwReceive(s: State, grant: bool): State
    requires Enabled(s, PgwReceive(grant))
  {
    var (p, rsp) := PgwOnCreate(s.pgw, grant);
    s.(s5q := Receive(s.s5q), pgw := p, s5r := Send(s.s5r, [rsp]),
       ipOwner := if grant then s.ipOwner + [Head(s.s5q)] else s.ipOwner)
  }

  function Do(s: State, a: Action): State
    requires Enabled(s, a)
  {
    match a
    case EnbCommand(c) => DoEnbCommand(s, c)
    case EnbReceive => DoEnbReceive(s)
    case EnbFinish => DoEnbFinish(s)
    case MmeReceive => DoMmeReceive(s)
    case MmeVectors(drop) => DoMmeVectors(s, drop)
    case MmeAnswer => DoMmeAnswer(s)
    case MmeTimeout => DoMmeTimeout(s)
    case MmeStop => s.(mme := s.mme.(pc := Stopped))
    case HssReceive(rand) =>
      s.(air := Receive(s.air), aia := Send(s.aia, [AuthAnswer(Head(s.air), HssVectors(rand))]))
    case AuthArrives =>
      s.(aia := Receive(s.aia), mme := s.mme.(pending := s.mme.pending[Head(s.aia).imsi := Head(s.aia).av]))
    case SgwReceive => DoSgwReceive(s)
    case SgwAnswer =>
      s.(s5r := Receive(s.s5r), s11r := Send(s.s11r, SgwOnPgw(s.sgw, Head(s.s5r))), sgw := s.sgw.(pc := SgwReady))
    case SgwTimeout => s.(sgw := s.sgw.(pc := SgwReady), timedOut := true)
    case PgwReceive(grant) => DoPgwReceive(s, grant)
    case LoseS11Request => s.(s11q := Receive(s.s11q))
    case LoseS11Answer => s.(s11r := Receive(s.s11r))
    case LoseS5Request => s.(s5q := Receive(s.s5q))
    case LoseS5Answer => s.(s5r := Receive(s.s5r))
  }
}
