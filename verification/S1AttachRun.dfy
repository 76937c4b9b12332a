/** The attach procedure: from every reachable state with nothing under way, what a command CR
    makes the nodes send on each link, however their steps interleave, and where it ends. */
module S1AttachRun {
  import opened Bits
  import opened Common
  import opened S1Nodes
  import opened S1Runs
  import opened S1Invariant
  import opened S1Theorems
  import opened S1Handover
  import opened S1Progress

  // ---------------------------------------------------------------- one authentication at a time

  /** The one request for vectors under way is that of the UE waited for. */
  ghost predicate OneRequest(pc: MmePc, pending: map<nat, Vectors>, air: Link<nat>, aia: Link<AuthAnswer>)
  {
    && air.read <= |air.sent| && aia.read <= |aia.sent|
    && (pc.Stopped? ||
        if pc.AwaitingAuth? then
          || (|air.sent| == air.read + 1 && Head(air) == pc.imsi && Drained(aia) && pending == map[])
          || (Drained(air) && |aia.sent| == aia.read + 1 && Head(aia).imsi == pc.imsi && pending == map[])
          || (Drained(air) && Drained(aia) && pending.Keys == {pc.imsi})
        else Drained(air) && Drained(aia) && pending == map[])
  }

  ghost predicate AuthInv(s: State)
  {
    OneRequest(s.mme.pc, s.mme.pending, s.air, s.aia)
  }

  lemma AuthReceive(s: State)
    requires AuthInv(s) && Enabled(s, MmeReceive)
    ensures AuthInv(Do(s, MmeReceive))
  {
    hide WithTeid, SwitchTeid, Authentic, PhaseOnMme;
  }

  lemma AuthVectors(s: State, a: Action)
    requires AuthInv(s) && Enabled(s, a) && (a.MmeVectors? || a.HssReceive? || a.AuthArrives? || a.MmeStop?)
    ensures AuthInv(Do(s, a))
  {
    hide HssVectors;
  }

  lemma AuthElsewhere(s: State, a: Action)
    requires AuthInv(s) && Enabled(s, a)
    requires !a.MmeReceive? && !a.MmeVectors? && !a.HssReceive? && !a.AuthArrives? && !a.MmeStop?
    ensures AuthInv(Do(s, a))
  {
    hide EnbOnMessage, EnbOnCommand, PhaseOnEnb, WithTeid, DefaultBearer, DefaultAt;
  }

  lemma {:induction false} RunKeepsAuth(s: State, acts: seq<Action>)
    requires AuthInv(s) && IsRun(s, acts)
    ensures AuthInv(Last(s, acts))
    decreases |acts|
  {
    hide AuthInv, Do, Enabled;
    if acts == [] {
    } else {
      var a := acts[0];
      if a.MmeReceive? {
        AuthReceive(s);
      } else if a.MmeVectors? || a.HssReceive? || a.AuthArrives? || a.MmeStop? {
        AuthVectors(s, a);
      } else {
        AuthElsewhere(s, a);
      }
      RunKeepsAuth(Do(s, a), acts[1..]);
    }
  }

  lemma InitAuth(s: State)
    requires IsInit(s)
    ensures AuthInv(s)
  {
  }

  /** No vectors are left over between two attaches. */
  lemma NoneLeftOver(s: State)
    requires Reachable(s) && Quiescent(s)
    ensures s.mme.pending == map[]
  {
    hide Do, Enabled, IsInit;
    var s0, acts :| IsInit(s0) && IsRun(s0, acts) && Last(s0, acts) == s;
    InitAuth(s0);
    RunKeepsAuth(s0, acts);
  }

  // ---------------------------------------------------------------- the same number on both sides

  /** With every Attach Request read, both ends are about to use the same number. */
  lemma SameNumber(s: State)
    requires Reachable(s) && FewAttaches(s) && Quiescent(s)
    ensures s.enb.nextUeId == s.mme.nextId
  {
    hide Reachable, Core;
    ReachableCore(s);
    NumbersMeet(s);
  }

  lemma NumbersMeet(s: State)
    requires Core(s) && Drained(s.up)
    ensures s.enb.nextUeId == s.mme.nextId
  {
    hide StoreOk, TeidsOk, DownOk, UpOk, PhaseSent, AuthOk;
    AllSeen(s.attaches, s.enb.nextUeId, s.contexts, s.phase, s.up.read);
  }

  lemma AllSeen(attaches: nat, nextUeId: nat, seen: nat, phase: map<nat, Phase>, read: nat)
    requires IdsOk(attaches, nextUeId, seen, phase, read, read)
    ensures seen == attaches
  {
    if seen < attaches {
      IdAtNo(seen);
    }
  }

  // ---------------------------------------------------------------- the messages

  function AtUp(n: nat, rand: Bytes, t: nat): seq<ToMme>
    requires |rand| == 16
  {
    [InitialUe(n, BASE_IMSI + n), AuthResponse(n, n, Xor55(rand[..8])), SecurityComplete(n, n), SetupResponse(n, n, t),
     AttachComplete(n, n)]
  }

  function AtDown(n: nat, rand: Bytes, s1u: nat, ip: nat): seq<ToEnb>
  {
    [AuthRequest(n, n, rand), SecurityCommand(n, n), SetupRequest(n, n, s1u, ip)]
  }

  function AtVectors(n: nat, rand: Bytes): seq<AuthAnswer>
    requires |rand| == 16
  {
    [AuthAnswer(BASE_IMSI + n, Vectors(rand, Xor55(rand[..8])))]
  }

  function AtAsked(n: nat, t: nat): seq<ToSgw>
  {
    [CreateSession(BASE_IMSI + n), ModifyBearer(BASE_IMSI + n, t)]
  }

  function AtGiven(s11: nat, s1u: nat, ip: nat): seq<FromSgw>
  {
    [Created(s11, s1u, ip), Modified]
  }

  // ---------------------------------------------------------------- how far each node has come

  /** Steps of the eNB, of the MME's dispatch thread, of HSS and the MME's HSS thread, and of S-GW and
      P-GW, since the command. */
  datatype Mark = Mark(e: nat, m: nat, h: nat, g: nat)

  predicate Coherent(c: Mark)
  {
    && c.e <= 4 && c.m <= 8 && c.h <= 2 && c.g <= 4
    && (c.e >= 1 ==> c.m >= 2) && (c.e >= 2 ==> c.m >= 3) && (c.e >= 3 ==> c.m >= 4)
    && (c.m >= 2 ==> c.h >= 2) && (c.m >= 3 ==> c.e >= 1) && (c.m >= 4 ==> c.g >= 3) && (c.m >= 5 ==> c.e >= 2)
    && (c.m >= 6 ==> c.e >= 3) && (c.m >= 7 ==> c.g >= 4) && (c.m >= 8 ==> c.e >= 4)
    && (c.h >= 1 ==> c.m >= 1) && (c.g >= 1 ==> c.m >= 3) && (c.g >= 4 ==> c.m >= 6)
  }

  function UeAtMark(n: nat, xres: Bytes, b: Bearer, t: nat, m: nat): Ue
  {
    if m < 2 then Ue(BASE_IMSI + n, n, n, RegInitiated, NO_VECTORS.xres, [])
    else if m < 3 then Ue(BASE_IMSI + n, n, n, AuthPending, xres, [])
    else if m < 4 then Ue(BASE_IMSI + n, n, n, SessionPending, xres, [])
    else if m < 6 then Ue(BASE_IMSI + n, n, n, SessionPending, xres, [b])
    else if m < 8 then Ue(BASE_IMSI + n, n, n, SessionPending, xres, [b.(enbTeid := t)])
    else Ue(BASE_IMSI + n, n, n, Registered, xres, [b.(enbTeid := t)])
  }

  function PcAtMark(n: nat, m: nat): MmePc
  {
    if m == 1 then AwaitingAuth(n, n, BASE_IMSI + n)
    else if m == 3 then AwaitingCreate(n)
    else if m == 6 then AwaitingSetupModify
    else Dispatching
  }

  function MmeAtMark(s: State, n: nat, rand: Bytes, m: nat, h: nat): Mme
    requires |rand| == 16
  {
    var xres := Xor55(rand[..8]);
    var b := Bearer(5, 9, s.sgw.nextTeid, Next32(s.sgw.nextTeid), 0, s.pgw.nextIp);
    s.mme.(store := if m == 0 then s.mme.store else s.mme.store[n := UeAtMark(n, xres, b, s.enb.nextTeid, m)],
           nextId := if m == 0 then n else Next32(n),
           pc := PcAtMark(n, m),
           pending := if h == 2 && m == 1 then map[BASE_IMSI + n := Vectors(rand, xres)] else map[])
  }

  function EnbAtMark(e: Enb, n: nat, k: nat): Enb
  {
    Enb(if k < 3 then e.nextTeid else Next32(e.nextTeid), Next32(n), if k == 3 then Some((n, n)) else None)
  }

  function SgwAtMark(g: Sgw, n: nat, k: nat): Sgw
  {
    if k == 0 then g
    else
      var t := g.nextTeid;
      Sgw(Next32(Next32(t)), if k < 3 then AwaitingPgw(BASE_IMSI + n, t, Next32(t)) else SgwReady)
  }

  /** What must hold for the attach to begin. */
  predicate AttachReady(s: State)
  {
    Quiescent(s) && s.enb.nextUeId == s.mme.nextId && s.mme.pending == map[]
  }

  ghost predicate RadioAt(s: State, rand: Bytes, c: Mark, f: State)
    requires |rand| == 16
  {
    var n := s.enb.nextUeId;
    && On(s.up, f.up, AtUp(n, rand, s.enb.nextTeid),
          1 + c.e, From(c.m, 1) + From(c.m, 3) + From(c.m, 5) + From(c.m, 6) + From(c.m, 8))
    && On(s.down, f.down, AtDown(n, rand, Next32(s.sgw.nextTeid), s.pgw.nextIp),
          From(c.m, 2) + From(c.m, 3) + From(c.m, 4), From(c.e, 1) + From(c.e, 2) + From(c.e, 3))
  }

  ghost predicate HssAt(s: State, rand: Bytes, c: Mark, f: State)
    requires |rand| == 16
  {
    var n := s.enb.nextUeId;
    && On(s.air, f.air, [BASE_IMSI + n], From(c.m, 1), From(c.h, 1))
    && On(s.aia, f.aia, AtVectors(n, rand), From(c.h, 1), From(c.h, 2))
  }

  ghost predicate CoreAt(s: State, c: Mark, f: State)
  {
    var n := s.enb.nextUeId;
    && On(s.s11q, f.s11q, AtAsked(n, s.enb.nextTeid), From(c.m, 3) + From(c.m, 6), From(c.g, 1) + From(c.g, 4))
    && On(s.s11r, f.s11r, AtGiven(s.sgw.nextTeid, Next32(s.sgw.nextTeid), s.pgw.nextIp),
          From(c.g, 3) + From(c.g, 4), From(c.m, 4) + From(c.m, 7))
    && On(s.s5q, f.s5q, [BASE_IMSI + n], From(c.g, 1), From(c.g, 2))
    && On(s.s5r, f.s5r, [PgwAnswer(16, s.pgw.nextIp)], From(c.g, 2), From(c.g, 3))
  }

  ghost predicate NodesAt(s: State, rand: Bytes, c: Mark, f: State)
    requires |rand| == 16
  {
    var n := s.enb.nextUeId;
    && f.mme == MmeAtMark(s, n, rand, c.m, c.h) && f.enb == EnbAtMark(s.enb, n, c.e)
    && f.sgw == SgwAtMark(s.sgw, n, c.g) && f.pgw == (if c.g < 2 then s.pgw else Pgw(Next32(s.pgw.nextIp)))
  }

  /** f is where the attach started in s stands at this mark. */
  ghost predicate AttachAt(s: State, rand: Bytes, c: Mark, f: State)
    requires |rand| == 16
  {
    Coherent(c) && RadioAt(s, rand, c, f) && HssAt(s, rand, c, f) && CoreAt(s, c, f) && NodesAt(s, rand, c, f)
  }

  lemma AttachBegins(s: State, rand: Bytes)
    requires |rand| == 16 && AttachReady(s)
    ensures AttachAt(s, rand, Mark(0, 0, 0, 0), Do(s, EnbCommand(AttachOne)))
  {
    var n, t, g, ip := s.enb.nextUeId, s.enb.nextTeid, s.sgw.nextTeid, s.pgw.nextIp;
    OnStart(s.up, AtUp(n, rand, t));
    OnSend(s.up, s.up, AtUp(n, rand, t), 0, 0);
    OnStart(s.down, AtDown(n, rand, Next32(g), ip));
    OnStart(s.air, [BASE_IMSI + n]);
    OnStart(s.aia, AtVectors(n, rand));
    OnStart(s.s11q, AtAsked(n, t));
    OnStart(s.s11r, AtGiven(g, Next32(g), ip));
    OnStart(s.s5q, [BASE_IMSI + n]);
    OnStart(s.s5r, [PgwAnswer(16, ip)]);
    hide On, Xor55;
  }

  // ---------------------------------------------------------------- which steps can follow

  /** Left alone: vectors that are not dropped, a session that is granted, and this challenge. */
  predicate Favourable(a: Action, rand: Bytes)
  {
    && Undisturbed(a) && a != MmeVectors(true) && a != PgwReceive(false)
    && (a.HssReceive? ==> a.rand == rand)
  }

  predicate CanMove(c: Mark, a: Action, rand: Bytes)
  {
    match a
    case EnbReceive => (c.e == 0 && c.m >= 2) || (c.e == 1 && c.m >= 3) || (c.e == 2 && c.m >= 4)
    case EnbFinish => c.e == 3
    case MmeReceive =>
      c.m == 0 || (c.m == 2 && c.e >= 1) || (c.m == 4 && c.e >= 2) || (c.m == 5 && c.e >= 3) || (c.m == 7 && c.e >= 4)
    case MmeVectors(drop) => !drop && c.m == 1 && c.h == 2
    case MmeAnswer => (c.m == 3 && c.g >= 3) || (c.m == 6 && c.g == 4)
    case HssReceive(r) => r == rand && c.h == 0 && c.m >= 1
    case AuthArrives => c.h == 1
    case SgwReceive => (c.g == 0 && c.m >= 3) || (c.g == 3 && c.m >= 6)
    case PgwReceive(grant) => grant && c.g == 1
    case SgwAnswer => c.g == 2
    case _ => false
  }

  function Moved(c: Mark, a: Action): Mark
  {
    match a
    case EnbReceive => c.(e := c.e + 1)
    case EnbFinish => c.(e := c.e + 1)
    case HssReceive(_) => c.(h := c.h + 1)
    case AuthArrives => c.(h := c.h + 1)
    case SgwReceive => c.(g := c.g + 1)
    case SgwAnswer => c.(g := c.g + 1)
    case PgwReceive(_) => c.(g := c.g + 1)
    case _ => c.(m := c.m + 1)
  }

  function Total(c: Mark): nat
  {
    c.e + c.m + c.h + c.g
  }

  lemma RadioLinks(s: State, rand: Bytes, c: Mark, f: State)
    requires |rand| == 16 && AttachReady(s) && AttachAt(s, rand, c, f)
    ensures var ur := From(c.m, 1) + From(c.m, 3) + From(c.m, 5) + From(c.m, 6) + From(c.m, 8);
            && (HasNext(f.up) <==> ur < 1 + c.e)
            && (HasNext(f.up) ==> Head(f.up) == AtUp(s.enb.nextUeId, rand, s.enb.nextTeid)[ur])
    ensures var dr := From(c.e, 1) + From(c.e, 2) + From(c.e, 3);
            && (HasNext(f.down) <==> dr < From(c.m, 2) + From(c.m, 3) + From(c.m, 4))
            && (HasNext(f.down) ==>
                  Head(f.down) == AtDown(s.enb.nextUeId, rand, Next32(s.sgw.nextTeid), s.pgw.nextIp)[dr])
  {
    hide On, From, HssAt, CoreAt, NodesAt, Coherent, AtUp, AtDown;
    var n := s.enb.nextUeId;
    OnNext(s.up, f.up, AtUp(n, rand, s.enb.nextTeid),
           1 + c.e, From(c.m, 1) + From(c.m, 3) + From(c.m, 5) + From(c.m, 6) + From(c.m, 8));
    OnNext(s.down, f.down, AtDown(n, rand, Next32(s.sgw.nextTeid), s.pgw.nextIp),
           From(c.m, 2) + From(c.m, 3) + From(c.m, 4), From(c.e, 1) + From(c.e, 2) + From(c.e, 3));
  }

  lemma HssLinks(s: State, rand: Bytes, c: Mark, f: State)
    requires |rand| == 16 && AttachReady(s) && AttachAt(s, rand, c, f)
    ensures HasNext(f.air) <==> c.h == 0 && c.m >= 1
    ensures HasNext(f.aia) <==> c.h == 1
    ensures HasNext(f.air) ==> Head(f.air) == BASE_IMSI + s.enb.nextUeId
    ensures HasNext(f.aia) ==> Head(f.aia) == AtVectors(s.enb.nextUeId, rand)[0]
  {
    hide On, RadioAt, CoreAt, NodesAt, Xor55;
    var n := s.enb.nextUeId;
    OnNext(s.air, f.air, [BASE_IMSI + n], From(c.m, 1), From(c.h, 1));
    OnNext(s.aia, f.aia, AtVectors(n, rand), From(c.h, 1), From(c.h, 2));
  }

  lemma CoreLinks(s: State, rand: Bytes, c: Mark, f: State)
    requires |rand| == 16 && AttachReady(s) && AttachAt(s, rand, c, f)
    ensures HasNext(f.s11q) <==> (c.g == 0 && c.m >= 3) || (c.g == 3 && c.m >= 6)
    ensures HasNext(f.s11q) ==> Head(f.s11q) == AtAsked(s.enb.nextUeId, s.enb.nextTeid)[From(c.g, 1)]
    ensures HasNext(f.s11r) <==> (c.m == 3 && c.g == 3) || (c.m == 6 && c.g == 4)
    ensures HasNext(f.s11r) ==>
              Head(f.s11r) == AtGiven(s.sgw.nextTeid, Next32(s.sgw.nextTeid), s.pgw.nextIp)[From(c.m, 4)]
    ensures HasNext(f.s5q) <==> c.g == 1
    ensures HasNext(f.s5r) <==> c.g == 2
    ensures HasNext(f.s5q) ==> Head(f.s5q) == BASE_IMSI + s.enb.nextUeId
    ensures HasNext(f.s5r) ==> Head(f.s5r) == PgwAnswer(16, s.pgw.nextIp)
  {
    hide On, RadioAt, HssAt, NodesAt;
    var n, g, ip := s.enb.nextUeId, s.sgw.nextTeid, s.pgw.nextIp;
    OnNext(s.s11q, f.s11q, AtAsked(n, s.enb.nextTeid), From(c.m, 3) + From(c.m, 6), From(c.g, 1) + From(c.g, 4));
    OnNext(s.s11r, f.s11r, AtGiven(g, Next32(g), ip), From(c.g, 3) + From(c.g, 4), From(c.m, 4) + From(c.m, 7));
    OnNext(s.s5q, f.s5q, [BASE_IMSI + n], From(c.g, 1), From(c.g, 2));
    OnNext(s.s5r, f.s5r, [PgwAnswer(16, ip)], From(c.g, 2), From(c.g, 3));
  }

  lemma AttachWaits(s: State, rand: Bytes, c: Mark, f: State)
    requires |rand| == 16 && AttachReady(s) && AttachAt(s, rand, c, f)
    ensures Coherent(c) && f.mme.pc == PcAtMark(s.enb.nextUeId, c.m)
    ensures c.m == 1 ==> (f.mme.pc.imsi in f.mme.pending <==> c.h == 2)
    ensures f.enb.completing.Some? <==> c.e == 3
    ensures f.sgw.pc.SgwReady? <==> c.g == 0 || c.g >= 3
  {
    hide On, RadioAt, HssAt, CoreAt, UeAtMark, Xor55;
  }

  /** Left alone, the system can take exactly these steps. */
  lemma AttachOnly(s: State, rand: Bytes, c: Mark, f: State, a: Action)
    requires |rand| == 16 && AttachReady(s) && AttachAt(s, rand, c, f)
    ensures Favourable(a, rand) && Enabled(f, a) <==> CanMove(c, a, rand)
  {
    hide AttachAt, AttachReady, AtUp, AtDown, AtVectors, AtAsked, AtGiven, HasNext;
    RadioLinks(s, rand, c, f);
    HssLinks(s, rand, c, f);
    CoreLinks(s, rand, c, f);
    AttachWaits(s, rand, c, f);
  }

  // ---------------------------------------------------------------- the steps

  /** The eNB answers the MME: with the RES, the end of the security mode, its own TEID. */
  lemma EnbStep(s: State, rand: Bytes, c: Mark, f: State)
    requires |rand| == 16 && AttachReady(s) && AttachAt(s, rand, c, f)
    requires CanMove(c, EnbReceive, rand) && Enabled(f, EnbReceive)
    ensures AttachAt(s, rand, Moved(c, EnbReceive), Do(f, EnbReceive))
  {
    hide On, UeAtMark, Xor55, HasNext, PhaseOnEnb, NotedOnEnb, OwnersOnEnb, MmeAtMark, SgwAtMark, AtVectors, AtGiven, AtAsked;
    RadioLinks(s, rand, c, f);
    var n := s.enb.nextUeId;
    OnNext(s.down, f.down, AtDown(n, rand, Next32(s.sgw.nextTeid), s.pgw.nextIp),
           From(c.m, 2) + From(c.m, 3) + From(c.m, 4), From(c.e, 1) + From(c.e, 2) + From(c.e, 3));
    OnSend(s.up, f.up, AtUp(n, rand, s.enb.nextTeid),
           1 + c.e, From(c.m, 1) + From(c.m, 3) + From(c.m, 5) + From(c.m, 6) + From(c.m, 8));
  }

  lemma EnbEnds(s: State, rand: Bytes, c: Mark, f: State)
    requires |rand| == 16 && AttachReady(s) && AttachAt(s, rand, c, f)
    requires CanMove(c, EnbFinish, rand) && Enabled(f, EnbFinish)
    ensures AttachAt(s, rand, Moved(c, EnbFinish), Do(f, EnbFinish))
  {
    hide On, UeAtMark, Xor55, HasNext;
    OnSend(s.up, f.up, AtUp(s.enb.nextUeId, rand, s.enb.nextTeid),
           1 + c.e, From(c.m, 1) + From(c.m, 3) + From(c.m, 5) + From(c.m, 6) + From(c.m, 8));
  }

  lemma HssStep(s: State, rand: Bytes, c: Mark, f: State)
    requires |rand| == 16 && AttachReady(s) && AttachAt(s, rand, c, f)
    requires CanMove(c, HssReceive(rand), rand) && Enabled(f, HssReceive(rand))
    ensures AttachAt(s, rand, Moved(c, HssReceive(rand)), Do(f, HssReceive(rand)))
  {
    hide On, UeAtMark, Xor55, HasNext;
    HssLinks(s, rand, c, f);
    OnNext(s.air, f.air, [BASE_IMSI + s.enb.nextUeId], 1, 0);
    OnSend(s.aia, f.aia, AtVectors(s.enb.nextUeId, rand), 0, 0);
  }

  lemma VectorsCome(s: State, rand: Bytes, c: Mark, f: State)
    requires |rand| == 16 && AttachReady(s) && AttachAt(s, rand, c, f)
    requires CanMove(c, AuthArrives, rand) && Enabled(f, AuthArrives)
    ensures AttachAt(s, rand, Moved(c, AuthArrives), Do(f, AuthArrives))
  {
    hide On, UeAtMark, Xor55, HasNext;
    HssLinks(s, rand, c, f);
    OnNext(s.aia, f.aia, AtVectors(s.enb.nextUeId, rand), 1, 0);
  }

  lemma SgwOpens(s: State, rand: Bytes, c: Mark, f: State)
    requires |rand| == 16 && AttachReady(s) && AttachAt(s, rand, c, f)
    requires CanMove(c, SgwReceive, rand) && Enabled(f, SgwReceive) && c.g == 0
    ensures AttachAt(s, rand, Moved(c, SgwReceive), Do(f, SgwReceive))
  {
    hide On, UeAtMark, Xor55, HasNext;
    CoreLinks(s, rand, c, f);
    OnNext(s.s11q, f.s11q, AtAsked(s.enb.nextUeId, s.enb.nextTeid), From(c.m, 3) + From(c.m, 6), 0);
    OnSend(s.s5q, f.s5q, [BASE_IMSI + s.enb.nextUeId], 0, 0);
  }

  lemma SgwAccepts(s: State, rand: Bytes, c: Mark, f: State)
    requires |rand| == 16 && AttachReady(s) && AttachAt(s, rand, c, f)
    requires CanMove(c, SgwReceive, rand) && Enabled(f, SgwReceive) && c.g == 3
    ensures AttachAt(s, rand, Moved(c, SgwReceive), Do(f, SgwReceive))
  {
    hide On, UeAtMark, Xor55, HasNext;
    CoreLinks(s, rand, c, f);
    var g, ip := s.sgw.nextTeid, s.pgw.nextIp;
    OnNext(s.s11q, f.s11q, AtAsked(s.enb.nextUeId, s.enb.nextTeid), From(c.m, 3) + From(c.m, 6), 1);
    OnSend(s.s11r, f.s11r, AtGiven(g, Next32(g), ip), 1, From(c.m, 4) + From(c.m, 7));
  }

  lemma PgwGrants(s: State, rand: Bytes, c: Mark, f: State)
    requires |rand| == 16 && AttachReady(s) && AttachAt(s, rand, c, f)
    requires CanMove(c, PgwReceive(true), rand) && Enabled(f, PgwReceive(true))
    ensures AttachAt(s, rand, Moved(c, PgwReceive(true)), Do(f, PgwReceive(true)))
  {
    hide On, UeAtMark, Xor55, HasNext;
    CoreLinks(s, rand, c, f);
    OnNext(s.s5q, f.s5q, [BASE_IMSI + s.enb.nextUeId], 1, 0);
    OnSend(s.s5r, f.s5r, [PgwAnswer(16, s.pgw.nextIp)], 0, 0);
  }

  lemma SgwPasses(s: State, rand: Bytes, c: Mark, f: State)
    requires |rand| == 16 && AttachReady(s) && AttachAt(s, rand, c, f)
    requires CanMove(c, SgwAnswer, rand) && Enabled(f, SgwAnswer)
    ensures AttachAt(s, rand, Moved(c, SgwAnswer), Do(f, SgwAnswer))
  {
    hide On, UeAtMark, Xor55, HasNext;
    CoreLinks(s, rand, c, f);
    var g, ip := s.sgw.nextTeid, s.pgw.nextIp;
    OnNext(s.s5r, f.s5r, [PgwAnswer(16, ip)], 1, 0);
    OnSend(s.s11r, f.s11r, AtGiven(g, Next32(g), ip), 0, 0);
  }

  lemma BeginsOut(s: State, n: nat, rand: Bytes, h: nat)
    requires |rand| == 16
    ensures OnInitialUe(MmeAtMark(s, n, rand, 0, h), n, BASE_IMSI + n)
            == MmeOut(MmeAtMark(s, n, rand, 1, 0), [], [BASE_IMSI + n], [])
  {
    hide Xor55, Next32;
  }

  lemma MmeBegins(s: State, rand: Bytes, c: Mark, f: State)
    requires |rand| == 16 && AttachReady(s) && AttachAt(s, rand, c, f) && Enabled(f, MmeReceive) && c.m == 0
    ensures AttachAt(s, rand, Moved(c, MmeReceive), Do(f, MmeReceive))
  {
    hide On, Xor55, HasNext, OnInitialUe, MmeAtMark, EnbAtMark, SgwAtMark, AtVectors, AtGiven, AtDown, AtAsked;
    RadioLinks(s, rand, c, f);
    AttachWaits(s, rand, c, f);
    var n := s.enb.nextUeId;
    BeginsOut(s, n, rand, c.h);
    OnNext(s.up, f.up, AtUp(n, rand, s.enb.nextTeid), 1 + c.e, 0);
    OnSend(s.air, f.air, [BASE_IMSI + n], 0, 0);
    SendNothing(f.down);
    SendNothing(f.s11q);
  }

  lemma ChallengesOut(s: State, n: nat, rand: Bytes)
    requires |rand| == 16
    ensures var m := MmeAtMark(s, n, rand, 1, 2);
            && m.pc.AwaitingAuth? && m.pc.imsi in m.pending
            && OnVectors(m, false) == MmeOut(MmeAtMark(s, n, rand, 2, 2), [AuthRequest(n, n, rand)], [], [])
  {
    hide Xor55, Next32;
  }

  lemma MmeChallenges(s: State, rand: Bytes, c: Mark, f: State)
    requires |rand| == 16 && AttachReady(s) && AttachAt(s, rand, c, f)
    requires Enabled(f, MmeVectors(false)) && c.m == 1 && c.h == 2
    ensures AttachAt(s, rand, Moved(c, MmeVectors(false)), Do(f, MmeVectors(false)))
  {
    hide On, Xor55, HasNext, OnVectors, MmeAtMark, EnbAtMark, SgwAtMark, AtVectors, AtGiven, AtUp, AtAsked;
    ChallengesOut(s, s.enb.nextUeId, rand);
    OnSend(s.down, f.down, AtDown(s.enb.nextUeId, rand, Next32(s.sgw.nextTeid), s.pgw.nextIp),
           0, From(c.e, 1) + From(c.e, 2) + From(c.e, 3));
    SendNothing(f.air);
    SendNothing(f.s11q);
  }

  lemma AuthenticatesOut(s: State, n: nat, rand: Bytes, h: nat)
    requires |rand| == 16
    ensures OnAuthResponse(MmeAtMark(s, n, rand, 2, h), n, Xor55(rand[..8]))
            == MmeOut(MmeAtMark(s, n, rand, 3, h), [SecurityCommand(n, n)], [], [CreateSession(BASE_IMSI + n)])
  {
    hide Xor55, Next32;
    assert Xor55(rand[..8])[..8] == Xor55(rand[..8]);
  }

  lemma MmeAuthenticates(s: State, rand: Bytes, c: Mark, f: State)
    requires |rand| == 16 && AttachReady(s) && AttachAt(s, rand, c, f) && Enabled(f, MmeReceive) && c.m == 2 && c.e >= 1
    ensures AttachAt(s, rand, Moved(c, MmeReceive), Do(f, MmeReceive))
  {
    hide On, Xor55, HasNext, OnAuthResponse, MmeAtMark, PhaseOnMme, EnbAtMark, SgwAtMark, AtVectors, AtGiven;
    RadioLinks(s, rand, c, f);
    AttachWaits(s, rand, c, f);
    var n := s.enb.nextUeId;
    AuthenticatesOut(s, n, rand, c.h);
    OnNext(s.up, f.up, AtUp(n, rand, s.enb.nextTeid), 1 + c.e, 1);
    OnSend(s.down, f.down, AtDown(n, rand, Next32(s.sgw.nextTeid), s.pgw.nextIp),
           1, From(c.e, 1) + From(c.e, 2) + From(c.e, 3));
    OnSend(s.s11q, f.s11q, AtAsked(n, s.enb.nextTeid), 0, From(c.g, 1) + From(c.g, 4));
    SendNothing(f.air);
  }

  lemma SetsUpOut(s: State, n: nat, rand: Bytes, c: Mark)
    requires |rand| == 16 && c.m == 3
    ensures var g, ip := s.sgw.nextTeid, s.pgw.nextIp;
            OnCreateAnswer(MmeAtMark(s, n, rand, c.m, c.h), Created(g, Next32(g), ip))
            == MmeOut(MmeAtMark(s, n, rand, 4, c.h), [SetupRequest(n, n, Next32(g), ip)], [], [])
  {
    hide Xor55, Next32;
    var g, ip := s.sgw.nextTeid, s.pgw.nextIp;
    var b := Bearer(5, 9, g, Next32(g), 0, ip);
    assert [] + [b] == [b] && DefaultAt([b]) == 0;
  }

  lemma MmeSetsUp(s: State, rand: Bytes, c: Mark, f: State)
    requires |rand| == 16 && AttachReady(s) && AttachAt(s, rand, c, f) && Enabled(f, MmeAnswer) && c.m == 3 && c.g >= 3
    ensures AttachAt(s, rand, Moved(c, MmeAnswer), Do(f, MmeAnswer))
  {
    hide On, Xor55, HasNext, OnCreateAnswer, MmeAtMark;
    CoreLinks(s, rand, c, f);
    AttachWaits(s, rand, c, f);
    var g, ip := s.sgw.nextTeid, s.pgw.nextIp;
    SetsUpOut(s, s.enb.nextUeId, rand, c);
    OnNext(s.s11r, f.s11r, AtGiven(g, Next32(g), ip), From(c.g, 3) + From(c.g, 4), 0);
    OnSend(s.down, f.down, AtDown(s.enb.nextUeId, rand, Next32(g), ip),
           2, From(c.e, 1) + From(c.e, 2) + From(c.e, 3));
    SendNothing(f.air);
    SendNothing(f.s11q);
  }

  /** Security Mode Complete: nothing depends on it. */
  lemma MmeNotes(s: State, rand: Bytes, c: Mark, f: State)
    requires |rand| == 16 && AttachReady(s) && AttachAt(s, rand, c, f) && Enabled(f, MmeReceive) && c.m == 4 && c.e >= 2
    ensures AttachAt(s, rand, Moved(c, MmeReceive), Do(f, MmeReceive))
  {
    hide On, Xor55, HasNext, EnbAtMark, SgwAtMark, AtVectors, AtGiven, AtDown, AtAsked;
    RadioLinks(s, rand, c, f);
    OnNext(s.up, f.up, AtUp(s.enb.nextUeId, rand, s.enb.nextTeid), 1 + c.e, 2);
    SendNothing(f.down);
    SendNothing(f.air);
    SendNothing(f.s11q);
  }

  /** Attach Complete. */
  lemma MmeRegisters(s: State, rand: Bytes, c: Mark, f: State)
    requires |rand| == 16 && AttachReady(s) && AttachAt(s, rand, c, f) && Enabled(f, MmeReceive) && c.m == 7 && c.e >= 4
    ensures AttachAt(s, rand, Moved(c, MmeReceive), Do(f, MmeReceive))
  {
    hide On, Xor55, HasNext, EnbAtMark, SgwAtMark, AtVectors, AtGiven, AtDown, AtAsked;
    RadioLinks(s, rand, c, f);
    OnNext(s.up, f.up, AtUp(s.enb.nextUeId, rand, s.enb.nextTeid), 1 + c.e, 4);
    SendNothing(f.down);
    SendNothing(f.air);
    SendNothing(f.s11q);
  }

  lemma TellsOut(s: State, n: nat, rand: Bytes, c: Mark)
    requires |rand| == 16 && c.m == 5
    ensures OnSetupResponse(MmeAtMark(s, n, rand, c.m, c.h), n, s.enb.nextTeid)
            == MmeOut(MmeAtMark(s, n, rand, 6, c.h), [], [], [ModifyBearer(BASE_IMSI + n, s.enb.nextTeid)])
  {
    hide Xor55, Next32;
    var b := Bearer(5, 9, s.sgw.nextTeid, Next32(s.sgw.nextTeid), 0, s.pgw.nextIp);
    assert DefaultAt([b]) == 0 && [b][0 := b.(enbTeid := s.enb.nextTeid)] == [b.(enbTeid := s.enb.nextTeid)];
  }

  lemma MmeTells(s: State, rand: Bytes, c: Mark, f: State)
    requires |rand| == 16 && AttachReady(s) && AttachAt(s, rand, c, f) && Enabled(f, MmeReceive) && c.m == 5 && c.e >= 3
    ensures AttachAt(s, rand, Moved(c, MmeReceive), Do(f, MmeReceive))
  {
    hide On, Xor55, HasNext, OnSetupResponse, MmeAtMark, PhaseOnMme, EnbAtMark, SgwAtMark, AtDown, AtVectors, AtGiven;
    RadioLinks(s, rand, c, f);
    AttachWaits(s, rand, c, f);
    var n := s.enb.nextUeId;
    TellsOut(s, n, rand, c);
    OnNext(s.up, f.up, AtUp(n, rand, s.enb.nextTeid), 1 + c.e, 3);
    OnSend(s.s11q, f.s11q, AtAsked(n, s.enb.nextTeid), 1, From(c.g, 1) + From(c.g, 4));
    SendNothing(f.down);
    SendNothing(f.air);
  }

  lemma MmeIsTold(s: State, rand: Bytes, c: Mark, f: State)
    requires |rand| == 16 && AttachReady(s) && AttachAt(s, rand, c, f) && Enabled(f, MmeAnswer) && c.m == 6 && c.g == 4
    ensures AttachAt(s, rand, Moved(c, MmeAnswer), Do(f, MmeAnswer))
  {
    hide On, Xor55, HasNext;
    CoreLinks(s, rand, c, f);
    var g, ip := s.sgw.nextTeid, s.pgw.nextIp;
    OnNext(s.s11r, f.s11r, AtGiven(g, Next32(g), ip), 2, 1);
    SendNothing(f.down);
    SendNothing(f.air);
    SendNothing(f.s11q);
  }

  lemma AttachStep(s: State, rand: Bytes, c: Mark, f: State, a: Action)
    requires |rand| == 16 && AttachReady(s) && AttachAt(s, rand, c, f) && CanMove(c, a, rand) && Enabled(f, a)
    ensures AttachAt(s, rand, Moved(c, a), Do(f, a)) && Total(Moved(c, a)) == Total(c) + 1
  {
    hide AttachAt, AttachReady, Do, Enabled;
    match a
    case EnbReceive => EnbStep(s, rand, c, f);
    case EnbFinish => EnbEnds(s, rand, c, f);
    case HssReceive(_) => HssStep(s, rand, c, f);
    case AuthArrives => VectorsCome(s, rand, c, f);
    case SgwReceive =>
      if c.g == 0 { SgwOpens(s, rand, c, f); } else { SgwAccepts(s, rand, c, f); }
    case PgwReceive(_) => PgwGrants(s, rand, c, f);
    case SgwAnswer => SgwPasses(s, rand, c, f);
    case MmeVectors(_) => MmeChallenges(s, rand, c, f);
    case MmeAnswer =>
      if c.m == 3 { MmeSetsUp(s, rand, c, f); } else { MmeIsTold(s, rand, c, f); }
    case MmeReceive => AttachMmeStep(s, rand, c, f);
  }

  lemma AttachMmeStep(s: State, rand: Bytes, c: Mark, f: State)
    requires |rand| == 16 && AttachReady(s) && AttachAt(s, rand, c, f)
    requires CanMove(c, MmeReceive, rand) && Enabled(f, MmeReceive)
    ensures AttachAt(s, rand, Moved(c, MmeReceive), Do(f, MmeReceive))
  {
    hide AttachAt, AttachReady, Do, Enabled;
    match c.m
    case 0 => MmeBegins(s, rand, c, f);
    case 2 => MmeAuthenticates(s, rand, c, f);
    case 4 => MmeNotes(s, rand, c, f);
    case 5 => MmeTells(s, rand, c, f);
    case _ => MmeRegisters(s, rand, c, f);
  }

  // ---------------------------------------------------------------- the procedure

  lemma {:induction false} AttachRun(s: State, rand: Bytes, c: Mark, f: State, acts: seq<Action>) returns (c': Mark)
    requires |rand| == 16 && AttachReady(s) && AttachAt(s, rand, c, f)
    requires IsRun(f, acts) && forall a :: a in acts ==> Favourable(a, rand)
    ensures AttachAt(s, rand, c', Last(f, acts)) && Total(c') == Total(c) + |acts|
    decreases |acts|
  {
    hide AttachAt, AttachReady, Do, Enabled, Favourable, CanMove, Moved, Total;
    if acts == [] {
      c' := c;
    } else {
      AttachOnly(s, rand, c, f, acts[0]);
      AttachStep(s, rand, c, f, acts[0]);
      c' := AttachRun(s, rand, Moved(c, acts[0]), Do(f, acts[0]), acts[1..]);
    }
  }

  /** Some step that can be taken, as long as the attach is not over. */
  function NextMove(c: Mark, rand: Bytes): (a: Action)
    requires Coherent(c) && Total(c) < 18
    ensures CanMove(c, a, rand)
  {
    if c.m == 0 then MmeReceive
    else if c.h == 0 then HssReceive(rand)
    else if c.h == 1 then AuthArrives
    else if c.m == 1 then MmeVectors(false)
    else if c.e == 0 then EnbReceive
    else if c.m == 2 then MmeReceive
    else if c.e == 1 then EnbReceive
    else if c.g == 0 then SgwReceive
    else if c.g == 1 then PgwReceive(true)
    else if c.g == 2 then SgwAnswer
    else if c.m == 3 then MmeAnswer
    else if c.m == 4 then MmeReceive
    else if c.e == 2 then EnbReceive
    else if c.e == 3 then EnbFinish
    else if c.m == 5 then MmeReceive
    else if c.g == 3 then SgwReceive
    else if c.m == 6 then MmeAnswer
    else MmeReceive
  }

  lemma AttachGoesOn(s: State, rand: Bytes, c: Mark, f: State)
    requires |rand| == 16 && AttachReady(s) && AttachAt(s, rand, c, f)
    ensures Total(c) <= 18 && (Total(c) == 18 ==> c == Mark(4, 8, 2, 4))
    ensures (exists a :: Favourable(a, rand) && Enabled(f, a)) <==> Total(c) < 18
  {
    AttachWaits(s, rand, c, f);
    hide AttachAt, AttachReady, Enabled, Favourable;
    forall a ensures Favourable(a, rand) && Enabled(f, a) <==> CanMove(c, a, rand) {
      AttachOnly(s, rand, c, f, a);
    }
    if Total(c) < 18 {
      assert CanMove(c, NextMove(c, rand), rand);
    }
  }

  /** Between s and f each link has carried the attach's messages, in order, up to some point. */
  ghost predicate OnCourse(s: State, rand: Bytes, f: State)
    requires |rand| == 16
  {
    var n, t, g, ip := s.enb.nextUeId, s.enb.nextTeid, s.sgw.nextTeid, s.pgw.nextIp;
    && s.up.sent <= f.up.sent <= s.up.sent + AtUp(n, rand, t)
    && s.down.sent <= f.down.sent <= s.down.sent + AtDown(n, rand, Next32(g), ip)
    && s.air.sent <= f.air.sent <= s.air.sent + [BASE_IMSI + n]
    && s.aia.sent <= f.aia.sent <= s.aia.sent + AtVectors(n, rand)
    && s.s11q.sent <= f.s11q.sent <= s.s11q.sent + AtAsked(n, t)
    && s.s11r.sent <= f.s11r.sent <= s.s11r.sent + AtGiven(g, Next32(g), ip)
    && s.s5q.sent <= f.s5q.sent <= s.s5q.sent + [BASE_IMSI + n]
    && s.s5r.sent <= f.s5r.sent <= s.s5r.sent + [PgwAnswer(16, ip)]
  }

  /** How things stand when the attach is over: everything was sent and received, nothing is under
      way, and one more UE is registered, with one bearer. */
  ghost predicate NewlyAttached(s: State, rand: Bytes, f: State)
    requires |rand| == 16
  {
    var n, t, g, ip := s.enb.nextUeId, s.enb.nextTeid, s.sgw.nextTeid, s.pgw.nextIp;
    && Quiescent(f)
    && f.up.sent == s.up.sent + AtUp(n, rand, t) && f.down.sent == s.down.sent + AtDown(n, rand, Next32(g), ip)
    && f.s11q.sent == s.s11q.sent + AtAsked(n, t)
    && f.mme.store == s.mme.store[n := Ue(BASE_IMSI + n, n, n, Registered, Xor55(rand[..8]),
                                          [Bearer(5, 9, g, Next32(g), t, ip)])]
    && f.mme.nextId == Next32(n) && f.enb == Enb(Next32(t), Next32(n), None)
    && f.sgw == Sgw(Next32(Next32(g)), SgwReady) && f.pgw == Pgw(Next32(ip))
  }

  lemma OnPrefix<T>(l0: Link<T>, l: Link<T>, ms: seq<T>, sent: nat, read: nat)
    requires On(l0, l, ms, sent, read)
    ensures l0.sent <= l.sent <= l0.sent + ms
  {
  }

  lemma AttachCourse(s: State, rand: Bytes, c: Mark, f: State)
    requires |rand| == 16 && AttachAt(s, rand, c, f)
    ensures OnCourse(s, rand, f)
  {
    hide On, From, Coherent, NodesAt, Xor55;
    var n, t, g, ip := s.enb.nextUeId, s.enb.nextTeid, s.sgw.nextTeid, s.pgw.nextIp;
    OnPrefix(s.up, f.up, AtUp(n, rand, t), 1 + c.e, From(c.m, 1) + From(c.m, 3) + From(c.m, 5) + From(c.m, 6) + From(c.m, 8));
    OnPrefix(s.down, f.down, AtDown(n, rand, Next32(g), ip),
             From(c.m, 2) + From(c.m, 3) + From(c.m, 4), From(c.e, 1) + From(c.e, 2) + From(c.e, 3));
    OnPrefix(s.air, f.air, [BASE_IMSI + n], From(c.m, 1), From(c.h, 1));
    OnPrefix(s.aia, f.aia, AtVectors(n, rand), From(c.h, 1), From(c.h, 2));
    OnPrefix(s.s11q, f.s11q, AtAsked(n, t), From(c.m, 3) + From(c.m, 6), From(c.g, 1) + From(c.g, 4));
    OnPrefix(s.s11r, f.s11r, AtGiven(g, Next32(g), ip), From(c.g, 3) + From(c.g, 4), From(c.m, 4) + From(c.m, 7));
    OnPrefix(s.s5q, f.s5q, [BASE_IMSI + n], From(c.g, 1), From(c.g, 2));
    OnPrefix(s.s5r, f.s5r, [PgwAnswer(16, ip)], From(c.g, 2), From(c.g, 3));
  }

  lemma AttachEnds(s: State, rand: Bytes, f: State)
    requires |rand| == 16 && AttachReady(s) && AttachAt(s, rand, Mark(4, 8, 2, 4), f)
    ensures NewlyAttached(s, rand, f)
  {
    hide On, Xor55;
    var n, t, g, ip := s.enb.nextUeId, s.enb.nextTeid, s.sgw.nextTeid, s.pgw.nextIp;
    OnDone(s.up, f.up, AtUp(n, rand, t));
    OnDone(s.down, f.down, AtDown(n, rand, Next32(g), ip));
    OnDone(s.air, f.air, [BASE_IMSI + n]);
    OnDone(s.aia, f.aia, AtVectors(n, rand));
    OnDone(s.s11q, f.s11q, AtAsked(n, t));
    OnDone(s.s11r, f.s11r, AtGiven(g, Next32(g), ip));
    OnDone(s.s5q, f.s5q, [BASE_IMSI + n]);
    OnDone(s.s5r, f.s5r, [PgwAnswer(16, ip)]);
  }

  lemma StartsReady(s: State)
    requires Reachable(s) && FewAttaches(s) && Quiescent(s)
    ensures AttachReady(s)
  {
    hide Reachable, Quiescent;
    NoneLeftOver(s);
    SameNumber(s);
  }

  /** The attach of one more UE, from any reachable state with nothing under way: left alone, and
      if no chaos drop and no refusal ends it, the nodes take eighteen steps, in whatever order,
      send on each link these messages in this order, and stop with the UE registered, its bearer
      holding what the S-GW, the P-GW and the eNB allocated. */
  lemma AttachProcedure(s: State, rand: Bytes, acts: seq<Action>)
    requires |rand| == 16 && Reachable(s) && FewAttaches(s) && Quiescent(s)
    requires IsRun(s, [EnbCommand(AttachOne)] + acts) && forall a :: a in acts ==> Favourable(a, rand)
    ensures var f := Last(s, [EnbCommand(AttachOne)] + acts);
            && |acts| <= 18 && ((exists a :: Favourable(a, rand) && Enabled(f, a)) <==> |acts| < 18)
            && OnCourse(s, rand, f) && (|acts| == 18 ==> NewlyAttached(s, rand, f))
  {
    hide Do, Enabled, Favourable, AttachAt, AttachReady, Reachable, Quiescent, OnCourse, NewlyAttached;
    var c0, run := EnbCommand(AttachOne), [EnbCommand(AttachOne)] + acts;
    assert run[0] == c0 && run[1..] == acts;
    StartsReady(s);
    AttachBegins(s, rand);
    var f := Last(Do(s, c0), acts);
    var c := AttachRun(s, rand, Mark(0, 0, 0, 0), Do(s, c0), acts);
    AttachGoesOn(s, rand, c, f);
    AttachCourse(s, rand, c, f);
    if |acts| == 18 {
      AttachEnds(s, rand, f);
    }
  }

  /** The first attach of all, in numbers. */
  lemma FirstAttach(s: State, rand: Bytes, acts: seq<Action>)
    requires |rand| == 16 && IsInit(s) && |acts| == 18
    requires IsRun(s, [EnbCommand(AttachOne)] + acts) && forall a :: a in acts ==> Favourable(a, rand)
    ensures Last(s, [EnbCommand(AttachOne)] + acts).mme.store ==
            map[1 := Ue(404100000000001, 1, 1, Registered, Xor55(rand[..8]), [Bearer(5, 9, 1000, 1001, 100, 0x0A00_0001)])]
  {
    hide Do, Enabled, Favourable, Reachable, OnCourse, Xor55;
    InitReachable(s);
    AttachProcedure(s, rand, acts);
  }

  lemma InitReachable(s: State)
    requires IsInit(s)
    ensures Reachable(s) && FewAttaches(s) && Quiescent(s)
  {
    var none: seq<Action> := [];
    assert IsRun(s, none) && Last(s, none) == s;
  }

  // ---------------------------------------------------------------- refusals

  /** A session that the PCRF does not grant: no address, and no answer from the S-GW. */
  lemma RefusalIsSilent(s: State)
    requires s.sgw.pc.AwaitingPgw? && HasNext(s.s5q) && Drained(s.s5r)
    ensures Enabled(s, PgwReceive(false)) && Enabled(Do(s, PgwReceive(false)), SgwAnswer)
    ensures var f := Do(Do(s, PgwReceive(false)), SgwAnswer);
            && f.s5r.sent == s.s5r.sent + [PgwAnswer(64, 0)] && f.s11r == s.s11r
            && f.pgw == s.pgw && f.ipOwner == s.ipOwner && f.sgw == Sgw(s.sgw.nextTeid, SgwReady) && f.mme == s.mme
  {
    SendNothing(s.s11r);
  }

  /** An attach that ends early sends the eNB nothing more and gives the UE no bearer: a chaos drop
      after the vectors, a timeout of the wait for the session. */
  lemma EarlyEnd(s: State, a: Action)
    requires Reachable(s) && FewAttaches(s) && Enabled(s, a)
    requires a == MmeVectors(true) || (a == MmeTimeout && s.mme.pc.AwaitingCreate?)
    ensures var id, f := s.mme.pc.mmeId, Do(s, a);
            && f.mme.pc.Dispatching? && f.down == s.down && f.s11q == s.s11q
            && id in f.mme.store && f.mme.store[id].bearers == []
            && f.mme.store[id].emm == if a.MmeVectors? then AuthPending else SessionPending
  {
    hide Reachable, StoreOk, DownOk, UpOk, PhaseSent, AuthOk, IdsOk, TeidsOk, Owned, Authentic;
    ReachableCore(s);
    UeAt(s, s.mme.pc.mmeId);
    SendNothing(s.down);
    SendNothing(s.s11q);
  }
}
