/** Session TEIDs and UE addresses of different UEs differ in every run, timeouts and crossed
    answers included, as long as at most 2^32 of each have been allocated. A TEID and an address
    are compared by how many were allocated before them: the counters start inside the 32-bit
    range and wrap, so the numbers themselves are not in order. */
module S1Distinct {
  import opened Bits
  import opened S1Nodes
  import opened S1Runs
  import opened S1Theorems

  /** How many S-GW TEIDs were allocated before this one. */
  function TeidNo(teid: nat): (n: nat)
    ensures n < U32_MOD
  {
    (teid - FIRST_SGW_TEID) % U32_MOD
  }

  /** How many addresses were allocated before this one. */
  function IpNo(ip: nat): (n: nat)
    ensures n < U32_MOD
  {
    (ip - FIRST_UE_IP) % U32_MOD
  }

  lemma NumberOfTeid(n: nat)
    requires n < U32_MOD
    ensures TeidNo((FIRST_SGW_TEID + n) % U32_MOD) == n
  {
  }

  lemma NumberOfIp(n: nat)
    requires n < U32_MOD
    ensures IpNo((FIRST_UE_IP + n) % U32_MOD) == n
  {
  }

  /** No TEID and no address in common. */
  predicate Apart(b: Bearer, c: Bearer)
  {
    && b.s11 != c.s11 && b.s11 != c.s1u && b.s1u != c.s11 && b.s1u != c.s1u
    && b.ueIp != c.ueIp
  }

  ghost predicate StoreApart(store: map<nat, Ue>)
  {
    forall i, j, m, n :: i in store && j in store && i != j
                         && 0 <= m < |store[i].bearers| && 0 <= n < |store[j].bearers| ==>
      Apart(store[i].bearers[m], store[j].bearers[n])
  }

  /** A pair of TEIDs and an address from among the first t and the first p. */
  predicate Before(s11: nat, s1u: nat, ip: nat, t: nat, p: nat)
  {
    TeidNo(s1u) == TeidNo(s11) + 1 && TeidNo(s11) + 2 <= t && IpNo(ip) < p
  }

  ghost predicate StoreBefore(store: map<nat, Ue>, t: nat, p: nat)
  {
    forall i, m :: i in store && 0 <= m < |store[i].bearers| ==>
      Before(store[i].bearers[m].s11, store[i].bearers[m].s1u, store[i].bearers[m].ueIp, t, p)
  }

  ghost predicate AnswersBefore(l: Link<FromSgw>, hi: nat, t: nat, p: nat)
  {
    forall r :: l.read <= r < hi && r < |l.sent| && l.sent[r].Created? ==>
      Before(l.sent[r].s11, l.sent[r].s1u, l.sent[r].ueIp, t, p)
  }

  /** Contexts hold older sessions than every answer still to be read, and those are in order. */
  ghost predicate AnswersOk(store: map<nat, Ue>, l: Link<FromSgw>)
  {
    forall r :: l.read <= r < |l.sent| && l.sent[r].Created? ==>
      && StoreBefore(store, TeidNo(l.sent[r].s11), IpNo(l.sent[r].ueIp))
      && AnswersBefore(l, r, TeidNo(l.sent[r].s11), IpNo(l.sent[r].ueIp))
  }

  /** TEIDs given to answers so far, or to sessions given up. */
  function NextPair(sgw: Sgw, sessions: nat): nat
  {
    if sgw.pc.AwaitingPgw? then TeidNo(sgw.pc.s11) else 2 * sessions
  }

  ghost predicate SgwOk(sgw: Sgw, sessions: nat)
  {
    && sgw.nextTeid == (FIRST_SGW_TEID + 2 * sessions) % U32_MOD
    && (sgw.pc.AwaitingPgw? ==> TeidNo(sgw.pc.s1u) == TeidNo(sgw.pc.s11) + 1 && TeidNo(sgw.pc.s11) + 2 <= 2 * sessions)
  }

  ghost predicate PgwAnswersOk(l: Link<FromPgw>, top: nat)
  {
    && (forall n :: l.read <= n < |l.sent| && l.sent[n].cause == ACCEPTED ==> IpNo(l.sent[n].ueIp) < top)
    && (forall m, n :: l.read <= m < n < |l.sent| && l.sent[m].cause == ACCEPTED && l.sent[n].cause == ACCEPTED ==>
          IpNo(l.sent[m].ueIp) < IpNo(l.sent[n].ueIp))
  }

  /** Everything handed on so far is among the first t TEIDs and the first p addresses. */
  ghost predicate AllBefore(store: map<nat, Ue>, l: Link<FromSgw>, t: nat, p: nat)
  {
    StoreBefore(store, t, p) && AnswersBefore(l, |l.sent|, t, p)
  }

  ghost predicate IpsBefore(store: map<nat, Ue>, l: Link<FromSgw>, t: nat, s5r: Link<FromPgw>)
  {
    forall n :: s5r.read <= n < |s5r.sent| && s5r.sent[n].cause == ACCEPTED ==>
      AllBefore(store, l, t, IpNo(s5r.sent[n].ueIp))
  }

  /** At most 2^32 TEIDs and 2^32 addresses were allocated. */
  predicate FewSessions(s: State)
  {
    2 * s.sessions <= U32_MOD && |s.ipOwner| <= U32_MOD
  }

  ghost predicate ApartInv(s: State)
  {
    var t := NextPair(s.sgw, s.sessions);
    && s.pgw.nextIp == (FIRST_UE_IP + |s.ipOwner|) % U32_MOD && SgwOk(s.sgw, s.sessions)
    && PgwAnswersOk(s.s5r, |s.ipOwner|)
    && StoreApart(s.mme.store) && AnswersOk(s.mme.store, s.s11r)
    && AllBefore(s.mme.store, s.s11r, t, |s.ipOwner|)
    && IpsBefore(s.mme.store, s.s11r, t, s.s5r)
  }

  lemma InitApart(s: State)
    requires IsInit(s)
    ensures ApartInv(s)
  {
  }

  lemma BeforeLater(store: map<nat, Ue>, l: Link<FromSgw>, t: nat, p: nat, t': nat, p': nat)
    requires AllBefore(store, l, t, p) && t <= t' && p <= p'
    ensures AllBefore(store, l, t', p')
  {
  }

  lemma IpsLater(store: map<nat, Ue>, l: Link<FromSgw>, t: nat, s5r: Link<FromPgw>, t': nat)
    requires IpsBefore(store, l, t, s5r) && t <= t'
    ensures IpsBefore(store, l, t', s5r)
  {
    hide AllBefore;
    forall n | s5r.read <= n < |s5r.sent| && s5r.sent[n].cause == ACCEPTED
      ensures AllBefore(store, l, t', IpNo(s5r.sent[n].ueIp))
    {
      BeforeLater(store, l, t, IpNo(s5r.sent[n].ueIp), t', IpNo(s5r.sent[n].ueIp));
    }
  }

  /** The same sessions in both stores, eNB TEIDs aside. */
  ghost predicate SameBearers(store: map<nat, Ue>, store': map<nat, Ue>)
  {
    forall i, m :: i in store' && 0 <= m < |store'[i].bearers| ==>
      && i in store && m < |store[i].bearers|
      && store'[i].bearers[m].(enbTeid := 0) == store[i].bearers[m].(enbTeid := 0)
  }

  lemma SameApart(store: map<nat, Ue>, store': map<nat, Ue>, l: Link<FromSgw>, t: nat, p: nat, s5r: Link<FromPgw>)
    requires SameBearers(store, store')
    ensures StoreApart(store) ==> StoreApart(store')
    ensures AnswersOk(store, l) ==> AnswersOk(store', l)
    ensures AllBefore(store, l, t, p) ==> AllBefore(store', l, t, p)
    ensures IpsBefore(store, l, t, s5r) ==> IpsBefore(store', l, t, s5r)
  {
    forall t, p | StoreBefore(store, t, p) ensures StoreBefore(store', t, p) {
    }
    if StoreApart(store) {
      forall i, j, m, n | i in store' && j in store' && i != j
                          && 0 <= m < |store'[i].bearers| && 0 <= n < |store'[j].bearers|
        ensures Apart(store'[i].bearers[m], store'[j].bearers[n])
      {
        SameBearer(store, store', i, m);
        SameBearer(store, store', j, n);
        assert Apart(store[i].bearers[m], store[j].bearers[n]);
      }
    }
  }

  lemma SameBearer(store: map<nat, Ue>, store': map<nat, Ue>, i: nat, m: nat)
    requires SameBearers(store, store') && i in store' && m < |store'[i].bearers|
    ensures i in store && m < |store[i].bearers|
    ensures store'[i].bearers[m].(enbTeid := 0) == store[i].bearers[m].(enbTeid := 0)
  {
    var b := store'[i].bearers[m];
  }

  /** An answer read and not used, or a datagram lost. */
  lemma AnswerRead(store: map<nat, Ue>, l: Link<FromSgw>, t: nat, p: nat, s5r: Link<FromPgw>)
    requires HasNext(l)
    ensures AnswersOk(store, l) ==> AnswersOk(store, Receive(l))
    ensures AllBefore(store, l, t, p) ==> AllBefore(store, Receive(l), t, p)
    ensures IpsBefore(store, l, t, s5r) ==> IpsBefore(store, Receive(l), t, s5r)
  {
  }

  lemma PgwRead(store: map<nat, Ue>, l: Link<FromSgw>, t: nat, s5r: Link<FromPgw>, top: nat)
    requires HasNext(s5r)
    ensures PgwAnswersOk(s5r, top) ==> PgwAnswersOk(Receive(s5r), top)
    ensures IpsBefore(store, l, t, s5r) ==> IpsBefore(store, l, t, Receive(s5r))
  {
    hide AllBefore;
  }

  lemma ModifiedSent(store: map<nat, Ue>, l: Link<FromSgw>, t: nat, p: nat, s5r: Link<FromPgw>)
    ensures AnswersOk(store, l) ==> AnswersOk(store, Send(l, [Modified]))
    ensures AllBefore(store, l, t, p) ==> AllBefore(store, Send(l, [Modified]), t, p)
    ensures IpsBefore(store, l, t, s5r) ==> IpsBefore(store, Send(l, [Modified]), t, s5r)
  {
  }

  /** The S-GW passes on a session newer than all before it. */
  lemma CreatedSent(store: map<nat, Ue>, l: Link<FromSgw>, s11: nat, s1u: nat, ip: nat, t': nat, p': nat)
    requires AnswersOk(store, l) && AllBefore(store, l, TeidNo(s11), IpNo(ip)) && Before(s11, s1u, ip, t', p')
    ensures AnswersOk(store, Send(l, [Created(s11, s1u, ip)]))
    ensures AllBefore(store, Send(l, [Created(s11, s1u, ip)]), t', p')
  {
    hide TeidNo, IpNo;
    var l' := Send(l, [Created(s11, s1u, ip)]);
    forall r | l'.read <= r < |l'.sent| && l'.sent[r].Created?
      ensures StoreBefore(store, TeidNo(l'.sent[r].s11), IpNo(l'.sent[r].ueIp))
      ensures AnswersBefore(l', r, TeidNo(l'.sent[r].s11), IpNo(l'.sent[r].ueIp))
    {
      if r < |l.sent| {
        assert AnswersBefore(l, r, TeidNo(l.sent[r].s11), IpNo(l.sent[r].ueIp));
      }
    }
  }

  /** The MME binds the next answer to a context. */
  lemma Bind(store: map<nat, Ue>, l: Link<FromSgw>, id: nat, t: nat, p: nat, s5r: Link<FromPgw>)
    requires HasNext(l) && Head(l).Created? && id in store
    requires StoreApart(store) && AnswersOk(store, l) && AllBefore(store, l, t, p) && IpsBefore(store, l, t, s5r)
    ensures var r := Head(l);
            var b := Bearer(DEFAULT_EBI, 9, r.s11, r.s1u, 0, r.ueIp);
            var store' := store[id := store[id].(bearers := store[id].bearers + [b])];
            && StoreApart(store') && AnswersOk(store', Receive(l)) && AllBefore(store', Receive(l), t, p)
            && IpsBefore(store', Receive(l), t, s5r)
  {
    hide TeidNo, IpNo;
    var h := Head(l);
    var b := Bearer(DEFAULT_EBI, 9, h.s11, h.s1u, 0, h.ueIp);
    var store' := store[id := store[id].(bearers := store[id].bearers + [b])];
    assert StoreBefore(store, TeidNo(h.s11), IpNo(h.ueIp));
    assert Before(h.s11, h.s1u, h.ueIp, t, p);
    BindApart(store, id, b);
    forall t, p | StoreBefore(store, t, p) && Before(b.s11, b.s1u, b.ueIp, t, p) ensures StoreBefore(store', t, p) {
      BindBefore(store, id, b, t, p);
    }
    AnswerRead(store, l, t, p, s5r);
    forall r | l.read + 1 <= r < |l.sent| && l.sent[r].Created?
      ensures StoreBefore(store', TeidNo(l.sent[r].s11), IpNo(l.sent[r].ueIp))
    {
      var tr, pr := TeidNo(l.sent[r].s11), IpNo(l.sent[r].ueIp);
      assert AnswersBefore(l, r, tr, pr);
      assert Before(h.s11, h.s1u, h.ueIp, tr, pr);
      BindBefore(store, id, b, tr, pr);
    }
    forall n | s5r.read <= n < |s5r.sent| && s5r.sent[n].cause == ACCEPTED
      ensures AllBefore(store', Receive(l), t, IpNo(s5r.sent[n].ueIp))
    {
      assert AllBefore(store, l, t, IpNo(s5r.sent[n].ueIp));
      assert Before(h.s11, h.s1u, h.ueIp, t, IpNo(s5r.sent[n].ueIp));
      BindBefore(store, id, b, t, IpNo(s5r.sent[n].ueIp));
    }
  }

  lemma BindBefore(store: map<nat, Ue>, id: nat, b: Bearer, t: nat, p: nat)
    requires id in store && StoreBefore(store, t, p) && Before(b.s11, b.s1u, b.ueIp, t, p)
    ensures StoreBefore(store[id := store[id].(bearers := store[id].bearers + [b])], t, p)
  {
  }

  lemma BindApart(store: map<nat, Ue>, id: nat, b: Bearer)
    requires id in store && StoreApart(store) && StoreBefore(store, TeidNo(b.s11), IpNo(b.ueIp))
    requires TeidNo(b.s1u) == TeidNo(b.s11) + 1
    ensures StoreApart(store[id := store[id].(bearers := store[id].bearers + [b])])
  {
    hide TeidNo, IpNo;
    var store' := store[id := store[id].(bearers := store[id].bearers + [b])];
    forall i, j, m, n | i in store' && j in store' && i != j
                        && 0 <= m < |store'[i].bearers| && 0 <= n < |store'[j].bearers|
      ensures Apart(store'[i].bearers[m], store'[j].bearers[n])
    {
      if i == id && m == |store[id].bearers| {
        assert Before(store[j].bearers[n].s11, store[j].bearers[n].s1u, store[j].bearers[n].ueIp,
                      TeidNo(b.s11), IpNo(b.ueIp));
      } else if j == id && n == |store[id].bearers| {
        assert Before(store[i].bearers[m].s11, store[i].bearers[m].s1u, store[i].bearers[m].ueIp,
                      TeidNo(b.s11), IpNo(b.ueIp));
      } else {
        assert Apart(store[i].bearers[m], store[j].bearers[n]);
      }
    }
  }

  // ---------------------------------------------------------------- the steps

  /** Everything that an MME step which binds no session can do. */
  lemma ApartSameStore(s: State, s': State)
    requires ApartInv(s) && SameBearers(s.mme.store, s'.mme.store)
    requires s' == s.(mme := s'.mme, up := s'.up, down := s'.down, air := s'.air, aia := s'.aia, s11q := s'.s11q,
                      s11r := s'.s11r, s5q := s'.s5q, enb := s'.enb, phase := s'.phase, attaches := s'.attaches,
                      contexts := s'.contexts,
                      teidOwner := s'.teidOwner, notedAt := s'.notedAt, answers := s'.answers, timedOut := s'.timedOut)
    requires s'.s11r == s.s11r || (HasNext(s.s11r) && s'.s11r == Receive(s.s11r))
    ensures ApartInv(s')
  {
    hide StoreApart, AnswersOk, AllBefore, IpsBefore, PgwAnswersOk, SgwOk, SameBearers;
    var t, p := NextPair(s.sgw, s.sessions), |s.ipOwner|;
    SameApart(s.mme.store, s'.mme.store, s.s11r, t, p, s.s5r);
    if s'.s11r != s.s11r {
      AnswerRead(s'.mme.store, s.s11r, t, p, s.s5r);
    }
  }

  lemma ReceiveSame(s: State)
    requires Enabled(s, MmeReceive)
    ensures SameBearers(s.mme.store, Do(s, MmeReceive).mme.store)
  {
    hide PhaseOnMme, SwitchTeid, Authentic, DefaultBearer;
  }

  lemma OtherSame(s: State, a: Action)
    requires Enabled(s, a) && (a.MmeVectors? || a.MmeTimeout? || a.MmeStop? || a.AuthArrives?)
    ensures SameBearers(s.mme.store, Do(s, a).mme.store)
  {
  }

  lemma ApartReceive(s: State)
    requires ApartInv(s) && Enabled(s, MmeReceive)
    ensures ApartInv(Do(s, MmeReceive))
  {
    ReceiveSame(s);
    hide ApartInv, SameBearers, PhaseOnMme, MmeOnMessage;
    ApartSameStore(s, Do(s, MmeReceive));
  }

  lemma ApartOther(s: State, a: Action)
    requires ApartInv(s) && Enabled(s, a) && (a.MmeVectors? || a.MmeTimeout? || a.MmeStop? || a.AuthArrives?)
    ensures ApartInv(Do(s, a))
  {
    OtherSame(s, a);
    hide ApartInv, SameBearers, OnVectors, MmeOnTimeout;
    ApartSameStore(s, Do(s, a));
  }

  lemma ApartAnswer(s: State)
    requires ApartInv(s) && Enabled(s, MmeAnswer)
    ensures ApartInv(Do(s, MmeAnswer))
  {
    hide StoreApart, AnswersOk, AllBefore, IpsBefore, PgwAnswersOk, SgwOk, SameBearers, DefaultAt, DefaultBearer;
    var t, p := NextPair(s.sgw, s.sessions), |s.ipOwner|;
    if s.mme.pc.AwaitingCreate? && Head(s.s11r).Created? && s.mme.pc.mmeId in s.mme.store {
      Bind(s.mme.store, s.s11r, s.mme.pc.mmeId, t, p, s.s5r);
    } else {
      AnswerRead(s.mme.store, s.s11r, t, p, s.s5r);
    }
  }

  lemma ApartSgwReceive(s: State)
    requires ApartInv(s) && Enabled(s, SgwReceive) && FewSessions(Do(s, SgwReceive))
    ensures ApartInv(Do(s, SgwReceive))
  {
    hide StoreApart, AnswersOk, AllBefore, IpsBefore, PgwAnswersOk, TeidNo;
    var t, p := NextPair(s.sgw, s.sessions), |s.ipOwner|;
    if Head(s.s11q).ModifyBearer? {
      ModifiedSent(s.mme.store, s.s11r, t, p, s.s5r);
    } else {
      NumberOfTeid(2 * s.sessions);
      NumberOfTeid(2 * s.sessions + 1);
      NextTeids(s.sgw.nextTeid, s.sessions);
    }
  }

  /** Two more TEIDs. */
  lemma NextTeids(next: nat, sessions: nat)
    requires next == (FIRST_SGW_TEID + 2 * sessions) % U32_MOD
    ensures Next32(next) == (FIRST_SGW_TEID + (2 * sessions + 1)) % U32_MOD
    ensures Next32(Next32(next)) == (FIRST_SGW_TEID + 2 * (sessions + 1)) % U32_MOD
  {
    ModAdd(FIRST_SGW_TEID + 2 * sessions, 1, U32_MOD);
    ModAdd(FIRST_SGW_TEID + 2 * sessions + 1, 1, U32_MOD);
  }

  lemma ApartSgwAnswer(s: State)
    requires ApartInv(s) && Enabled(s, SgwAnswer)
    ensures ApartInv(Do(s, SgwAnswer))
  {
    hide StoreApart, AnswersOk, AllBefore, IpsBefore, PgwAnswersOk, TeidNo, IpNo;
    var t, p := NextPair(s.sgw, s.sessions), |s.ipOwner|;
    var t' := 2 * s.sessions;
    var h := Head(s.s5r);
    PgwRead(s.mme.store, s.s11r, t, s.s5r, p);
    if h.cause == ACCEPTED {
      NextAddress(s);
      CreatedSent(s.mme.store, s.s11r, s.sgw.pc.s11, s.sgw.pc.s1u, h.ueIp, t', p);
      IpsAfterCreated(s.mme.store, s.s11r, s.sgw.pc.s11, s.sgw.pc.s1u, h.ueIp, t', s.s5r, p);
    } else {
      assert Send(s.s11r, []) == s.s11r;
      BeforeLater(s.mme.store, s.s11r, t, p, t', p);
      IpsLater(s.mme.store, s.s11r, t, Receive(s.s5r), t');
    }
  }

  /** The next accepted answer of the P-GW is newer than everything handed on. */
  lemma NextAddress(s: State)
    requires ApartInv(s) && HasNext(s.s5r) && Head(s.s5r).cause == ACCEPTED
    ensures AllBefore(s.mme.store, s.s11r, NextPair(s.sgw, s.sessions), IpNo(Head(s.s5r).ueIp))
    ensures IpNo(Head(s.s5r).ueIp) < |s.ipOwner|
  {
    hide StoreApart, AnswersOk, AllBefore, TeidNo, IpNo;
  }

  lemma IpsAfterCreated(store: map<nat, Ue>, l: Link<FromSgw>, s11: nat, s1u: nat, ip: nat, t': nat, s5r: Link<FromPgw>,
                        top: nat)
    requires HasNext(s5r) && Head(s5r).cause == ACCEPTED && Head(s5r).ueIp == ip
    requires PgwAnswersOk(s5r, top) && AnswersOk(store, l) && IpsBefore(store, l, TeidNo(s11), s5r)
    requires TeidNo(s1u) == TeidNo(s11) + 1 && TeidNo(s11) + 2 <= t'
    ensures IpsBefore(store, Send(l, [Created(s11, s1u, ip)]), t', Receive(s5r))
  {
    hide AllBefore, AnswersOk, TeidNo, IpNo;
    forall n | s5r.read + 1 <= n < |s5r.sent| && s5r.sent[n].cause == ACCEPTED
      ensures AllBefore(store, Send(l, [Created(s11, s1u, ip)]), t', IpNo(s5r.sent[n].ueIp))
    {
      assert IpNo(s5r.sent[s5r.read].ueIp) < IpNo(s5r.sent[n].ueIp);
      assert AllBefore(store, l, TeidNo(s11), IpNo(s5r.sent[s5r.read].ueIp));
      CreatedSent(store, l, s11, s1u, ip, t', IpNo(s5r.sent[n].ueIp));
    }
  }

  lemma ApartSgwTimeout(s: State)
    requires ApartInv(s) && Enabled(s, SgwTimeout)
    ensures ApartInv(Do(s, SgwTimeout))
  {
    hide StoreApart, AnswersOk, AllBefore, IpsBefore, PgwAnswersOk;
    var t, p := NextPair(s.sgw, s.sessions), |s.ipOwner|;
    var t' := 2 * s.sessions;
    BeforeLater(s.mme.store, s.s11r, t, p, t', p);
    IpsLater(s.mme.store, s.s11r, t, s.s5r, t');
  }

  lemma PgwGranted(store: map<nat, Ue>, l: Link<FromSgw>, t: nat, s5r: Link<FromPgw>, ip: nat, n: nat)
    requires PgwAnswersOk(s5r, n) && IpsBefore(store, l, t, s5r) && AllBefore(store, l, t, n) && IpNo(ip) == n
    ensures PgwAnswersOk(Send(s5r, [PgwAnswer(ACCEPTED, ip)]), n + 1)
    ensures IpsBefore(store, l, t, Send(s5r, [PgwAnswer(ACCEPTED, ip)]))
  {
    hide AllBefore, IpNo;
  }

  lemma PgwDenied(store: map<nat, Ue>, l: Link<FromSgw>, t: nat, s5r: Link<FromPgw>, n: nat)
    requires PgwAnswersOk(s5r, n) && IpsBefore(store, l, t, s5r)
    ensures PgwAnswersOk(Send(s5r, [PgwAnswer(DENIED, 0)]), n)
    ensures IpsBefore(store, l, t, Send(s5r, [PgwAnswer(DENIED, 0)]))
  {
    hide AllBefore, IpNo;
  }

  lemma ApartPgw(s: State, grant: bool)
    requires ApartInv(s) && Enabled(s, PgwReceive(grant)) && FewSessions(Do(s, PgwReceive(grant)))
    ensures ApartInv(Do(s, PgwReceive(grant)))
  {
    hide StoreApart, AnswersOk, AllBefore, IpsBefore, PgwAnswersOk, SgwOk, IpNo, NextPair;
    var t, p := NextPair(s.sgw, s.sessions), |s.ipOwner|;
    if grant {
      BeforeLater(s.mme.store, s.s11r, t, p, t, p + 1);
      NumberOfIp(p);
      PgwGranted(s.mme.store, s.s11r, t, s.s5r, s.pgw.nextIp, p);
    } else {
      PgwDenied(s.mme.store, s.s11r, t, s.s5r, p);
    }
  }

  lemma ApartLost(s: State, a: Action)
    requires ApartInv(s) && Enabled(s, a)
    requires a.LoseS11Request? || a.LoseS11Answer? || a.LoseS5Request? || a.LoseS5Answer?
          || a.EnbCommand? || a.EnbReceive? || a.EnbFinish? || a.HssReceive?
    ensures ApartInv(Do(s, a))
  {
    hide StoreApart, AnswersOk, AllBefore, IpsBefore, PgwAnswersOk, SgwOk, EnbOnMessage, EnbOnCommand, PhaseOnEnb;
    var t, p := NextPair(s.sgw, s.sessions), |s.ipOwner|;
    if a.LoseS11Answer? {
      AnswerRead(s.mme.store, s.s11r, t, p, s.s5r);
    } else if a.LoseS5Answer? {
      PgwRead(s.mme.store, s.s11r, t, s.s5r, p);
    }
  }

  lemma StepKeepsApart(s: State, a: Action)
    requires ApartInv(s) && Enabled(s, a) && FewSessions(Do(s, a))
    ensures ApartInv(Do(s, a))
  {
    hide ApartInv, Do, Enabled, FewSessions;
    match a
    case MmeReceive => ApartReceive(s);
    case MmeVectors(_) => ApartOther(s, a);
    case MmeTimeout => ApartOther(s, a);
    case MmeStop => ApartOther(s, a);
    case AuthArrives => ApartOther(s, a);
    case MmeAnswer => ApartAnswer(s);
    case SgwReceive => ApartSgwReceive(s);
    case SgwAnswer => ApartSgwAnswer(s);
    case SgwTimeout => ApartSgwTimeout(s);
    case PgwReceive(grant) => ApartPgw(s, grant);
    case _ => ApartLost(s, a);
  }

  lemma SessionsGrow(s: State, a: Action)
    requires Enabled(s, a)
    ensures s.sessions <= Do(s, a).sessions && |s.ipOwner| <= |Do(s, a).ipOwner|
  {
    hide EnbOnMessage, EnbOnCommand, EnbComplete, MmeOnMessage, OnVectors, MmeOnAnswer, MmeOnTimeout, PhaseOnMme,
         PhaseOnEnb, NotedOnEnb, OwnersOnEnb, SgwOnCreate, SgwOnPgw;
  }

  lemma {:induction false} RunKeepsApart(s: State, acts: seq<Action>)
    requires IsRun(s, acts) && FewSessions(Last(s, acts))
    ensures FewSessions(s) && (ApartInv(s) ==> ApartInv(Last(s, acts)))
    decreases |acts|
  {
    hide ApartInv, Do, Enabled;
    if acts != [] {
      SessionsGrow(s, acts[0]);
      RunKeepsApart(Do(s, acts[0]), acts[1..]);
      if ApartInv(s) {
        StepKeepsApart(s, acts[0]);
      }
    }
  }

  /** While at most 2^32 TEIDs and at most 2^32 addresses have been allocated, the sessions of any
      two UEs share none. */
  lemma SessionsApart(f: State, i: nat, j: nat, m: nat, n: nat)
    requires Reachable(f) && FewSessions(f) && i in f.mme.store && j in f.mme.store && i != j
    requires m < |f.mme.store[i].bearers| && n < |f.mme.store[j].bearers|
    ensures Apart(f.mme.store[i].bearers[m], f.mme.store[j].bearers[n])
  {
    hide Do, Enabled, IsInit, AnswersOk, AllBefore, IpsBefore, PgwAnswersOk, Apart;
    var s, acts :| IsInit(s) && IsRun(s, acts) && Last(s, acts) == f;
    InitApart(s);
    RunKeepsApart(s, acts);
  }
}
