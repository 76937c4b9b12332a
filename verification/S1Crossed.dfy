/** Why ownership of an address needs that no wait times out: a run in which the answer to the
    first UE's request, coming late, is bound to the second UE. */
module S1Crossed {
  import opened Common
  import opened S1Nodes
  import opened S1Runs
  import opened S1Theorems
  import opened S1Sessions

  lemma {:induction false} RunAppend(s: State, acts: seq<Action>, a: Action)
    requires IsRun(s, acts) && Enabled(Last(s, acts), a)
    ensures IsRun(s, acts + [a]) && Last(s, acts + [a]) == Do(Last(s, acts), a)
    decreases |acts|
  {
    hide Do, Enabled;
    if acts == [] {
      assert acts + [a] == [a] && [a][1..] == [];
    } else {
      RunAppend(Do(s, acts[0]), acts[1..], a);
      assert (acts + [a])[1..] == acts[1..] + [a];
    }
  }

  lemma Extend(s: State, a: Action) returns (s': State)
    requires Reachable(s) && Enabled(s, a)
    ensures s' == Do(s, a) && Reachable(s')
  {
    hide Do, Enabled, IsInit;
    var s0, acts :| IsInit(s0) && IsRun(s0, acts) && Last(s0, acts) == s;
    RunAppend(s0, acts, a);
    s' := Do(s, a);
  }

  /** Nothing under way on the S1 and S6a links; n is the next identifier. */
  predicate Idle(s: State, n: nat)
  {
    && s.mme.pc == Dispatching && s.enb.completing == None
    && s.up.read == |s.up.sent| && s.down.read == |s.down.sent|
    && s.air.read == |s.air.sent| && s.aia.read == |s.aia.sent|
    && s.mme.nextId == n && s.enb.nextUeId == n
  }

  /** The S-GW side is as it was. */
  predicate SameGtp(s: State, s': State)
  {
    && s'.sgw == s.sgw && s'.pgw == s.pgw && s'.s11r == s.s11r && s'.s5q == s.s5q && s'.s5r == s.s5r
    && s'.ipOwner == s.ipOwner
  }

  const ZEROS: Bytes := [0, 0, 0, 0, 0, 0, 0, 0, 0, 0, 0, 0, 0, 0, 0, 0]

  /** From the Attach Request to the vectors at the MME. */
  lemma ToVectors(s: State, n: nat) returns (s': State)
    requires Reachable(s) && Idle(s, n)
    ensures Reachable(s') && SameGtp(s, s') && s'.s11q == s.s11q
    ensures s'.mme.pc == AwaitingAuth(n, n, BASE_IMSI + n) && s'.enb.completing == None
    ensures BASE_IMSI + n in s'.mme.pending && s'.mme.pending[BASE_IMSI + n] == HssVectors(ZEROS)
    ensures s'.mme.store == s.mme.store[n := Ue(BASE_IMSI + n, n, n, RegInitiated, NO_VECTORS.xres, [])]
    ensures Idle(s'.(mme := s'.mme.(pc := Dispatching)), Next32(n)) && s'.attaches == s.attaches + 1
  {
    hide Reachable, Xor55, DoEnbReceive, DoEnbFinish, DoMmeAnswer, DoMmeTimeout, DoMmeVectors, DoSgwReceive,
         DoPgwReceive;
    s' := ToRequest(s, n);
    s' := Extend(s', HssReceive(ZEROS));
    s' := Extend(s', AuthArrives);
  }

  /** The Attach Request, up to the request for vectors. */
  lemma ToRequest(s: State, n: nat) returns (s': State)
    requires Reachable(s) && Idle(s, n)
    ensures Reachable(s') && SameGtp(s, s') && s'.s11q == s.s11q
    ensures s'.mme.pc == AwaitingAuth(n, n, BASE_IMSI + n) && s'.enb.completing == None
    ensures s'.air == Send(s.air, [BASE_IMSI + n]) && s'.aia == s.aia
    ensures s'.mme.store == s.mme.store[n := Ue(BASE_IMSI + n, n, n, RegInitiated, NO_VECTORS.xres, [])]
    ensures Idle(s'.(mme := s'.mme.(pc := Dispatching), air := Receive(s'.air)), Next32(n))
    ensures s'.attaches == s.attaches + 1
  {
    hide Reachable, DoEnbReceive, DoEnbFinish, DoMmeAnswer, DoMmeTimeout, DoMmeVectors, DoSgwReceive, DoPgwReceive;
    s' := Extend(s, EnbCommand(AttachOne));
    s' := Extend(s', MmeReceive);
  }

  /** From the vectors to the request for a session. */
  lemma ToCreate(s: State, n: nat) returns (s': State)
    requires Reachable(s) && s.mme.pc == AwaitingAuth(n, n, BASE_IMSI + n) && s.enb.completing == None
    requires BASE_IMSI + n in s.mme.pending && s.mme.pending[BASE_IMSI + n] == HssVectors(ZEROS)
    requires n in s.mme.store && s.mme.store[n].imsi == BASE_IMSI + n && s.mme.store[n].bearers == []
    requires Idle(s.(mme := s.mme.(pc := Dispatching)), Next32(n))
    ensures Reachable(s') && SameGtp(s, s')
    ensures s'.s11q == Send(s.s11q, [CreateSession(BASE_IMSI + n)])
    ensures s'.mme.pc == AwaitingCreate(n) && n in s'.mme.store
    ensures s'.mme.store[n].imsi == BASE_IMSI + n && s'.mme.store[n].bearers == []
    ensures s'.enb.completing == None && HasNext(s'.down) && Head(s'.down).SecurityCommand?
    ensures Idle(s'.(mme := s'.mme.(pc := Dispatching), down := Receive(s'.down)), Next32(n))
  {
    hide Reachable, Xor55, DoEnbCommand, DoEnbFinish, DoMmeAnswer, DoMmeTimeout, DoSgwReceive, DoPgwReceive;
    s' := Extend(s, MmeVectors(false));
    s' := Extend(s', EnbReceive);
    assert Authentic(Xor55(ZEROS[..8]), Xor55(ZEROS[..8])) by {
      assert Xor55(ZEROS[..8])[..8] == Xor55(ZEROS[..8]);
    }
    s' := Extend(s', MmeReceive);
  }

  /** The MME gives up; the answer is made after that, and waits for whoever asks next. */
  lemma LateAnswer(s: State) returns (s': State)
    requires Reachable(s) && s.mme.pc.AwaitingCreate? && s.enb.completing == None
    requires HasNext(s.s11q) && Head(s.s11q) == CreateSession(BASE_IMSI + 1)
    requires s.sgw.pc.SgwReady? && Unused(s.s5q) && Unused(s.s5r) && Unused(s.s11r)
    requires s.pgw.nextIp == FIRST_UE_IP && s.ipOwner == []
    ensures Reachable(s') && s'.ipOwner == [BASE_IMSI + 1]
    ensures HasNext(s'.s11r) && Head(s'.s11r).Created? && Head(s'.s11r).ueIp == FIRST_UE_IP
    ensures s'.mme == s.mme.(pc := Dispatching) && s'.enb == s.enb
    ensures s'.up == s.up && s'.down == s.down && s'.air == s.air && s'.aia == s.aia
  {
    hide Reachable;
    s' := GiveUp(s);
    s' := Extend(s', PgwReceive(true));
    s' := Extend(s', SgwAnswer);
  }

  lemma GiveUp(s: State) returns (s': State)
    requires Reachable(s) && s.mme.pc.AwaitingCreate? && s.enb.completing == None
    requires HasNext(s.s11q) && Head(s.s11q) == CreateSession(BASE_IMSI + 1) && s.sgw.pc.SgwReady?
    ensures Reachable(s') && s'.sgw.pc.AwaitingPgw? && s'.s5q == Send(s.s5q, [BASE_IMSI + 1])
    ensures s'.s5r == s.s5r && s'.s11r == s.s11r && s'.pgw == s.pgw && s'.ipOwner == s.ipOwner
    ensures s'.mme == s.mme.(pc := Dispatching) && s'.enb == s.enb
    ensures s'.up == s.up && s'.down == s.down && s'.air == s.air && s'.aia == s.aia
  {
    hide Reachable;
    s' := Extend(s, MmeTimeout);
    s' := Extend(s', SgwReceive);
    assert s'.down == s.down && s'.air == s.air;
  }

  /** The Security Mode exchange, which nothing waits for. */
  lemma FinishSecurity(s: State, n: nat) returns (s': State)
    requires Reachable(s) && s.enb.completing == None && HasNext(s.down) && Head(s.down).SecurityCommand?
    requires Idle(s.(down := Receive(s.down)), n)
    ensures Reachable(s') && SameGtp(s, s') && Idle(s', n)
  {
    hide Reachable;
    s' := Extend(s, EnbReceive);
    s' := Extend(s', MmeReceive);
  }

  lemma FreshState() returns (s: State)
    ensures Reachable(s) && IsInit(s)
  {
    hide Do, Enabled;
    s := State(Mme(map[], 1, map[], Dispatching, 0), Enb(FIRST_ENB_TEID, 1, None), Sgw(FIRST_SGW_TEID, SgwReady),
               Pgw(FIRST_UE_IP), Link([], 0), Link([], 0), Link([], 0), Link([], 0), Link([], 0), Link([], 0),
               Link([], 0), Link([], 0), map[], 0, 0, [], 0, [], map[], map[], false);
    var none: seq<Action> := [];
    assert IsRun(s, none) && Last(s, none) == s;
  }

  /** After a timeout a UE can end up with an address allocated for another. */
  lemma CrossedAnswer()
    ensures exists f :: Reachable(f) && 2 in f.mme.store && |f.mme.store[2].bearers| == 1
                        && Serves(f.ipOwner, BASE_IMSI + 1, f.mme.store[2].bearers[0].ueIp)
                        && !Serves(f.ipOwner, f.mme.store[2].imsi, f.mme.store[2].bearers[0].ueIp)
  {
    hide Reachable, Do, Enabled;
    var s := FreshState();
    s := ToVectors(s, 1);
    s := ToCreate(s, 1);
    s := LateAnswer(s);
    s := FinishSecurity(s, 2);
    s := ToVectors(s, 2);
    s := ToCreate(s, 2);
    s := TakeLate(s);
  }

  lemma TakeLate(s: State) returns (f: State)
    requires Reachable(s) && s.mme.pc == AwaitingCreate(2) && 2 in s.mme.store && s.ipOwner == [BASE_IMSI + 1]
    requires s.mme.store[2].imsi == BASE_IMSI + 2 && s.mme.store[2].bearers == []
    requires HasNext(s.s11r) && Head(s.s11r).Created? && Head(s.s11r).ueIp == FIRST_UE_IP
    ensures Reachable(f) && 2 in f.mme.store && |f.mme.store[2].bearers| == 1
    ensures Serves(f.ipOwner, BASE_IMSI + 1, f.mme.store[2].bearers[0].ueIp)
    ensures !Serves(f.ipOwner, f.mme.store[2].imsi, f.mme.store[2].bearers[0].ueIp)
  {
    hide Reachable;
    f := Extend(s, MmeAnswer);
    assert f.ipOwner[0] == BASE_IMSI + 1 && f.mme.store[2].bearers[0].ueIp == IpAt(0);
  }
}
