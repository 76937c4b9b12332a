/** Why the results about identifiers stop at 2^32 attaches: a run with one more, in which a
    context is taken back. */
module S1Wrap {
  import opened Bits
  import opened S1Nodes
  import opened S1Runs
  import opened S1Invariant
  import opened S1Theorems
  import opened S1Crossed

  /** One attach that a chaos drop ends after the vectors have come. */
  lemma DroppedAttach(s: State, n: nat) returns (s': State)
    requires Reachable(s) && Idle(s, n)
    ensures Reachable(s') && Idle(s', Next32(n)) && s'.attaches == s.attaches + 1
    ensures n in s'.mme.store && s'.mme.store[n].emm == AuthPending
    ensures forall id :: id != n && id in s.mme.store ==> id in s'.mme.store && s'.mme.store[id] == s.mme.store[id]
  {
    hide Reachable, Xor55;
    s' := ToVectors(s, n);
    s' := Extend(s', MmeVectors(true));
  }

  /** After k such attaches. */
  lemma {:induction false} ManyAttaches(k: nat) returns (s: State)
    requires k <= U32_MOD
    ensures Reachable(s) && Idle(s, IdAt(k)) && s.attaches == k
    ensures k >= 1 ==> 1 in s.mme.store && s.mme.store[1].emm == AuthPending
  {
    hide Reachable;
    if k == 0 {
      s := FreshState();
    } else {
      s := ManyAttaches(k - 1);
      NextIdAt(k - 1);
      hide Idle;
      s := DroppedAttach(s, IdAt(k - 1));
    }
  }

  /** Attach 2^32 + 1 is given identifier 1 again, and the context that has it goes back to the
      state of a new one: EmmNeverBack holds for up to 2^32 attaches, and no further. */
  lemma ContextTakenBack()
    ensures exists s :: Reachable(s) && s.attaches == U32_MOD + 1 && Enabled(s, MmeReceive) && 1 in s.mme.store
                        && 1 in Do(s, MmeReceive).mme.store
                        && Rank(Do(s, MmeReceive).mme.store[1].emm) < Rank(s.mme.store[1].emm)
  {
    hide Reachable;
    var s := ManyAttaches(U32_MOD);
    s := Extend(s, EnbCommand(AttachOne));
    assert Head(s.up) == InitialUe(1, BASE_IMSI + 1);
  }
}
