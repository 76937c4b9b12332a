/** Procedures of the 4G system that are left alone: what a run adds to each link, measured
    against the messages that the procedure is to send. */
module S1Progress {
  import opened S1Nodes
  import opened S1Runs
  import opened S1Theorems

  predicate Drained<T>(l: Link<T>)
  {
    l.read == |l.sent|
  }

  /** Nothing is under way: every link is read, and no thread waits for anything. */
  predicate Quiescent(s: State)
  {
    && s.mme.pc.Dispatching? && s.enb.completing.None? && s.sgw.pc.SgwReady?
    && Drained(s.up) && Drained(s.down) && Drained(s.air) && Drained(s.aia)
    && Drained(s.s11q) && Drained(s.s11r) && Drained(s.s5q) && Drained(s.s5r)
  }

  /** Any step but a new command, a timeout, a loss, or the end of the MME. */
  predicate Undisturbed(a: Action)
  {
    && !a.EnbCommand? && !a.MmeTimeout? && !a.SgwTimeout? && !a.MmeStop?
    && !a.LoseS11Request? && !a.LoseS11Answer? && !a.LoseS5Request? && !a.LoseS5Answer?
  }

  /** Since l0 the first `sent` of these messages were sent, and the first `read` of them received. */
  ghost predicate On<T>(l0: Link<T>, l: Link<T>, ms: seq<T>, sent: nat, read: nat)
  {
    read <= sent <= |ms| && l == Link(l0.sent + ms[..sent], l0.read + read)
  }

  lemma OnStart<T>(l0: Link<T>, ms: seq<T>)
    ensures On(l0, l0, ms, 0, 0)
  {
    assert l0.sent + ms[..0] == l0.sent;
  }

  lemma OnNext<T>(l0: Link<T>, l: Link<T>, ms: seq<T>, sent: nat, read: nat)
    requires Drained(l0) && On(l0, l, ms, sent, read)
    ensures HasNext(l) <==> read < sent
    ensures read < sent ==> Head(l) == ms[read] && On(l0, Receive(l), ms, sent, read + 1)
  {
  }

  lemma OnSend<T>(l0: Link<T>, l: Link<T>, ms: seq<T>, sent: nat, read: nat)
    requires On(l0, l, ms, sent, read) && sent < |ms|
    ensures On(l0, Send(l, [ms[sent]]), ms, sent + 1, read)
  {
    assert ms[..sent + 1] == ms[..sent] + [ms[sent]];
  }

  lemma OnDone<T>(l0: Link<T>, l: Link<T>, ms: seq<T>)
    requires Drained(l0) && On(l0, l, ms, |ms|, |ms|)
    ensures l.sent == l0.sent + ms && Drained(l)
  {
    assert ms[..|ms|] == ms;
  }

  /** 1 from the step `first` on. */
  function From(k: nat, first: nat): nat
  {
    if k < first then 0 else 1
  }

  lemma SendNothing<T>(l: Link<T>)
    ensures Send(l, []) == l
  {
  }

  lemma OnNew<T>(l0: Link<T>, l: Link<T>, l': Link<T>, ms: seq<T>, sent: nat, read: nat, sent': nat, read': nat)
    requires On(l0, l, ms, sent, read) && On(l0, l', ms, sent', read') && sent <= sent'
    ensures New(l, l') == ms[sent..sent']
  {
  }

  // ---------------------------------------------------------------- what a run sends

  /** A message and the link that it was put on. */
  datatype Put =
    | PutUp(up: ToMme) | PutDown(down: ToEnb) | PutAir(imsi: nat) | PutAia(answer: AuthAnswer)
    | PutS11Q(s11q: ToSgw) | PutS11R(s11r: FromSgw) | PutS5Q(s5q: nat) | PutS5R(s5r: FromPgw)

  function New<T>(l: Link<T>, l': Link<T>): seq<T>
  {
    if |l.sent| <= |l'.sent| then l'.sent[|l.sent|..] else []
  }

  function Each<T>(ms: seq<T>, put: T -> Put): (r: seq<Put>)
    ensures |r| == |ms| && forall i :: 0 <= i < |ms| ==> r[i] == put(ms[i])
  {
    seq(|ms|, i requires 0 <= i < |ms| => put(ms[i]))
  }

  /** What was sent between two states of the system. */
  function Puts(s: State, s': State): seq<Put>
  {
    Each(New(s.up, s'.up), m => PutUp(m)) + Each(New(s.down, s'.down), m => PutDown(m))
    + Each(New(s.air, s'.air), m => PutAir(m)) + Each(New(s.aia, s'.aia), m => PutAia(m))
    + Each(New(s.s11q, s'.s11q), m => PutS11Q(m)) + Each(New(s.s11r, s'.s11r), m => PutS11R(m))
    + Each(New(s.s5q, s'.s5q), m => PutS5Q(m)) + Each(New(s.s5r, s'.s5r), m => PutS5R(m))
  }

  /** Nothing was sent to the HSS or the P-GW, nor by them. */
  predicate Aside(s: State, s': State)
  {
    New(s.air, s'.air) == [] && New(s.aia, s'.aia) == [] && New(s.s5q, s'.s5q) == [] && New(s.s5r, s'.s5r) == []
  }

  lemma PutsOne(s: State, s': State)
    requires Aside(s, s')
    requires |New(s.up, s'.up)| + |New(s.down, s'.down)| + |New(s.s11q, s'.s11q)| + |New(s.s11r, s'.s11r)| <= 1
    ensures New(s.up, s'.up) != [] ==> Puts(s, s') == [PutUp(New(s.up, s'.up)[0])]
    ensures New(s.down, s'.down) != [] ==> Puts(s, s') == [PutDown(New(s.down, s'.down)[0])]
    ensures New(s.s11q, s'.s11q) != [] ==> Puts(s, s') == [PutS11Q(New(s.s11q, s'.s11q)[0])]
    ensures New(s.s11r, s'.s11r) != [] ==> Puts(s, s') == [PutS11R(New(s.s11r, s'.s11r)[0])]
    ensures |New(s.up, s'.up)| + |New(s.down, s'.down)| + |New(s.s11q, s'.s11q)| + |New(s.s11r, s'.s11r)| == 0 ==>
              Puts(s, s') == []
  {
    hide New;
  }

  lemma NewNone<T>(l: Link<T>)
    ensures New(l, l) == []
  {
  }

  /** What a run sends, step by step. */
  ghost function Trace(s: State, acts: seq<Action>): seq<Put>
    requires IsRun(s, acts)
    decreases |acts|
  {
    if acts == [] then [] else Puts(s, Do(s, acts[0])) + Trace(Do(s, acts[0]), acts[1..])
  }

  lemma RunBefore(s: State, a: Action, acts: seq<Action>)
    requires Enabled(s, a) && IsRun(Do(s, a), acts)
    ensures IsRun(s, [a] + acts) && Last(s, [a] + acts) == Last(Do(s, a), acts)
    ensures Trace(s, [a] + acts) == Puts(s, Do(s, a)) + Trace(Do(s, a), acts)
  {
    hide Do, Enabled, Puts;
    assert ([a] + acts)[1..] == acts;
  }
}
