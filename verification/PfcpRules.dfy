/** PFCP rule table: rules by id, and two indexes from match key to rule id. */
module PfcpRules {
  import opened Common
  import opened MbufPool

  datatype Pdr = Pdr(pdrId: nat, teid: nat, ueIp: nat, dir: Direction,
                     farId: nat, qerId: nat, precedence: nat)

  datatype FarAction = FORWARD | DROP | BUFFER

  datatype Far = Far(farId: nat, action: FarAction, dstIp: nat, dstPort: nat, encapGtpu: bool)

  datatype Qer = Qer(qerId: nat, qfi: nat, ulMbr: nat, dlMbr: nat, ulGbr: nat, dlGbr: nat)

  datatype Rules = Rules(
    pdrs: map<nat, Pdr>, fars: map<nat, Far>, qers: map<nat, Qer>,
    teidToPdr: map<nat, nat>, ueipToPdr: map<nat, nat>)

  const EMPTY := Rules(map[], map[], map[], map[], map[])

  function Lookup<V>(m: map<nat, V>, k: nat): Option<V>
  {
    if k in m then Some(m[k]) else None
  }

  function WithPdr(r: Rules, p: Pdr): Rules
  {
    var r' := r.(pdrs := r.pdrs[p.pdrId := p]);
    if p.dir.UL? then r'.(teidToPdr := r.teidToPdr[p.teid := p.pdrId])
    else r'.(ueipToPdr := r.ueipToPdr[p.ueIp := p.pdrId])
  }

  function WithFar(r: Rules, f: Far): Rules
  {
    r.(fars := r.fars[f.farId := f])
  }

  function WithQer(r: Rules, q: Qer): Rules
  {
    r.(qers := r.qers[q.qerId := q])
  }

  function MatchPdr(r: Rules, pkt: Packet): Option<Pdr>
  {
    var id := if pkt.dir.UL? then Lookup(r.teidToPdr, pkt.teid) else Lookup(r.ueipToPdr, pkt.ueIp);
    match id
    case None => None
    case Some(i) => Lookup(r.pdrs, i)
  }

  // ---------------------------------------------------------------- any sequence of adds

  /** The table after these add_pdr calls, first to last. */
  function Install(ps: seq<Pdr>): Rules
  {
    if ps == [] then EMPTY else WithPdr(Install(ps[..|ps| - 1]), ps[|ps| - 1])
  }

  predicate Matches(p: Pdr, pkt: Packet)
  {
    p.dir == pkt.dir && (if p.dir.UL? then p.teid == pkt.teid else p.ueIp == pkt.ueIp)
  }

  /** The last element that the packet matches. */
  function LastMatch(ps: seq<Pdr>, pkt: Packet): Option<Pdr>
  {
    if ps == [] then None
    else if Matches(ps[|ps| - 1], pkt) then Some(ps[|ps| - 1])
    else LastMatch(ps[..|ps| - 1], pkt)
  }

  /** The last element carrying this id. */
  function LastWithId(ps: seq<Pdr>, id: nat): Option<Pdr>
  {
    if ps == [] then None
    else if ps[|ps| - 1].pdrId == id then Some(ps[|ps| - 1])
    else LastWithId(ps[..|ps| - 1], id)
  }

  /** For any adds whatever, repeated ids and repeated keys included: a packet is given the
      rule last stored under the id of the rule last added for its key. */
  lemma {:induction false} IndexMeaning(ps: seq<Pdr>, pkt: Packet)
    ensures MatchPdr(Install(ps), pkt) ==
            match LastMatch(ps, pkt)
            case None => None
            case Some(p) => LastWithId(ps, p.pdrId)
  {
    IdMeaning(ps);
    KeyMeaning(ps, pkt);
    if LastMatch(ps, pkt).Some? {
      assert Lookup(Install(ps).pdrs, LastMatch(ps, pkt).value.pdrId)
          == LastWithId(ps, LastMatch(ps, pkt).value.pdrId);
    }
  }

  lemma {:induction false} IdMeaning(ps: seq<Pdr>)
    ensures forall id :: Lookup(Install(ps).pdrs, id) == LastWithId(ps, id)
  {
    if ps != [] {
      IdMeaning(ps[..|ps| - 1]);
    }
  }

  lemma {:induction false} KeyMeaning(ps: seq<Pdr>, pkt: Packet)
    ensures (if pkt.dir.UL? then Lookup(Install(ps).teidToPdr, pkt.teid)
             else Lookup(Install(ps).ueipToPdr, pkt.ueIp)) ==
            match LastMatch(ps, pkt) case None => None case Some(p) => Some(p.pdrId)
  {
    if ps != [] {
      KeyMeaning(ps[..|ps| - 1], pkt);
    }
  }

  // ---------------------------------------------------------------- the linear scan

  /** The rules in precedence order (lower value first, earlier add first on a tie). */
  function ByPrecedence(ps: seq<Pdr>): seq<Pdr>
  {
    if ps == [] then [] else Insert(ByPrecedence(ps[..|ps| - 1]), ps[|ps| - 1])
  }

  function Insert(sorted: seq<Pdr>, p: Pdr): seq<Pdr>
  {
    if sorted == [] then [p]
    else if p.precedence < sorted[0].precedence then [p] + sorted
    else [sorted[0]] + Insert(sorted[1..], p)
  }

  /** Section 7.5.2.2 of TS 29.244: evaluate the rules in that order, apply the first match. */
  function Scan(rules: seq<Pdr>, pkt: Packet): Option<Pdr>
  {
    if rules == [] then None
    else if Matches(rules[0], pkt) then Some(rules[0])
    else Scan(rules[1..], pkt)
  }

  ghost predicate SortedByPrecedence(ps: seq<Pdr>)
  {
    forall i, j :: 0 <= i < j < |ps| ==> ps[i].precedence <= ps[j].precedence
  }

  lemma {:induction false} InsertContents(s: seq<Pdr>, p: Pdr)
    ensures multiset(Insert(s, p)) == multiset(s) + multiset{p}
  {
    if s != [] && p.precedence >= s[0].precedence {
      InsertContents(s[1..], p);
      assert s == [s[0]] + s[1..];
    }
  }

  lemma {:induction false} InsertSorted(s: seq<Pdr>, p: Pdr)
    requires SortedByPrecedence(s)
    ensures SortedByPrecedence(Insert(s, p))
  {
    if s != [] && p.precedence >= s[0].precedence {
      var t := Insert(s[1..], p);
      InsertSorted(s[1..], p);
      InsertContents(s[1..], p);
      forall j | 0 <= j < |t| ensures s[0].precedence <= t[j].precedence {
        assert t[j] in multiset(t);
        assert t[j] == p || t[j] in s[1..];
      }
    }
  }

  lemma {:induction false} ByPrecedenceSorts(ps: seq<Pdr>)
    ensures SortedByPrecedence(ByPrecedence(ps)) && multiset(ByPrecedence(ps)) == multiset(ps)
  {
    if ps != [] {
      ByPrecedenceSorts(ps[..|ps| - 1]);
      InsertSorted(ByPrecedence(ps[..|ps| - 1]), ps[|ps| - 1]);
      InsertContents(ByPrecedence(ps[..|ps| - 1]), ps[|ps| - 1]);
      assert ps == ps[..|ps| - 1] + [ps[|ps| - 1]];
    }
  }

  lemma {:induction false} ScanFinds(ps: seq<Pdr>, pkt: Packet)
    ensures var r := Scan(ps, pkt);
            if r.Some? then r.value in ps && Matches(r.value, pkt)
            else forall p :: p in ps ==> !Matches(p, pkt)
  {
    if ps != [] && !Matches(ps[0], pkt) {
      ScanFinds(ps[1..], pkt);
    }
  }

  lemma {:induction false} LastMatchFinds(ps: seq<Pdr>, pkt: Packet)
    ensures var r := LastMatch(ps, pkt);
            if r.Some? then r.value in ps && Matches(r.value, pkt)
            else forall p :: p in ps ==> !Matches(p, pkt)
  {
    if ps != [] && !Matches(ps[|ps| - 1], pkt) {
      LastMatchFinds(ps[..|ps| - 1], pkt);
      assert ps == ps[..|ps| - 1] + [ps[|ps| - 1]];
    }
  }

  ghost predicate DistinctIds(ps: seq<Pdr>)
  {
    forall i, j :: 0 <= i < j < |ps| ==> ps[i].pdrId != ps[j].pdrId
  }

  ghost predicate SameKey(p: Pdr, q: Pdr)
  {
    p.dir == q.dir && (if p.dir.UL? then p.teid == q.teid else p.ueIp == q.ueIp)
  }

  ghost predicate DistinctKeys(ps: seq<Pdr>)
  {
    forall i, j :: 0 <= i < j < |ps| ==> !SameKey(ps[i], ps[j])
  }

  lemma {:induction false} DistinctIdsFind(ps: seq<Pdr>, k: nat)
    requires k < |ps| && DistinctIds(ps)
    ensures LastWithId(ps, ps[k].pdrId) == Some(ps[k])
  {
    if k < |ps| - 1 {
      DistinctIdsFind(ps[..|ps| - 1], k);
    }
  }

  /** Main result: with distinct ids and distinct (direction, key) pairs, the two hash lookups
      give every packet what a linear scan in precedence order gives it. */
  lemma IndexEqualsScan(ps: seq<Pdr>, pkt: Packet)
    requires DistinctIds(ps) && DistinctKeys(ps)
    ensures MatchPdr(Install(ps), pkt) == Scan(ByPrecedence(ps), pkt)
  {
    var sorted := ByPrecedence(ps);
    IndexMeaning(ps, pkt);
    LastMatchFinds(ps, pkt);
    ScanFinds(sorted, pkt);
    ByPrecedenceSorts(ps);
    forall p ensures p in sorted <==> p in ps {
      assert p in multiset(sorted) <==> p in multiset(ps);
    }
    if LastMatch(ps, pkt).Some? {
      var i :| 0 <= i < |ps| && ps[i] == LastMatch(ps, pkt).value;
      DistinctIdsFind(ps, i);
      var p := Scan(sorted, pkt).value;
      var j :| 0 <= j < |ps| && ps[j] == p;
      assert SameKey(ps[i], ps[j]) && SameKey(ps[j], ps[i]);
    }
  }

  // ---------------------------------------------------------------- when exactly they agree

  function WithoutId(ps: seq<Pdr>, id: nat): seq<Pdr>
  {
    if ps == [] then []
    else WithoutId(ps[..|ps| - 1], id) + if ps[|ps| - 1].pdrId == id then [] else [ps[|ps| - 1]]
  }

  /** The rules still stored, in the order in which they were added. */
  function Live(ps: seq<Pdr>): seq<Pdr>
  {
    if ps == [] then [] else WithoutId(Live(ps[..|ps| - 1]), ps[|ps| - 1].pdrId) + [ps[|ps| - 1]]
  }

  lemma {:induction false} WithoutIdKeeps(ps: seq<Pdr>, id: nat)
    ensures forall p :: p in WithoutId(ps, id) <==> p in ps && p.pdrId != id
  {
    if ps != [] {
      WithoutIdKeeps(ps[..|ps| - 1], id);
      assert ps == ps[..|ps| - 1] + [ps[|ps| - 1]];
    }
  }

  lemma {:induction false} LiveIsStored(ps: seq<Pdr>)
    ensures forall p :: p in Live(ps) <==> LastWithId(ps, p.pdrId) == Some(p)
  {
    if ps != [] {
      LiveIsStored(ps[..|ps| - 1]);
      WithoutIdKeeps(Live(ps[..|ps| - 1]), ps[|ps| - 1].pdrId);
    }
  }

  /** A further rule changes the scan exactly if it matches and comes strictly first. */
  lemma {:induction false} ScanInsert(s: seq<Pdr>, p: Pdr, pkt: Packet)
    requires SortedByPrecedence(s)
    ensures var r := Scan(s, pkt);
            Scan(Insert(s, p), pkt) ==
            if Matches(p, pkt) && (r.None? || p.precedence < r.value.precedence) then Some(p) else r
  {
    if s != [] {
      if p.precedence < s[0].precedence {
        assert ([p] + s)[1..] == s;
        ScanFinds(s, pkt);
        assert forall q :: q in s ==> s[0].precedence <= q.precedence;
      } else {
        assert ([s[0]] + Insert(s[1..], p))[1..] == Insert(s[1..], p);
        ScanInsert(s[1..], p, pkt);
      }
    }
  }

  /** The scan finds a rule that matches and has no match of lower precedence value. */
  lemma {:induction false} ScanIsFirst(ps: seq<Pdr>, pkt: Packet)
    ensures var r := Scan(ByPrecedence(ps), pkt);
            if r.None? then forall q :: q in ps ==> !Matches(q, pkt)
            else r.value in ps && Matches(r.value, pkt)
                 && forall q :: q in ps && Matches(q, pkt) ==> r.value.precedence <= q.precedence
  {
    if ps != [] {
      var init, p := ps[..|ps| - 1], ps[|ps| - 1];
      assert ps == init + [p];
      ScanIsFirst(init, pkt);
      ByPrecedenceSorts(init);
      ScanInsert(ByPrecedence(init), p, pkt);
    }
  }

  /** It finds the last match exactly if that comes strictly before all others. */
  lemma {:induction false} ScanFindsLast(ps: seq<Pdr>, pkt: Packet)
    requires LastMatch(ps, pkt).Some? && DistinctIds(ps)
    ensures var a := LastMatch(ps, pkt).value;
            Scan(ByPrecedence(ps), pkt) == Some(a)
            <==> forall q :: q in ps && Matches(q, pkt) && q != a ==> a.precedence < q.precedence
  {
    var init, p := ps[..|ps| - 1], ps[|ps| - 1];
    var a := LastMatch(ps, pkt).value;
    assert ps == init + [p];
    ByPrecedenceSorts(init);
    ScanInsert(ByPrecedence(init), p, pkt);
    if Matches(p, pkt) {
      ScanIsFirst(init, pkt);
      assert p !in init;
    } else {
      ScanFindsLast(init, pkt);
    }
  }

  lemma {:induction false} LiveDistinct(ps: seq<Pdr>)
    ensures DistinctIds(Live(ps))
  {
    if ps != [] {
      LiveDistinct(ps[..|ps| - 1]);
      WithoutIdDistinct(Live(ps[..|ps| - 1]), ps[|ps| - 1].pdrId);
      WithoutIdKeeps(Live(ps[..|ps| - 1]), ps[|ps| - 1].pdrId);
    }
  }

  lemma {:induction false} WithoutIdDistinct(ps: seq<Pdr>, id: nat)
    requires DistinctIds(ps)
    ensures DistinctIds(WithoutId(ps, id))
  {
    if ps != [] {
      var init, p := ps[..|ps| - 1], ps[|ps| - 1];
      assert ps == init + [p];
      WithoutIdDistinct(init, id);
      WithoutIdKeeps(init, id);
      forall q | q in init ensures q.pdrId != p.pdrId {
        var i :| 0 <= i < |init| && init[i] == q;
        assert ps[i] == q;
      }
    }
  }

  lemma {:induction false} WithoutIdLast(ps: seq<Pdr>, id: nat, pkt: Packet)
    requires LastMatch(ps, pkt).Some? && LastMatch(ps, pkt).value.pdrId != id
    ensures LastMatch(WithoutId(ps, id), pkt) == LastMatch(ps, pkt)
  {
    var rest, p := WithoutId(ps[..|ps| - 1], id), ps[|ps| - 1];
    assert rest + [] == rest && (rest + [p])[..|rest|] == rest;
    if !Matches(p, pkt) {
      WithoutIdLast(ps[..|ps| - 1], id, pkt);
    }
  }

  /** If the rule last added for a key is still stored, it is the last stored one for it. */
  lemma {:induction false} LiveLast(ps: seq<Pdr>, pkt: Packet)
    requires LastMatch(ps, pkt).Some?
    requires LastWithId(ps, LastMatch(ps, pkt).value.pdrId) == LastMatch(ps, pkt)
    ensures LastMatch(Live(ps), pkt) == LastMatch(ps, pkt)
  {
    var init, p := ps[..|ps| - 1], ps[|ps| - 1];
    if !Matches(p, pkt) {
      LastMatchFinds(ps, pkt);
      LiveLast(init, pkt);
      WithoutIdLast(Live(init), p.pdrId, pkt);
    }
  }

  /** If what is stored under the id of the last match matches too, it is that last match. */
  lemma {:induction false} StoredMatchIsLast(ps: seq<Pdr>, pkt: Packet)
    requires LastMatch(ps, pkt).Some?
    ensures var a := LastMatch(ps, pkt).value;
            LastWithId(ps, a.pdrId).Some?
            && (Matches(LastWithId(ps, a.pdrId).value, pkt) ==> LastWithId(ps, a.pdrId) == Some(a))
  {
    if !Matches(ps[|ps| - 1], pkt) {
      StoredMatchIsLast(ps[..|ps| - 1], pkt);
    }
  }

  /** For any adds whatever, index and scan of the stored rules give a packet the same exactly if
      no rule was ever added for its key, or the rule last added for it is still stored and comes
      strictly before every other stored rule for it. */
  lemma IndexAgreesExactly(ps: seq<Pdr>, pkt: Packet)
    ensures MatchPdr(Install(ps), pkt) == Scan(ByPrecedence(Live(ps)), pkt) <==>
            match LastMatch(ps, pkt)
            case None => true
            case Some(a) =>
              && LastWithId(ps, a.pdrId) == Some(a)
              && forall q :: q in Live(ps) && Matches(q, pkt) && q != a ==> a.precedence < q.precedence
  {
    IndexMeaning(ps, pkt);
    ScanIsFirst(Live(ps), pkt);
    LiveIsStored(ps);
    LastMatchFinds(ps, pkt);
    match LastMatch(ps, pkt)
    case None =>
      forall q | q in Live(ps) ensures q in ps {
        StoredWasAdded(ps, q.pdrId);
      }
    case Some(a) =>
      StoredMatchIsLast(ps, pkt);
      if LastWithId(ps, a.pdrId) == Some(a) {
        LiveLast(ps, pkt);
        LiveDistinct(ps);
        ScanFindsLast(Live(ps), pkt);
      }
  }

  lemma {:induction false} StoredWasAdded(ps: seq<Pdr>, id: nat)
    ensures LastWithId(ps, id).Some? ==> LastWithId(ps, id).value in ps
  {
    if ps != [] {
      StoredWasAdded(ps[..|ps| - 1], id);
    }
  }

  /** Both conditions are needed. Reusing an id under another key leaves a stale index entry:
      the old key now yields a rule that does not match it. Reusing a key hides the better rule. */
  lemma ConditionsNeeded(pkt: Packet)
    ensures exists ps :: DistinctKeys(ps) && MatchPdr(Install(ps), pkt).Some?
                         && !Matches(MatchPdr(Install(ps), pkt).value, pkt)
    ensures exists ps :: DistinctIds(ps) && MatchPdr(Install(ps), pkt) != Scan(ByPrecedence(ps), pkt)
  {
    var a := Pdr(1, pkt.teid, pkt.ueIp, pkt.dir, 1, 1, 100);
    var b := Pdr(1, pkt.teid + 1, pkt.ueIp + 1, pkt.dir, 1, 1, 100);
    var c := Pdr(2, pkt.teid, pkt.ueIp, pkt.dir, 1, 1, 200);
    IndexMeaning([a, b], pkt);
    assert [a, b][..1] == [a];
    assert LastMatch([a, b], pkt) == Some(a) && LastWithId([a, b], 1) == Some(b);
    assert DistinctKeys([a, b]);
    IndexMeaning([a, c], pkt);
    assert [a, c][..1] == [a] && [a][..0] == [];
    assert ByPrecedence([a, c]) == [a, c] by {
      assert ByPrecedence([a]) == [a];
      assert Insert([a], c) == [a] + Insert([], c);
    }
    assert DistinctIds([a, c]);
  }

  // ---------------------------------------------------------------- the mutable table

  class RuleTable {
    var pdrs: map<nat, Pdr>
    var fars: map<nat, Far>
    var qers: map<nat, Qer>
    var teidToPdr: map<nat, nat>
    var ueipToPdr: map<nat, nat>

    ghost function View(): Rules
      reads this
    {
      Rules(pdrs, fars, qers, teidToPdr, ueipToPdr)
    }

    constructor ()
      ensures View() == EMPTY
    {
      pdrs, fars, qers, teidToPdr, ueipToPdr := map[], map[], map[], map[], map[];
    }

    method AddPdr(p: Pdr)
      modifies this
      ensures View() == WithPdr(old(View()), p)
    {
      pdrs := pdrs[p.pdrId := p];
      if p.dir == UL {
        teidToPdr := teidToPdr[p.teid := p.pdrId];
      } else {
        ueipToPdr := ueipToPdr[p.ueIp := p.pdrId];
      }
    }

    method AddFar(f: Far)
      modifies this`fars
      ensures View() == WithFar(old(View()), f)
    {
      fars := fars[f.farId := f];
    }

    method AddQer(q: Qer)
      modifies this`qers
      ensures View() == WithQer(old(View()), q)
    {
      qers := qers[q.qerId := q];
    }
  }
}
