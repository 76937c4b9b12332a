/** The context store under any number of inserting and removing threads, with one thread adding
    up sizes and one visiting every context, interleaved at each lock. */
module UeStoreRuns {
  import opened Bits
  import opened UeStore

  datatype InsertPc<V> = Ready | HasId(id: nat, v: V)

  datatype SizePc = NotSizing | Sizing(i: nat, total: nat)

  datatype VisitPc = NotVisiting | Visiting(i: nat, visited: seq<nat>)

  datatype State<V> = State(
    shards: seq<map<nat, V>>, nextId: nat, inserters: seq<InsertPc<V>>, sizer: SizePc, visitor: VisitPc,
    // history
    issued: nat,                       // identifiers handed out
    atSizeStart: seq<map<nat, V>>,     // the shards when size() was called
    erasedSinceSize: bool,             // a removal since then
    atVisitStart: seq<map<nat, V>>,    // the shards when forEach() was called
    erasedSinceVisit: set<nat>)        // identifiers removed since then

  datatype Action<V> =
    | TakeId(t: nat, v: V)
    | Store(t: nat)
    | Erase(id: nat)
    | BeginSize
    | AddShard
    | BeginVisit
    | VisitShard(order: seq<nat>)      // the shard's contexts in the map's own order

  ghost predicate IsInit<V>(s: State<V>)
  {
    && |s.shards| == NUM_SHARDS && (forall i :: 0 <= i < NUM_SHARDS ==> s.shards[i] == map[])
    && s.nextId == 1 && s.issued == 0 && (forall t :: 0 <= t < |s.inserters| ==> s.inserters[t].Ready?)
    && s.sizer == NotSizing && s.visitor == NotVisiting
  }

  predicate NoRepeats(ids: seq<nat>)
  {
    forall a, b :: 0 <= a < b < |ids| ==> ids[a] != ids[b]
  }

  predicate Enabled<V>(s: State<V>, a: Action<V>)
  {
    && |s.shards| == NUM_SHARDS
    && match a
       case TakeId(t, _) => t < |s.inserters| && s.inserters[t].Ready?
       case Store(t) => t < |s.inserters| && s.inserters[t].HasId?
       case Erase(_) => true
       case BeginSize => true
       case AddShard => s.sizer.Sizing? && s.sizer.i < NUM_SHARDS
       case BeginVisit => true
       case VisitShard(order) =>
         && s.visitor.Visiting? && s.visitor.i < NUM_SHARDS && NoRepeats(order)
         && (forall id :: id in order ==> id in s.shards[s.visitor.i])
         && (forall id :: id in s.shards[s.visitor.i] ==> id in order)
  }

  function Do<V>(s: State<V>, a: Action<V>): State<V>
    requires Enabled(s, a)
  {
    match a
    case TakeId(t, v) =>
      s.(nextId := (s.nextId + 1) % U32_MOD, issued := s.issued + 1, inserters := s.inserters[t := HasId(s.nextId, v)])
    case Store(t) =>
      s.(shards := Put(s.shards, s.inserters[t].id, s.inserters[t].v), inserters := s.inserters[t := Ready])
    case Erase(id) =>
      s.(shards := Drop(s.shards, id), erasedSinceSize := true, erasedSinceVisit := s.erasedSinceVisit + {id})
    case BeginSize => s.(sizer := Sizing(0, 0), atSizeStart := s.shards, erasedSinceSize := false)
    case AddShard => s.(sizer := Sizing(s.sizer.i + 1, s.sizer.total + |s.shards[s.sizer.i]|))
    case BeginVisit => s.(visitor := Visiting(0, []), atVisitStart := s.shards, erasedSinceVisit := {})
    case VisitShard(order) => s.(visitor := Visiting(s.visitor.i + 1, s.visitor.visited + order))
  }

  // ---------------------------------------------------------------- invariant

  /** How many identifiers were handed out before this one; the counter starts at 1 and wraps. */
  function IdNo(id: nat): nat
  {
    (id - 1) % U32_MOD
  }

  /** Identifiers held by inserting threads are new and differ. */
  ghost predicate IdsOk<V>(shards: seq<map<nat, V>>, nextId: nat, inserters: seq<InsertPc<V>>, issued: nat)
    requires |shards| == NUM_SHARDS
  {
    && nextId == (issued + 1) % U32_MOD
    && (forall i, id :: 0 <= i < NUM_SHARDS && id in shards[i] ==> IdNo(id) < issued)
    && (forall t :: 0 <= t < |inserters| && inserters[t].HasId? ==>
          IdNo(inserters[t].id) < issued && inserters[t].id !in shards[ShardOf(inserters[t].id)])
    && (forall t, u :: 0 <= t < u < |inserters| && inserters[t].HasId? && inserters[u].HasId? ==>
          inserters[t].id != inserters[u].id)
  }

  /** Every shard has at least what it had then. */
  ghost predicate Grown<V>(before: seq<map<nat, V>>, now: seq<map<nat, V>>)
  {
    |before| == |now| && forall i, id :: 0 <= i < |now| && id in before[i] ==> id in now[i]
  }

  ghost predicate SizeOk<V>(sizer: SizePc, start: seq<map<nat, V>>, erased: bool, shards: seq<map<nat, V>>)
    requires |shards| == NUM_SHARDS
  {
    sizer.Sizing? ==>
      && sizer.i <= NUM_SHARDS && |start| == NUM_SHARDS && Placed(start)
      && (!erased ==> Grown(start, shards) && SizeTo(start, sizer.i) <= sizer.total <= SizeTo(shards, sizer.i))
  }

  /** Visited so far: only identifiers of finished shards, none twice, and all that were there
      from the start and not removed. */
  ghost predicate VisitOk<V>(visitor: VisitPc, start: seq<map<nat, V>>, erased: set<nat>, shards: seq<map<nat, V>>)
    requires |shards| == NUM_SHARDS
  {
    visitor.Visiting? ==>
      && visitor.i <= NUM_SHARDS && |start| == NUM_SHARDS && Placed(start)
      && NoRepeats(visitor.visited) && (forall id :: id in visitor.visited ==> ShardOf(id) < visitor.i)
      && (forall i, id :: 0 <= i < NUM_SHARDS && id in start[i] && id !in erased ==> id in shards[i])
      && (forall i, id :: 0 <= i < visitor.i && id in start[i] && id !in erased ==> id in visitor.visited)
  }

  ghost predicate Inv<V>(s: State<V>)
  {
    && Placed(s.shards)
    && (s.issued <= U32_MOD ==> IdsOk(s.shards, s.nextId, s.inserters, s.issued))
    && SizeOk(s.sizer, s.atSizeStart, s.erasedSinceSize, s.shards)
    && VisitOk(s.visitor, s.atVisitStart, s.erasedSinceVisit, s.shards)
  }

  lemma {:induction false} SizeGrows<V>(before: seq<map<nat, V>>, now: seq<map<nat, V>>, n: nat)
    requires Grown(before, now) && n <= |now|
    ensures SizeTo(before, n) <= SizeTo(now, n)
  {
    if n > 0 {
      SizeGrows(before, now, n - 1);
      SubsetSize(before[n - 1].Keys, now[n - 1].Keys);
    }
  }

  lemma SubsetSize(a: set<nat>, b: set<nat>)
    requires a <= b
    ensures |a| <= |b|
  {
    assert b == a + (b - a);
  }

  lemma PutPlaced<V>(shards: seq<map<nat, V>>, id: nat, v: V)
    requires Placed(shards)
    ensures Placed(Put(shards, id, v)) && Placed(Drop(shards, id)) && Grown(shards, Put(shards, id, v))
  {
  }

  lemma KeepIds<V>(s: State<V>, a: Action<V>)
    requires Inv(s) && Enabled(s, a) && Do(s, a).issued <= U32_MOD
    ensures IdsOk(Do(s, a).shards, Do(s, a).nextId, Do(s, a).inserters, Do(s, a).issued)
  {
    NextIdNo(s.issued);
    hide SizeOk, VisitOk, IdNo;
  }

  /** The next identifier comes after all that were handed out. */
  lemma NextIdNo(issued: nat)
    ensures issued < U32_MOD ==> IdNo((issued + 1) % U32_MOD) == issued
    ensures ((issued + 1) % U32_MOD + 1) % U32_MOD == (issued + 2) % U32_MOD
  {
  }

  lemma KeepSize<V>(s: State<V>, a: Action<V>)
    requires Inv(s) && Enabled(s, a)
    ensures SizeOk(Do(s, a).sizer, Do(s, a).atSizeStart, Do(s, a).erasedSinceSize, Do(s, a).shards)
  {
    hide IdsOk, VisitOk;
    var s' := Do(s, a);
    if s.sizer.Sizing? && a.Store? {
      PutPlaced(s.shards, s.inserters[a.t].id, s.inserters[a.t].v);
      SizeGrows(s.shards, s'.shards, s.sizer.i);
    }
    if a.AddShard? && !s.erasedSinceSize {
      SubsetSize(s.atSizeStart[s.sizer.i].Keys, s.shards[s.sizer.i].Keys);
    }
  }

  lemma Concatenated(a: seq<nat>, b: seq<nat>)
    requires NoRepeats(a) && NoRepeats(b) && forall id :: id in a ==> id !in b
    ensures NoRepeats(a + b) && forall id :: id in a + b <==> id in a || id in b
  {
    var c := a + b;
    forall i, j | 0 <= i < j < |c| ensures c[i] != c[j] {
      if i < |a| <= j {
        assert c[i] in a && c[j] in b;
      }
    }
  }

  lemma KeepVisit<V>(s: State<V>, a: Action<V>)
    requires Inv(s) && Enabled(s, a)
    ensures VisitOk(Do(s, a).visitor, Do(s, a).atVisitStart, Do(s, a).erasedSinceVisit, Do(s, a).shards)
  {
    hide IdsOk, SizeOk;
    if a.VisitShard? {
      assert forall id :: id in a.order ==> ShardOf(id) == s.visitor.i;
      Concatenated(s.visitor.visited, a.order);
    }
  }

  lemma StepKeepsInv<V>(s: State<V>, a: Action<V>)
    requires Inv(s) && Enabled(s, a)
    ensures Inv(Do(s, a))
  {
    KeepSize(s, a);
    KeepVisit(s, a);
    if Do(s, a).issued <= U32_MOD {
      KeepIds(s, a);
    }
    hide IdsOk, SizeOk, VisitOk;
    match a
    case Store(t) => PutPlaced(s.shards, s.inserters[t].id, s.inserters[t].v);
    case Erase(id) => DropOnly(s.shards, id);
    case _ =>
  }

  /** What a step does to the flat map: nothing, one new entry, or one entry removed. */
  lemma StepRefinesMap<V>(s: State<V>, a: Action<V>)
    requires Inv(s) && Enabled(s, a)
    ensures Placed(Do(s, a).shards)
    ensures Flat(Do(s, a).shards) == match a
              case Store(t) => Flat(s.shards)[s.inserters[t].id := s.inserters[t].v]
              case Erase(id) => Flat(s.shards) - {id}
              case _ => Flat(s.shards)
    ensures a.Store? && s.issued <= U32_MOD ==> s.inserters[a.t].id !in Flat(s.shards)
  {
    StepKeepsInv(s, a);
    hide SizeOk, VisitOk, FlatTo;
    match a
    case Store(t) =>
      ShardsRefineMap(s.shards, s.inserters[t].id, s.inserters[t].v);
      FlatLookup(s.shards, NUM_SHARDS, s.inserters[t].id);
    case Erase(id) => DropOnly(s.shards, id);
    case _ =>
  }

  // ---------------------------------------------------------------- runs

  ghost predicate IsRun<V>(s: State<V>, acts: seq<Action<V>>)
    decreases |acts|
  {
    acts == [] || (Enabled(s, acts[0]) && IsRun(Do(s, acts[0]), acts[1..]))
  }

  ghost function Last<V>(s: State<V>, acts: seq<Action<V>>): State<V>
    requires IsRun(s, acts)
    decreases |acts|
  {
    if acts == [] then s else Last(Do(s, acts[0]), acts[1..])
  }

  lemma {:induction false} RunKeepsInv<V>(s: State<V>, acts: seq<Action<V>>)
    requires Inv(s) && IsRun(s, acts)
    ensures Inv(Last(s, acts))
    decreases |acts|
  {
    hide Inv, Do, Enabled;
    if acts != [] {
      StepKeepsInv(s, acts[0]);
      RunKeepsInv(Do(s, acts[0]), acts[1..]);
    }
  }

  lemma InitInv<V>(s: State<V>)
    requires IsInit(s)
    ensures Inv(s)
  {
  }

  /** In every run shard k holds only identifiers congruent to k. As long as at most 2^32 were
      handed out, an identifier in the making is not in the store, and no two threads have the
      same one. */
  lemma UniqueIds<V>(s: State<V>, acts: seq<Action<V>>)
    requires IsInit(s) && IsRun(s, acts)
    ensures var f := Last(s, acts);
            && |f.shards| == 64 && (forall k, id: nat :: 0 <= k < 64 && id in f.shards[k] ==> id % 64 == k)
            && (f.issued <= U32_MOD ==>
                  && (forall t :: 0 <= t < |f.inserters| && f.inserters[t].HasId? ==>
                        f.inserters[t].id !in Flat(f.shards))
                  && (forall t, u :: 0 <= t < u < |f.inserters| && f.inserters[t].HasId? && f.inserters[u].HasId? ==>
                        f.inserters[t].id != f.inserters[u].id))
  {
    InitInv(s);
    RunKeepsInv(s, acts);
    var f := Last(s, acts);
    hide SizeOk, VisitOk, FlatTo, IdNo;
    forall k, id: nat | 0 <= k < 64 && id in f.shards[k] ensures id % 64 == k {
      assert ShardOf(id) == k;
    }
    if f.issued <= U32_MOD {
      forall t | 0 <= t < |f.inserters| && f.inserters[t].HasId? ensures f.inserters[t].id !in Flat(f.shards) {
        FlatLookup(f.shards, NUM_SHARDS, f.inserters[t].id);
      }
    }
  }

  /** With no removal since it began, size() returns a number between the counts at its start and
      at its end. */
  lemma SizeBetween<V>(s: State<V>, acts: seq<Action<V>>)
    requires IsInit(s) && IsRun(s, acts)
    requires var f := Last(s, acts); f.sizer.Sizing? && f.sizer.i == NUM_SHARDS && !f.erasedSinceSize
    ensures var f := Last(s, acts);
            && |f.atSizeStart| == NUM_SHARDS == |f.shards|
            && |Flat(f.atSizeStart)| <= f.sizer.total <= |Flat(f.shards)|
  {
    InitInv(s);
    RunKeepsInv(s, acts);
    var f := Last(s, acts);
    hide IdsOk, VisitOk, FlatTo, SizeTo;
    SizeIsCount(f.atSizeStart, NUM_SHARDS);
    SizeIsCount(f.shards, NUM_SHARDS);
  }

  /** forEach() visits no identifier twice, and none is missed that was there when it began and
      was not removed meanwhile. */
  lemma VisitsOnce<V>(s: State<V>, acts: seq<Action<V>>, id: nat)
    requires IsInit(s) && IsRun(s, acts)
    requires var f := Last(s, acts); f.visitor.Visiting? && f.visitor.i == NUM_SHARDS
    ensures var f := Last(s, acts);
            && NoRepeats(f.visitor.visited) && |f.atVisitStart| == NUM_SHARDS
            && (id in Flat(f.atVisitStart) && id !in f.erasedSinceVisit ==> id in f.visitor.visited)
  {
    InitInv(s);
    RunKeepsInv(s, acts);
    var f := Last(s, acts);
    hide IdsOk, SizeOk, FlatTo;
    FlatLookup(f.atVisitStart, NUM_SHARDS, id);
  }
}
