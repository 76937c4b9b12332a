/** The MME's context store: 64 maps, each with its own lock, behind one counter of identifiers.
    Every access to the counter and every section under a shard's lock is one action. */
module UeStore {
  import opened Common
  import opened Bits

  const NUM_SHARDS: nat := 64

  function ShardOf(id: nat): (i: nat)
    ensures i < NUM_SHARDS
  {
    id % NUM_SHARDS
  }

  /** Contexts in the first n shards, as one flat map. */
  function FlatTo<V>(shards: seq<map<nat, V>>, n: nat): map<nat, V>
    requires n <= |shards|
  {
    if n == 0 then map[] else FlatTo(shards, n - 1) + shards[n - 1]
  }

  /** Each shard holds only identifiers congruent to its number. */
  ghost predicate Placed<V>(shards: seq<map<nat, V>>)
  {
    |shards| == NUM_SHARDS && forall i, id :: 0 <= i < NUM_SHARDS && id in shards[i] ==> ShardOf(id) == i
  }

  lemma {:induction false} FlatLookup<V>(shards: seq<map<nat, V>>, n: nat, id: nat)
    requires Placed(shards) && n <= NUM_SHARDS
    ensures var i := ShardOf(id);
            && (id in FlatTo(shards, n) <==> i < n && id in shards[i])
            && (id in FlatTo(shards, n) ==> FlatTo(shards, n)[id] == shards[i][id])
  {
    if n > 0 {
      FlatLookup(shards, n - 1, id);
    }
  }

  function Flat<V>(shards: seq<map<nat, V>>): map<nat, V>
    requires |shards| == NUM_SHARDS
  {
    FlatTo(shards, NUM_SHARDS)
  }

  function Put<V>(shards: seq<map<nat, V>>, id: nat, v: V): seq<map<nat, V>>
    requires |shards| == NUM_SHARDS
  {
    var m: map<nat, V> := shards[ShardOf(id)][id := v];
    shards[ShardOf(id) := m]
  }

  function Drop<V>(shards: seq<map<nat, V>>, id: nat): seq<map<nat, V>>
    requires |shards| == NUM_SHARDS
  {
    shards[ShardOf(id) := shards[ShardOf(id)] - {id}]
  }

  function Find<V>(shards: seq<map<nat, V>>, id: nat): Option<V>
    requires |shards| == NUM_SHARDS
  {
    var m := shards[ShardOf(id)];
    if id in m then Some(m[id]) else None
  }

  /** On the flat map a store, a removal and a look-up are what they are on one map. */
  lemma ShardsRefineMap<V>(shards: seq<map<nat, V>>, id: nat, v: V)
    requires Placed(shards)
    ensures Placed(Put(shards, id, v)) && Placed(Drop(shards, id))
    ensures Flat(Put(shards, id, v)) == Flat(shards)[id := v]
    ensures Flat(Drop(shards, id)) == Flat(shards) - {id}
    ensures Find(shards, id) == if id in Flat(shards) then Some(Flat(shards)[id]) else None
  {
    hide FlatTo;
    FlatLookup(shards, NUM_SHARDS, id);
    forall k: nat
      ensures (k in Flat(Put(shards, id, v)) <==> k in Flat(shards)[id := v])
           && (k in Flat(Put(shards, id, v)) ==> Flat(Put(shards, id, v))[k] == Flat(shards)[id := v][k])
           && (k in Flat(Drop(shards, id)) <==> k in Flat(shards) - {id})
           && (k in Flat(Drop(shards, id)) ==> Flat(Drop(shards, id))[k] == (Flat(shards) - {id})[k])
    {
      FlatLookup(shards, NUM_SHARDS, k);
      FlatLookup(Put(shards, id, v), NUM_SHARDS, k);
      FlatLookup(Drop(shards, id), NUM_SHARDS, k);
    }
  }

  // ---------------------------------------------------------------- counting

  function SizeTo<V>(shards: seq<map<nat, V>>, n: nat): nat
    requires n <= |shards|
  {
    if n == 0 then 0 else SizeTo(shards, n - 1) + |shards[n - 1]|
  }

  lemma DisjointUnion<V>(a: map<nat, V>, b: map<nat, V>)
    requires a.Keys !! b.Keys
    ensures |a + b| == |a| + |b|
  {
    assert (a + b).Keys == a.Keys + b.Keys;
    assert |(a + b).Keys| == |a.Keys| + |b.Keys|;
  }

  /** The shards before the n-th hold none of its identifiers. */
  lemma DisjointShards<V>(shards: seq<map<nat, V>>, n: nat)
    requires Placed(shards) && 1 <= n <= NUM_SHARDS
    ensures FlatTo(shards, n - 1).Keys !! shards[n - 1].Keys
  {
    var before := FlatTo(shards, n - 1);
    hide FlatTo;
    forall k | k in before.Keys ensures k !in shards[n - 1].Keys {
      FlatLookup(shards, n - 1, k);
    }
  }

  /** The sum over the shards is the number of contexts. */
  lemma {:induction false} SizeIsCount<V>(shards: seq<map<nat, V>>, n: nat)
    requires Placed(shards) && n <= NUM_SHARDS
    ensures SizeTo(shards, n) == |FlatTo(shards, n)|
  {
    if n > 0 {
      SizeIsCount(shards, n - 1);
      DisjointShards(shards, n);
      DisjointUnion(FlatTo(shards, n - 1), shards[n - 1]);
    }
  }

  // ---------------------------------------------------------------- the store object

  class UeContextStore<V> {
    var shards: seq<map<nat, V>>
    var nextId: nat

    ghost predicate Valid()
      reads this
    {
      Placed(shards)
    }

    ghost function Contents(): map<nat, V>
      requires Valid()
      reads this
    {
      Flat(shards)
    }

    constructor ()
      ensures Valid() && Contents() == map[] && nextId == 1
    {
      shards := seq(NUM_SHARDS, _ => map[]);
      nextId := 1;
      new;
      forall k: nat ensures k !in Flat(shards) {
        FlatLookup(shards, NUM_SHARDS, k);
      }
    }

    method Insert(v: V) returns (id: nat)
      requires Valid()
      modifies this
      ensures Valid() && id == old(nextId) && nextId == (old(nextId) + 1) % U32_MOD
      ensures Contents() == old(Contents())[id := v]
    {
      id := nextId;
      nextId := (nextId + 1) % U32_MOD;
      ShardsRefineMap(shards, id, v);
      var m: map<nat, V> := shards[ShardOf(id)][id := v];
      shards := shards[ShardOf(id) := m];
    }

    method Lookup(id: nat) returns (v: Option<V>)
      requires Valid()
      ensures v == if id in Contents() then Some(Contents()[id]) else None
    {
      var m := shards[ShardOf(id)];
      FlatLookup(shards, NUM_SHARDS, id);
      if id in m {
        return Some(m[id]);
      }
      return None;
    }

    method Remove(id: nat)
      requires Valid()
      modifies this`shards
      ensures Valid() && Contents() == old(Contents()) - {id}
    {
      DropOnly(shards, id);
      shards := shards[ShardOf(id) := shards[ShardOf(id)] - {id}];
    }

    method Size() returns (total: nat)
      requires Valid()
      ensures total == |Contents()|
    {
      total := 0;
      for i := 0 to NUM_SHARDS
        invariant total == SizeTo(shards, i)
      {
        total := total + |shards[i]|;
      }
      SizeIsCount(shards, NUM_SHARDS);
    }

    /** The identifiers in the order of the callback: shard by shard, any order inside. */
    method ForEach() returns (visited: seq<nat>)
      requires Valid()
      ensures forall a, b :: 0 <= a < b < |visited| ==> visited[a] != visited[b]
      ensures forall id :: id in visited <==> id in Contents()
    {
      visited := [];
      for i := 0 to NUM_SHARDS
        invariant VisitedOk(shards, i, visited)
      {
        var left := shards[i].Keys;
        while left != {}
          invariant left <= shards[i].Keys
          invariant forall a, b :: 0 <= a < b < |visited| ==> visited[a] != visited[b]
          invariant forall id :: id in visited <==>
                      (ShardOf(id) < i && id in shards[ShardOf(id)]) || (id in shards[i] && id !in left)
          decreases |left|
        {
          var id :| id in left;
          left := left - {id};
          visited := visited + [id];
        }
      }
      forall id: nat ensures id in visited <==> id in Contents() {
        FlatLookup(shards, NUM_SHARDS, id);
      }
    }
  }

  lemma DropOnly<V>(shards: seq<map<nat, V>>, id: nat)
    requires Placed(shards)
    ensures Placed(Drop(shards, id)) && Flat(Drop(shards, id)) == Flat(shards) - {id}
  {
    hide FlatTo;
    forall k: nat
      ensures (k in Flat(Drop(shards, id)) <==> k in Flat(shards) - {id})
           && (k in Flat(Drop(shards, id)) ==> Flat(Drop(shards, id))[k] == (Flat(shards) - {id})[k])
    {
      FlatLookup(shards, NUM_SHARDS, k);
      FlatLookup(Drop(shards, id), NUM_SHARDS, k);
    }
  }

  ghost predicate VisitedOk<V>(shards: seq<map<nat, V>>, i: nat, visited: seq<nat>)
    requires |shards| == NUM_SHARDS && i <= NUM_SHARDS
  {
    && (forall a, b :: 0 <= a < b < |visited| ==> visited[a] != visited[b])
    && (forall id :: id in visited <==> ShardOf(id) < i && id in shards[ShardOf(id)])
  }
}
