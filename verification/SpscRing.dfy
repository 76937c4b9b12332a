/** The ring's memory (two masked cursors and a slot array), and its push, pop and
    pop_burst as one thread at a time runs them. */
module SpscRing {
  import opened Common
  import opened Bits

  datatype Ring<T> = Ring(head: nat, tail: nat, buf: seq<T>)

  ghost predicate WellFormed<T>(r: Ring<T>)
  {
    && IsPow2(|r.buf|) && |r.buf| <= SIZE_MOD
    && r.head < |r.buf| && r.tail < |r.buf|
  }

  function Min(a: nat, b: nat): nat
  {
    if a < b then a else b
  }

  /** Number of stored items: the distance from tail to head around the ring. */
  ghost function Used<T>(r: Ring<T>): (c: nat)
    requires WellFormed(r)
    ensures c < |r.buf|
  {
    Mod(r.head - r.tail, |r.buf|)
  }

  /** Slot of the i-th stored item. */
  ghost function SlotOf<T>(r: Ring<T>, i: nat): (s: nat)
    requires WellFormed(r)
    ensures s < |r.buf|
  {
    Mod(r.tail + i, |r.buf|)
  }

  /** Items stored, oldest first. */
  ghost function Contents<T>(r: Ring<T>): (q: seq<T>)
    requires WellFormed(r)
    ensures |q| == Used(r)
  {
    seq(Used(r), i requires 0 <= i => r.buf[SlotOf(r, i)])
  }

  /** The slot after the last used one is the head; the ring is full exactly when the slot
      after the head is the tail; otherwise one more fits. */
  lemma UsedFacts(head: nat, tail: nat, n: nat)
    requires head < n && tail < n
    ensures Mod(tail + Mod(head - tail, n), n) == head
    ensures Mod(head + 1, n) == tail <==> Mod(head - tail, n) == n - 1
    ensures Mod(head + 1, n) != tail ==> Mod(Mod(head + 1, n) - tail, n) == Mod(head - tail, n) + 1
    ensures head == tail <==> Mod(head - tail, n) == 0
  {
    hide Mod;
    ModUnique(head - tail, n, if head >= tail then 0 else -1, if head >= tail then head - tail else head - tail + n);
    var c := Mod(head - tail, n);
    ModUnique(tail + c, n, if head >= tail then 0 else 1, head);
    if head + 1 < n {
      ModSmall(head + 1, n);
    } else {
      ModUnique(head + 1, n, 1, 0);
    }
    var next := Mod(head + 1, n);
    ModUnique(next - tail, n, if next >= tail then 0 else -1, if next >= tail then next - tail else next - tail + n);
  }

  /** Different stored positions use different slots, none of them the head's. */
  lemma SlotsDistinct(head: nat, tail: nat, i: nat, n: nat)
    requires head < n && tail < n && i < Mod(head - tail, n)
    ensures Mod(tail + i, n) != head
  {
    hide Mod;
    UsedFacts(head, tail, n);
    ModInjective(tail + Mod(head - tail, n), tail + i, n);
  }

  /** Moving the head over a freshly written slot appends that slot's value. */
  lemma AppendSlot<T>(r: Ring<T>, v: T, next: nat)
    requires WellFormed(r) && next == Mod(r.head + 1, |r.buf|) && next != r.tail
    ensures WellFormed(r.(head := next, buf := r.buf[r.head := v]))
    ensures Contents(r.(head := next, buf := r.buf[r.head := v])) == Contents(r) + [v]
  {
    hide Mod, IsPow2;
    var r' := r.(head := next, buf := r.buf[r.head := v]);
    UsedFacts(r.head, r.tail, |r.buf|);
    forall i: nat | i < Used(r) ensures SlotOf(r, i) != r.head && SlotOf(r', i) == SlotOf(r, i) {
      SlotsDistinct(r.head, r.tail, i, |r.buf|);
    }
    assert SlotOf(r', Used(r)) == r.head;
    assert Contents(r') == Contents(r) + [v];
  }

  /** Moving the tail forward by k stored items removes exactly those k. */
  lemma DropSlots<T>(r: Ring<T>, k: nat, t: nat)
    requires WellFormed(r) && k <= Used(r) && t == SlotOf(r, k)
    ensures WellFormed(r.(tail := t))
    ensures Contents(r.(tail := t)) == Contents(r)[k..]
  {
    hide Mod, IsPow2;
    var r' := r.(tail := t);
    UsedFacts(r.head, r.tail, |r.buf|);
    ModDiff(r.tail + Used(r), r.tail + k, |r.buf|);
    assert Used(r') == Used(r) - k;
    forall i: nat ensures SlotOf(r', i) == SlotOf(r, k + i) {
      ModAdd(r.tail + k, i, |r.buf|);
    }
    assert Contents(r') == Contents(r)[k..];
  }

  /** The queue object: head_ is written by the producer only, tail_ by the consumer only. */
  class SpscRing<T(0)> {
    var head: nat
    var tail: nat
    const buf: array<T>

    ghost function View(): Ring<T>
      reads this, buf
    {
      Ring(head, tail, buf[..])
    }

    ghost predicate Valid()
      reads this, buf
    {
      WellFormed(View())
    }

    constructor (n: nat)
      requires IsPow2(n) && n <= SIZE_MOD
      ensures Valid() && fresh(buf) && buf.Length == n && Contents(View()) == []
    {
      head, tail := 0, 0;
      buf := new T[n];
      new;
      ModSmall(0, n);
    }

    /** Appends the value, or refuses it exactly when capacity() items are already stored. */
    method Push(val: T) returns (ok: bool)
      requires Valid()
      modifies this`head, buf
      ensures Valid()
      ensures ok <==> |old(Contents(View()))| < buf.Length - 1
      ensures Contents(View()) == if ok then old(Contents(View())) + [val] else old(Contents(View()))
    {
      hide Mod, Mask, IsPow2;
      var h := head;
      MaskIsMod(h + 1, buf.Length);
      var nextH := Mask(h + 1, buf.Length);
      UsedFacts(h, tail, buf.Length);
      if nextH == tail {
        return false;
      }
      AppendSlot(View(), val, nextH);
      buf[h] := val;
      head := nextH;
      assert View() == old(View()).(head := nextH, buf := old(buf[..])[h := val]);
      return true;
    }

    /** Removes the oldest item; None exactly when the ring is empty. */
    method Pop() returns (out: Option<T>)
      requires Valid()
      modifies this`tail
      ensures Valid()
      ensures out == if old(Contents(View())) == [] then None else Some(old(Contents(View()))[0])
      ensures Contents(View()) == if out.None? then [] else old(Contents(View()))[1..]
    {
      hide Mod, Mask, IsPow2;
      var t := tail;
      UsedFacts(head, t, buf.Length);
      if t == head {
        return None;
      }
      out := Some(buf[t]);
      assert SlotOf(View(), 0) == t by { ModSmall(t, buf.Length); }
      MaskIsMod(t + 1, buf.Length);
      DropSlots(View(), 1, Mask(t + 1, buf.Length));
      tail := Mask(t + 1, buf.Length);
    }

    /** Copies the first min(max, stored) items to the front of out and removes them. */
    method PopBurst(out: array<T>, max: nat) returns (n: nat)
      requires Valid() && max <= out.Length && out != buf
      modifies this`tail, out
      ensures Valid()
      ensures n == Min(|old(Contents(View()))|, max)
      ensures out[..n] == old(Contents(View()))[..n] && out[n..] == old(out[n..])
      ensures Contents(View()) == old(Contents(View()))[n..]
    {
      hide Mod, Mask, IsPow2;
      var t, h := tail, head;
      MaskIsMod(h - t, buf.Length);
      var avail := Mask(h - t, buf.Length);
      n := if avail < max then avail else max;
      for i := 0 to n
        invariant View() == old(View())
        invariant out[..i] == old(Contents(View()))[..i] && out[n..] == old(out[n..])
      {
        MaskIsMod(t + i, buf.Length);
        assert buf[Mask(t + i, buf.Length)] == Contents(View())[i];
        out[i] := buf[Mask(t + i, buf.Length)];
      }
      if n > 0 {
        MaskIsMod(t + n, buf.Length);
        DropSlots(View(), n, Mask(t + n, buf.Length));
        tail := Mask(t + n, buf.Length);
      }
    }
  }
}
