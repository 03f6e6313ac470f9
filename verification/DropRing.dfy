/** The queue of the has_drop worklist. */
module DropRing {
  import opened Basics
  import Probing

  /** Registry indices in a ring of n + 1 slots, each at most once. */
  class Ring {
    ghost var items: seq<nat>
    const queue: array<nat>
    const inq: array<bool>
    var head: nat
    var tail: nat

    ghost predicate Valid()
      reads this, queue, inq
    {
      && queue.Length == inq.Length + 1 && head < queue.Length && tail < queue.Length
      && |items| <= inq.Length && tail == Probing.At(head, |items|, queue.Length)
      && (forall k :: 0 <= k < |items| ==> queue[Probing.At(head, k, queue.Length)] == items[k] < inq.Length)
      && (forall j, k :: 0 <= j < k < |items| ==> items[j] != items[k])
      && (forall i :: 0 <= i < inq.Length ==> (inq[i] <==> i in items))
    }

    /** Every index queued, in order. */
    constructor (n: nat)
      ensures Valid() && inq.Length == n && fresh(queue) && fresh(inq)
      ensures items == seq(n, i => i)
    {
      queue := new nat[n + 1](i => i);
      inq := new bool[n](_ => true);
      head, tail := 0, n;
      items := seq(n, i => i);
      new;
      forall i | 0 <= i < n ensures i in items && inq[i] {
        assert items[i] == i;
      }
    }

    /** An index that is not queued finds room. */
    method Push(i: nat)
      requires Valid() && i < inq.Length && !inq[i]
      modifies this, queue, inq
      ensures Valid() && items == old(items) + [i]
    {
      RoomFor(items, i, inq.Length);
      queue[tail] := i;
      tail := if tail + 1 == queue.Length then 0 else tail + 1;
      inq[i] := true;
      items := items + [i];
    }

    method Pop() returns (i: nat)
      requires Valid() && head != tail
      modifies this, queue, inq
      ensures Valid() && old(items) != [] && i == old(items)[0] && items == old(items)[1..] && i < inq.Length
    {
      assert items != [] && Probing.At(head, 0, queue.Length) == head;
      i := queue[head];
      head := if head + 1 == queue.Length then 0 else head + 1;
      inq[i] := false;
      items := items[1..];
    }
  }

  /** Distinct indices below n, one of them left out, are fewer than n. */
  lemma {:induction false} RoomFor(items: seq<nat>, i: nat, n: nat)
    requires (forall k :: 0 <= k < |items| ==> items[k] < n) && (forall j, k :: 0 <= j < k < |items| ==> items[j] != items[k])
    requires i < n && i !in items
    ensures |items| < n
  {
    Distinct(items + [i]);
    var keys := Elements(items + [i]);
    Injected(keys, map p | p in keys :: p, n);
  }

  ghost function Elements(items: seq<nat>): set<nat> {
    set x | x in items
  }

  lemma {:induction false} Distinct(items: seq<nat>)
    requires forall j, k :: 0 <= j < k < |items| ==> items[j] != items[k]
    ensures |Elements(items)| == |items|
  {
    if items == [] {
      assert Elements(items) == {};
    } else {
      var n := |items| - 1;
      Distinct(items[..n]);
      var rest := Elements(items[..n]);
      assert items[n] !in rest;
      assert Elements(items) == rest + {items[n]} by { assert items == items[..n] + [items[n]]; }
    }
  }
}
