/** The has_drop worklist of the type checker over the packed graph, and what its rounds compute. */
module HasDrop {
  import opened Basics
  import opened Probing
  import opened Ownership
  import opened DropGraph
  import opened DropRing

  class World {
    const shapes: map<Ptr, Shape>
    var drop: set<Ptr>

    constructor (shapes: map<Ptr, Shape>, drop: set<Ptr>)
      ensures this.shapes == shapes && this.drop == drop
    {
      this.shapes := shapes;
      this.drop := drop;
    }

    /** hasdrop_eval: set the flag if a direct member owns heap. */
    method Eval(p: Ptr) returns (yes: bool)
      requires p in shapes
      modifies this
      ensures yes <==> p in old(drop) || OwnsDirect(shapes, p, old(drop), true)
      ensures drop == if yes then old(drop) + {p} else old(drop)
    {
      if p in drop {
        return true;
      }
      match shapes[p] {
        case Struct(fields) =>
          var f := 0;
          while f < |fields|
            invariant 0 <= f <= |fields| && drop == old(drop)
            invariant forall k :: 0 <= k < f ==> !Owns(fields[k], drop)
          {
            if Owns(fields[f], drop) {
              assert HasMember(shapes[p], fields[f]);
              drop := drop + {p};
              return true;
            }
            f := f + 1;
          }
          return false;
        case Enum(variants) =>
          var v := 0;
          while v < |variants|
            invariant 0 <= v <= |variants| && drop == old(drop)
            invariant forall x, m :: 0 <= x < v && m in variants[x] ==> !Owns(m, drop) && m != Typed(p)
          {
            var payloads := variants[v];
            var k := 0;
            while k < |payloads|
              invariant 0 <= k <= |payloads| && drop == old(drop)
              invariant forall m :: m in payloads[..k] ==> !Owns(m, drop) && m != Typed(p)
            {
              if payloads[k] == Typed(p) || Owns(payloads[k], drop) {
                assert HasMember(shapes[p], payloads[k]);
                drop := drop + {p};
                return true;
              }
              assert payloads[..k + 1] == payloads[..k] + [payloads[k]];
              k := k + 1;
            }
            assert payloads[..k] == payloads;
            v := v + 1;
          }
          return false;
      }
    }

    /** checker_propagate_has_drop_worklist: terminates with one sweep over all types, spread along direct members only. */
    method Propagate(types: seq<Ptr>, hash: Ptr -> nat)
      requires Registry(shapes, types)
      modifies this
      ensures drop == Marked(shapes, types, old(drop))
      ensures LeastAbove(shapes, types, old(drop), drop, true) <==> AllInTime(shapes, types, old(drop))
    {
      hide LeastAbove, Closed, OwnsDirect, Registry, EdgesOf, Probing.Holds, Indexes, Rows, Marked, InRound, Fires, AllInTime;
      var n := |types|;
      ghost var base := drop;
      MarkedIsLeast(shapes, types, base);
      if n == 0 {
        NothingRegistered(shapes, types, drop);
        return;
      }
      var roff, rtargets;
      ghost var edges;
      roff, rtargets, edges := BuildGraph(types, hash);
      var ring := new Ring(n);
      ghost var done: nat, waiting: seq<nat> := 0, [];
      RoundStarts(shapes, types, base);
      forall i | 0 <= i < n ensures i in ring.items { assert ring.items[i] == i; }
      while ring.head != ring.tail
        invariant EdgesOf(shapes, types, edges, n) && Rows(edges, n, roff[..], rtargets[..])
        invariant ring.Valid() && ring.inq.Length == n && fresh(ring) && fresh(ring.queue) && fresh(ring.inq)
        invariant InRound(shapes, types, base, drop, ring.items, done, waiting)
        invariant forall i :: 0 <= i < n && i !in ring.items ==> Quiet(shapes, types, drop, i)
        decreases Unset(types, drop), |ring.items|
      {
        ghost var before, was := drop, ring.items;
        var u := ring.Pop();
        var p := types[u];
        ghost var more: seq<nat> := [];
        FiresIs(shapes, types, before, u);
        if p != NULL && p !in drop {
          RegisteredShape(shapes, types, u);
          var flipped := Eval(p);
          if flipped {
            Flipped(types, before, u);
            more := Requeue(types, ring, u, roff, rtargets, edges, before);
          } else {
            ShallowToo(shapes, p, drop);
          }
        }
        assert ring.items == was[1..] + more;
        RoundSteps(shapes, types, base, before, was, done, waiting, more);
        done, waiting := NextDone(types, done), NextWaiting(types, done, waiting, more);
      }
      RoundEnds(shapes, types, base, drop, done, waiting);
    }

    /** The pointer index, the edge list and its packed form. */
    method BuildGraph(types: seq<Ptr>, hash: Ptr -> nat) returns (roff: array<nat>, rtargets: array<nat>, ghost edges: seq<Edge>)
      requires Registry(shapes, types)
      ensures fresh(roff) && fresh(rtargets)
      ensures EdgesOf(shapes, types, edges, |types|) && Rows(edges, |types|, roff[..], rtargets[..])
    {
      var hslot, view := BuildIndex(types, hash);
      var list := CollectEdges(shapes, types, hslot, hash, view);
      edges := list;
      hide Rows;
      roff, rtargets := PackRows(list, |types|);
    }

    /** A flip of u puts every container it is a direct member of back in the queue, unless it is there or already set. */
    method Requeue(types: seq<Ptr>, ring: Ring, u: nat, roff: array<nat>, rtargets: array<nat>, ghost edges: seq<Edge>, ghost before: set<Ptr>)
      returns (ghost more: seq<nat>)
      requires Registry(shapes, types) && EdgesOf(shapes, types, edges, |types|) && Rows(edges, |types|, roff[..], rtargets[..])
      requires ring.Valid() && ring.inq.Length == |types| && u < |types| && types[u] != NULL && drop == before + {types[u]}
      requires forall i :: 0 <= i < |types| && i !in ring.items && i != u ==> Quiet(shapes, types, before, i)
      requires roff != ring.queue && rtargets != ring.queue
      modifies ring, ring.queue, ring.inq
      ensures ring.Valid() && ring.items == old(ring.items) + more && OwnersAll(shapes, types, drop, more)
      ensures forall i :: 0 <= i < |types| && i !in ring.items ==> Quiet(shapes, types, drop, i)
    {
      hide Registry, EdgesOf, Quiet, OwnsDirect;
      ghost var were := ring.items;
      ghost var row, targets := roff[..], rtargets[..];
      more := [];
      var e := roff[u];
      while e < roff[u + 1]
        invariant ring.Valid() && roff[..] == row && rtargets[..] == targets && roff[u] <= e
        invariant ring.items == were + more && OwnersAll(shapes, types, drop, more)
        invariant forall k: nat :: InRow(row, u, k) && k < e ==> k < |targets| && Seen(types, drop, ring.items, targets[k])
        decreases roff[u + 1] - e
      {
        assert InRow(row, u, e);
        ContainerInRange(shapes, types, edges, row, targets, u, e);
        var w := rtargets[e];
        if !ring.inq[w] && types[w] !in drop {
          ContainerOwns(shapes, types, edges, row, targets, u, e, drop);
          ring.Push(w);
          more := more + [w];
        }
        e := e + 1;
      }
      forall i | 0 <= i < |types| && i !in ring.items ensures Quiet(shapes, types, drop, i) {
        if i == u {
          SetIsQuiet(shapes, types, drop, i);
        } else {
          StaysQuiet(shapes, types, edges, row, targets, before, u, i, drop, ring.items);
        }
      }
    }
  }

  ghost predicate Seen(types: seq<Ptr>, drop: set<Ptr>, items: seq<nat>, w: nat) {
    w < |types| && (w in items || types[w] in drop)
  }

  lemma {:induction false} ContainerInRange(shapes: map<Ptr, Shape>, types: seq<Ptr>, edges: seq<Edge>, row: seq<nat>, targets: seq<nat>, u: nat, k: nat)
    requires EdgesOf(shapes, types, edges, |types|) && Rows(edges, |types|, row, targets) && InRow(row, u, k)
    ensures k < |targets| && targets[k] < |types|
  {
    assert IsContainer(edges, targets, u, k);
    assert DependsOn(shapes, types, u, targets[k]);
  }

  /** It owns heap directly once its member is set. */
  lemma {:induction false} ContainerOwns(shapes: map<Ptr, Shape>, types: seq<Ptr>, edges: seq<Edge>, row: seq<nat>, targets: seq<nat>, u: nat, k: nat, drop: set<Ptr>)
    requires Registry(shapes, types) && EdgesOf(shapes, types, edges, |types|) && Rows(edges, |types|, row, targets) && InRow(row, u, k)
    requires u < |types| && types[u] in drop
    ensures k < |targets| && targets[k] < |types| && types[targets[k]] != NULL && OwnsDirect(shapes, types[targets[k]], drop, false)
  {
    assert IsContainer(edges, targets, u, k);
    assert DependsOn(shapes, types, u, targets[k]);
    var m := Typed(types[u]);
    assert HasMember(shapes[types[targets[k]]], m) && Owns(m, drop) && !m.Array?;
  }

  lemma {:induction false} SetIsQuiet(shapes: map<Ptr, Shape>, types: seq<Ptr>, drop: set<Ptr>, i: nat)
    requires i < |types| && types[i] in drop
    ensures Quiet(shapes, types, drop, i)
  {
  }

  /** A type that only now owns heap directly contains the one that flipped. */
  lemma {:induction false} FlipReaches(shapes: map<Ptr, Shape>, types: seq<Ptr>, before: set<Ptr>, u: nat, i: nat)
    requires Registry(shapes, types) && u < |types| && i < |types| && u != i && types[u] != NULL && types[i] != NULL
    requires !OwnsDirect(shapes, types[i], before, false) && OwnsDirect(shapes, types[i], before + {types[u]}, false)
    ensures DependsOn(shapes, types, u, i)
  {
    var m :| HasMember(shapes[types[i]], m) && !m.Array? && (Owns(m, before + {types[u]}) || (shapes[types[i]].Enum? && m == Typed(types[i])));
    assert m == Typed(types[u]);
  }

  lemma {:induction false} StaysQuiet(shapes: map<Ptr, Shape>, types: seq<Ptr>, edges: seq<Edge>, row: seq<nat>, targets: seq<nat>,
                   before: set<Ptr>, u: nat, i: nat, drop: set<Ptr>, items: seq<nat>)
    requires Registry(shapes, types) && EdgesOf(shapes, types, edges, |types|) && Rows(edges, |types|, row, targets)
    requires u < |types| && i < |types| && u != i && types[u] != NULL && drop == before + {types[u]}
    requires Quiet(shapes, types, before, i) && i !in items
    requires forall k: nat :: InRow(row, u, k) ==> k < |targets| && Seen(types, drop, items, targets[k])
    ensures Quiet(shapes, types, drop, i)
  {
    hide OwnsDirect, Registry, DependsOn;
    if types[i] != NULL && types[i] !in before && OwnsDirect(shapes, types[i], drop, false) {
      FlipReaches(shapes, types, before, u, i);
      assert (u, i) in edges;
      var k: nat :| InRow(row, u, k) && k < |targets| && targets[k] == i;
    }
  }

  lemma {:induction false} RegisteredShape(shapes: map<Ptr, Shape>, types: seq<Ptr>, u: nat)
    requires Registry(shapes, types) && u < |types| && types[u] != NULL
    ensures types[u] in shapes
  {
  }

  /** A flip leaves one type fewer to flip. */
  lemma {:induction false} Flipped(types: seq<Ptr>, before: set<Ptr>, u: nat)
    requires u < |types| && types[u] !in before
    ensures Unset(types, before + {types[u]}) < Unset(types, before)
  {
    assert u in Unset(types, before) && u !in Unset(types, before + {types[u]});
  }

  /** Nothing left to do for index i along direct members. */
  ghost predicate Quiet(shapes: map<Ptr, Shape>, types: seq<Ptr>, drop: set<Ptr>, i: nat)
    requires i < |types|
  {
    types[i] == NULL || types[i] in drop || !OwnsDirect(shapes, types[i], drop, false)
  }

  // ---- the round of the worklist ----

  ghost predicate OwnersAll(shapes: map<Ptr, Shape>, types: seq<Ptr>, drop: set<Ptr>, items: seq<nat>) {
    forall i :: i in items ==> i < |types| && types[i] != NULL && OwnsDirect(shapes, types[i], drop, false)
  }

  /** The queue: types not visited yet, in order, then containers of types that flipped. */
  ghost predicate InRound(shapes: map<Ptr, Shape>, types: seq<Ptr>, base: set<Ptr>, drop: set<Ptr>, items: seq<nat>, done: nat, waiting: seq<nat>) {
    && done <= |types| && items == seq(|types| - done, i => done + i) + waiting && OwnersAll(shapes, types, drop, waiting)
    && (done < |types| ==> drop == Sweep(shapes, types, base, done, true))
    && (done == |types| ==>
          Sweep(shapes, types, base, done, true) <= drop && Contained(shapes, types, Sweep(shapes, types, base, done, true), drop, false))
  }

  lemma {:induction false} FiresIs(shapes: map<Ptr, Shape>, types: seq<Ptr>, drop: set<Ptr>, u: nat)
    requires u < |types|
    ensures Fires(shapes, types, drop, u, true) <==> types[u] != NULL && types[u] !in drop && OwnsDirect(shapes, types[u], drop, true)
  {
  }

  lemma {:induction false} RoundStarts(shapes: map<Ptr, Shape>, types: seq<Ptr>, base: set<Ptr>)
    requires |types| > 0
    ensures InRound(shapes, types, base, base, seq(|types|, i => i), 0, [])
  {
    assert seq(|types|, i => i) == seq(|types| - 0, i => 0 + i) + [];
  }

  ghost function NextDone(types: seq<Ptr>, done: nat): nat {
    if done < |types| then done + 1 else done
  }

  ghost function NextWaiting(types: seq<Ptr>, done: nat, waiting: seq<nat>, more: seq<nat>): seq<nat>
    requires done >= |types| ==> waiting != []
  {
    (if done < |types| then waiting else waiting[1..]) + more
  }

  /** One visit keeps that shape: in the first round it is a step of the sweep, later it follows direct members. */
  lemma {:induction false} RoundSteps(shapes: map<Ptr, Shape>, types: seq<Ptr>, base: set<Ptr>, drop: set<Ptr>, items: seq<nat>, done: nat, waiting: seq<nat>, more: seq<nat>)
    requires InRound(shapes, types, base, drop, items, done, waiting) && items != []
    requires items[0] < |types|
    requires OwnersAll(shapes, types, if Fires(shapes, types, drop, items[0], true) then drop + {types[items[0]]} else drop, more)
    ensures done >= |types| ==> waiting != []
    ensures
      var after := if Fires(shapes, types, drop, items[0], true) then drop + {types[items[0]]} else drop;
      InRound(shapes, types, base, after, items[1..] + more, NextDone(types, done), NextWaiting(types, done, waiting, more))
  {
    hide OwnsDirect, Fires;
    var after := if Fires(shapes, types, drop, items[0], true) then drop + {types[items[0]]} else drop;
    var n := |types|;
    OwnersStay(shapes, types, drop, after, waiting);
    if done < n {
      assert items[0] == done;
      assert items[1..] + more == seq(n - (done + 1), i => done + 1 + i) + (waiting + more);
      assert after == Sweep(shapes, types, base, done + 1, true);
    } else {
      assert items == waiting && items[0] in waiting;
      assert items[1..] + more == seq(n - done, i => done + i) + (waiting[1..] + more);
      OwnersStay(shapes, types, drop, after, waiting[1..]);
      forall c | Sweep(shapes, types, base, n, true) <= c && Closed(shapes, types, c, false) ensures after <= c {
        assert drop <= c;
        if types[items[0]] != NULL { OwnsGrows(shapes, types[items[0]], drop, c, false); }
      }
    }
  }

  lemma {:induction false} OwnersStay(shapes: map<Ptr, Shape>, types: seq<Ptr>, drop: set<Ptr>, after: set<Ptr>, items: seq<nat>)
    requires OwnersAll(shapes, types, drop, items) && drop <= after
    ensures OwnersAll(shapes, types, after, items)
  {
    hide OwnsDirect;
    forall i | i in items ensures OwnsDirect(shapes, types[i], after, false) {
      OwnsGrows(shapes, types[i], drop, after, false);
    }
  }

  /** When the queue is empty, everything owned along direct members is marked, and nothing else since the sweep. */
  lemma {:induction false} RoundEnds(shapes: map<Ptr, Shape>, types: seq<Ptr>, base: set<Ptr>, drop: set<Ptr>, done: nat, waiting: seq<nat>)
    requires InRound(shapes, types, base, drop, [], done, waiting)
    requires forall i :: 0 <= i < |types| ==> Quiet(shapes, types, drop, i)
    ensures drop == Marked(shapes, types, base)
  {
    hide OwnsDirect, Sweep, Spread;
    assert done == |types|;
    var swept := Sweep(shapes, types, base, |types|, true);
    forall i | 0 <= i < |types| && types[i] != NULL && OwnsDirect(shapes, types[i], drop, false) ensures types[i] in drop {
      assert Quiet(shapes, types, drop, i);
    }
    SpreadIsLeast(shapes, types, swept);
    LeastIsUnique(shapes, types, swept, drop, Spread(shapes, types, swept, |types|), false);
  }

  lemma {:induction false} NothingRegistered(shapes: map<Ptr, Shape>, types: seq<Ptr>, drop: set<Ptr>)
    requires types == []
    ensures Marked(shapes, types, drop) == drop
  {
  }
}
