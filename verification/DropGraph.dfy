/** The dependency graph of the has_drop worklist: pointer index, edge list, packed rows. */
module DropGraph {
  import opened Basics
  import opened Probing
  import opened Ownership

  /** Registered types exist, and none is registered twice. */
  ghost predicate Registry(shapes: map<Ptr, Shape>, types: seq<Ptr>) {
    && NULL !in shapes
    && (forall i :: 0 <= i < |types| && types[i] != NULL ==> types[i] in shapes)
    && (forall i, j :: 0 <= i < j < |types| && types[i] != NULL ==> types[i] != types[j])
  }

  // ---- the pointer index ----

  /** view sends every registered pointer to its place in the registry. */
  ghost predicate Indexes(types: seq<Ptr>, n: nat, view: map<Ptr, nat>) {
    && n <= |types|
    && (forall p :: p in view ==> p != NULL && view[p] < n && types[view[p]] == p)
    && (forall i :: 0 <= i < n && types[i] != NULL ==> types[i] in view)
  }

  lemma {:induction false} IndexFits(types: seq<Ptr>, n: nat, view: map<Ptr, nat>)
    requires Indexes(types, n, view)
    ensures |view| <= n
  {
    Injected(view.Keys, view, n);
  }

  /** Pointer to registry index, in a table at most half full. */
  method BuildIndex(types: seq<Ptr>, hash: Ptr -> nat) returns (hslot: array<Slot<Ptr, nat>>, ghost view: map<Ptr, nat>)
    requires forall i, j :: 0 <= i < j < |types| && types[i] != NULL ==> types[i] != types[j]
    ensures fresh(hslot) && Probing.Holds(hslot[..], hash, view) && Indexes(types, |types|, view) && |view| < hslot.Length
  {
    var n := |types|;
    var hcap := 16;
    while hcap < n * 2
      invariant hcap > 0
      decreases n * 2 - hcap
    {
      hcap := hcap * 2;
    }
    hslot := new Slot<Ptr, nat>[hcap](_ => Empty);
    view := map[];
    var i := 0;
    assert Probing.Holds(hslot[..], hash, view);
    hide Probing.Holds;
    while i < n
      invariant 0 <= i <= n && hslot.Length == hcap && fresh(hslot)
      invariant Probing.Holds(hslot[..], hash, view) && Indexes(types, i, view)
    {
      if types[i] != NULL {
        IndexFits(types, i, view);
        Probing.Put<Ptr, nat>(hslot, hash, view, types[i], i);
        view := view[types[i] := i];
      }
      i := i + 1;
    }
    IndexFits(types, n, view);
  }

  /** The registry index of a pointer, or -1. */
  method IndexOf(hslot: array<Slot<Ptr, nat>>, hash: Ptr -> nat, ghost view: map<Ptr, nat>, p: Ptr) returns (r: int)
    requires Probing.Holds(hslot[..], hash, view) && |view| < hslot.Length
    ensures r == if p in view then view[p] else -1
  {
    var i := Probing.Probe<Ptr, nat>(hslot, hash, view, p);
    return if hslot[i].Full? then hslot[i].value else -1;
  }

  // ---- edges from a member type to the types that contain it ----

  /** u has t among its members, as something other than an enum's own box. */
  ghost predicate DependsOn(shapes: map<Ptr, Shape>, types: seq<Ptr>, t: nat, u: nat) {
    && t < |types| && u < |types| && types[t] != NULL && types[u] in shapes
    && HasMember(shapes[types[u]], Typed(types[t])) && !(shapes[types[u]].Enum? && t == u)
  }

  type Edge = (nat, nat)

  /** The edges of the containers below n, each of them real. */
  ghost predicate EdgesOf(shapes: map<Ptr, Shape>, types: seq<Ptr>, edges: seq<Edge>, n: nat) {
    && (forall e :: e in edges ==> DependsOn(shapes, types, e.0, e.1))
    && (forall t: nat, u: nat :: u < n && DependsOn(shapes, types, t, u) ==> (t, u) in edges)
  }

  ghost predicate AllReal(shapes: map<Ptr, Shape>, types: seq<Ptr>, edges: seq<Edge>) {
    forall e :: e in edges ==> DependsOn(shapes, types, e.0, e.1)
  }

  /** The members in ms, boxes aside, all have their edge to u. */
  ghost predicate Covers(types: seq<Ptr>, edges: seq<Edge>, ms: seq<Member>, u: nat, boxed: bool) {
    forall t: nat :: t < |types| && types[t] != NULL && Typed(types[t]) in ms && !(boxed && t == u) ==> (t, u) in edges
  }

  lemma {:induction false} CoversMore(types: seq<Ptr>, edges: seq<Edge>, more: seq<Edge>, ms: seq<Member>, u: nat, boxed: bool)
    requires Covers(types, edges, ms, u, boxed) && (forall e :: e in edges ==> e in more)
    ensures Covers(types, more, ms, u, boxed)
  {
  }

  /** The edges of one list of fields or payloads of type u. */
  method MemberEdges(shapes: map<Ptr, Shape>, types: seq<Ptr>, hslot: array<Slot<Ptr, nat>>, hash: Ptr -> nat, ghost view: map<Ptr, nat>,
                     ms: seq<Member>, u: nat, edges: seq<Edge>)
    returns (more: seq<Edge>)
    requires Registry(shapes, types) && Probing.Holds(hslot[..], hash, view) && Indexes(types, |types|, view) && |view| < hslot.Length
    requires u < |types| && types[u] != NULL && (forall m :: m in ms ==> HasMember(shapes[types[u]], m))
    requires AllReal(shapes, types, edges)
    ensures AllReal(shapes, types, more) && Covers(types, more, ms, u, shapes[types[u]].Enum?)
    ensures forall e :: e in edges ==> e in more
  {
    hide Probing.Holds, HasMember;
    more := edges;
    var boxed := shapes[types[u]].Enum?;
    var k := 0;
    while k < |ms|
      invariant 0 <= k <= |ms| && AllReal(shapes, types, more) && Covers(types, more, ms[..k], u, boxed)
      invariant forall e :: e in edges ==> e in more
    {
      var m := ms[k];
      ghost var before := more;
      if m.Typed? && !(boxed && m.ptr == types[u]) {
        var ti := IndexOf(hslot, hash, view, m.ptr);
        if ti >= 0 {
          more := more + [(ti, u)];
        }
      }
      CoversMore(types, before, more, ms[..k], u, boxed);
      assert ms[..k + 1] == ms[..k] + [m];
      k := k + 1;
    }
    assert ms[..k] == ms;
  }

  /** Every direct struct or enum member of every registered type gives its edge, and nothing else does. */
  method CollectEdges(shapes: map<Ptr, Shape>, types: seq<Ptr>, hslot: array<Slot<Ptr, nat>>, hash: Ptr -> nat, ghost view: map<Ptr, nat>)
    returns (edges: seq<Edge>)
    requires Registry(shapes, types) && Probing.Holds(hslot[..], hash, view) && Indexes(types, |types|, view) && |view| < hslot.Length
    ensures EdgesOf(shapes, types, edges, |types|)
  {
    hide Probing.Holds, Indexes;
    edges := [];
    var u := 0;
    while u < |types|
      invariant 0 <= u <= |types| && EdgesOf(shapes, types, edges, u)
    {
      ghost var before := edges;
      if types[u] != NULL {
        match shapes[types[u]] {
          case Struct(fields) =>
            edges := MemberEdges(shapes, types, hslot, hash, view, fields, u, edges);
          case Enum(variants) =>
            var v := 0;
            while v < |variants|
              invariant 0 <= v <= |variants| && AllReal(shapes, types, edges)
              invariant forall x :: 0 <= x < v ==> Covers(types, edges, variants[x], u, true)
              invariant forall e :: e in before ==> e in edges
            {
              ghost var were := edges;
              edges := MemberEdges(shapes, types, hslot, hash, view, variants[v], u, edges);
              forall x | 0 <= x < v ensures Covers(types, edges, variants[x], u, true) {
                CoversMore(types, were, edges, variants[x], u, true);
              }
              v := v + 1;
            }
        }
        Covered(shapes, types, edges, u);
      }
      u := u + 1;
    }
  }

  lemma {:induction false} Covered(shapes: map<Ptr, Shape>, types: seq<Ptr>, edges: seq<Edge>, u: nat)
    requires Registry(shapes, types) && u < |types| && types[u] != NULL
    requires
      match shapes[types[u]]
      case Struct(fields) => Covers(types, edges, fields, u, false)
      case Enum(variants) => forall x :: 0 <= x < |variants| ==> Covers(types, edges, variants[x], u, true)
    ensures forall t: nat :: DependsOn(shapes, types, t, u) ==> (t, u) in edges
  {
  }

  // ---- packed rows ----

  /** How many of the first e edges leave t. */
  ghost function Count(edges: seq<Edge>, t: nat, e: nat): (c: nat)
    requires e <= |edges|
    ensures c <= e
  {
    if e == 0 then 0 else Count(edges, t, e - 1) + if edges[e - 1].0 == t then 1 else 0
  }

  /** Where the row of t starts. */
  ghost function Start(edges: seq<Edge>, t: nat): nat {
    if t == 0 then 0 else Start(edges, t - 1) + Count(edges, t - 1, |edges|)
  }

  lemma {:induction false} StartBelow(edges: seq<Edge>, n: nat, t: nat, e: nat)
    requires forall k :: 0 <= k < |edges| ==> edges[k].0 < n
    requires t < n && e <= |edges|
    ensures Start(edges, t) + Count(edges, t, |edges|) == Start(edges, t + 1) <= Start(edges, n)
    ensures Count(edges, t, e) <= Count(edges, t, |edges|)
    ensures e < |edges| && edges[e].0 == t ==> Count(edges, t, e) < Count(edges, t, |edges|)
  {
    CountGrows(edges, t, e, |edges|);
    if e < |edges| { CountGrows(edges, t, e + 1, |edges|); }
    StartGrows(edges, t + 1, n);
  }

  lemma {:induction false} CountGrows(edges: seq<Edge>, t: nat, e: nat, f: nat)
    requires e <= f <= |edges|
    ensures Count(edges, t, e) <= Count(edges, t, f)
    decreases f - e
  {
    if e < f { CountGrows(edges, t, e, f - 1); }
  }

  lemma {:induction false} StartGrows(edges: seq<Edge>, t: nat, n: nat)
    requires t <= n
    ensures Start(edges, t) <= Start(edges, n)
    decreases n - t
  {
    if t < n { StartGrows(edges, t, n - 1); }
  }

  /** All rows together are as long as the edge list. */
  lemma {:induction false} TotalCount(edges: seq<Edge>, n: nat, e: nat)
    requires e <= |edges| && forall k :: 0 <= k < |edges| ==> edges[k].0 < n
    ensures SumCounts(edges, n, e) == e
    decreases e
  {
    if e == 0 {
      ZeroCounts(edges, n);
    } else {
      TotalCount(edges, n, e - 1);
      OneMore(edges, n, e);
    }
  }

  ghost function SumCounts(edges: seq<Edge>, n: nat, e: nat): nat
    requires e <= |edges|
  {
    if n == 0 then 0 else SumCounts(edges, n - 1, e) + Count(edges, n - 1, e)
  }

  lemma {:induction false} ZeroCounts(edges: seq<Edge>, n: nat)
    ensures SumCounts(edges, n, 0) == 0
  {
    if n > 0 { ZeroCounts(edges, n - 1); }
  }

  lemma {:induction false} OneMore(edges: seq<Edge>, n: nat, e: nat)
    requires 0 < e <= |edges|
    ensures SumCounts(edges, n, e) == SumCounts(edges, n, e - 1) + if edges[e - 1].0 < n then 1 else 0
  {
    if n > 0 { OneMore(edges, n - 1, e); }
  }

  lemma {:induction false} StartIsSum(edges: seq<Edge>, n: nat)
    ensures Start(edges, n) == SumCounts(edges, n, |edges|)
  {
    if n > 0 { StartIsSum(edges, n - 1); }
  }

  /** k is a place in row t. */
  predicate InRow(roff: seq<nat>, t: nat, k: nat) {
    t + 1 < |roff| && roff[t] <= k < roff[t + 1]
  }

  /** Row t of the packed graph lists exactly the containers of t. */
  ghost predicate Rows(edges: seq<Edge>, n: nat, roff: seq<nat>, rtargets: seq<nat>) {
    && |roff| == n + 1
    && (forall t: nat, k: nat :: InRow(roff, t, k) ==> IsContainer(edges, rtargets, t, k))
    && (forall e :: e in edges ==> exists k: nat :: InRow(roff, e.0, k) && k < |rtargets| && rtargets[k] == e.1)
  }

  /** k is a place of row t that the first done edges have filled. */
  ghost predicate InFilled(edges: seq<Edge>, t: nat, k: nat, done: nat)
    requires done <= |edges|
  {
    Start(edges, t) <= k < Start(edges, t) + Count(edges, t, done)
  }

  ghost predicate Filled(edges: seq<Edge>, n: nat, rtargets: seq<nat>, done: nat) {
    done <= |edges| == |rtargets| && RowsFilled(edges, n, rtargets, done) && PlacesFilled(edges, rtargets, done)
  }

  ghost predicate RowsFilled(edges: seq<Edge>, n: nat, rtargets: seq<nat>, done: nat)
    requires done <= |edges|
  {
    forall t: nat, k: nat :: t < n && InFilled(edges, t, k, done) ==> IsContainer(edges, rtargets, t, k)
  }

  ghost predicate IsContainer(edges: seq<Edge>, rtargets: seq<nat>, t: nat, k: nat) {
    k < |rtargets| && (t, rtargets[k]) in edges
  }

  ghost predicate PlacesFilled(edges: seq<Edge>, rtargets: seq<nat>, done: nat)
    requires done <= |edges|
  {
    forall e: nat :: e < done ==> Place(edges, e) < |rtargets| && rtargets[Place(edges, e)] == edges[e].1
  }

  ghost function Place(edges: seq<Edge>, e: nat): nat
    requires e < |edges|
  {
    Start(edges, edges[e].0) + Count(edges, edges[e].0, e)
  }

  lemma {:induction false} PlacesApart(edges: seq<Edge>, n: nat, e: nat, f: nat)
    requires forall k :: 0 <= k < |edges| ==> edges[k].0 < n
    requires e < f < |edges|
    ensures Place(edges, e) != Place(edges, f)
  {
    var t, u := edges[e].0, edges[f].0;
    StartBelow(edges, n, t, e);
    StartBelow(edges, n, u, f);
    if t == u {
      CountGrows(edges, t, e + 1, f);
    } else if t < u {
      StartGrows(edges, t + 1, u);
    } else {
      StartGrows(edges, u + 1, t);
    }
  }

  /** A filled place lies in the row of its own edge only. */
  lemma {:induction false} OwnRow(edges: seq<Edge>, n: nat, t: nat, k: nat, e: nat)
    requires forall k :: 0 <= k < |edges| ==> edges[k].0 < n
    requires t < n && e < |edges| && InFilled(edges, t, k, e)
    ensures k != Place(edges, e)
  {
    var u := edges[e].0;
    StartBelow(edges, n, t, e);
    StartBelow(edges, n, u, e);
    if t < u {
      StartGrows(edges, t + 1, u);
    } else if u < t {
      StartGrows(edges, u + 1, t);
    }
  }

  lemma {:induction false} PlaceFits(edges: seq<Edge>, n: nat, e: nat)
    requires forall k :: 0 <= k < |edges| ==> edges[k].0 < n
    requires e < |edges|
    ensures Place(edges, e) < |edges|
  {
    TotalCount(edges, n, |edges|);
    StartIsSum(edges, n);
    StartBelow(edges, n, edges[e].0, e);
  }

  /** One more edge fills one more place, in its own row. */
  lemma {:induction false} FillRow(edges: seq<Edge>, n: nat, rtargets: seq<nat>, e: nat, t: nat, k: nat)
    requires forall k :: 0 <= k < |edges| ==> edges[k].0 < n
    requires e < |edges| && Filled(edges, n, rtargets, e) && t < n && InFilled(edges, t, k, e + 1)
    ensures Place(edges, e) < |rtargets| && IsContainer(edges, rtargets[Place(edges, e) := edges[e].1], t, k)
  {
    PlaceFits(edges, n, e);
    if InFilled(edges, t, k, e) {
      OwnRow(edges, n, t, k, e);
    } else {
      assert k == Place(edges, e) && edges[e] == (t, edges[e].1);
    }
  }

  lemma {:induction false} FillStep(edges: seq<Edge>, n: nat, rtargets: seq<nat>, e: nat)
    requires forall k :: 0 <= k < |edges| ==> edges[k].0 < n
    requires e < |edges| && Filled(edges, n, rtargets, e)
    ensures Place(edges, e) < |rtargets|
    ensures Filled(edges, n, rtargets[Place(edges, e) := edges[e].1], e + 1)
  {
    PlaceFits(edges, n, e);
    var after := rtargets[Place(edges, e) := edges[e].1];
    forall t: nat, k: nat | t < n && InFilled(edges, t, k, e + 1) ensures IsContainer(edges, after, t, k) {
      FillRow(edges, n, rtargets, e, t, k);
    }
    forall f: nat | f < e + 1 ensures Place(edges, f) < |after| && after[Place(edges, f)] == edges[f].1 {
      if f < e { PlacesApart(edges, n, f, e); }
    }
  }

  lemma {:induction false} NothingFilled(edges: seq<Edge>, n: nat, rtargets: seq<nat>)
    requires |rtargets| == |edges|
    ensures Filled(edges, n, rtargets, 0) && forall t: nat :: Count(edges, t, 0) == 0
  {
  }

  lemma {:induction false} FilledIsRows(edges: seq<Edge>, n: nat, roff: seq<nat>, rtargets: seq<nat>)
    requires forall k :: 0 <= k < |edges| ==> edges[k].0 < n
    requires |roff| == n + 1 && (forall t :: 0 <= t <= n ==> roff[t] == Start(edges, t)) && Filled(edges, n, rtargets, |edges|)
    ensures Rows(edges, n, roff, rtargets)
  {
    TotalCount(edges, n, |edges|);
    StartIsSum(edges, n);
    forall t: nat, k: nat | InRow(roff, t, k) ensures IsContainer(edges, rtargets, t, k) {
      assert InFilled(edges, t, k, |edges|);
    }
    forall e | e in edges ensures exists k: nat :: InRow(roff, e.0, k) && k < |rtargets| && rtargets[k] == e.1 {
      var i: nat :| i < |edges| && edges[i] == e;
      StartBelow(edges, n, e.0, i);
      assert InRow(roff, e.0, Place(edges, i));
    }
  }

  lemma {:induction false} StartSteps(edges: seq<Edge>, t: nat)
    ensures Start(edges, 0) == 0 && Start(edges, t + 1) == Start(edges, t) + Count(edges, t, |edges|)
  {
  }

  /** Row lengths, then their running sums. */
  method RowOffsets(edges: seq<Edge>, n: nat) returns (roff: array<nat>)
    requires forall k :: 0 <= k < |edges| ==> edges[k].0 < n
    ensures fresh(roff) && roff.Length == n + 1 && forall t :: 0 <= t <= n ==> roff[t] == Start(edges, t)
  {
    hide Start, Count;
    roff := new nat[n + 1](_ => 0);
    var e := 0;
    NothingFilled(edges, n, seq(|edges|, _ => 0));
    while e < |edges|
      invariant 0 <= e <= |edges| && roff[0] == 0
      invariant forall t :: 1 <= t <= n ==> roff[t] == Count(edges, t - 1, e)
    {
      CountSteps(edges, n, e);
      roff[edges[e].0 + 1] := roff[edges[e].0 + 1] + 1;
      e := e + 1;
    }
    var i := 0;
    StartSteps(edges, 0);
    while i < n
      invariant 0 <= i <= n && forall t :: 0 <= t <= i ==> roff[t] == Start(edges, t)
      invariant forall t :: i < t <= n ==> roff[t] == Count(edges, t - 1, |edges|)
    {
      StartSteps(edges, i);
      roff[i + 1] := roff[i + 1] + roff[i];
      i := i + 1;
    }
  }

  /** Count, sum and scatter: the edge list packed by dependency. */
  method PackRows(edges: seq<Edge>, n: nat) returns (roff: array<nat>, rtargets: array<nat>)
    requires forall k :: 0 <= k < |edges| ==> edges[k].0 < n
    ensures fresh(roff) && fresh(rtargets) && Rows(edges, n, roff[..], rtargets[..])
  {
    hide Filled, Rows, Start, Count;
    roff := RowOffsets(edges, n);
    rtargets := new nat[|edges|];
    var rfill := new nat[n](_ => 0);
    var e := 0;
    NothingFilled(edges, n, rtargets[..]);
    while e < |edges|
      invariant 0 <= e <= |edges| && Filled(edges, n, rtargets[..], e) && rtargets.Length == |edges|
      invariant forall t :: 0 <= t < n ==> rfill[t] == Count(edges, t, e)
      invariant forall t :: 0 <= t <= n ==> roff[t] == Start(edges, t)
    {
      var t := edges[e].0;
      FillStep(edges, n, rtargets[..], e);
      CountSteps(edges, n, e);
      ghost var after := rtargets[..][Place(edges, e) := edges[e].1];
      rtargets[roff[t] + rfill[t]] := edges[e].1;
      assert rtargets[..] == after;
      rfill[t] := rfill[t] + 1;
      e := e + 1;
    }
    FilledIsRows(edges, n, roff[..], rtargets[..]);
  }

  lemma {:induction false} CountSteps(edges: seq<Edge>, n: nat, e: nat)
    requires e < |edges|
    ensures forall t: nat :: Count(edges, t, e + 1) == Count(edges, t, e) + if edges[e].0 == t then 1 else 0
  {
  }
}
