/** Which types own heap: the least fixpoint, what the worklist marks instead, and exactly when the two are the same. */
module Ownership {
  import opened Basics

  type Ptr = nat
  const NULL: Ptr := 0

  /** A field or payload: a struct or enum by reference, a fixed array, or anything else with its fixed answer. */
  datatype Member = Plain(owns: bool) | Typed(ptr: Ptr) | Array(elem: Member)

  datatype Shape = Struct(fields: seq<Member>) | Enum(variants: seq<seq<Member>>)

  ghost predicate HasMember(s: Shape, m: Member) {
    match s
    case Struct(fields) => m in fields
    case Enum(variants) => exists v :: 0 <= v < |variants| && m in variants[v]
  }

  /** type_owns_heap_for_enum: the member's own flag, or through an array that of its element. */
  predicate Owns(m: Member, drop: set<Ptr>) {
    match m
    case Plain(owns) => owns
    case Typed(q) => q in drop
    case Array(elem) => Owns(elem, drop)
  }

  /** A heap-owning member, or for an enum a payload of its own type (a box); arrays count only when deep. */
  ghost predicate OwnsDirect(shapes: map<Ptr, Shape>, p: Ptr, drop: set<Ptr>, deep: bool) {
    p in shapes && exists m :: HasMember(shapes[p], m) && (deep || !m.Array?) && (Owns(m, drop) || (shapes[p].Enum? && m == Typed(p)))
  }

  ghost predicate Closed(shapes: map<Ptr, Shape>, types: seq<Ptr>, drop: set<Ptr>, deep: bool) {
    forall i :: 0 <= i < |types| && types[i] != NULL && OwnsDirect(shapes, types[i], drop, deep) ==> types[i] in drop
  }

  /** The least set above base closed under ownership of registered types. */
  ghost predicate LeastAbove(shapes: map<Ptr, Shape>, types: seq<Ptr>, base: set<Ptr>, drop: set<Ptr>, deep: bool) {
    && base <= drop && Closed(shapes, types, drop, deep)
    && forall c :: base <= c && Closed(shapes, types, c, deep) ==> drop <= c
  }

  lemma {:induction false} LeastIsUnique(shapes: map<Ptr, Shape>, types: seq<Ptr>, base: set<Ptr>, a: set<Ptr>, b: set<Ptr>, deep: bool)
    requires LeastAbove(shapes, types, base, a, deep) && LeastAbove(shapes, types, base, b, deep)
    ensures a == b
  {
  }

  lemma {:induction false} OwnsMore(m: Member, a: set<Ptr>, b: set<Ptr>)
    requires a <= b && Owns(m, a)
    ensures Owns(m, b)
    decreases m
  {
    if m.Array? { OwnsMore(m.elem, a, b); }
  }

  lemma {:induction false} OwnsGrows(shapes: map<Ptr, Shape>, p: Ptr, a: set<Ptr>, b: set<Ptr>, deep: bool)
    requires a <= b && OwnsDirect(shapes, p, a, deep)
    ensures OwnsDirect(shapes, p, b, deep)
  {
    var m :| HasMember(shapes[p], m) && (deep || !m.Array?) && (Owns(m, a) || (shapes[p].Enum? && m == Typed(p)));
    if Owns(m, a) { OwnsMore(m, a, b); }
    assert Owns(m, b) || (shapes[p].Enum? && m == Typed(p));
  }

  /** What owns heap directly owns heap. */
  lemma {:induction false} ShallowToo(shapes: map<Ptr, Shape>, p: Ptr, drop: set<Ptr>)
    ensures OwnsDirect(shapes, p, drop, false) ==> OwnsDirect(shapes, p, drop, true)
  {
  }

  /** Within every closed set above base. */
  ghost predicate Contained(shapes: map<Ptr, Shape>, types: seq<Ptr>, base: set<Ptr>, drop: set<Ptr>, deep: bool) {
    forall c :: base <= c && Closed(shapes, types, c, deep) ==> drop <= c
  }

  ghost function Unset(types: seq<Ptr>, drop: set<Ptr>): set<nat> {
    set i: nat | i < |types| && types[i] !in drop
  }

  // ---- what the worklist computes ----

  /** Visiting index u sets a flag. */
  ghost predicate Fires(shapes: map<Ptr, Shape>, types: seq<Ptr>, drop: set<Ptr>, u: nat, deep: bool)
    requires u < |types|
  {
    types[u] != NULL && types[u] !in drop && OwnsDirect(shapes, types[u], drop, deep)
  }

  /** The flags after the first n types are visited once each, in registry order. */
  ghost function Sweep(shapes: map<Ptr, Shape>, types: seq<Ptr>, drop: set<Ptr>, n: nat, deep: bool): set<Ptr>
    requires n <= |types|
  {
    if n == 0 then drop
    else
      var d := Sweep(shapes, types, drop, n - 1, deep);
      if Fires(shapes, types, d, n - 1, deep) then d + {types[n - 1]} else d
  }

  /** The flags after that many sweeps along direct members. */
  ghost function Spread(shapes: map<Ptr, Shape>, types: seq<Ptr>, drop: set<Ptr>, rounds: nat): set<Ptr>
    decreases rounds
  {
    if rounds == 0 then drop
    else Spread(shapes, types, Sweep(shapes, types, drop, |types|, false), rounds - 1)
  }

  /** One sweep that looks into arrays, then as many as it takes that follow direct members only. */
  ghost function Marked(shapes: map<Ptr, Shape>, types: seq<Ptr>, base: set<Ptr>): set<Ptr> {
    Spread(shapes, types, Sweep(shapes, types, base, |types|, true), |types|)
  }

  lemma {:induction false} SweepInside(shapes: map<Ptr, Shape>, types: seq<Ptr>, drop: set<Ptr>, n: nat, deep: bool)
    requires n <= |types|
    ensures drop <= Sweep(shapes, types, drop, n, deep) && Contained(shapes, types, drop, Sweep(shapes, types, drop, n, deep), deep)
    decreases n
  {
    hide OwnsDirect;
    if n > 0 {
      SweepInside(shapes, types, drop, n - 1, deep);
      var d := Sweep(shapes, types, drop, n - 1, deep);
      if Fires(shapes, types, d, n - 1, deep) {
        forall c | drop <= c && Closed(shapes, types, c, deep) ensures types[n - 1] in c {
          OwnsGrows(shapes, types[n - 1], d, c, deep);
        }
      }
    }
  }

  /** A sweep that changes nothing found a closed set. */
  lemma {:induction false} SweepStops(shapes: map<Ptr, Shape>, types: seq<Ptr>, drop: set<Ptr>, n: nat, deep: bool)
    requires n <= |types| && Sweep(shapes, types, drop, n, deep) == drop
    ensures forall i :: 0 <= i < n ==> !Fires(shapes, types, drop, i, deep)
    decreases n
  {
    hide Fires;
    if n > 0 {
      SweepInside(shapes, types, drop, n - 1, deep);
      var d := Sweep(shapes, types, drop, n - 1, deep);
      assert d <= Sweep(shapes, types, drop, n, deep);
      FiredIsNew(shapes, types, d, n - 1, deep);
      SweepStops(shapes, types, drop, n - 1, deep);
    }
  }

  lemma {:induction false} FiredIsNew(shapes: map<Ptr, Shape>, types: seq<Ptr>, drop: set<Ptr>, u: nat, deep: bool)
    requires u < |types|
    ensures Fires(shapes, types, drop, u, deep) ==> types[u] !in drop
  {
  }

  lemma {:induction false} NoneFires(shapes: map<Ptr, Shape>, types: seq<Ptr>, drop: set<Ptr>, deep: bool)
    requires forall i :: 0 <= i < |types| ==> !Fires(shapes, types, drop, i, deep)
    ensures Closed(shapes, types, drop, deep)
  {
    hide OwnsDirect;
    forall i | 0 <= i < |types| && types[i] != NULL && OwnsDirect(shapes, types[i], drop, deep) ensures types[i] in drop {
      assert !Fires(shapes, types, drop, i, deep);
    }
  }

  lemma {:induction false} SpreadSettles(shapes: map<Ptr, Shape>, types: seq<Ptr>, drop: set<Ptr>, rounds: nat)
    requires |Unset(types, drop)| <= rounds
    ensures LeastAbove(shapes, types, drop, Spread(shapes, types, drop, rounds), false)
    decreases rounds
  {
    hide OwnsDirect, Fires;
    var after := Sweep(shapes, types, drop, |types|, false);
    SweepInside(shapes, types, drop, |types|, false);
    if after == drop {
      SweepStops(shapes, types, drop, |types|, false);
      NoneFires(shapes, types, drop, false);
      SpreadStays(shapes, types, drop, rounds);
    } else {
      SweepSets(shapes, types, drop, |types|, false);
      var p :| p in after && p !in drop;
      var i: nat :| i < |types| && types[i] == p;
      assert i in Unset(types, drop) && i !in Unset(types, after) && Unset(types, after) <= Unset(types, drop);
      Fewer(Unset(types, after), Unset(types, drop), i);
      SpreadSettles(shapes, types, after, rounds - 1);
      ClosedToo(shapes, types, drop, after, Spread(shapes, types, drop, rounds));
    }
  }

  lemma {:induction false} Fewer(a: set<nat>, b: set<nat>, i: nat)
    requires a <= b && i in b && i !in a
    ensures |a| < |b|
  {
    Smaller(a, b - {i});
  }

  lemma {:induction false} ClosedToo(shapes: map<Ptr, Shape>, types: seq<Ptr>, drop: set<Ptr>, after: set<Ptr>, d: set<Ptr>)
    requires drop <= after && Contained(shapes, types, drop, after, false) && LeastAbove(shapes, types, after, d, false)
    ensures LeastAbove(shapes, types, drop, d, false)
  {
    hide Closed;
  }

  lemma {:induction false} SweepSets(shapes: map<Ptr, Shape>, types: seq<Ptr>, drop: set<Ptr>, n: nat, deep: bool)
    requires n <= |types|
    ensures forall p :: p in Sweep(shapes, types, drop, n, deep) && p !in drop ==> exists i: nat :: i < |types| && types[i] == p
    decreases n
  {
    hide Fires;
    if n > 0 { SweepSets(shapes, types, drop, n - 1, deep); }
  }

  lemma {:induction false} SpreadStays(shapes: map<Ptr, Shape>, types: seq<Ptr>, drop: set<Ptr>, rounds: nat)
    requires Sweep(shapes, types, drop, |types|, false) == drop
    ensures Spread(shapes, types, drop, rounds) == drop
    decreases rounds
  {
    hide Sweep;
    if rounds > 0 { SpreadStays(shapes, types, drop, rounds - 1); }
  }

  lemma {:induction false} UnsetFits(types: seq<Ptr>, drop: set<Ptr>)
    ensures |Unset(types, drop)| <= |types|
  {
    var keys := Unset(types, drop);
    Injected(keys, map i | i in keys :: i, |types|);
  }

  /** Spreading along direct members reaches the least set closed under them. */
  lemma {:induction false} SpreadIsLeast(shapes: map<Ptr, Shape>, types: seq<Ptr>, drop: set<Ptr>)
    ensures LeastAbove(shapes, types, drop, Spread(shapes, types, drop, |types|), false)
  {
    UnsetFits(types, drop);
    hide LeastAbove, Spread, Unset;
    SpreadSettles(shapes, types, drop, |types|);
  }

  /** The struct or enum at the bottom of a member, if there is one. */
  function Innermost(m: Member): Option<Ptr> {
    match m
    case Plain(_) => None
    case Typed(q) => Some(q)
    case Array(elem) => Innermost(elem)
  }

  lemma {:induction false} OwnsInnermost(m: Member, a: set<Ptr>, b: set<Ptr>)
    requires Owns(m, b) && !Owns(m, a)
    ensures Innermost(m).Some? && Innermost(m).value in b && Innermost(m).value !in a
    decreases m
  {
    if m.Array? { OwnsInnermost(m.elem, a, b); }
  }

  lemma {:induction false} InnermostOwns(m: Member, drop: set<Ptr>)
    requires Innermost(m).Some? && Innermost(m).value in drop
    ensures Owns(m, drop)
    decreases m
  {
    if m.Array? { InnermostOwns(m.elem, drop); }
  }

  /** No flag is ever set without need: what is marked lies in every closed set above the first flags. */
  lemma {:induction false} MarkedIsNeeded(shapes: map<Ptr, Shape>, types: seq<Ptr>, base: set<Ptr>)
    ensures base <= Marked(shapes, types, base) && Contained(shapes, types, base, Marked(shapes, types, base), true)
    ensures Closed(shapes, types, Marked(shapes, types, base), false)
  {
    hide OwnsDirect, Sweep, Spread;
    SweepInside(shapes, types, base, |types|, true);
    SpreadIsLeast(shapes, types, Sweep(shapes, types, base, |types|, true));
    forall c | Closed(shapes, types, c, true) ensures Closed(shapes, types, c, false) {
      forall p ensures OwnsDirect(shapes, p, c, false) ==> OwnsDirect(shapes, p, c, true) { ShallowToo(shapes, p, c); }
    }
  }

  // ---- when that is the least fixpoint: chains of members ----

  /** Type u has type t among its members, under any arrays if deep. */
  ghost predicate Contains(shapes: map<Ptr, Shape>, types: seq<Ptr>, u: nat, t: nat, deep: bool)
    requires u < |types| && t < |types|
  {
    types[u] in shapes && exists m :: HasMember(shapes[types[u]], m) && (deep || !m.Array?) && Innermost(m) == Some(types[t])
  }

  /** Registry indices from a type that is flagged or owns heap at first, each next type holding the one before. */
  ghost predicate Chain(shapes: map<Ptr, Shape>, types: seq<Ptr>, base: set<Ptr>, p: seq<nat>) {
    && |p| > 0 && (forall i :: 0 <= i < |p| ==> p[i] < |types| && types[p[i]] != NULL)
    && (types[p[0]] in base || OwnsDirect(shapes, types[p[0]], base, true))
    && forall i, j :: 0 <= i < |p| && j == i + 1 < |p| ==> Contains(shapes, types, p[j], p[i], true)
  }

  ghost predicate Ascends(p: seq<nat>, k: nat) {
    k <= |p| && forall i, j :: 0 <= i < k && j == i + 1 < k ==> p[i] <= p[j]
  }

  ghost predicate DirectFrom(shapes: map<Ptr, Shape>, types: seq<Ptr>, p: seq<nat>, k: nat) {
    && (forall i :: 0 <= i < |p| ==> p[i] < |types|)
    && forall i, j :: k <= j == i + 1 < |p| && 0 <= i ==> Contains(shapes, types, p[j], p[i], false)
  }

  /** In registry order up to its last array, by direct members from there on. */
  ghost predicate InTime(shapes: map<Ptr, Shape>, types: seq<Ptr>, base: set<Ptr>, p: seq<nat>) {
    Chain(shapes, types, base, p) && exists k: nat :: 0 < k && Ascends(p, k) && DirectFrom(shapes, types, p, k)
  }

  /** Of the declarations, their order and the first flags: wherever a chain leads, one in time leads. */
  ghost predicate AllInTime(shapes: map<Ptr, Shape>, types: seq<Ptr>, base: set<Ptr>) {
    forall p :: Chain(shapes, types, base, p) ==> Reached(shapes, types, base, types[p[|p| - 1]])
  }

  /** A chain in time leads to this type. */
  ghost predicate Reached(shapes: map<Ptr, Shape>, types: seq<Ptr>, base: set<Ptr>, q: Ptr) {
    exists p :: InTime(shapes, types, base, p) && types[p[|p| - 1]] == q
  }

  /** A chain in registry order below n leads to this type. */
  ghost predicate SweptTo(shapes: map<Ptr, Shape>, types: seq<Ptr>, base: set<Ptr>, n: nat, q: Ptr) {
    exists p :: Chain(shapes, types, base, p) && Ascends(p, |p|) && p[|p| - 1] < n && types[p[|p| - 1]] == q
  }

  lemma {:induction false} ChainOne(shapes: map<Ptr, Shape>, types: seq<Ptr>, base: set<Ptr>, u: nat)
    requires u < |types| && types[u] != NULL && (types[u] in base || OwnsDirect(shapes, types[u], base, true))
    ensures Chain(shapes, types, base, [u]) && InTime(shapes, types, base, [u])
  {
    hide OwnsDirect, Contains;
    assert Ascends([u], 1) && DirectFrom(shapes, types, [u], 1);
  }

  lemma {:induction false} ChainMore(shapes: map<Ptr, Shape>, types: seq<Ptr>, base: set<Ptr>, p: seq<nat>, u: nat)
    requires Chain(shapes, types, base, p) && u < |types| && types[u] != NULL && Contains(shapes, types, u, p[|p| - 1], true)
    ensures Chain(shapes, types, base, p + [u])
    ensures Ascends(p, |p|) && p[|p| - 1] <= u ==> Ascends(p + [u], |p| + 1)
  {
    hide OwnsDirect, Contains;
  }

  lemma {:induction false} ChainLess(shapes: map<Ptr, Shape>, types: seq<Ptr>, base: set<Ptr>, p: seq<nat>)
    requires Chain(shapes, types, base, p) && |p| > 1
    ensures Chain(shapes, types, base, p[..|p| - 1]) && p[..|p| - 1][|p| - 2] == p[|p| - 2]
    ensures p[|p| - 2] < |types| && p[|p| - 1] < |types| && Contains(shapes, types, p[|p| - 1], p[|p| - 2], true)
    ensures forall k :: 0 <= k < |p| && Ascends(p, k) ==> Ascends(p[..|p| - 1], k)
    ensures Ascends(p, |p|) ==> p[|p| - 2] <= p[|p| - 1] && Ascends(p[..|p| - 1], |p| - 1)
  {
    hide OwnsDirect, Contains;
  }

  /** What owns heap over d and not at first holds a type that d adds. */
  lemma {:induction false} OwnsThrough(shapes: map<Ptr, Shape>, p: Ptr, base: set<Ptr>, d: set<Ptr>, deep: bool) returns (m: Member)
    requires OwnsDirect(shapes, p, d, deep) && !OwnsDirect(shapes, p, base, deep)
    ensures p in shapes && HasMember(shapes[p], m) && (deep || !m.Array?)
    ensures Innermost(m).Some? && Innermost(m).value in d && Innermost(m).value !in base
  {
    hide Owns, HasMember, Innermost;
    m :| HasMember(shapes[p], m) && (deep || !m.Array?) && (Owns(m, d) || (shapes[p].Enum? && m == Typed(p)));
    OwnsInnermost(m, base, d);
  }

  /** A container of a set type owns heap. */
  lemma {:induction false} HolderOwns(shapes: map<Ptr, Shape>, types: seq<Ptr>, u: nat, t: nat, d: set<Ptr>, deep: bool)
    requires u < |types| && t < |types| && Contains(shapes, types, u, t, deep) && types[t] in d
    ensures OwnsDirect(shapes, types[u], d, deep)
  {
    hide Owns, HasMember, Innermost;
    var m :| HasMember(shapes[types[u]], m) && (deep || !m.Array?) && Innermost(m) == Some(types[t]);
    InnermostOwns(m, d);
  }

  // ---- the sweep is the chains in registry order ----

  lemma {:induction false} SweepGrows(shapes: map<Ptr, Shape>, types: seq<Ptr>, drop: set<Ptr>, i: nat, n: nat)
    requires i <= n <= |types|
    ensures Sweep(shapes, types, drop, i, true) <= Sweep(shapes, types, drop, n, true)
    decreases n
  {
    hide Fires;
    if i < n { SweepGrows(shapes, types, drop, i, n - 1); }
  }

  /** A type that owns heap when the sweep comes to it is marked from then on. */
  lemma {:induction false} SweepTakes(shapes: map<Ptr, Shape>, types: seq<Ptr>, base: set<Ptr>, u: nat)
    requires u < |types| && types[u] != NULL
    requires types[u] in base || OwnsDirect(shapes, types[u], Sweep(shapes, types, base, u, true), true)
    ensures types[u] in Sweep(shapes, types, base, u + 1, true)
  {
    hide OwnsDirect;
    SweepInside(shapes, types, base, u, true);
  }

  lemma {:induction false} AscendingIsSwept(shapes: map<Ptr, Shape>, types: seq<Ptr>, base: set<Ptr>, p: seq<nat>, n: nat)
    requires Chain(shapes, types, base, p) && Ascends(p, |p|) && p[|p| - 1] < n <= |types|
    ensures types[p[|p| - 1]] in Sweep(shapes, types, base, n, true)
    decreases |p|
  {
    hide OwnsDirect, Sweep, Contains, Ascends;
    var u := p[|p| - 1];
    SweepInside(shapes, types, base, u, true);
    SweepGrows(shapes, types, base, u + 1, n);
    if |p| == 1 {
      if types[u] !in base { OwnsGrows(shapes, types[u], base, Sweep(shapes, types, base, u, true), true); }
      SweepTakes(shapes, types, base, u);
    } else {
      ChainLess(shapes, types, base, p);
      var t := p[|p| - 2];
      if t == u {
        AscendingIsSwept(shapes, types, base, p[..|p| - 1], n);
      } else {
        AscendingIsSwept(shapes, types, base, p[..|p| - 1], u);
        HolderOwns(shapes, types, u, t, Sweep(shapes, types, base, u, true), true);
        SweepTakes(shapes, types, base, u);
      }
    }
  }

  lemma {:induction false} SweptIsAscending(shapes: map<Ptr, Shape>, types: seq<Ptr>, base: set<Ptr>, n: nat, q: Ptr)
    requires n <= |types| && q in Sweep(shapes, types, base, n, true) && q !in base
    ensures SweptTo(shapes, types, base, n, q)
    decreases n, 0
  {
    hide OwnsDirect, Contains, Chain, Ascends;
    var d := Sweep(shapes, types, base, n - 1, true);
    if q in d {
      SweptIsAscending(shapes, types, base, n - 1, q);
      var p := SweptBy(shapes, types, base, n - 1, q);
    } else {
      SweptHere(shapes, types, base, n - 1);
    }
  }

  /** Where the sweep sets a flag, a chain in registry order ends. */
  lemma {:induction false} SweptHere(shapes: map<Ptr, Shape>, types: seq<Ptr>, base: set<Ptr>, u: nat)
    requires u < |types| && Fires(shapes, types, Sweep(shapes, types, base, u, true), u, true)
    ensures SweptTo(shapes, types, base, u + 1, types[u])
    decreases u, 1
  {
    hide OwnsDirect, Contains, Chain, Ascends, Sweep;
    var d := Sweep(shapes, types, base, u, true);
    if OwnsDirect(shapes, types[u], base, true) {
      ChainOne(shapes, types, base, u);
      AscendsOne(u);
    } else {
      var m := OwnsThrough(shapes, types[u], base, d, true);
      SweptIsAscending(shapes, types, base, u, Innermost(m).value);
      var p := SweptBy(shapes, types, base, u, Innermost(m).value);
      ContainsBy(shapes, types, u, p[|p| - 1], m, true);
      ChainMore(shapes, types, base, p, u);
      assert (p + [u])[|p + [u]| - 1] == u;
    }
  }

  lemma {:induction false} SweptBy(shapes: map<Ptr, Shape>, types: seq<Ptr>, base: set<Ptr>, n: nat, q: Ptr) returns (p: seq<nat>)
    requires SweptTo(shapes, types, base, n, q)
    ensures Chain(shapes, types, base, p) && Ascends(p, |p|)
    ensures |p| > 0 && p[|p| - 1] < n && p[|p| - 1] < |types| && types[p[|p| - 1]] == q
  {
    p :| Chain(shapes, types, base, p) && Ascends(p, |p|) && p[|p| - 1] < n && types[p[|p| - 1]] == q;
  }

  lemma {:induction false} AscendsOne(u: nat)
    ensures Ascends([u], 1)
  {
  }

  lemma {:induction false} ContainsBy(shapes: map<Ptr, Shape>, types: seq<Ptr>, u: nat, t: nat, m: Member, deep: bool)
    requires u < |types| && t < |types| && types[u] in shapes && HasMember(shapes[types[u]], m) && (deep || !m.Array?)
    requires Innermost(m) == Some(types[t])
    ensures Contains(shapes, types, u, t, deep) && Contains(shapes, types, u, t, true)
  {
  }

  // ---- what is marked is the chains in time ----

  lemma {:induction false} InTimeIsMarked(shapes: map<Ptr, Shape>, types: seq<Ptr>, base: set<Ptr>, p: seq<nat>, k: nat)
    requires Chain(shapes, types, base, p) && 0 < k && Ascends(p, k) && DirectFrom(shapes, types, p, k)
    ensures types[p[|p| - 1]] in Marked(shapes, types, base)
    decreases |p|
  {
    hide OwnsDirect, Contains, Chain, Ascends, Marked;
    MarkedHasSweep(shapes, types, base);
    ChainRange(shapes, types, base, p);
    if k >= |p| {
      AscendsOn(p, k);
      AscendingIsSwept(shapes, types, base, p, |types|);
    } else {
      ChainLess(shapes, types, base, p);
      var u, t := p[|p| - 1], p[|p| - 2];
      InTimeIsMarked(shapes, types, base, p[..|p| - 1], k);
      HolderOwns(shapes, types, u, t, Marked(shapes, types, base), false);
      MarkedIsNeeded(shapes, types, base);
    }
  }

  lemma {:induction false} AscendsOn(p: seq<nat>, k: nat)
    requires Ascends(p, k) && k >= |p|
    ensures Ascends(p, |p|)
  {
  }

  lemma {:induction false} ChainRange(shapes: map<Ptr, Shape>, types: seq<Ptr>, base: set<Ptr>, p: seq<nat>)
    requires Chain(shapes, types, base, p)
    ensures |p| > 0 && forall i :: 0 <= i < |p| ==> p[i] < |types| && types[p[i]] != NULL
  {
  }

  lemma {:induction false} MarkedHasSweep(shapes: map<Ptr, Shape>, types: seq<Ptr>, base: set<Ptr>)
    ensures Sweep(shapes, types, base, |types|, true) <= Marked(shapes, types, base)
  {
    hide Sweep, Spread;
    SpreadIsLeast(shapes, types, Sweep(shapes, types, base, |types|, true));
  }

  lemma {:induction false} InTimeMore(shapes: map<Ptr, Shape>, types: seq<Ptr>, base: set<Ptr>, p: seq<nat>, u: nat)
    requires InTime(shapes, types, base, p) && u < |types| && types[u] != NULL && Contains(shapes, types, u, p[|p| - 1], false)
    requires Contains(shapes, types, u, p[|p| - 1], true)
    ensures InTime(shapes, types, base, p + [u])
  {
    hide OwnsDirect, Contains;
    var k: nat :| 0 < k && Ascends(p, k) && DirectFrom(shapes, types, p, k);
    ChainMore(shapes, types, base, p, u);
    assert Ascends(p + [u], k) && DirectFrom(shapes, types, p + [u], k);
  }

  ghost function TimelySet(shapes: map<Ptr, Shape>, types: seq<Ptr>, base: set<Ptr>): (c: set<Ptr>)
    ensures forall q :: q in c <==> q in Marked(shapes, types, base) && (q in base || Reached(shapes, types, base, q))
  {
    set q | q in Marked(shapes, types, base) && (q in base || Reached(shapes, types, base, q))
  }

  lemma {:induction false} TimelyIsClosed(shapes: map<Ptr, Shape>, types: seq<Ptr>, base: set<Ptr>, u: nat)
    requires u < |types| && types[u] != NULL && OwnsDirect(shapes, types[u], TimelySet(shapes, types, base), false)
    ensures types[u] in TimelySet(shapes, types, base)
  {
    hide OwnsDirect, Contains, Chain, Marked, InTime, TimelySet, HasMember, Innermost;
    var c := TimelySet(shapes, types, base);
    MarkedIsNeeded(shapes, types, base);
    OwnsGrows(shapes, types[u], c, Marked(shapes, types, base), false);
    if OwnsDirect(shapes, types[u], base, false) {
      ShallowToo(shapes, types[u], base);
      ChainOne(shapes, types, base, u);
      assert [u][|[u]| - 1] == u;
    } else {
      var m := OwnsThrough(shapes, types[u], base, c, false);
      var p := ReachedBy(shapes, types, base, Innermost(m).value);
      ContainsBy(shapes, types, u, p[|p| - 1], m, false);
      InTimeMore(shapes, types, base, p, u);
      assert (p + [u])[|p + [u]| - 1] == u;
    }
  }

  lemma {:induction false} SweptIsTimely(shapes: map<Ptr, Shape>, types: seq<Ptr>, base: set<Ptr>, q: Ptr)
    requires q in Sweep(shapes, types, base, |types|, true)
    ensures q in TimelySet(shapes, types, base)
  {
    hide Sweep, Marked, Chain, TimelySet;
    MarkedHasSweep(shapes, types, base);
    if q !in base {
      SweptIsAscending(shapes, types, base, |types|, q);
      var p := SweptBy(shapes, types, base, |types|, q);
      ChainRange(shapes, types, base, p);
      assert DirectFrom(shapes, types, p, |p|);
      assert InTime(shapes, types, base, p);
    }
  }

  /** The worklist marks the first flags and what chains in time lead to, and nothing else. */
  lemma {:induction false} MarkedIsInTime(shapes: map<Ptr, Shape>, types: seq<Ptr>, base: set<Ptr>, q: Ptr)
    ensures q in Marked(shapes, types, base) <==> q in base || Reached(shapes, types, base, q)
  {
    hide OwnsDirect, InTime, TimelySet, Sweep, Chain;
    MarkedIsNeeded(shapes, types, base);
    if Reached(shapes, types, base, q) { ReachedIsMarked(shapes, types, base, q); }
    var c, swept := TimelySet(shapes, types, base), Sweep(shapes, types, base, |types|, true);
    forall x | x in swept ensures x in c { SweptIsTimely(shapes, types, base, x); }
    forall i | 0 <= i < |types| && types[i] != NULL && OwnsDirect(shapes, types[i], c, false) ensures types[i] in c {
      TimelyIsClosed(shapes, types, base, i);
    }
    SpreadIsLeast(shapes, types, swept);
    assert Closed(shapes, types, c, false) && swept <= c;
    assert Marked(shapes, types, base) <= c;
  }

  lemma {:induction false} ReachedIsMarked(shapes: map<Ptr, Shape>, types: seq<Ptr>, base: set<Ptr>, q: Ptr)
    requires Reached(shapes, types, base, q)
    ensures q in Marked(shapes, types, base)
  {
    hide Chain, Ascends, DirectFrom, Marked, Reached;
    var p := ReachedBy(shapes, types, base, q);
    var k: nat :| 0 < k && Ascends(p, k) && DirectFrom(shapes, types, p, k);
    InTimeIsMarked(shapes, types, base, p, k);
  }

  // ---- the least fixpoint is all chains ----

  lemma {:induction false} ChainIsNeeded(shapes: map<Ptr, Shape>, types: seq<Ptr>, base: set<Ptr>, p: seq<nat>, c: set<Ptr>)
    requires Chain(shapes, types, base, p) && base <= c && Closed(shapes, types, c, true)
    ensures types[p[|p| - 1]] in c
    decreases |p|
  {
    hide OwnsDirect, Contains;
    var u := p[|p| - 1];
    if |p| == 1 {
      if types[u] !in base { OwnsGrows(shapes, types[u], base, c, true); }
    } else {
      ChainLess(shapes, types, base, p);
      ChainIsNeeded(shapes, types, base, p[..|p| - 1], c);
      HolderOwns(shapes, types, u, p[|p| - 2], c, true);
    }
  }

  lemma {:induction false} TimelyOwner(shapes: map<Ptr, Shape>, types: seq<Ptr>, base: set<Ptr>, u: nat)
    requires AllInTime(shapes, types, base)
    requires u < |types| && types[u] != NULL && OwnsDirect(shapes, types[u], Marked(shapes, types, base), true)
    ensures types[u] in Marked(shapes, types, base)
  {
    hide OwnsDirect, Contains, Chain, Marked, InTime, Reached, HasMember, Innermost;
    MarkedIsInTime(shapes, types, base, types[u]);
    if OwnsDirect(shapes, types[u], base, true) {
      ChainOne(shapes, types, base, u);
      assert [u][|[u]| - 1] == u;
    } else {
      var m := OwnsThrough(shapes, types[u], base, Marked(shapes, types, base), true);
      MarkedIsInTime(shapes, types, base, Innermost(m).value);
      var p := ReachedBy(shapes, types, base, Innermost(m).value);
      ContainsBy(shapes, types, u, p[|p| - 1], m, true);
      ChainMore(shapes, types, base, p, u);
      assert (p + [u])[|p + [u]| - 1] == u;
    }
  }

  lemma {:induction false} ReachedBy(shapes: map<Ptr, Shape>, types: seq<Ptr>, base: set<Ptr>, q: Ptr) returns (p: seq<nat>)
    requires Reached(shapes, types, base, q)
    ensures Chain(shapes, types, base, p) && InTime(shapes, types, base, p)
    ensures |p| > 0 && p[|p| - 1] < |types| && types[p[|p| - 1]] == q
  {
    p :| InTime(shapes, types, base, p) && types[p[|p| - 1]] == q;
  }

  /** The worklist computes the least fixpoint exactly when every chain has one in time with the same end. */
  lemma {:induction false} MarkedIsLeast(shapes: map<Ptr, Shape>, types: seq<Ptr>, base: set<Ptr>)
    ensures LeastAbove(shapes, types, base, Marked(shapes, types, base), true) <==> AllInTime(shapes, types, base)
  {
    hide OwnsDirect, Contains, Chain, Marked, Reached;
    var d := Marked(shapes, types, base);
    MarkedIsNeeded(shapes, types, base);
    if LeastAbove(shapes, types, base, d, true) {
      forall p | Chain(shapes, types, base, p) ensures Reached(shapes, types, base, EndOf(types, p)) && |p| > 0 && p[|p| - 1] < |types| {
        ChainRange(shapes, types, base, p);
        ChainIsNeeded(shapes, types, base, p, d);
        EndReached(shapes, types, base, p);
      }
    }
    if AllInTime(shapes, types, base) {
      forall i | 0 <= i < |types| && types[i] != NULL && OwnsDirect(shapes, types[i], d, true) ensures types[i] in d {
        TimelyOwner(shapes, types, base, i);
      }
    }
  }

  ghost function EndOf(types: seq<Ptr>, p: seq<nat>): Ptr {
    if |p| > 0 && p[|p| - 1] < |types| then types[p[|p| - 1]] else NULL
  }

  /** A marked end of a chain is the end of one in time. */
  lemma {:induction false} EndReached(shapes: map<Ptr, Shape>, types: seq<Ptr>, base: set<Ptr>, p: seq<nat>)
    requires Chain(shapes, types, base, p) && |p| > 0 && p[|p| - 1] < |types| && types[p[|p| - 1]] in Marked(shapes, types, base)
    ensures Reached(shapes, types, base, types[p[|p| - 1]])
  {
    hide OwnsDirect, Contains, Marked, InTime;
    var u := p[|p| - 1];
    MarkedIsInTime(shapes, types, base, types[u]);
    if types[u] in base {
      ChainOne(shapes, types, base, u);
      assert [u][|[u]| - 1] == u;
    }
  }

  // ---- two ways to be in time ----

  ghost predicate ArrayFree(shapes: map<Ptr, Shape>) {
    forall p, m :: p in shapes && HasMember(shapes[p], m) ==> !m.Array?
  }

  /** Without array members every chain is in time. */
  lemma {:induction false} ArrayFreeIsLeast(shapes: map<Ptr, Shape>, types: seq<Ptr>, base: set<Ptr>)
    requires ArrayFree(shapes)
    ensures AllInTime(shapes, types, base) && LeastAbove(shapes, types, base, Marked(shapes, types, base), true)
  {
    hide OwnsDirect, Marked, LeastAbove, HasMember;
    forall p | Chain(shapes, types, base, p) ensures InTime(shapes, types, base, p) {
      assert Ascends(p, 1) && DirectFrom(shapes, types, p, 1);
    }
    MarkedIsLeast(shapes, types, base);
  }

  /** No type is registered after one that contains it. */
  ghost predicate MembersFirst(shapes: map<Ptr, Shape>, types: seq<Ptr>) {
    forall u, t :: 0 <= u < |types| && 0 <= t < |types| && Contains(shapes, types, u, t, true) ==> t <= u
  }

  /** With members registered before their containers every chain is in time, arrays or not. */
  lemma {:induction false} MembersFirstIsLeast(shapes: map<Ptr, Shape>, types: seq<Ptr>, base: set<Ptr>)
    requires MembersFirst(shapes, types)
    ensures AllInTime(shapes, types, base) && LeastAbove(shapes, types, base, Marked(shapes, types, base), true)
  {
    hide OwnsDirect, Marked, LeastAbove, Contains;
    forall p | Chain(shapes, types, base, p) ensures InTime(shapes, types, base, p) {
      assert Ascends(p, |p|) && DirectFrom(shapes, types, p, |p|);
    }
    MarkedIsLeast(shapes, types, base);
  }

  // ---- where one is not ----

  /** Str; struct S { array(Str, 2) d }; struct U { array(E, 2) es }; enum E { A(S) }. */
  const PROGRAM: map<Ptr, Shape> :=
    map[1 := Struct([]), 2 := Struct([Array(Typed(1))]), 3 := Struct([Array(Typed(4))]), 4 := Enum([[Typed(2)]])]

  lemma {:induction false} ProgramOwns(d: set<Ptr>)
    ensures !OwnsDirect(PROGRAM, 1, d, true)
    ensures (OwnsDirect(PROGRAM, 2, d, true) <==> 1 in d) && !OwnsDirect(PROGRAM, 2, d, false)
    ensures (OwnsDirect(PROGRAM, 3, d, true) <==> 4 in d) && !OwnsDirect(PROGRAM, 3, d, false)
    ensures (OwnsDirect(PROGRAM, 4, d, true) <==> 2 in d) && (OwnsDirect(PROGRAM, 4, d, false) <==> 2 in d)
  {
    var s, u, e := Array(Typed(1)), Array(Typed(4)), Typed(2);
    assert Owns(s, d) == Owns(Typed(1), d) && Owns(u, d) == Owns(Typed(4), d);
    assert HasMember(PROGRAM[2], s) && HasMember(PROGRAM[3], u);
    assert PROGRAM[4].variants[0][0] == e && HasMember(PROGRAM[4], e);
    assert !PROGRAM[3].Enum? && !PROGRAM[2].Enum?;
  }

  lemma {:induction false} SweepOf(shapes: map<Ptr, Shape>, types: seq<Ptr>, d: set<Ptr>, n: nat, deep: bool)
    requires n < |types| && types[n] != NULL
    ensures
      var was := Sweep(shapes, types, d, n, deep);
      Sweep(shapes, types, d, n + 1, deep) ==
      if OwnsDirect(shapes, types[n], was, deep) then was + {types[n]} else was
  {
    hide OwnsDirect;
  }

  lemma {:induction false} SweepNone(shapes: map<Ptr, Shape>, types: seq<Ptr>, d: set<Ptr>, deep: bool)
    ensures Sweep(shapes, types, d, 0, deep) == d
  {
  }

  lemma {:induction false} ProgramSwept()
    ensures Sweep(PROGRAM, [1, 2, 3, 4], {1}, 4, true) == {1, 2, 4}
  {
    hide OwnsDirect, Sweep, Owns, HasMember;
    var t := [1, 2, 3, 4];
    SweepNone(PROGRAM, t, {1}, true);
    ProgramOwns({1});
    ProgramOwns({1, 2});
    SweepOf(PROGRAM, t, {1}, 0, true);
    assert Sweep(PROGRAM, t, {1}, 1, true) == {1};
    SweepOf(PROGRAM, t, {1}, 1, true);
    assert Sweep(PROGRAM, t, {1}, 2, true) == {1, 2};
    SweepOf(PROGRAM, t, {1}, 2, true);
    SweepOf(PROGRAM, t, {1}, 3, true);
  }

  lemma {:induction false} ProgramStays()
    ensures Sweep(PROGRAM, [1, 2, 3, 4], {1, 2, 4}, 4, false) == {1, 2, 4}
  {
    hide OwnsDirect, Sweep, Owns, HasMember;
    var t, d := [1, 2, 3, 4], {1, 2, 4};
    SweepNone(PROGRAM, t, d, false);
    ProgramOwns(d);
    ShallowToo(PROGRAM, 1, d);
    SweepOf(PROGRAM, t, d, 0, false);
    SweepOf(PROGRAM, t, d, 1, false);
    SweepOf(PROGRAM, t, d, 2, false);
    SweepOf(PROGRAM, t, d, 3, false);
  }

  /** The kind with a fixed answer at the bottom of a member, if there is one. */
  function Bottom(m: Member): Member
    ensures !Bottom(m).Array?
  {
    if m.Array? then Bottom(m.elem) else m
  }

  lemma {:induction false} BottomOwns(m: Member, drop: set<Ptr>)
    ensures Owns(m, drop) <==> Owns(Bottom(m), drop)
    ensures Innermost(m) == if Bottom(m).Typed? then Some(Bottom(m).ptr) else None
  {
    if m.Array? { BottomOwns(m.elem, drop); }
  }

  /** A closure, however deep in arrays, or an enum inside itself marks the type that holds it, whatever the first flags. */
  lemma {:induction false} HeapIsMarked(shapes: map<Ptr, Shape>, types: seq<Ptr>, base: set<Ptr>, u: nat, m: Member)
    requires u < |types| && types[u] != NULL && types[u] in shapes && HasMember(shapes[types[u]], m)
    requires Bottom(m) == Plain(true) || (shapes[types[u]].Enum? && m == Typed(types[u]))
    ensures types[u] in Marked(shapes, types, base)
  {
    BottomOwns(m, base);
    assert OwnsDirect(shapes, types[u], base, true);
    hide OwnsDirect, Marked;
    ChainOne(shapes, types, base, u);
    assert [u][|[u]| - 1] == u;
    assert Reached(shapes, types, base, types[u]);
    MarkedIsInTime(shapes, types, base, types[u]);
  }

  /** And a type that holds nothing else than members without heap stays unmarked, unless it was flagged at first. */
  lemma {:induction false} HeaplessIsUnmarked(shapes: map<Ptr, Shape>, types: seq<Ptr>, base: set<Ptr>, q: Ptr)
    requires q !in base && q in shapes && forall m :: HasMember(shapes[q], m) ==> Bottom(m) == Plain(false)
    ensures q !in Marked(shapes, types, base)
  {
    forall d ensures !OwnsDirect(shapes, q, d, true) {
      forall m | HasMember(shapes[q], m) ensures !Owns(m, d) { BottomOwns(m, d); }
    }
    hide OwnsDirect, Marked, Bottom;
    MarkedIsInTime(shapes, types, base, q);
    if Reached(shapes, types, base, q) {
      var p :| InTime(shapes, types, base, p) && types[p[|p| - 1]] == q;
      if |p| > 1 {
        var t := p[|p| - 2];
        HolderOwns(shapes, types, p[|p| - 1], t, {types[t]}, true);
      }
    }
  }

  /** Structs come before enums in the registry, and only Str is flagged at first: U is missed though E is marked. */
  lemma {:induction false} ArrayMissed()
    ensures Marked(PROGRAM, [1, 2, 3, 4], {1}) == {1, 2, 4} && OwnsDirect(PROGRAM, 3, {1, 2, 4}, true)
    ensures !LeastAbove(PROGRAM, [1, 2, 3, 4], {1}, {1, 2, 4}, true) && !AllInTime(PROGRAM, [1, 2, 3, 4], {1})
  {
    hide OwnsDirect, Sweep;
    ProgramSwept();
    ProgramStays();
    SpreadStays(PROGRAM, [1, 2, 3, 4], {1, 2, 4}, 4);
    ProgramOwns({1, 2, 4});
    assert [1, 2, 3, 4][2] == 3;
    assert !Closed(PROGRAM, [1, 2, 3, 4], {1, 2, 4}, true);
    hide Marked, AllInTime;
    MarkedIsLeast(PROGRAM, [1, 2, 3, 4], {1});
  }
}
