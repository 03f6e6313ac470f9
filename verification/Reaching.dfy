/** Reachability in a finite graph, given by the successors of each node. */
module Reaching {
  ghost predicate Chain<T(!new)>(next: T -> set<T>, p: seq<T>) {
    |p| > 0 && forall i, j :: 0 <= i < |p| && j == i + 1 < |p| ==> p[j] in next(p[i])
  }

  ghost predicate Leads<T(!new)>(start: set<T>, next: T -> set<T>, v: T) {
    exists p :: Chain(next, p) && p[0] in start && p[|p| - 1] == v
  }

  ghost predicate Shut<T(!new)>(next: T -> set<T>, c: set<T>) {
    forall v :: v in c ==> next(v) <= c
  }

  /** All that start leads to, found by adding successors until there are no new ones. */
  function Close<T(==, !new)>(start: set<T>, next: T -> set<T>, ghost universe: set<T>): (r: set<T>)
    requires start <= universe && Shut(next, universe)
    ensures start <= r && Shut(next, r)
    ensures forall c :: start <= c && Shut(next, c) ==> r <= c
    decreases universe - start
  {
    var more := start + set v, d | v in start && d in next(v) :: d;
    if more == start then start else Close(more, next, universe)
  }

  lemma {:induction false} ChainStays<T(!new)>(next: T -> set<T>, p: seq<T>, c: set<T>)
    requires Chain(next, p) && p[0] in c && Shut(next, c)
    ensures p[|p| - 1] in c
    decreases |p|
  {
    if |p| > 1 {
      var q := p[..|p| - 1];
      ChainStays(next, q, c);
      assert p[|p| - 1] in next(q[|q| - 1]);
    }
  }

  lemma {:induction false} ChainGrows<T(!new)>(next: T -> set<T>, p: seq<T>, d: T)
    requires Chain(next, p) && d in next(p[|p| - 1])
    ensures Chain(next, p + [d])
  {
  }

  lemma {:induction false} ChainJoins<T(!new)>(next: T -> set<T>, p: seq<T>, q: seq<T>)
    requires Chain(next, p) && Chain(next, q) && q[0] in next(p[|p| - 1])
    ensures Chain(next, p + q)
  {
  }

  lemma {:induction false} LeadsOn<T(!new)>(start: set<T>, next: T -> set<T>, v: T, d: T)
    requires Leads(start, next, v) && d in next(v)
    ensures Leads(start, next, d)
  {
    var p :| Chain(next, p) && p[0] in start && p[|p| - 1] == v;
    ChainGrows(next, p, d);
    hide Chain;
    assert (p + [d])[|p + [d]| - 1] == d;
  }

  lemma {:induction false} LeadsHere<T(!new)>(start: set<T>, next: T -> set<T>, v: T)
    requires v in start
    ensures Leads(start, next, v)
  {
    assert Chain(next, [v]);
  }

  lemma {:induction false} LeadsInside<T(!new)>(start: set<T>, next: T -> set<T>, v: T, c: set<T>)
    requires Leads(start, next, v) && start <= c && Shut(next, c)
    ensures v in c
  {
    var p :| Chain(next, p) && p[0] in start && p[|p| - 1] == v;
    hide Chain, Shut;
    ChainStays(next, p, c);
  }

  ghost function Led<T(!new)>(start: set<T>, next: T -> set<T>, universe: set<T>): (c: set<T>)
    ensures forall v :: v in c <==> v in universe && Leads(start, next, v)
  {
    set v | v in universe && Leads(start, next, v)
  }

  lemma {:induction false} LedIsShut<T(!new)>(start: set<T>, next: T -> set<T>, universe: set<T>)
    requires start <= universe && Shut(next, universe)
    ensures start <= Led(start, next, universe) && Shut(next, Led(start, next, universe))
  {
    hide Led, Leads;
    var c := Led(start, next, universe);
    forall v | v in start ensures v in c { LeadsHere(start, next, v); }
    forall v | v in c ensures next(v) <= c {
      assert next(v) <= universe;
      forall d | d in next(v) ensures d in c { LeadsOn(start, next, v, d); }
    }
  }

  /** The closure holds exactly the nodes that a chain leads to. */
  lemma {:induction false} CloseIsReach<T(!new)>(start: set<T>, next: T -> set<T>, universe: set<T>)
    requires start <= universe && Shut(next, universe)
    ensures forall v :: v in Close(start, next, universe) <==> Leads(start, next, v)
  {
    hide Close, Leads, Led, Shut;
    LedIsShut(start, next, universe);
    var r := Close(start, next, universe);
    forall v ensures v in r <==> Leads(start, next, v) {
      if v in r { assert r <= Led(start, next, universe); }
      if Leads(start, next, v) { LeadsInside(start, next, v, r); }
    }
  }
}
