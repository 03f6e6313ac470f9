/** The side conditions of the fast engines, decided on the first-set tables: what each means is stated over all traces elsewhere. */
module Deciding {
  import opened Basics
  import opened Machine
  import opened FirstSet
  import opened OnePassWalk
  import opened OnePassVm
  import Dfa
  import opened DfaWalk
  import opened Reaching
  import opened HaltingWalk
  import opened Agreement

  function Nexts(): (s: set<Option<Byte>>)
    ensures forall x: Option<Byte> {:trigger x in s} :: x in s
  {
    {None} + BytesBelow(128)
  }

  function BytesBelow(n: nat): (s: set<Option<Byte>>)
    requires n <= 128
    ensures forall x: Option<Byte> :: x in s <==> x.Some? && x.value < n
  {
    if n == 0 then {} else BytesBelow(n - 1) + {Some(n - 1)}
  }

  // ---- the nodes of the walk ----

  function Nodes(n: nat): (s: set<Node>)
    ensures forall x: Node :: x in s <==> x.pc < n
  {
    set pc: nat, x | pc < n && x in Nexts() :: Node(pc, x)
  }

  /** Where the walker goes from a node. */
  function MovesOf(prog: seq<Instr>, flags: Flags, table: seq<SplitInfo>, n: Node): set<Node>
    requires WellFormed(prog) && TableOk(prog, flags, table) && n.pc < |prog|
  {
    var i := prog[n.pc];
    if i.Split? then
      var s := Choose(i, table[n.pc], n.next);
      if s.Some? then {Node(s.value, n.next)} else {}
    else if i.Match? || IsWordTest(i) then {}
    else if Consuming(i) then
      if n.next.Some? && Matches(flags, i, n.next.value) then set x | x in Nexts() :: Node(n.pc + 1, x) else {}
    else if PassesBefore(flags, i, n.next) && |EpsSucc(prog, n.pc)| > 0 then {Node(EpsSucc(prog, n.pc)[0], n.next)}
    else {}
  }

  lemma {:induction false} MovesAre(prog: seq<Instr>, flags: Flags, table: seq<SplitInfo>, n: Node, d: Node)
    requires WellFormed(prog) && TableOk(prog, flags, table) && n.pc < |prog|
    ensures d in MovesOf(prog, flags, table, n) <==> d.pc < |prog| && Moves(prog, flags, n, d)
  {
    hide TableOk, Choose, Side, Matches, PassesBefore, EpsSucc, Nexts;
    EpsTargets(prog, n.pc);
    assert d.next in Nexts();
    if prog[n.pc].Split? {
      ChooseIsSide(prog, flags, table, n.pc, n.next);
      SideInRange(prog, flags, n.pc, n.next);
    }
  }

  lemma {:induction false} SideInRange(prog: seq<Instr>, flags: Flags, pc: nat, next: Option<Byte>)
    requires WellFormed(prog) && pc < |prog| && prog[pc].Split?
    ensures Side(prog, flags, pc, next).Some? ==> Side(prog, flags, pc, next).value < |prog|
  {
  }

  function Graph(prog: seq<Instr>, flags: Flags, table: seq<SplitInfo>): Node -> set<Node>
    requires WellFormed(prog) && TableOk(prog, flags, table)
  {
    (n: Node) => if n.pc < |prog| then MovesOf(prog, flags, table, n) else {}
  }

  lemma {:induction false} GraphShut(prog: seq<Instr>, flags: Flags, table: seq<SplitInfo>)
    requires WellFormed(prog) && TableOk(prog, flags, table)
    ensures Shut(Graph(prog, flags, table), Nodes(|prog|))
  {
    hide WellFormed, TableOk, MovesOf, Moves;
    forall n: Node, d | n.pc < |prog| && d in MovesOf(prog, flags, table, n) ensures d.pc < |prog| {
      MovesAre(prog, flags, table, n, d);
    }
  }

  /** Chains of the graph are traces. */
  lemma {:induction false} ChainsAreTraces(prog: seq<Instr>, flags: Flags, table: seq<SplitInfo>, t: seq<Node>)
    requires WellFormed(prog) && TableOk(prog, flags, table)
    ensures Trace(prog, flags, t) <==> Chain(Graph(prog, flags, table), t) && t[0].pc < |prog|
  {
    hide WellFormed, TableOk, MovesOf, Moves;
    forall n: Node, d: Node | n.pc < |prog|
      ensures d in MovesOf(prog, flags, table, n) <==> d.pc < |prog| && Moves(prog, flags, n, d)
    {
      MovesAre(prog, flags, table, n, d);
    }
    if Chain(Graph(prog, flags, table), t) && t[0].pc < |prog| {
      forall k | 0 <= k < |t| ensures t[k].pc < |prog| { ChainInRange(prog, flags, table, t, k); }
    }
  }

  lemma {:induction false} ChainInRange(prog: seq<Instr>, flags: Flags, table: seq<SplitInfo>, t: seq<Node>, k: nat)
    requires WellFormed(prog) && TableOk(prog, flags, table)
    requires Chain(Graph(prog, flags, table), t) && t[0].pc < |prog| && k < |t|
    ensures t[k].pc < |prog|
  {
    hide WellFormed, TableOk, MovesOf, Moves;
    if k > 0 {
      ChainInRange(prog, flags, table, t, k - 1);
      assert t[k] in Graph(prog, flags, table)(t[k - 1]);
      MovesAre(prog, flags, table, t[k - 1], t[k]);
    }
  }

  /** The nodes that some of these lead to. */
  function From(prog: seq<Instr>, flags: Flags, table: seq<SplitInfo>, start: set<Node>): set<Node>
    requires WellFormed(prog) && TableOk(prog, flags, table) && start <= Nodes(|prog|)
  {
    GraphShut(prog, flags, table);
    Close(start, Graph(prog, flags, table), Nodes(|prog|))
  }

  lemma {:induction false} FromIsReach(prog: seq<Instr>, flags: Flags, table: seq<SplitInfo>, start: set<Node>, n: Node)
    requires WellFormed(prog) && TableOk(prog, flags, table) && start <= Nodes(|prog|)
    ensures n in From(prog, flags, table, start) <==> exists t: seq<Node> :: Trace(prog, flags, t) && |t| > 0 && t[0] in start && t[|t| - 1] == n
  {
    hide WellFormed, TableOk, Graph, Trace, Nodes, Close;
    GraphShut(prog, flags, table);
    CloseIsReach(start, Graph(prog, flags, table), Nodes(|prog|));
    if n in From(prog, flags, table, start) {
      var t :| Chain(Graph(prog, flags, table), t) && |t| > 0 && t[0] in start && t[|t| - 1] == n;
      InNodes(prog, t[0], start);
      ChainsAreTraces(prog, flags, table, t);
    }
    if t: seq<Node> :| Trace(prog, flags, t) && |t| > 0 && t[0] in start && t[|t| - 1] == n {
      ChainsAreTraces(prog, flags, table, t);
      assert Leads(start, Graph(prog, flags, table), n);
    }
  }

  lemma {:induction false} InNodes(prog: seq<Instr>, n: Node, start: set<Node>)
    requires n in start && start <= Nodes(|prog|)
    ensures n.pc < |prog|
  {
  }

  function Opening(prog: seq<Instr>): (s: set<Node>)
    requires |prog| > 0
    ensures s <= Nodes(|prog|) && forall n: Node :: n in s <==> n.pc == 0
  {
    set x | x in Nexts() :: Node(0, x)
  }

  // ---- NeverReturns ----

  /** One move from some of these. */
  function After(prog: seq<Instr>, flags: Flags, table: seq<SplitInfo>, start: set<Node>): (s: set<Node>)
    requires WellFormed(prog) && TableOk(prog, flags, table) && start <= Nodes(|prog|)
    ensures s <= Nodes(|prog|)
  {
    GraphShut(prog, flags, table);
    set v, d | v in start && d in Graph(prog, flags, table)(v) :: d
  }

  /** Two moves or more from the start there is a node at pc 1 that leads to MATCH. */
  predicate ComesBack(prog: seq<Instr>, flags: Flags, table: seq<SplitInfo>)
    requires WellFormed(prog) && TableOk(prog, flags, table)
  {
    exists d :: d in From(prog, flags, table, Twice(prog, flags, table)) && d.pc == 1 && EndsAtMatch(prog, flags, table, d)
  }

  predicate EndsAtMatch(prog: seq<Instr>, flags: Flags, table: seq<SplitInfo>, d: Node)
    requires WellFormed(prog) && TableOk(prog, flags, table)
  {
    d.pc < |prog| && exists e :: e in From(prog, flags, table, {d}) && e.pc < |prog| && prog[e.pc].Match?
  }

  ghost predicate LoopsBack(prog: seq<Instr>, flags: Flags, t: seq<Node>, j: nat)
    requires WellFormed(prog)
  {
    Trace(prog, flags, t) && t[0].pc == 0 && prog[t[|t| - 1].pc].Match? && 1 < j < |t| && t[j].pc == 1
  }

  lemma {:induction false} TraceParts(prog: seq<Instr>, flags: Flags, t: seq<Node>, i: nat, j: nat)
    requires WellFormed(prog) && Trace(prog, flags, t) && i < j <= |t|
    ensures Trace(prog, flags, t[i..j])
  {
    hide WellFormed, Moves;
  }

  lemma {:induction false} TraceJoins(prog: seq<Instr>, flags: Flags, t: seq<Node>, u: seq<Node>)
    requires WellFormed(prog) && Trace(prog, flags, t) && Trace(prog, flags, u) && t[|t| - 1] == u[0]
    ensures Trace(prog, flags, t + u[1..]) && (t + u[1..])[|t + u[1..]| - 1] == u[|u| - 1]
  {
    hide WellFormed, Moves;
    var r := t + u[1..];
    forall i, j | 0 <= i < |r| && j == i + 1 < |r| ensures Moves(prog, flags, r[i], r[j]) {
      if i >= |t| - 1 { assert r[i] == u[i - |t| + 1] && r[j] == u[j - |t| + 1]; }
    }
  }

  lemma {:induction false} FromTrace(prog: seq<Instr>, flags: Flags, table: seq<SplitInfo>, start: set<Node>, n: Node) returns (t: seq<Node>)
    requires WellFormed(prog) && TableOk(prog, flags, table) && start <= Nodes(|prog|) && n in From(prog, flags, table, start)
    ensures Trace(prog, flags, t) && |t| > 0 && t[0] in start && t[|t| - 1] == n
  {
    hide WellFormed, TableOk, From, Trace, Nodes;
    FromIsReach(prog, flags, table, start, n);
    t :| Trace(prog, flags, t) && |t| > 0 && t[0] in start && t[|t| - 1] == n;
  }

  lemma {:induction false} TraceFrom(prog: seq<Instr>, flags: Flags, table: seq<SplitInfo>, start: set<Node>, t: seq<Node>)
    requires WellFormed(prog) && TableOk(prog, flags, table) && start <= Nodes(|prog|)
    requires Trace(prog, flags, t) && |t| > 0 && t[0] in start
    ensures t[|t| - 1] in From(prog, flags, table, start)
  {
    hide WellFormed, TableOk, From, Trace, Nodes;
    FromIsReach(prog, flags, table, start, t[|t| - 1]);
  }

  lemma {:induction false} MovedFrom(prog: seq<Instr>, flags: Flags, table: seq<SplitInfo>, start: set<Node>, d: Node) returns (v: Node)
    requires WellFormed(prog) && TableOk(prog, flags, table) && start <= Nodes(|prog|) && d in After(prog, flags, table, start)
    ensures v in start && v.pc < |prog| && d.pc < |prog| && Moves(prog, flags, v, d)
  {
    hide WellFormed, TableOk, MovesOf, Moves;
    v :| v in start && d in Graph(prog, flags, table)(v);
    MovesAre(prog, flags, table, v, d);
  }

  lemma {:induction false} MovesAfter(prog: seq<Instr>, flags: Flags, table: seq<SplitInfo>, start: set<Node>, v: Node, d: Node)
    requires WellFormed(prog) && TableOk(prog, flags, table) && start <= Nodes(|prog|)
    requires v in start && v.pc < |prog| && d.pc < |prog| && Moves(prog, flags, v, d)
    ensures d in After(prog, flags, table, start)
  {
    hide WellFormed, TableOk, MovesOf, Moves;
    MovesAre(prog, flags, table, v, d);
    assert d in Graph(prog, flags, table)(v);
  }

  function Twice(prog: seq<Instr>, flags: Flags, table: seq<SplitInfo>): (s: set<Node>)
    requires WellFormed(prog) && TableOk(prog, flags, table)
    ensures s <= Nodes(|prog|)
  {
    After(prog, flags, table, After(prog, flags, table, Opening(prog)))
  }

  lemma {:induction false} TwiceTrace(prog: seq<Instr>, flags: Flags, table: seq<SplitInfo>, d: Node) returns (t: seq<Node>)
    requires WellFormed(prog) && TableOk(prog, flags, table) && d in Twice(prog, flags, table)
    ensures Trace(prog, flags, t) && |t| == 3 && t[0].pc == 0 && t[2] == d
  {
    var once := After(prog, flags, table, Opening(prog));
    hide *;
    var v := MovedFrom(prog, flags, table, once, d);
    var u := MovedFrom(prog, flags, table, Opening(prog), v);
    TraceOfThree(prog, flags, u, v, d);
    t := [u, v, d];
  }

  lemma {:induction false} TraceOfThree(prog: seq<Instr>, flags: Flags, u: Node, v: Node, d: Node)
    requires WellFormed(prog) && u.pc < |prog| && v.pc < |prog| && d.pc < |prog| && Moves(prog, flags, u, v) && Moves(prog, flags, v, d)
    ensures Trace(prog, flags, [u, v, d])
  {
    hide WellFormed, Moves;
  }

  lemma {:induction false} TraceTwice(prog: seq<Instr>, flags: Flags, table: seq<SplitInfo>, t: seq<Node>)
    requires WellFormed(prog) && TableOk(prog, flags, table) && Trace(prog, flags, t) && |t| > 2 && t[0].pc == 0
    ensures t[2] in Twice(prog, flags, table)
  {
    assert |prog| > 0 && Moves(prog, flags, t[0], t[1]) && Moves(prog, flags, t[1], t[2]) && t[1].pc < |prog| && t[2].pc < |prog|;
    hide WellFormed, TableOk, After, Moves, Trace;
    MovesAfter(prog, flags, table, Opening(prog), t[0], t[1]);
    MovesAfter(prog, flags, table, After(prog, flags, table, Opening(prog)), t[1], t[2]);
  }

  lemma {:induction false} ComesBackAt(prog: seq<Instr>, flags: Flags, table: seq<SplitInfo>) returns (d: Node, e: Node)
    requires WellFormed(prog) && TableOk(prog, flags, table) && ComesBack(prog, flags, table)
    ensures d in From(prog, flags, table, Twice(prog, flags, table)) && d.pc == 1 && {d} <= Nodes(|prog|)
    ensures e in From(prog, flags, table, {d}) && e.pc < |prog| && prog[e.pc].Match?
  {
    hide WellFormed, TableOk, Twice, From;
    d :| d in From(prog, flags, table, Twice(prog, flags, table)) && d.pc == 1 && EndsAtMatch(prog, flags, table, d);
    e :| e in From(prog, flags, table, {d}) && e.pc < |prog| && prog[e.pc].Match?;
  }

  lemma {:induction false} ComesBackFrom(prog: seq<Instr>, flags: Flags, table: seq<SplitInfo>, d: Node, e: Node)
    requires WellFormed(prog) && TableOk(prog, flags, table)
    requires d in From(prog, flags, table, Twice(prog, flags, table)) && d.pc == 1 && {d} <= Nodes(|prog|) && d.pc < |prog|
    requires e in From(prog, flags, table, {d}) && e.pc < |prog| && prog[e.pc].Match?
    ensures ComesBack(prog, flags, table)
  {
    hide WellFormed, TableOk, Twice, From;
    assert EndsAtMatch(prog, flags, table, d);
  }

  lemma {:induction false} LoopsBackIs(prog: seq<Instr>, flags: Flags, t: seq<Node>, j: nat)
    requires WellFormed(prog)
    ensures LoopsBack(prog, flags, t, j) <==>
      Trace(prog, flags, t) && |t| > 0 && t[0].pc == 0 && t[|t| - 1].pc < |prog| && prog[t[|t| - 1].pc].Match? && 1 < j < |t| && t[j].pc == 1
    ensures LoopsBack(prog, flags, t, j) ==> t[j].pc < |prog| && {t[j]} <= Nodes(|prog|)
  {
    hide WellFormed, Moves;
  }

  lemma {:induction false} ComesBackSound(prog: seq<Instr>, flags: Flags, table: seq<SplitInfo>) returns (t: seq<Node>, j: nat)
    requires WellFormed(prog) && TableOk(prog, flags, table) && ComesBack(prog, flags, table)
    ensures LoopsBack(prog, flags, t, j)
  {
    hide *;
    var d, e := ComesBackAt(prog, flags, table);
    var u := FromTrace(prog, flags, table, Twice(prog, flags, table), d);
    var w := FromTrace(prog, flags, table, {d}, e);
    var h := TwiceTrace(prog, flags, table, u[0]);
    TraceJoins(prog, flags, h, u);
    TraceJoins(prog, flags, h + u[1..], w);
    t, j := h + u[1..] + w[1..], |h + u[1..]| - 1;
    LoopsBackIs(prog, flags, t, j);
  }

  lemma {:induction false} ComesBackComplete(prog: seq<Instr>, flags: Flags, table: seq<SplitInfo>, t: seq<Node>, j: nat)
    requires WellFormed(prog) && TableOk(prog, flags, table) && LoopsBack(prog, flags, t, j)
    ensures ComesBack(prog, flags, table)
  {
    hide *;
    LoopsBackIs(prog, flags, t, j);
    TraceTwice(prog, flags, table, t);
    TraceParts(prog, flags, t, 2, j + 1);
    TraceFrom(prog, flags, table, Twice(prog, flags, table), t[2..j + 1]);
    TraceParts(prog, flags, t, j, |t|);
    TraceFrom(prog, flags, table, {t[j]}, t[j..|t|]);
    assert t[2..j + 1][|t[2..j + 1]| - 1] == t[j] && t[j..|t|][|t[j..|t|]| - 1] == t[|t| - 1];
    ComesBackFrom(prog, flags, table, t[j], t[|t| - 1]);
  }

  /** Decides NeverReturns from the tables of the freed program. */
  predicate NeverComesBack(prog: seq<Instr>, flags: Flags, table: seq<SplitInfo>)
    requires WellFormed(Freed(prog)) && TableOk(Freed(prog), flags, table)
  {
    |prog| > 2 && LooksBack(prog[1]) ==> !ComesBack(Freed(prog), flags, table)
  }

  lemma {:induction false} NeverComesBackDecides(prog: seq<Instr>, flags: Flags, table: seq<SplitInfo>)
    requires WellFormed(Freed(prog)) && TableOk(Freed(prog), flags, table)
    ensures NeverComesBack(prog, flags, table) <==> NeverReturns(prog, flags)
  {
    var f := Freed(prog);
    hide WellFormed, TableOk, ComesBack, Moves;
    if |prog| > 2 && LooksBack(prog[1]) {
      if ComesBack(f, flags, table) {
        var t, j := ComesBackSound(f, flags, table);
        assert Returns(prog, flags, t, j);
      }
      if t: seq<Node>, j: nat :| Returns(prog, flags, t, j) {
        assert LoopsBack(f, flags, t, j);
        ComesBackComplete(f, flags, table, t, j);
      }
    }
  }

  // ---- TableHalts ----

  /** Dfa.Glide, read off the tables. */
  function GlideBy(prog: seq<Instr>, flags: Flags, table: seq<SplitInfo>, pc: nat, next: Option<Byte>): Option<nat>
    requires WellFormed(prog) && TableOk(prog, flags, table) && pc < |prog|
  {
    var i := prog[pc];
    EpsTargets(prog, pc);
    if i.Split? then Choose(i, table[pc], next)
    else if i.Match? || Consuming(i) || IsWordTest(i) then None
    else if PassesBefore(flags, i, next) then Some(EpsSucc(prog, pc)[0])
    else None
  }

  lemma {:induction false} GlideByIs(prog: seq<Instr>, flags: Flags, table: seq<SplitInfo>, pc: nat, next: Option<Byte>)
    requires WellFormed(prog) && TableOk(prog, flags, table) && pc < |prog|
    ensures GlideBy(prog, flags, table, pc, next) == Dfa.Glide(prog, flags, pc, next)
    ensures GlideBy(prog, flags, table, pc, next).Some? ==> GlideBy(prog, flags, table, pc, next).value < |prog|
  {
    hide Choose, Side, PassesBefore, EpsSucc;
    EpsTargets(prog, pc);
    if prog[pc].Split? { ChooseIsSide(prog, flags, table, pc, next); }
  }

  /** Resolving from pc is over after at most this many steps. */
  predicate SettlesIn(prog: seq<Instr>, flags: Flags, table: seq<SplitInfo>, pc: nat, next: Option<Byte>, steps: nat)
    requires WellFormed(prog) && TableOk(prog, flags, table) && pc < |prog|
    decreases steps
  {
    GlideByIs(prog, flags, table, pc, next);
    var q := GlideBy(prog, flags, table, pc, next);
    q.None? || (steps > 0 && SettlesIn(prog, flags, table, q.value, next, steps - 1))
  }

  lemma {:induction false} SettlesInSound(prog: seq<Instr>, flags: Flags, table: seq<SplitInfo>, pc: nat, next: Option<Byte>, steps: nat)
    returns (e: seq<nat>)
    requires WellFormed(prog) && TableOk(prog, flags, table) && pc < |prog| && SettlesIn(prog, flags, table, pc, next, steps)
    ensures Dfa.Rests(prog, flags, pc, next, e)
    decreases steps
  {
    hide WellFormed, TableOk, Dfa.Glide, GlideBy;
    GlideByIs(prog, flags, table, pc, next);
    var q := GlideBy(prog, flags, table, pc, next);
    if q.None? { return [pc]; }
    var r := SettlesInSound(prog, flags, table, q.value, next, steps - 1);
    e := [pc] + r;
    forall i, j | 0 <= i < |e| && j == i + 1 < |e| ensures Dfa.Glide(prog, flags, e[i], next) == Some(e[j]) {
      if i > 0 { Dfa.GlidesOn(prog, flags, next, r, i - 1); }
    }
  }

  lemma {:induction false} RestsInSteps(prog: seq<Instr>, flags: Flags, table: seq<SplitInfo>, pc: nat, next: Option<Byte>, e: seq<nat>, k: nat, steps: nat)
    requires WellFormed(prog) && TableOk(prog, flags, table) && Dfa.Rests(prog, flags, pc, next, e) && k < |e| && |e| - 1 - k <= steps
    ensures e[k] < |prog| && SettlesIn(prog, flags, table, e[k], next, steps)
    decreases steps
  {
    hide WellFormed, TableOk, Dfa.Glide, GlideBy;
    GlideByIs(prog, flags, table, e[k], next);
    if k < |e| - 1 {
      Dfa.GlidesOn(prog, flags, next, e, k);
      RestsInSteps(prog, flags, table, pc, next, e, k + 1, steps - 1);
    }
  }

  /** Resolving that ends comes to no pc twice. */
  lemma {:induction false} RestIsShort(prog: seq<Instr>, flags: Flags, pc: nat, next: Option<Byte>, e: seq<nat>)
    requires WellFormed(prog) && Dfa.Rests(prog, flags, pc, next, e)
    ensures |e| <= |prog|
  {
    hide WellFormed, Dfa.Glide;
    forall i, j | 0 <= i < j < |e| ensures e[i] != e[j] {
      if e[i] == e[j] { ComesRound(prog, flags, pc, next, e, i, j); }
    }
    Dfa.AllDifferent(e, |prog|);
  }

  lemma {:induction false} ComesRound(prog: seq<Instr>, flags: Flags, pc: nat, next: Option<Byte>, e: seq<nat>, i: nat, j: nat)
    requires WellFormed(prog) && Dfa.Rests(prog, flags, pc, next, e) && i < j < |e|
    ensures e[i] != e[j]
  {
    hide WellFormed, Dfa.Glide;
    if e[i] == e[j] {
      var c, d := e[i..j + 1], e[i..|e|];
      Dfa.GlidedPart(prog, flags, next, e, i, j + 1);
      Dfa.GlidedPart(prog, flags, next, e, i, |e|);
      Dfa.CircleGoesOn(prog, flags, next, c, d, |d| - 1);
      var x :| 0 <= x < |c| - 1 && d[|d| - 1] == c[x];
      Dfa.GlidesOn(prog, flags, next, c, x);
    }
  }

  /** Decides TableHalts from the tables. */
  predicate TableEnds(prog: seq<Instr>, flags: Flags, table: seq<SplitInfo>)
    requires WellFormed(prog) && TableOk(prog, flags, table)
  {
    forall n :: n in From(prog, flags, table, Opening(prog)) && n.pc < |prog| ==> SettlesIn(prog, flags, table, n.pc, n.next, |prog|)
  }

  lemma {:induction false} MetIs(prog: seq<Instr>, flags: Flags, table: seq<SplitInfo>, n: Node)
    requires WellFormed(prog) && TableOk(prog, flags, table)
    ensures n in From(prog, flags, table, Opening(prog)) <==> Dfa.Met(prog, flags, n)
  {
    assert |prog| > 0;
    hide WellFormed, TableOk, From, Moves;
    FromIsReach(prog, flags, table, Opening(prog), n);
  }

  lemma {:induction false} SettlesInIs(prog: seq<Instr>, flags: Flags, table: seq<SplitInfo>, pc: nat, next: Option<Byte>)
    requires WellFormed(prog) && TableOk(prog, flags, table) && pc < |prog|
    ensures SettlesIn(prog, flags, table, pc, next, |prog|) <==> Dfa.Settles(prog, flags, pc, next)
  {
    hide WellFormed, TableOk, SettlesIn, Dfa.Glided;
    if SettlesIn(prog, flags, table, pc, next, |prog|) { var e := SettlesInSound(prog, flags, table, pc, next, |prog|); }
    if e :| Dfa.Rests(prog, flags, pc, next, e) {
      RestIsShort(prog, flags, pc, next, e);
      RestsAreSome(prog, flags, pc, next, e);
      RestsInSteps(prog, flags, table, pc, next, e, 0, |prog|);
    }
  }

  lemma {:induction false} RestsAreSome(prog: seq<Instr>, flags: Flags, pc: nat, next: Option<Byte>, e: seq<nat>)
    requires WellFormed(prog) && Dfa.Rests(prog, flags, pc, next, e)
    ensures |e| > 0 && e[0] == pc
  {
  }

  lemma {:induction false} TableEndsDecides(prog: seq<Instr>, flags: Flags, table: seq<SplitInfo>)
    requires WellFormed(prog) && TableOk(prog, flags, table)
    ensures TableEnds(prog, flags, table) <==> Dfa.TableHalts(prog, flags)
  {
    assert |prog| > 0;
    hide WellFormed, TableOk, From, SettlesIn, Dfa.Settles, Dfa.Met;
    forall n: Node | n.pc < |prog|
      ensures n in From(prog, flags, table, Opening(prog)) <==> Dfa.Met(prog, flags, n)
      ensures SettlesIn(prog, flags, table, n.pc, n.next, |prog|) <==> Dfa.Settles(prog, flags, n.pc, n.next)
    {
      MetIs(prog, flags, table, n);
      SettlesInIs(prog, flags, table, n.pc, n.next);
    }
    forall n: Node | Dfa.Met(prog, flags, n) ensures n.pc < |prog| { Dfa.MetInRange(prog, flags, n); }
  }

  // ---- Loops ----

  function Spots(n: nat): (s: set<Spot>)
    ensures forall x: Spot :: x in s <==> x.pc < n
  {
    set pc: nat, p, x | pc < n && p in Nexts() && x in Nexts() :: Spot(pc, p, x)
  }

  function StepOf(prog: seq<Instr>, flags: Flags, table: seq<SplitInfo>, n: Spot): Option<nat>
    requires WellFormed(prog) && TableOk(prog, flags, table) && n.pc < |prog|
  {
    var i := prog[n.pc];
    if i.Split? then Choose(i, table[n.pc], n.next)
    else if i.Match? then None
    else if i.Save? then Some(n.pc + 1)
    else if i.Jump? then Some(i.target)
    else if Anchor(i) then if PassesBetween(flags, i, n.prev, n.next) then Some(n.pc + 1) else None
    else if n.next.Some? && Matches(flags, i, n.next.value) then Some(n.pc + 1)
    else None
  }

  lemma {:induction false} StepIs(prog: seq<Instr>, flags: Flags, table: seq<SplitInfo>, n: Spot)
    requires WellFormed(prog) && TableOk(prog, flags, table) && n.pc < |prog|
    ensures StepOf(prog, flags, table, n) == Step(prog, flags, n)
    ensures Step(prog, flags, n).Some? ==> Step(prog, flags, n).value < |prog|
  {
    hide TableOk, Choose, Side, Matches, PassesBetween;
    if prog[n.pc].Split? {
      ChooseIsSide(prog, flags, table, n.pc, n.next);
      SideInRange(prog, flags, n.pc, n.next);
    }
  }

  /** The spots that may follow: after a byte is read, with any byte or none next. */
  function StepsTo(prog: seq<Instr>, flags: Flags, table: seq<SplitInfo>, n: Spot): set<Spot>
    requires WellFormed(prog) && TableOk(prog, flags, table) && n.pc < |prog|
  {
    var s := StepOf(prog, flags, table, n);
    if s.None? then {}
    else if Consuming(prog[n.pc]) then set x | x in Nexts() :: Spot(s.value, n.next, x)
    else {Spot(s.value, n.prev, n.next)}
  }

  lemma {:induction false} StepsAre(prog: seq<Instr>, flags: Flags, table: seq<SplitInfo>, n: Spot, d: Spot)
    requires WellFormed(prog) && TableOk(prog, flags, table) && n.pc < |prog|
    ensures d in StepsTo(prog, flags, table, n) <==> d.pc < |prog| && Follows(prog, flags, n, d)
  {
    StepIs(prog, flags, table, n);
    assert d.next in Nexts();
    hide WellFormed, TableOk, Step, StepOf, Nexts, Consuming;
  }

  function SpotGraph(prog: seq<Instr>, flags: Flags, table: seq<SplitInfo>): Spot -> set<Spot>
    requires WellFormed(prog) && TableOk(prog, flags, table)
  {
    (n: Spot) => if n.pc < |prog| then StepsTo(prog, flags, table, n) else {}
  }

  function SilentGraph(prog: seq<Instr>, flags: Flags, table: seq<SplitInfo>): Spot -> set<Spot>
    requires WellFormed(prog) && TableOk(prog, flags, table)
  {
    (n: Spot) => if n.pc < |prog| && !Consuming(prog[n.pc]) then StepsTo(prog, flags, table, n) else {}
  }

  lemma {:induction false} SpotsShut(prog: seq<Instr>, flags: Flags, table: seq<SplitInfo>)
    requires WellFormed(prog) && TableOk(prog, flags, table)
    ensures Shut(SpotGraph(prog, flags, table), Spots(|prog|)) && Shut(SilentGraph(prog, flags, table), Spots(|prog|))
  {
    hide WellFormed, TableOk, StepsTo, Follows;
    forall n: Spot, d | n.pc < |prog| && d in StepsTo(prog, flags, table, n) ensures d.pc < |prog| {
      StepsAre(prog, flags, table, n, d);
    }
  }

  function OpeningSpots(prog: seq<Instr>): (s: set<Spot>)
    requires |prog| > 0
    ensures s <= Spots(|prog|) && forall n: Spot :: n in s <==> n.pc == 0
  {
    set p, x | p in Nexts() && x in Nexts() :: Spot(0, p, x)
  }

  function Reached(prog: seq<Instr>, flags: Flags, table: seq<SplitInfo>): set<Spot>
    requires WellFormed(prog) && TableOk(prog, flags, table)
  {
    SpotsShut(prog, flags, table);
    Close(OpeningSpots(prog), SpotGraph(prog, flags, table), Spots(|prog|))
  }

  /** The spots that n leads to without reading, in one step or more. */
  function Silently(prog: seq<Instr>, flags: Flags, table: seq<SplitInfo>, n: Spot): set<Spot>
    requires WellFormed(prog) && TableOk(prog, flags, table)
  {
    SpotsShut(prog, flags, table);
    SilentInside(prog, flags, table, n);
    Close(SilentGraph(prog, flags, table)(n), SilentGraph(prog, flags, table), Spots(|prog|))
  }

  lemma {:induction false} SilentInside(prog: seq<Instr>, flags: Flags, table: seq<SplitInfo>, n: Spot)
    requires WellFormed(prog) && TableOk(prog, flags, table)
    ensures SilentGraph(prog, flags, table)(n) <= Spots(|prog|)
  {
    SpotsShut(prog, flags, table);
  }

  /** Decides Loops from the tables the walker uses. */
  predicate GoesForEver(prog: seq<Instr>, flags: Flags, table: seq<SplitInfo>)
    requires WellFormed(prog) && TableOk(prog, flags, table)
  {
    exists n :: n in Reached(prog, flags, table) && n in Silently(prog, flags, table, n)
  }

  lemma {:induction false} ChainSpots(prog: seq<Instr>, flags: Flags, table: seq<SplitInfo>, t: seq<Spot>)
    requires WellFormed(prog) && TableOk(prog, flags, table)
    ensures SpotTrace(prog, flags, t) <==> Chain(SpotGraph(prog, flags, table), t) && t[0].pc < |prog|
  {
    hide WellFormed, TableOk, StepsTo, Follows;
    forall n: Spot, d: Spot | n.pc < |prog|
      ensures d in StepsTo(prog, flags, table, n) <==> d.pc < |prog| && Follows(prog, flags, n, d)
    {
      StepsAre(prog, flags, table, n, d);
    }
    if Chain(SpotGraph(prog, flags, table), t) && t[0].pc < |prog| {
      forall k | 0 <= k < |t| ensures t[k].pc < |prog| { ChainSpotIn(prog, flags, table, t, k); }
    }
  }

  lemma {:induction false} ChainSpotIn(prog: seq<Instr>, flags: Flags, table: seq<SplitInfo>, t: seq<Spot>, k: nat)
    requires WellFormed(prog) && TableOk(prog, flags, table)
    requires Chain(SpotGraph(prog, flags, table), t) && t[0].pc < |prog| && k < |t|
    ensures t[k].pc < |prog|
  {
    hide WellFormed, TableOk, StepsTo, Follows;
    if k > 0 {
      ChainSpotIn(prog, flags, table, t, k - 1);
      assert t[k] in SpotGraph(prog, flags, table)(t[k - 1]);
      StepsAre(prog, flags, table, t[k - 1], t[k]);
    }
  }

  /** Chains that do not read are chains, and read nowhere on the way. */
  lemma {:induction false} SilentChain(prog: seq<Instr>, flags: Flags, table: seq<SplitInfo>, c: seq<Spot>)
    requires WellFormed(prog) && TableOk(prog, flags, table)
    ensures Chain(SilentGraph(prog, flags, table), c) ==>
      && Chain(SpotGraph(prog, flags, table), c)
      && forall k :: 0 <= k < |c| - 1 ==> c[k].pc < |prog| && !Consuming(prog[c[k].pc])
  {
    hide WellFormed, TableOk, StepsTo;
    if Chain(SilentGraph(prog, flags, table), c) {
      forall i, j | 0 <= i < |c| && j == i + 1 < |c|
        ensures c[j] in SpotGraph(prog, flags, table)(c[i]) && c[i].pc < |prog| && !Consuming(prog[c[i].pc])
      {
        assert c[j] in SilentGraph(prog, flags, table)(c[i]);
      }
      forall k | 0 <= k < |c| - 1 ensures c[k].pc < |prog| && !Consuming(prog[c[k].pc]) {
        assert c[k + 1] in SilentGraph(prog, flags, table)(c[k]);
      }
    }
  }

  lemma {:induction false} ReachedIs(prog: seq<Instr>, flags: Flags, table: seq<SplitInfo>, v: Spot)
    requires WellFormed(prog) && TableOk(prog, flags, table)
    ensures |prog| > 0 && (v in Reached(prog, flags, table) <==> Leads(OpeningSpots(prog), SpotGraph(prog, flags, table), v))
  {
    assert |prog| > 0;
    SpotsShut(prog, flags, table);
    hide WellFormed, TableOk, SpotGraph, Close, Shut, Leads;
    CloseIsReach(OpeningSpots(prog), SpotGraph(prog, flags, table), Spots(|prog|));
  }

  lemma {:induction false} SilentlyIs(prog: seq<Instr>, flags: Flags, table: seq<SplitInfo>, n: Spot, v: Spot)
    requires WellFormed(prog) && TableOk(prog, flags, table)
    ensures v in Silently(prog, flags, table, n) <==> Leads(SilentGraph(prog, flags, table)(n), SilentGraph(prog, flags, table), v)
  {
    SpotsShut(prog, flags, table);
    SilentInside(prog, flags, table, n);
    hide WellFormed, TableOk, SilentGraph, Close, Shut, Leads;
    CloseIsReach(SilentGraph(prog, flags, table)(n), SilentGraph(prog, flags, table), Spots(|prog|));
  }

  lemma {:induction false} SilentStep(prog: seq<Instr>, flags: Flags, table: seq<SplitInfo>, n: Spot, d: Spot)
    requires WellFormed(prog) && TableOk(prog, flags, table) && d in SilentGraph(prog, flags, table)(n)
    ensures d in SpotGraph(prog, flags, table)(n) && n.pc < |prog| && !Consuming(prog[n.pc])
  {
  }

  lemma {:induction false} ReachedBy(prog: seq<Instr>, flags: Flags, table: seq<SplitInfo>, n: Spot) returns (p: seq<Spot>)
    requires WellFormed(prog) && TableOk(prog, flags, table) && n in Reached(prog, flags, table)
    ensures Chain(SpotGraph(prog, flags, table), p) && |p| > 0 && p[0].pc == 0 && p[|p| - 1] == n && |prog| > 0
  {
    ReachedIs(prog, flags, table, n);
    hide WellFormed, TableOk, SpotGraph, Reached;
    p :| Chain(SpotGraph(prog, flags, table), p) && p[0] in OpeningSpots(prog) && p[|p| - 1] == n;
  }

  lemma {:induction false} SilentlyBy(prog: seq<Instr>, flags: Flags, table: seq<SplitInfo>, n: Spot) returns (c: seq<Spot>)
    requires WellFormed(prog) && TableOk(prog, flags, table) && n in Silently(prog, flags, table, n)
    ensures Chain(SilentGraph(prog, flags, table), c) && |c| > 0 && c[0] in SilentGraph(prog, flags, table)(n) && c[|c| - 1] == n
    ensures c[0] in SpotGraph(prog, flags, table)(n) && n.pc < |prog| && !Consuming(prog[n.pc])
  {
    hide WellFormed, TableOk, SilentGraph, SpotGraph, Silently;
    SilentlyIs(prog, flags, table, n, n);
    c :| Chain(SilentGraph(prog, flags, table), c) && c[0] in SilentGraph(prog, flags, table)(n) && c[|c| - 1] == n;
    SilentStep(prog, flags, table, n, c[0]);
  }

  lemma {:induction false} ForEverSound(prog: seq<Instr>, flags: Flags, table: seq<SplitInfo>)
    requires WellFormed(prog) && TableOk(prog, flags, table) && GoesForEver(prog, flags, table)
    ensures Loops(prog, flags)
  {
    hide WellFormed, TableOk, Reached, Silently, SpotGraph, SilentGraph, Chain, SpotTrace;
    var n :| n in Reached(prog, flags, table) && n in Silently(prog, flags, table, n);
    var p := ReachedBy(prog, flags, table, n);
    var c := SilentlyBy(prog, flags, table, n);
    SilentChain(prog, flags, table, c);
    ChainJoins(SpotGraph(prog, flags, table), p, c);
    var t := p + c;
    ChainSpots(prog, flags, table, t);
    RangeOf(prog, flags, t);
    var i, j := |p| - 1, |t| - 1;
    forall k | i <= k < j ensures !Consuming(prog[t[k].pc]) {
      if k > i { assert t[k] == c[k - |p|]; }
    }
    assert t[i] == t[j];
    assert GoesRound(prog, t, i, j);
  }

  lemma {:induction false} RangeOf(prog: seq<Instr>, flags: Flags, t: seq<Spot>)
    requires WellFormed(prog) && SpotTrace(prog, flags, t)
    ensures |t| > 0 && forall k :: 0 <= k < |t| ==> t[k].pc < |prog|
  {
  }

  lemma {:induction false} ChainPart<T(!new)>(next: T -> set<T>, p: seq<T>, i: nat, j: nat)
    requires Chain(next, p) && i < j <= |p|
    ensures Chain(next, p[i..j])
  {
  }

  /** The part of a trace that goes round is a chain that does not read. */
  lemma {:induction false} RoundIsSilent(prog: seq<Instr>, flags: Flags, table: seq<SplitInfo>, t: seq<Spot>, i: nat, j: nat)
    requires WellFormed(prog) && TableOk(prog, flags, table) && SpotTrace(prog, flags, t) && GoesRound(prog, t, i, j)
    requires Chain(SpotGraph(prog, flags, table), t)
    ensures Chain(SilentGraph(prog, flags, table), t[i..j + 1]) && t[i + 1] in SilentGraph(prog, flags, table)(t[i])
  {
    hide WellFormed, TableOk, StepsTo, Follows;
    var c := t[i..j + 1];
    forall x, y | 0 <= x < |c| && y == x + 1 < |c| ensures c[y] in SilentGraph(prog, flags, table)(c[x]) {
      assert t[i + y] in SpotGraph(prog, flags, table)(t[i + x]);
    }
    assert c[1] in SilentGraph(prog, flags, table)(c[0]);
  }

  lemma {:induction false} ReachedHas(prog: seq<Instr>, flags: Flags, table: seq<SplitInfo>, p: seq<Spot>)
    requires WellFormed(prog) && TableOk(prog, flags, table)
    requires Chain(SpotGraph(prog, flags, table), p) && p[0].pc == 0
    ensures p[|p| - 1] in Reached(prog, flags, table)
  {
    ReachedIs(prog, flags, table, p[|p| - 1]);
    hide WellFormed, TableOk, SpotGraph, Reached;
    assert p[0] in OpeningSpots(prog);
  }

  lemma {:induction false} SilentlyHas(prog: seq<Instr>, flags: Flags, table: seq<SplitInfo>, n: Spot, c: seq<Spot>)
    requires WellFormed(prog) && TableOk(prog, flags, table)
    requires Chain(SilentGraph(prog, flags, table), c) && c[0] in SilentGraph(prog, flags, table)(n)
    ensures c[|c| - 1] in Silently(prog, flags, table, n)
  {
    hide WellFormed, TableOk, SilentGraph, Silently;
    SilentlyIs(prog, flags, table, n, c[|c| - 1]);
  }

  lemma {:induction false} ForEverAt(prog: seq<Instr>, flags: Flags, table: seq<SplitInfo>, n: Spot)
    requires WellFormed(prog) && TableOk(prog, flags, table)
    requires n in Reached(prog, flags, table) && n in Silently(prog, flags, table, n)
    ensures GoesForEver(prog, flags, table)
  {
  }

  lemma {:induction false} RoundIs(prog: seq<Instr>, t: seq<Spot>, i: nat, j: nat)
    requires (forall k :: 0 <= k < |t| ==> t[k].pc < |prog|) && GoesRound(prog, t, i, j)
    ensures i < j < |t| && t[i] == t[j] && |t[i..j + 1]| == j + 1 - i && t[i..j + 1][1..j + 1 - i] == t[i + 1..j + 1]
    ensures t[0..i + 1][|t[0..i + 1]| - 1] == t[i] && t[0..i + 1][0] == t[0]
    ensures t[i + 1..j + 1][0] == t[i + 1] && t[i + 1..j + 1][|t[i + 1..j + 1]| - 1] == t[j]
  {
  }

  lemma {:induction false} ForEverComplete(prog: seq<Instr>, flags: Flags, table: seq<SplitInfo>, t: seq<Spot>, i: nat, j: nat)
    requires WellFormed(prog) && TableOk(prog, flags, table)
    requires SpotTrace(prog, flags, t) && t[0].pc == 0 && GoesRound(prog, t, i, j)
    ensures GoesForEver(prog, flags, table)
  {
    hide *;
    RangeOf(prog, flags, t);
    ChainSpots(prog, flags, table, t);
    RoundIsSilent(prog, flags, table, t, i, j);
    RoundIs(prog, t, i, j);
    ChainPart(SpotGraph(prog, flags, table), t, 0, i + 1);
    ReachedHas(prog, flags, table, t[0..i + 1]);
    ChainPart(SilentGraph(prog, flags, table), t[i..j + 1], 1, j + 1 - i);
    SilentlyHas(prog, flags, table, t[i], t[i + 1..j + 1]);
    ForEverAt(prog, flags, table, t[i]);
  }

  lemma {:induction false} GoesForEverDecides(prog: seq<Instr>, flags: Flags, table: seq<SplitInfo>)
    requires WellFormed(prog) && TableOk(prog, flags, table)
    ensures GoesForEver(prog, flags, table) <==> Loops(prog, flags)
  {
    hide WellFormed, TableOk, GoesForEver, SpotTrace;
    if GoesForEver(prog, flags, table) { ForEverSound(prog, flags, table); }
    if Loops(prog, flags) { LoopsForEverToo(prog, flags, table); }
  }

  lemma {:induction false} LoopsForEverToo(prog: seq<Instr>, flags: Flags, table: seq<SplitInfo>)
    requires WellFormed(prog) && TableOk(prog, flags, table) && Loops(prog, flags)
    ensures GoesForEver(prog, flags, table)
  {
    hide WellFormed, TableOk, GoesForEver, Follows;
    var t: seq<Spot>, i: nat, j: nat :| SpotTrace(prog, flags, t) && t[0].pc == 0 && GoesRound(prog, t, i, j);
    ForEverComplete(prog, flags, table, t, i, j);
  }

  // ---- Safe ----

  /** A spot the walker can come to, and the pcs it has been at since it last read. */
  datatype Stage = Stage(spot: Spot, seen: set<nat>)

  function Pcs(n: nat): (s: set<nat>)
    ensures forall pc: nat :: pc in s <==> pc < n
  {
    if n == 0 then {} else Pcs(n - 1) + {n - 1}
  }

  ghost function Stages(n: nat): (s: set<Stage>)
    ensures forall g: Stage :: g in s <==> g.spot.pc < n && forall pc: nat :: pc in g.seen ==> pc < n
  {
    set at, seen | at in Spots(n) && seen <= Pcs(n) :: Stage(at, seen)
  }

  function Onward(prog: seq<Instr>, g: Stage, d: Spot): (r: Stage)
    requires g.spot.pc < |prog|
  {
    Stage(d, (if Consuming(prog[g.spot.pc]) then {} else g.seen) + {d.pc})
  }

  function StageGraph(prog: seq<Instr>, flags: Flags, table: seq<SplitInfo>): Stage -> set<Stage>
    requires WellFormed(prog) && TableOk(prog, flags, table)
  {
    (g: Stage) => if g.spot.pc < |prog| then set d | d in StepsTo(prog, flags, table, g.spot) :: Onward(prog, g, d) else {}
  }

  lemma {:induction false} StagesShut(prog: seq<Instr>, flags: Flags, table: seq<SplitInfo>)
    requires WellFormed(prog) && TableOk(prog, flags, table)
    ensures Shut(StageGraph(prog, flags, table), Stages(|prog|))
  {
    hide WellFormed, TableOk, StepsTo, Follows;
    forall n: Spot, d | n.pc < |prog| && d in StepsTo(prog, flags, table, n) ensures d.pc < |prog| {
      StepsAre(prog, flags, table, n, d);
    }
  }

  function FirstStages(prog: seq<Instr>): (s: set<Stage>)
    requires |prog| > 0
    ensures s <= Stages(|prog|) && forall g: Stage :: g in s <==> g.spot.pc == 0 && g.seen == {0}
  {
    set n | n in OpeningSpots(prog) :: Stage(n, {0})
  }

  /** Every stage of a walk on any text. */
  function Staged(prog: seq<Instr>, flags: Flags, table: seq<SplitInfo>): set<Stage>
    requires WellFormed(prog) && TableOk(prog, flags, table)
  {
    StagesShut(prog, flags, table);
    Close(FirstStages(prog), StageGraph(prog, flags, table), Stages(|prog|))
  }

  ghost function StageOf(prog: seq<Instr>, t: seq<Spot>): Stage
    requires |t| > 0 && forall i :: 0 <= i < |t| ==> t[i].pc < |prog|
  {
    Stage(t[|t| - 1], Passed(prog, t))
  }

  lemma {:induction false} StageGrows(prog: seq<Instr>, t: seq<Spot>, d: Spot)
    requires |t| > 0 && (forall i :: 0 <= i < |t| ==> t[i].pc < |prog|) && d.pc < |prog|
    ensures StageOf(prog, t + [d]) == Onward(prog, StageOf(prog, t), d)
  {
    assert (t + [d])[..|t|] == t;
  }

  lemma {:induction false} StageFollows(prog: seq<Instr>, flags: Flags, table: seq<SplitInfo>, g: Stage, d: Spot)
    requires WellFormed(prog) && TableOk(prog, flags, table) && g.spot.pc < |prog|
    ensures Onward(prog, g, d) in StageGraph(prog, flags, table)(g) <==> d.pc < |prog| && Follows(prog, flags, g.spot, d)
  {
    hide WellFormed, TableOk, StepsTo, Follows;
    StepsAre(prog, flags, table, g.spot, d);
  }

  lemma {:induction false} StageNext(prog: seq<Instr>, flags: Flags, table: seq<SplitInfo>, g: Stage, h: Stage)
    requires WellFormed(prog) && TableOk(prog, flags, table) && h in StageGraph(prog, flags, table)(g)
    ensures g.spot.pc < |prog| && h == Onward(prog, g, h.spot) && h.spot.pc < |prog| && Follows(prog, flags, g.spot, h.spot)
  {
    hide WellFormed, TableOk, StepsTo, Follows;
    StageFollows(prog, flags, table, g, h.spot);
  }

  lemma {:induction false} ShutHolds(next: Stage -> set<Stage>, c: set<Stage>, v: Stage, d: Stage)
    requires Shut(next, c) && v in c && d in next(v)
    ensures d in c
  {
  }

  lemma {:induction false} TraceStaged(prog: seq<Instr>, flags: Flags, table: seq<SplitInfo>, t: seq<Spot>)
    requires WellFormed(prog) && TableOk(prog, flags, table) && Opens(prog, flags, t)
    ensures StageOf(prog, t) in Staged(prog, flags, table)
    decreases |t|
  {
    assert |prog| > 0;
    hide WellFormed, TableOk, StageGraph, Follows, Shut, StageOf;
    StagesShut(prog, flags, table);
    var n := |t| - 1;
    assert t == t[..n] + [t[n]];
    if n == 0 {
      assert StageOf(prog, t) == Stage(t[0], {0}) by { StageFirst(prog, t); }
    } else {
      TraceStaged(prog, flags, table, t[..n]);
      assert Follows(prog, flags, t[n - 1], t[n]);
      var g := StageOf(prog, t[..n]);
      assert g.spot == t[n - 1] by { StageIs(prog, t[..n]); }
      StageFollows(prog, flags, table, g, t[n]);
      StageGrows(prog, t[..n], t[n]);
      ShutHolds(StageGraph(prog, flags, table), Staged(prog, flags, table), g, StageOf(prog, t));
    }
  }

  lemma {:induction false} StageIs(prog: seq<Instr>, t: seq<Spot>)
    requires |t| > 0 && forall i :: 0 <= i < |t| ==> t[i].pc < |prog|
    ensures StageOf(prog, t).spot == t[|t| - 1] && StageOf(prog, t).seen == Passed(prog, t)
  {
  }

  lemma {:induction false} StageFirst(prog: seq<Instr>, t: seq<Spot>)
    requires |t| == 1 && t[0].pc < |prog|
    ensures StageOf(prog, t) == Stage(t[0], {t[0].pc})
  {
  }

  lemma {:induction false} ChainTraced(prog: seq<Instr>, flags: Flags, table: seq<SplitInfo>, p: seq<Stage>) returns (t: seq<Spot>)
    requires WellFormed(prog) && TableOk(prog, flags, table) && |prog| > 0
    requires Chain(StageGraph(prog, flags, table), p) && p[0] in FirstStages(prog)
    ensures Opens(prog, flags, t) && StageOf(prog, t) == p[|p| - 1]
    decreases |p|
  {
    var n := |p| - 1;
    hide WellFormed, TableOk, StageGraph, Follows, StageOf, Onward;
    if n == 0 {
      t := [p[0].spot];
      StageFirst(prog, t);
    } else {
      assert Chain(StageGraph(prog, flags, table), p[..n]) && p[..n][|p[..n]| - 1] == p[n - 1];
      assert p[n] in StageGraph(prog, flags, table)(p[n - 1]);
      hide Chain;
      var u := ChainTraced(prog, flags, table, p[..n]);
      t := TraceOn(prog, flags, table, u, p[n]);
    }
  }

  lemma {:induction false} TraceOn(prog: seq<Instr>, flags: Flags, table: seq<SplitInfo>, u: seq<Spot>, h: Stage) returns (t: seq<Spot>)
    requires WellFormed(prog) && TableOk(prog, flags, table) && Opens(prog, flags, u)
    requires h in StageGraph(prog, flags, table)(StageOf(prog, u))
    ensures Opens(prog, flags, t) && StageOf(prog, t) == h
  {
    hide WellFormed, TableOk, StageGraph, Follows, StageOf, Onward;
    StageIs(prog, u);
    StageNext(prog, flags, table, StageOf(prog, u), h);
    StageGrows(prog, u, h.spot);
    t := u + [h.spot];
  }

  /** A stage is found exactly when a trace ends there. */
  lemma {:induction false} StagedTrace(prog: seq<Instr>, flags: Flags, table: seq<SplitInfo>, g: Stage) returns (t: seq<Spot>)
    requires WellFormed(prog) && TableOk(prog, flags, table) && g in Staged(prog, flags, table)
    ensures Opens(prog, flags, t) && StageOf(prog, t) == g
  {
    assert |prog| > 0;
    StagesShut(prog, flags, table);
    hide WellFormed, TableOk, StageGraph, Follows, StageOf, Chain, Close, Shut, Opens;
    CloseIsReach(FirstStages(prog), StageGraph(prog, flags, table), Stages(|prog|));
    var p :| Chain(StageGraph(prog, flags, table), p) && p[0] in FirstStages(prog) && p[|p| - 1] == g;
    t := ChainTraced(prog, flags, table, p);
  }

  /** Where control can go at this spot without reading and without coming to a pc in seen. */
  function FreshGraph(prog: seq<Instr>, flags: Flags, n: Spot, seen: set<nat>): nat -> set<nat>
    requires WellFormed(prog)
  {
    (pc: nat) => if pc < |prog| then set q | q in SilentSucc(prog, flags, pc, n.prev, n.next) && q !in seen else {}
  }

  lemma {:induction false} FreshShut(prog: seq<Instr>, flags: Flags, n: Spot, seen: set<nat>)
    requires WellFormed(prog)
    ensures Shut<nat>(FreshGraph(prog, flags, n, seen), Pcs(|prog|))
  {
    hide WellFormed;
  }

  predicate LeavesFresh(prog: seq<Instr>, flags: Flags, n: Spot, seen: set<nat>, y: nat)
    requires WellFormed(prog) && y < |prog|
  {
    FreshShut(prog, flags, n, seen);
    y !in seen && exists q :: q in Close<nat>({y}, FreshGraph(prog, flags, n, seen), Pcs(|prog|)) && q < |prog| && prog[q].Match?
  }

  lemma {:induction false} FreshChains(prog: seq<Instr>, flags: Flags, n: Spot, seen: set<nat>, e: seq<nat>)
    requires WellFormed(prog) && |e| > 0 && e[0] !in seen && e[0] < |prog|
    ensures Live(prog, flags, n, e) && (forall k :: 0 <= k < |e| ==> e[k] !in seen) <==> Chain<nat>(FreshGraph(prog, flags, n, seen), e)
  {
    hide WellFormed, SilentSucc;
    if Chain<nat>(FreshGraph(prog, flags, n, seen), e) {
      forall k | 0 <= k < |e| ensures e[k] < |prog| && e[k] !in seen {
        if k > 0 { assert e[k] in FreshGraph(prog, flags, n, seen)(e[k - 1]); }
      }
    }
  }

  lemma {:induction false} LeavesFreshIs(prog: seq<Instr>, flags: Flags, n: Spot, seen: set<nat>, y: nat)
    requires WellFormed(prog) && y < |prog|
    ensures LeavesFresh(prog, flags, n, seen, y) <==> FreshExit(prog, flags, n, seen, y)
  {
    hide WellFormed, FreshGraph, Chain, Close, Live, Pcs, Shut;
    var g := FreshGraph(prog, flags, n, seen);
    FreshShut(prog, flags, n, seen);
    CloseIsReach<nat>({y}, g, Pcs(|prog|));
    if LeavesFresh(prog, flags, n, seen, y) {
      var q :| q in Close<nat>({y}, g, Pcs(|prog|)) && q < |prog| && prog[q].Match?;
      LeadsFresh(prog, flags, n, seen, y, q);
    }
    if FreshExit(prog, flags, n, seen, y) {
      var q := FreshLeads(prog, flags, n, seen, y);
    }
  }

  lemma {:induction false} LeadsFresh(prog: seq<Instr>, flags: Flags, n: Spot, seen: set<nat>, y: nat, q: nat)
    requires WellFormed(prog) && y < |prog| && y !in seen && q < |prog| && prog[q].Match?
    requires Leads<nat>({y}, FreshGraph(prog, flags, n, seen), q)
    ensures FreshExit(prog, flags, n, seen, y)
  {
    hide WellFormed, FreshGraph;
    var e :| Chain<nat>(FreshGraph(prog, flags, n, seen), e) && e[0] in {y} && e[|e| - 1] == q;
    FreshChains(prog, flags, n, seen, e);
  }

  lemma {:induction false} FreshLeads(prog: seq<Instr>, flags: Flags, n: Spot, seen: set<nat>, y: nat) returns (q: nat)
    requires WellFormed(prog) && FreshExit(prog, flags, n, seen, y)
    ensures q < |prog| && prog[q].Match? && y !in seen && Leads<nat>({y}, FreshGraph(prog, flags, n, seen), q)
  {
    hide WellFormed, FreshGraph;
    var e :| Live(prog, flags, n, e) && e[0] == y && prog[e[|e| - 1]].Match? && forall k :: 0 <= k < |e| ==> e[k] !in seen;
    FreshChains(prog, flags, n, seen, e);
    q := e[|e| - 1];
  }

  predicate EndsDead(prog: seq<Instr>, flags: Flags, table: seq<SplitInfo>, n: Spot)
    requires WellFormed(prog) && TableOk(prog, flags, table) && n.pc < |prog|
  {
    SpotsShut(prog, flags, table);
    exists d :: d in Close({n}, SpotGraph(prog, flags, table), Spots(|prog|)) && d.pc < |prog|
      && StepOf(prog, flags, table, d).None? && !prog[d.pc].Match?
  }

  lemma {:induction false} EndsDeadIs(prog: seq<Instr>, flags: Flags, table: seq<SplitInfo>, n: Spot)
    requires WellFormed(prog) && TableOk(prog, flags, table) && n.pc < |prog|
    ensures EndsDead(prog, flags, table, n) <==> DeadEnd(prog, flags, n)
  {
    SpotsShut(prog, flags, table);
    hide WellFormed, TableOk, StepOf, SpotGraph, Close, Shut, Leads, DeadEnd;
    CloseIsReach({n}, SpotGraph(prog, flags, table), Spots(|prog|));
    if EndsDead(prog, flags, table, n) {
      var d :| d in Close({n}, SpotGraph(prog, flags, table), Spots(|prog|)) && d.pc < |prog|
        && StepOf(prog, flags, table, d).None? && !prog[d.pc].Match?;
      LeadsDead(prog, flags, table, n, d);
    }
    if DeadEnd(prog, flags, n) { var d := DeadLeads(prog, flags, table, n); }
  }

  lemma {:induction false} LeadsDead(prog: seq<Instr>, flags: Flags, table: seq<SplitInfo>, n: Spot, d: Spot)
    requires WellFormed(prog) && TableOk(prog, flags, table) && n.pc < |prog| && Leads({n}, SpotGraph(prog, flags, table), d)
    requires d.pc < |prog| && StepOf(prog, flags, table, d).None? && !prog[d.pc].Match?
    ensures DeadEnd(prog, flags, n)
  {
    hide WellFormed, TableOk, StepOf, Step, SpotGraph, Follows;
    var u :| Chain(SpotGraph(prog, flags, table), u) && u[0] in {n} && u[|u| - 1] == d;
    ChainSpots(prog, flags, table, u);
    StepIs(prog, flags, table, d);
    assert GivesUp(prog, flags, u[|u| - 1]);
  }

  lemma {:induction false} DeadLeads(prog: seq<Instr>, flags: Flags, table: seq<SplitInfo>, n: Spot) returns (d: Spot)
    requires WellFormed(prog) && TableOk(prog, flags, table) && n.pc < |prog| && DeadEnd(prog, flags, n)
    ensures Leads({n}, SpotGraph(prog, flags, table), d)
    ensures d.pc < |prog| && StepOf(prog, flags, table, d).None? && !prog[d.pc].Match?
  {
    hide WellFormed, TableOk, StepOf, Step, SpotGraph, Follows;
    var u: seq<Spot> :| SpotTrace(prog, flags, u) && u[0] == n && GivesUp(prog, flags, u[|u| - 1]);
    ChainSpots(prog, flags, table, u);
    d := u[|u| - 1];
    StepIs(prog, flags, table, d);
  }

  predicate SplitIsSafe(prog: seq<Instr>, flags: Flags, table: seq<SplitInfo>, g: Stage)
    requires WellFormed(prog) && TableOk(prog, flags, table) && g.spot.pc < |prog| && prog[g.spot.pc].Split?
  {
    var n, seen := g.spot, g.seen;
    var x, y, info := prog[n.pc].a, prog[n.pc].b, table[n.pc];
    if n.next.Some? && n.next.value in info.a.bytes then
      LeavesFresh(prog, flags, n, seen, y) ==> !EndsDead(prog, flags, table, Spot(x, n.prev, n.next))
    else if n.next.Some? && n.next.value in info.b.bytes then
      !LeavesFresh(prog, flags, n, seen, x)
    else
      info.a.empty && !LeavesFresh(prog, flags, n, seen, x) ==> !LeavesFresh(prog, flags, n, seen, y)
  }

  lemma {:induction false} SplitSafety(prog: seq<Instr>, flags: Flags, table: seq<SplitInfo>, g: Stage)
    requires WellFormed(prog) && TableOk(prog, flags, table) && g.spot.pc < |prog| && prog[g.spot.pc].Split?
    ensures SplitIsSafe(prog, flags, table, g) <==> SafeSplit(prog, flags, g.spot, g.seen)
  {
    var n := g.spot;
    var x, y := prog[n.pc].a, prog[n.pc].b;
    assert IsFirstSet(prog, flags, x, table[n.pc].a) && IsFirstSet(prog, flags, y, table[n.pc].b);
    assert x < |prog| && y < |prog|;
    hide WellFormed, TableOk, LeavesFresh, FreshExit, EndsDead, DeadEnd, CanStart, MatchEmpty, EpsReach;
    LeavesFreshIs(prog, flags, n, g.seen, x);
    LeavesFreshIs(prog, flags, n, g.seen, y);
    EndsDeadIs(prog, flags, table, Spot(x, n.prev, n.next));
  }

  /** Decides Safe from the tables the walker uses. */
  predicate IsSafe(prog: seq<Instr>, flags: Flags, table: seq<SplitInfo>)
    requires WellFormed(prog) && TableOk(prog, flags, table)
  {
    forall g :: g in Staged(prog, flags, table) && g.spot.pc < |prog| && prog[g.spot.pc].Split? ==> SplitIsSafe(prog, flags, table, g)
  }

  lemma {:induction false} IsSafeDecides(prog: seq<Instr>, flags: Flags, table: seq<SplitInfo>)
    requires WellFormed(prog) && TableOk(prog, flags, table)
    ensures IsSafe(prog, flags, table) <==> Safe(prog, flags)
  {
    hide WellFormed, TableOk, Staged, SplitIsSafe, SafeSplit, Passed, Follows;
    if IsSafe(prog, flags, table) {
      forall t: seq<Spot> | Opens(prog, flags, t) && prog[t[|t| - 1].pc].Split?
        ensures SafeSplit(prog, flags, t[|t| - 1], Passed(prog, t))
      {
        TraceStaged(prog, flags, table, t);
        SplitSafety(prog, flags, table, StageOf(prog, t));
      }
    }
    if Safe(prog, flags) {
      forall g | g in Staged(prog, flags, table) && g.spot.pc < |prog| && prog[g.spot.pc].Split? ensures SplitIsSafe(prog, flags, table, g) {
        var t := StagedTrace(prog, flags, table, g);
        SplitSafety(prog, flags, table, g);
      }
    }
  }
}
