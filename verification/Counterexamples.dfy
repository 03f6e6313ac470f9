/** Programs the compiler emits on which an engine's side condition fails. */
module Counterexamples {
  import opened Basics
  import opened Machine
  import opened Backtracking
  import opened FirstSet
  import opened OnePassWalk
  import opened OnePassVm
  import HaltingWalk
  import Agreement
  import R = Regex
  import opened Dfa
  import opened DfaWalk

  const PLAIN := Flags(false, false, false)
  const A: Byte := 97
  const B: Byte := 98
  const C: Byte := 99
  const D: Byte := 100

  lemma {:induction false} ReachStays(prog: seq<Instr>, s: set<nat>, p: seq<nat>)
    requires WellFormed(prog) && EpsPath(prog, p) && p[0] in s
    requires forall pc, q :: pc in s && pc < |prog| && q in EpsSucc(prog, pc) ==> q in s
    ensures p[|p| - 1] in s
    decreases |p|
  {
    if |p| > 1 {
      assert p[1] in EpsSucc(prog, p[0]);
      assert EpsPath(prog, p[1..]);
      ReachStays(prog, s, p[1..]);
    }
  }

  /** A set closed under epsilon steps holds all that is reachable from it. */
  lemma {:induction false} ReachWithin(prog: seq<Instr>, s: set<nat>, pc: nat)
    requires WellFormed(prog) && pc in s
    requires forall pc, q :: pc in s && pc < |prog| && q in EpsSucc(prog, pc) ==> q in s
    ensures forall q: nat :: EpsReach(prog, pc, q) ==> q in s && q < |prog|
  {
    forall q: nat | EpsReach(prog, pc, q) ensures q in s && q < |prog| {
      var p :| EpsPath(prog, p) && p[0] == pc && p[|p| - 1] == q;
      ReachStays(prog, s, p);
    }
  }

  // ---- a(?:bc)? ----

  const OPTIONAL: seq<Instr> := [Save(0), Char(A), Split(3, 5), Char(B), Char(C), Save(1), Match]
  const OPTIONAL_RANK: seq<nat> := [1, 0, 3, 0, 0, 2, 1]

  /** It is what a(?:bc)? compiles to. */
  lemma {:induction false} OptionalIsCompiled()
    ensures
      var e := R.Cat(R.Op(Char(A)), R.Opt(R.Cat(R.Op(Char(B)), R.Op(Char(C))), false));
      R.Parsed(e) && R.Program(e) == OPTIONAL
  {
  }

  lemma {:induction false} ReachNext(prog: seq<Instr>, pc: nat, q: nat)
    requires WellFormed(prog) && pc < |prog| && EpsSucc(prog, pc) == [q]
    ensures EpsReach(prog, pc, q)
  {
    assert q in EpsSucc(prog, pc);
    assert EpsPath(prog, [pc, q]);
  }

  lemma {:induction false} OptionalSteps()
    ensures WellFormed(OPTIONAL) && |OPTIONAL| == 7
    ensures EpsSucc(OPTIONAL, 3) == [] && EpsSucc(OPTIONAL, 5) == [6] && EpsSucc(OPTIONAL, 6) == []
  {
  }

  lemma {:induction false} OptionalReach()
    ensures WellFormed(OPTIONAL)
    ensures forall q: nat :: EpsReach(OPTIONAL, 3, q) ==> q in {3}
    ensures forall q: nat :: EpsReach(OPTIONAL, 5, q) ==> q in {5, 6}
    ensures EpsReach(OPTIONAL, 5, 6) && EpsReach(OPTIONAL, 3, 3)
  {
    OptionalSteps();
    hide WellFormed, EpsSucc, EpsReach;
    ReachWithin(OPTIONAL, {3}, 3);
    ReachWithin(OPTIONAL, {5, 6}, 5);
    ReachNext(OPTIONAL, 5, 6);
    ReachHere(OPTIONAL, 3);
  }

  /** The classifier accepts it, its walk always ends, and its anchors are in front. */
  lemma {:induction false} OptionalIsWalkable()
    ensures Framed(Machine(OPTIONAL, PLAIN, 2, [])) && FrontAnchors(OPTIONAL) && OnePass(OPTIONAL, PLAIN)
    ensures CanWalk(OPTIONAL, OPTIONAL_RANK) && !HaltingWalk.Loops(OPTIONAL, PLAIN)
  {
    OptionalFrame();
    OptionalClean();
    hide Framed, CanWalk, FrontAnchors, CleanSplit, WellFormed, HaltingWalk.Loops;
    HaltingWalk.RankedNeverLoops(OPTIONAL, PLAIN, OPTIONAL_RANK);
    assert forall pc :: 0 <= pc < |OPTIONAL| && OPTIONAL[pc].Split? ==> pc == 2;
  }

  lemma {:induction false} OptionalFrame()
    ensures Framed(Machine(OPTIONAL, PLAIN, 2, [])) && FrontAnchors(OPTIONAL)
    ensures CanWalk(OPTIONAL, OPTIONAL_RANK)
    ensures forall pc :: 0 <= pc < |OPTIONAL| ==> !IsWordTest(OPTIONAL[pc])
  {
    OptionalDescends();
    hide EpsAcyclic;
  }

  lemma {:induction false} OptionalDescends()
    ensures WellFormed(OPTIONAL) && EpsAcyclic(OPTIONAL, OPTIONAL_RANK)
  {
    assert WellFormed(OPTIONAL);
    forall pc: nat | pc < |OPTIONAL| ensures forall q :: q in EpsSucc(OPTIONAL, pc) ==> OPTIONAL_RANK[q] < OPTIONAL_RANK[pc] {
    }
  }

  lemma {:induction false} OptionalClean()
    ensures WellFormed(OPTIONAL) && CleanSplit(OPTIONAL, PLAIN, 2)
  {
    OptionalReach();
    hide EpsReach;
  }

  ghost function OnABD(): Machine {
    Machine(OPTIONAL, PLAIN, 2, [A, B, D])
  }

  lemma {:induction false} OptionalSides()
    ensures WellFormed(OPTIONAL) && Side(OPTIONAL, PLAIN, 2, Some(B)) == Some(3)
  {
    OptionalReach();
    assert CanStart(OPTIONAL, PLAIN, 3, B);
  }

  lemma {:induction false} OptionalPicks()
    ensures WellFormed(OPTIONAL) && forall c :: c in OPTIONAL_WALK ==> InBounds(OnABD(), c)
    ensures forall i, j :: 0 <= i < 5 && j == i + 1 < 5 ==> Pick(OnABD(), OPTIONAL_WALK[i]) == Some(OPTIONAL_WALK[j])
    ensures Pick(OnABD(), OPTIONAL_WALK[4]).None?
  {
    OptionalSides();
    hide Side;
  }

  const OPTIONAL_WALK: Path := [Config(0, 0), Config(1, 0), Config(2, 1), Config(3, 1), Config(4, 2)]

  lemma {:induction false} OptionalWalk()
    ensures WellFormed(OPTIONAL) && HaltingWalk.WalkTo(OnABD(), 0).None?
  {
    OptionalPicks();
    WalkFails(OnABD(), 0, OPTIONAL_WALK);
  }

  /** Picks one after the other from the start, and none at the end, are a walk that fails. */
  lemma {:induction false} WalkFails(m: Machine, start: nat, p: Path)
    requires WellFormed(m.prog) && |p| > 0 && p[0] == Config(0, start) && forall c :: c in p ==> InBounds(m, c)
    requires forall i, j :: 0 <= i < |p| && j == i + 1 < |p| ==> Pick(m, p[i]) == Some(p[j])
    requires Pick(m, Last(p)).None? && !m.prog[Last(p).pc].Match?
    ensures HaltingWalk.WalkTo(m, start).None?
  {
    hide Pick, WellFormed, HaltingWalk.WalkTo, Succ;
    forall i, j | 0 <= i < |p| && j == i + 1 < |p| ensures p[j] in Succ(m, p[i]) {
      assert p[i] in p && Pick(m, p[i]) == Some(p[j]);
      HaltingWalk.PickIsNext(m, p[i]);
    }
    assert HaltingWalk.PickedFrom(m, start, p);
    HaltingWalk.WalkToIs(m, start, p);
  }

  const OPTIONAL_RUN: Path := [Config(0, 0), Config(1, 0), Config(2, 1), Config(5, 1), Config(6, 1)]

  lemma {:induction false} OptionalMatches()
    ensures WellFormed(OPTIONAL) && Accepting(OnABD(), OPTIONAL_RUN)
  {
    var m, p := OnABD(), OPTIONAL_RUN;
    assert Succ(m, p[0]) == [p[1]] && Succ(m, p[1]) == [p[2]] && p[3] in Succ(m, p[2]) && Succ(m, p[3]) == [p[4]];
    hide Succ;
  }

  lemma {:induction false} CapturesMore(m: Machine, p: Path, d: Config)
    requires |p| > 0 && d.pc < |m.prog| && forall i :: 0 <= i < |p| ==> p[i].pc < |m.prog|
    ensures Captures(m, p + [d]) == Store(m.prog, Last(p), Captures(m, p))
  {
    assert (p + [d])[..|p|] == p;
  }

  lemma {:induction false} OptionalSpan()
    ensures (forall i :: 0 <= i < |OPTIONAL_RUN| ==> OPTIONAL_RUN[i].pc < |OnABD().prog|) && Captures(OnABD(), OPTIONAL_RUN) == [0, 1]
  {
    var m := OnABD();
    var p1 := [Config(0, 0)];
    assert Captures(m, p1) == [-1, -1];
    hide Captures;
    CapturesMore(m, p1, Config(1, 0));
    var p2 := p1 + [Config(1, 0)];
    CapturesMore(m, p2, Config(2, 1));
    var p3 := p2 + [Config(2, 1)];
    CapturesMore(m, p3, Config(5, 1));
    var p4 := p3 + [Config(5, 1)];
    CapturesMore(m, p4, Config(6, 1));
    assert OPTIONAL_RUN == p4 + [Config(6, 1)];
  }

  /** Only one run matches "abd" from its start. */
  lemma {:induction false} OptionalOnly(q: Path)
    requires WellFormed(OPTIONAL) && Accepting(OnABD(), q) && q[0] == Config(0, 0)
    ensures q == OPTIONAL_RUN
  {
    var m := OnABD();
    assert WellFormed(m.prog);
    OptionalGoes();
    hide Succ, Accepting, WellFormed;
    GoesOn(m, q, 0);
    GoesOn(m, q, 1);
    GoesOn(m, q, 2);
    GoesOn(m, q, 3);
    GoesOn(m, q, 4);
  }

  lemma {:induction false} OptionalGoes()
    ensures WellFormed(OPTIONAL)
    ensures
      var m := OnABD();
      && Succ(m, Config(0, 0)) == [Config(1, 0)] && Succ(m, Config(1, 0)) == [Config(2, 1)]
      && Succ(m, Config(2, 1)) == [Config(3, 1), Config(5, 1)] && Succ(m, Config(3, 1)) == [Config(4, 2)]
      && Succ(m, Config(4, 2)) == [] && Succ(m, Config(5, 1)) == [Config(6, 1)]
  {
  }

  /** An accepting run is over at MATCH, and goes to a successor anywhere else. */
  lemma {:induction false} GoesOn(m: Machine, q: Path, i: nat)
    requires WellFormed(m.prog) && Accepting(m, q) && i < |q|
    ensures InBounds(m, q[i]) && (m.prog[q[i].pc].Match? <==> i == |q| - 1)
    ensures i + 1 < |q| ==> q[i + 1] in Succ(m, q[i])
  {
    if i + 1 < |q| { assert q[i + 1] in Succ(m, q[i]); }
  }

  lemma {:induction false} OptionalFirst()
    ensures WellFormed(OPTIONAL) && FirstMatch(OnABD(), 0) == Some(OPTIONAL_RUN)
  {
    OptionalMatches();
    hide Accepting, WellFormed;
    FirstMatchSpec(OnABD(), 0, OPTIONAL_RUN);
    OptionalOnly(FirstMatch(OnABD(), 0).value);
  }

  /** On "abd" the walker commits to bc and fails, where the first match is "a". */
  lemma {:induction false} OptionalDisagrees()
    ensures WellFormed(OPTIONAL) && OnePass(OPTIONAL, PLAIN) && !HaltingWalk.Loops(OPTIONAL, PLAIN)
    ensures HaltingWalk.WalkTo(OnABD(), 0).None?
    ensures FirstMatch(OnABD(), 0) == Some(OPTIONAL_RUN)
    ensures (forall i :: 0 <= i < |OPTIONAL_RUN| ==> OPTIONAL_RUN[i].pc < |OnABD().prog|) && Captures(OnABD(), OPTIONAL_RUN) == [0, 1]
    ensures !Agreement.Safe(OPTIONAL, PLAIN)
  {
    OptionalIsWalkable();
    OptionalWalk();
    OptionalSpan();
    OptionalFirst();
    hide Captures, HaltingWalk.WalkTo, FirstMatch, WellFormed, Framed, CanWalk, FrontAnchors, OnePass, Agreement.Safe, HaltingWalk.Loops;
    if Agreement.Safe(OPTIONAL, PLAIN) {
      Agreement.SafeEverywhere(OnABD());
    }
  }

  // ---- (?:^a)+ ----

  const LOOPED: seq<Instr> := [Save(0), Bol, Char(A), Split(1, 4), Save(1), Match]
  const LOOPED_RANK: seq<nat> := [4, 1, 0, 3, 2, 0]

  /** It is what (?:^a)+ compiles to. */
  lemma {:induction false} LoopedIsCompiled()
    ensures
      var e := R.Plus(R.Cat(R.Op(Bol), R.Op(Char(A))), false);
      R.Parsed(e) && R.Program(e) == LOOPED
  {
  }

  lemma {:induction false} LoopedSteps()
    ensures WellFormed(LOOPED) && |LOOPED| == 6
    ensures EpsSucc(LOOPED, 1) == [2] && EpsSucc(LOOPED, 2) == [] && EpsSucc(LOOPED, 4) == [5] && EpsSucc(LOOPED, 5) == []
  {
  }

  lemma {:induction false} LoopedReach()
    ensures WellFormed(LOOPED)
    ensures forall q: nat :: EpsReach(LOOPED, 1, q) ==> q in {1, 2}
    ensures forall q: nat :: EpsReach(LOOPED, 4, q) ==> q in {4, 5}
    ensures EpsReach(LOOPED, 1, 2) && EpsReach(LOOPED, 4, 5)
  {
    LoopedSteps();
    hide WellFormed, EpsSucc, EpsReach;
    ReachWithin(LOOPED, {1, 2}, 1);
    ReachWithin(LOOPED, {4, 5}, 4);
    ReachNext(LOOPED, 1, 2);
    ReachNext(LOOPED, 4, 5);
  }

  /** Eligible for the table: the anchor is where it should be, but the loop branches back to it. */
  lemma {:induction false} LoopedIsEligible()
    ensures DfaWalkable(LOOPED, PLAIN, 2) && Eligible(LOOPED, PLAIN)
  {
    LoopedFrame();
    LoopedClean();
    hide Framed, CanWalk, CleanSplit, WellFormed, TableHalts;
    RankedTableHalts(LOOPED, PLAIN, LOOPED_RANK);
    assert forall pc :: 0 <= pc < |LOOPED| && LOOPED[pc].Split? ==> pc == 3;
  }

  lemma {:induction false} LoopedFrame()
    ensures Framed(Machine(LOOPED, PLAIN, 2, [])) && FrontOnly(LOOPED) && |LOOPED| == 6
    ensures CanWalk(LOOPED, LOOPED_RANK)
    ensures forall pc :: 0 <= pc < |LOOPED| ==> !IsWordTest(LOOPED[pc])
  {
    LoopedDescends();
    hide EpsAcyclic;
  }

  lemma {:induction false} LoopedDescends()
    ensures WellFormed(LOOPED) && EpsAcyclic(LOOPED, LOOPED_RANK)
  {
    assert WellFormed(LOOPED);
    forall pc: nat | pc < |LOOPED| ensures forall q :: q in EpsSucc(LOOPED, pc) ==> LOOPED_RANK[q] < LOOPED_RANK[pc] {
    }
  }

  lemma {:induction false} LoopedClean()
    ensures WellFormed(LOOPED) && CleanSplit(LOOPED, PLAIN, 3)
  {
    LoopedReach();
    hide EpsReach;
  }

  lemma {:induction false} LoopedSides()
    ensures WellFormed(LOOPED)
    ensures Side(LOOPED, PLAIN, 3, Some(A)) == Some(1) && Side(LOOPED, PLAIN, 3, None) == Some(4)
  {
    LoopedReach();
    assert CanStart(LOOPED, PLAIN, 1, A);
  }

  lemma {:induction false} FreedSides()
    ensures WellFormed(Freed(LOOPED)) && Freed(LOOPED) == LOOPED[1 := Jump(2)]
    ensures Side(Freed(LOOPED), PLAIN, 3, Some(A)) == Some(1) && Side(Freed(LOOPED), PLAIN, 3, None) == Some(4)
  {
    LoopedIsEligible();
    FreedLooks(LOOPED);
    LoopedSides();
    hide Side, CanStart, MatchEmpty;
    SameSide(LOOPED, Freed(LOOPED), PLAIN, 3, Some(A));
    SameSide(LOOPED, Freed(LOOPED), PLAIN, 3, None);
  }

  /** On "aa" the table passes ^ again at position 1; the walk does not. */
  lemma {:induction false} LoopedDisagrees()
    ensures DfaWalkable(LOOPED, PLAIN, 2) && Eligible(LOOPED, PLAIN)
    ensures WellFormed(Freed(LOOPED)) && !NeverReturns(LOOPED, PLAIN)
    ensures !DfaAgreesOn(LOOPED, PLAIN, 2, [A, A])
  {
    hide *;
    LoopedIsEligible();
    LoopedOpens();
    var a, e := Some(A), None;
    var t := [Node(0, a), Node(1, a), Node(2, a), Node(3, a), Node(1, a), Node(2, a), Node(3, e), Node(4, e), Node(5, e)];
    LoopedTrace(t);
    ReturnsHere(LOOPED, PLAIN, t, 4);
    LoopedSpells(t);
    ReturnsDisagrees(LOOPED, PLAIN, 2, t, 4);
  }

  lemma {:induction false} ReturnsHere(prog: seq<Instr>, flags: Flags, t: seq<Node>, j: nat)
    requires |prog| > 2 && LooksBack(prog[1]) && WellFormed(Freed(prog)) && Returns(prog, flags, t, j)
    ensures !NeverReturns(prog, flags)
  {
    hide Returns, WellFormed, Freed;
  }

  lemma {:induction false} LoopedOpens()
    ensures |LOOPED| > 2 && LooksBack(LOOPED[1])
  {
  }

  /** The trace reads "aa". */
  lemma {:induction false} LoopedSpells(t: seq<Node>)
    requires t == [Node(0, Some(A)), Node(1, Some(A)), Node(2, Some(A)), Node(3, Some(A)), Node(1, Some(A)), Node(2, Some(A)),
                   Node(3, None), Node(4, None), Node(5, None)]
    ensures WellFormed(Freed(LOOPED)) && TextOf(Freed(LOOPED), t) == [A, A]
  {
    LoopedReads();
    hide *;
    ReadsTwice(Freed(LOOPED), t);
    SpelledOut(Freed(LOOPED), t);
  }

  /** Only the instruction at 2 reads. */
  lemma {:induction false} LoopedReads()
    ensures
      var f := Freed(LOOPED);
      WellFormed(f) && |f| == 6 && forall i :: 0 <= i < 6 ==> (Consuming(f[i]) <==> i == 2)
  {
    assert Freed(LOOPED) == LOOPED[1 := Jump(2)];
  }

  lemma {:induction false} SpelledOut(prog: seq<Instr>, t: seq<Node>)
    requires |t| > 0 && (forall i :: 0 <= i < |t| ==> t[i].pc < |prog|) && t[|t| - 1].next.None?
    ensures TextOf(prog, t) == Read(prog, t)
  {
  }

  lemma {:induction false} ReadsTwice(prog: seq<Instr>, t: seq<Node>)
    requires |prog| == 6 && forall i :: 0 <= i < 6 ==> (Consuming(prog[i]) <==> i == 2)
    requires |t| == 9 && (forall i :: 0 <= i < 9 ==> t[i].pc < 6 && (t[i].pc == 2 <==> i == 2 || i == 5)) && t[2].next == t[5].next == Some(A)
    ensures Read(prog, t) == [A, A]
  {
    hide *;
    NothingRead(prog, t);
    ReadMore(prog, t, 1);
    ReadMore(prog, t, 2);
    ReadMore(prog, t, 3);
    ReadMore(prog, t, 4);
    ReadMore(prog, t, 5);
    ReadMore(prog, t, 6);
    ReadMore(prog, t, 7);
    ReadMore(prog, t, 8);
    assert t[..9] == t;
  }

  lemma {:induction false} NothingRead(prog: seq<Instr>, t: seq<Node>)
    requires |t| > 0 && t[0].pc < |prog|
    ensures Read(prog, t[..1]) == []
  {
  }

  lemma {:induction false} ReadMore(prog: seq<Instr>, t: seq<Node>, k: nat)
    requires 0 < k < |t| && forall i :: 0 <= i < |t| ==> t[i].pc < |prog|
    ensures
      var n := t[k - 1];
      Read(prog, t[..k + 1]) == Read(prog, t[..k]) + if Consuming(prog[n.pc]) && n.next.Some? then [n.next.value] else []
  {
    assert t[..k + 1][..k] == t[..k];
  }

  lemma {:induction false} LoopedTrace(t: seq<Node>)
    requires t == [Node(0, Some(A)), Node(1, Some(A)), Node(2, Some(A)), Node(3, Some(A)), Node(1, Some(A)), Node(2, Some(A)),
                   Node(3, None), Node(4, None), Node(5, None)]
    ensures WellFormed(Freed(LOOPED)) && Returns(LOOPED, PLAIN, t, 4)
  {
    FreedSides();
    hide Side;
    var f := Freed(LOOPED);
    forall i | 0 < i < |t| ensures Moves(f, PLAIN, t[i - 1], t[i]) {
      assert f[t[i - 1].pc] == LOOPED[1 := Jump(2)][t[i - 1].pc];
    }
    assert Trace(f, PLAIN, t);
  }

  // ---- ()* ----

  const EMPTY_LOOP: seq<Instr> := [Save(0), Split(2, 5), Save(2), Save(3), Jump(1), Save(1), Match]

  /** It is what ()* compiles to. */
  lemma {:induction false} EmptyLoopIsCompiled()
    ensures
      var e := R.Star(R.Group(1, R.Empty), false);
      R.Parsed(e) && R.Program(e) == EMPTY_LOOP
  {
  }

  lemma {:induction false} Cycle(prog: seq<Instr>, rank: seq<nat>, pc: nat, q: nat)
    requires WellFormed(prog) && pc < |prog| && q in EpsSucc(prog, pc)
    ensures EpsAcyclic(prog, rank) ==> |rank| == |prog| && rank[q] < rank[pc]
  {
  }

  lemma {:induction false} EmptyLoopHasNoRank(rank: seq<nat>)
    ensures WellFormed(EMPTY_LOOP) && !EpsAcyclic(EMPTY_LOOP, rank)
  {
    assert EpsSucc(EMPTY_LOOP, 1) == [2, 5] && EpsSucc(EMPTY_LOOP, 2) == [3];
    assert EpsSucc(EMPTY_LOOP, 3) == [4] && EpsSucc(EMPTY_LOOP, 4) == [1];
    hide EpsSucc, WellFormed;
    Cycle(EMPTY_LOOP, rank, 1, 2);
    Cycle(EMPTY_LOOP, rank, 2, 3);
    Cycle(EMPTY_LOOP, rank, 3, 4);
    Cycle(EMPTY_LOOP, rank, 4, 1);
  }

  /** The classifier accepts it although reading nothing never comes to an end. */
  lemma {:induction false} EmptyLoopCycles(rank: seq<nat>)
    ensures WellFormed(EMPTY_LOOP) && OnePass(EMPTY_LOOP, PLAIN) && !EpsAcyclic(EMPTY_LOOP, rank)
  {
    EmptyLoopHasNoRank(rank);
    hide EpsReach, MatchEmpty;
    assert forall q :: 0 <= q < |EMPTY_LOOP| ==> !Consuming(EMPTY_LOOP[q]) && !IsWordTest(EMPTY_LOOP[q]);
    assert forall pc :: 0 <= pc < |EMPTY_LOOP| && EMPTY_LOOP[pc].Split? ==> CleanSplit(EMPTY_LOOP, PLAIN, pc);
  }

  lemma {:induction false} EmptyLoopSides(next: Option<Byte>)
    ensures WellFormed(EMPTY_LOOP) && Side(EMPTY_LOOP, PLAIN, 1, next) == Some(2)
  {
    EmptyLoopSteps();
    hide EpsSucc, WellFormed;
    EmptyLoopLeaves();
    assert forall q :: 0 <= q < |EMPTY_LOOP| ==> !Consuming(EMPTY_LOOP[q]);
  }

  lemma {:induction false} EmptyLoopSteps()
    ensures WellFormed(EMPTY_LOOP) && |EMPTY_LOOP| == 7
    ensures EpsSucc(EMPTY_LOOP, 1) == [2, 5] && EpsSucc(EMPTY_LOOP, 2) == [3] && EpsSucc(EMPTY_LOOP, 3) == [4]
    ensures EpsSucc(EMPTY_LOOP, 4) == [1] && EpsSucc(EMPTY_LOOP, 5) == [6]
  {
  }

  lemma {:induction false} EmptyLoopLeaves()
    ensures WellFormed(EMPTY_LOOP) && MatchEmpty(EMPTY_LOOP, 2)
  {
    EmptyLoopSteps();
    hide EpsSucc, WellFormed;
    assert EpsPath(EMPTY_LOOP, [2, 3, 4, 1, 5, 6]);
  }

  /** On it the walk never comes to an end, on any text. */
  lemma {:induction false} EmptyLoopNeverHalts(start: nat, text: seq<Byte>, end: Path)
    requires start <= |text|
    ensures WellFormed(EMPTY_LOOP) && !HaltingWalk.Halts(EmptyLoopOn(text), start, end)
  {
    hide *;
    var m := EmptyLoopOn(text);
    EmptyLoopPicks(start, text);
    HaltingWalk.StartsPicked(m, start);
    var p := Root(start);
    p := EmptyLoopStep(m, start, p, 1);
    p := EmptyLoopStep(m, start, p, 2);
    p := EmptyLoopStep(m, start, p, 3);
    p := EmptyLoopStep(m, start, p, 4);
    p := EmptyLoopStep(m, start, p, 1);
    NotSimple(p, 1, 5);
    HaltingWalk.HaltsUnlessRepeats(m, start);
  }

  function EmptyLoopOn(text: seq<Byte>): (m: Machine)
    ensures m.prog == EMPTY_LOOP && m.text == text
  {
    Machine(EMPTY_LOOP, PLAIN, 4, text)
  }

  lemma {:induction false} NotSimple(p: Path, i: nat, j: nat)
    requires i < j < |p| && p[i] == p[j]
    ensures !Simple(p)
  {
  }

  lemma {:induction false} EmptyLoopStep(m: Machine, start: nat, p: Path, to: nat) returns (q: Path)
    requires WellFormed(m.prog) && HaltingWalk.PickedFrom(m, start, p) && p != [] && InBounds(m, Last(p))
    requires Pick(m, Last(p)) == Some(Config(to, start))
    ensures q == p + [Config(to, start)] && HaltingWalk.PickedFrom(m, start, q)
    ensures q != [] && Last(q) == Config(to, start)
  {
    hide WellFormed, Pick;
    q := p + [Config(to, start)];
    HaltingWalk.PickedGrows(m, p, Config(to, start));
  }

  lemma {:induction false} EmptyLoopPicks(start: nat, text: seq<Byte>)
    requires start <= |text|
    ensures var m := EmptyLoopOn(text);
      && WellFormed(m.prog) && |m.prog| == 7
      && (forall pc: nat :: pc < 7 ==> InBounds(m, Config(pc, start)))
      && Pick(m, Config(0, start)) == Some(Config(1, start)) && Pick(m, Config(1, start)) == Some(Config(2, start))
      && Pick(m, Config(2, start)) == Some(Config(3, start)) && Pick(m, Config(3, start)) == Some(Config(4, start))
      && Pick(m, Config(4, start)) == Some(Config(1, start))
  {
    EmptyLoopSides(NextByte(text, start));
    hide Side;
  }

  /** So it is one of the programs that loop. */
  lemma {:induction false} EmptyLoopLoops()
    ensures WellFormed(EMPTY_LOOP) && HaltingWalk.Loops(EMPTY_LOOP, PLAIN)
  {
    hide *;
    EmptyLoopSteps();
    HaltingWalk.HaltsExactly(EMPTY_LOOP, PLAIN, 4);
    EmptyLoopEnds();
  }

  lemma {:induction false} EmptyLoopEnds()
    ensures WellFormed(EMPTY_LOOP) && !HaltingWalk.AlwaysHalts(EMPTY_LOOP, PLAIN, 4)
  {
    EmptyLoopSteps();
    hide WellFormed, HaltingWalk.Halts;
    assert EmptyLoopOn([]) == Machine(EMPTY_LOOP, PLAIN, 4, []);
    forall end ensures !HaltingWalk.Halts(EmptyLoopOn([]), 0, end) { EmptyLoopNeverHalts(0, [], end); }
    assert !HaltingWalk.Ends(Machine(EMPTY_LOOP, PLAIN, 4, []), 0);
  }

  /** The table is used on it, and resolving, which nothing bounds, goes round as well. */
  lemma {:induction false} EmptyLoopNeverSettles(next: Option<Byte>)
    ensures WellFormed(EMPTY_LOOP) && Eligible(EMPTY_LOOP, PLAIN)
    ensures !Settles(EMPTY_LOOP, PLAIN, 0, next) && !TableHalts(EMPTY_LOOP, PLAIN)
  {
    EmptyLoopCycles([]);
    EmptyLoopGlides(next);
    hide WellFormed, OnePass, Glide, Settles;
    var p := EMPTY_LOOP;
    assert FrontOnly(p) && |p| == 7;
    StartMet(p, PLAIN, next);
    var c := [1, 2, 3, 4, 1];
    GlidedMet(p, PLAIN, Node(0, next), [0, 1], 1);
    CirclesNeverSettle(p, PLAIN, Node(1, next), c);
    FirstSettles(p, PLAIN, 0, 1, next);
  }

  lemma {:induction false} EmptyLoopGlides(next: Option<Byte>)
    ensures WellFormed(EMPTY_LOOP)
    ensures Glide(EMPTY_LOOP, PLAIN, 0, next) == Some(1) && Glide(EMPTY_LOOP, PLAIN, 1, next) == Some(2)
    ensures Glide(EMPTY_LOOP, PLAIN, 2, next) == Some(3) && Glide(EMPTY_LOOP, PLAIN, 3, next) == Some(4)
    ensures Glide(EMPTY_LOOP, PLAIN, 4, next) == Some(1)
  {
    EmptyLoopSides(next);
    hide Side;
  }

  /** Resolving that ends ends from the next pc on, too. */
  lemma {:induction false} FirstSettles(prog: seq<Instr>, flags: Flags, pc: nat, q: nat, next: Option<Byte>)
    requires WellFormed(prog) && pc < |prog| && Glide(prog, flags, pc, next) == Some(q)
    ensures Settles(prog, flags, pc, next) ==> Settles(prog, flags, q, next)
  {
    hide WellFormed, Glide;
    if e :| Rests(prog, flags, pc, next, e) {
      GlidedPart(prog, flags, next, e, 1, |e|);
      GlidesOn(prog, flags, next, e, 0);
      assert Rests(prog, flags, q, next, e[1..|e|]);
    }
  }

  // ---- b(?:^)* ----

  const LATE: seq<Instr> := [Save(0), Char(B), Split(3, 5), Bol, Jump(2), Save(1), Match]

  /** It is what b(?:^)* compiles to. */
  lemma {:induction false} LateIsCompiled()
    ensures
      var e := R.Cat(R.Op(Char(B)), R.Star(R.Op(Bol), false));
      R.Parsed(e) && R.Program(e) == LATE
  {
  }

  lemma {:induction false} LateSteps()
    ensures WellFormed(LATE) && |LATE| == 7
    ensures EpsSucc(LATE, 2) == [3, 5] && EpsSucc(LATE, 3) == [4] && EpsSucc(LATE, 4) == [2] && EpsSucc(LATE, 5) == [6] && EpsSucc(LATE, 6) == []
  {
  }

  lemma {:induction false} LateReach()
    ensures WellFormed(LATE) && MatchEmpty(LATE, 3)
    ensures forall q: nat :: EpsReach(LATE, 3, q) ==> q in {2, 3, 4, 5, 6}
    ensures forall q: nat :: EpsReach(LATE, 5, q) ==> q in {5, 6}
  {
    LateSteps();
    hide WellFormed, EpsSucc;
    assert EpsPath(LATE, [3, 4, 2, 5, 6]);
    hide EpsReach;
    ReachWithin(LATE, {2, 3, 4, 5, 6}, 3);
    ReachWithin(LATE, {5, 6}, 5);
  }

  lemma {:induction false} LateSide(next: Option<Byte>)
    ensures WellFormed(LATE) && CleanSplit(LATE, PLAIN, 2) && Side(LATE, PLAIN, 2, next) == Some(3)
  {
    LateReach();
    hide EpsReach, MatchEmpty;
  }

  /** From any start the walk is over after three steps at most: past the byte the anchor cannot pass. */
  lemma {:induction false} LateEnds(text: seq<Byte>, start: nat)
    requires start <= |text|
    ensures WellFormed(LATE) && HaltingWalk.Ends(Machine(LATE, PLAIN, 2, text), start)
  {
    var m := Machine(LATE, PLAIN, 2, text);
    LatePicks(text, start);
    hide Pick, WellFormed;
    HaltingWalk.StartsPicked(m, start);
    var p := Root(start) + [Config(1, start)];
    HaltingWalk.PickedGrows(m, Root(start), Config(1, start));
    if start < |text| && text[start] == B {
      HaltingWalk.PickedGrows(m, p, Config(2, start + 1));
      p := p + [Config(2, start + 1)];
      HaltingWalk.PickedGrows(m, p, Config(3, start + 1));
      p := p + [Config(3, start + 1)];
    }
    assert HaltingWalk.Halts(m, start, p);
  }

  lemma {:induction false} LatePicks(text: seq<Byte>, start: nat)
    requires start <= |text|
    ensures
      var m := Machine(LATE, PLAIN, 2, text);
      && WellFormed(LATE) && |LATE| == 7 && Pick(m, Config(0, start)) == Some(Config(1, start))
      && if start < |text| && text[start] == B then
           && Pick(m, Config(1, start)) == Some(Config(2, start + 1)) && Pick(m, Config(2, start + 1)) == Some(Config(3, start + 1))
           && Pick(m, Config(3, start + 1)).None?
         else Pick(m, Config(1, start)).None?
  {
    LateInstrs();
    if start < |text| { LateSide(NextByte(text, start + 1)); }
    hide *;
    LatePicksOn(Machine(LATE, PLAIN, 2, text), start);
  }

  lemma {:induction false} LateInstrs()
    ensures WellFormed(LATE) && NoWordTests(LATE) && |LATE| == 7
    ensures LATE[0] == Save(0) && LATE[1] == Char(B) && LATE[2] == Split(3, 5) && LATE[3] == Bol
  {
  }

  lemma {:induction false} LatePicksOn(m: Machine, start: nat)
    requires WellFormed(m.prog) && NoWordTests(m.prog) && |m.prog| == 7 && m.flags == PLAIN && start <= |m.text|
    requires m.prog[0] == Save(0) && m.prog[1] == Char(B) && m.prog[2] == Split(3, 5) && m.prog[3] == Bol
    requires start < |m.text| ==> Side(m.prog, PLAIN, 2, NextByte(m.text, start + 1)) == Some(3)
    ensures Pick(m, Config(0, start)) == Some(Config(1, start))
    ensures
      if start < |m.text| && m.text[start] == B then
        && Pick(m, Config(1, start)) == Some(Config(2, start + 1)) && Pick(m, Config(2, start + 1)) == Some(Config(3, start + 1))
        && Pick(m, Config(3, start + 1)).None?
      else Pick(m, Config(1, start)).None?
  {
    hide WellFormed, Side, Pick, NoWordTests;
    PickCases(m, Config(0, start));
    PickCases(m, Config(1, start));
    if start < |m.text| && m.text[start] == B {
      PickCases(m, Config(2, start + 1));
      PickCases(m, Config(3, start + 1));
    }
  }

  /** It has an epsilon cycle, so no rank, and still its walk always ends: never looping asks less. */
  lemma {:induction false} LateNeverLoops(rank: seq<nat>)
    ensures WellFormed(LATE) && OnePass(LATE, PLAIN) && !EpsAcyclic(LATE, rank) && !HaltingWalk.Loops(LATE, PLAIN)
  {
    hide *;
    LateOnePass();
    LateHasNoRank(rank);
    LateAlwaysHalts();
    HaltingWalk.HaltsExactly(LATE, PLAIN, 2);
  }

  lemma {:induction false} LateOnePass()
    ensures WellFormed(LATE) && OnePass(LATE, PLAIN)
  {
    LateInstrs();
    LateSide(None);
    hide WellFormed, CleanSplit, NoWordTests;
    assert forall pc :: 0 <= pc < |LATE| && LATE[pc].Split? ==> pc == 2;
  }

  lemma {:induction false} LateHasNoRank(rank: seq<nat>)
    ensures WellFormed(LATE) && !EpsAcyclic(LATE, rank)
  {
    LateSteps();
    hide EpsSucc, WellFormed;
    Cycle(LATE, rank, 2, 3);
    Cycle(LATE, rank, 3, 4);
    Cycle(LATE, rank, 4, 2);
  }

  lemma {:induction false} LateAlwaysHalts()
    ensures WellFormed(LATE) && HaltingWalk.AlwaysHalts(LATE, PLAIN, 2)
  {
    LateInstrs();
    hide WellFormed, HaltingWalk.Ends;
    forall text: seq<Byte>, start: nat | start <= |text| ensures HaltingWalk.Ends(Machine(LATE, PLAIN, 2, text), start) {
      LateEnds(text, start);
    }
  }
}
