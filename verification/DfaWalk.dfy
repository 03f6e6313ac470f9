/** What the DFA computes on every eligible program, and exactly when that is the one-pass walk. */
module DfaWalk {
  import opened Basics
  import opened Machine
  import opened Backtracking
  import opened FirstSet
  import opened OnePassWalk
  import opened OnePassVm
  import opened HaltingWalk
  import opened Dfa

  lemma {:induction false} GlideIsPick(m: Machine, c: Config)
    requires WellFormed(m.prog) && NoWordTests(m.prog) && InBounds(m, c) && !LooksBack(m.prog[c.pc]) && !Consuming(m.prog[c.pc])
    ensures
      var r := Glide(m.prog, m.flags, c.pc, NextByte(m.text, c.pos));
      Pick(m, c) == if r.Some? then Some(Config(r.value, c.pos)) else None
  {
    hide NoWordTests, WellFormed, Side, AnchorOk, PassesBefore;
    GlideCases(m.prog, m.flags, c.pc, NextByte(m.text, c.pos));
    PickCases(m, c);
    if Anchor(m.prog[c.pc]) { AnchorByNext(m, c); }
  }

  /** Gliding from where p stands follows the walk. */
  lemma {:induction false} GlideFollows(m: Machine, start: nat, p: Path, e: seq<nat>, k: nat) returns (q: Path)
    requires WellFormed(m.prog) && NoWordTests(m.prog) && NoFront(m.prog) && PickedFrom(m, start, p) && k < |e|
    requires Glided(m.prog, m.flags, NextByte(m.text, Last(p).pos), e) && e[0] == Last(p).pc
    ensures PickedFrom(m, start, q) && Last(q) == Config(e[k], Last(p).pos)
  {
    if k == 0 { return p; }
    assert e[k - 1] < |m.prog| && !LooksBack(m.prog[e[k - 1]]);
    hide NoWordTests, NoFront, WellFormed, Pick, Succ, Glide, Glided;
    q := GlideFollows(m, start, p, e, k - 1);
    GlidesOn(m.prog, m.flags, NextByte(m.text, Last(p).pos), e, k - 1);
    GlideIsSilent(m.prog, m.flags, e[k - 1], NextByte(m.text, Last(p).pos));
    GlideIsPick(m, Last(q));
    var d := Config(e[k], Last(p).pos);
    PickedGrows(m, q, d);
    q := q + [d];
  }

  /** The walk from where p stands to where resolving comes to an end. */
  lemma {:induction false} SettleFollows(m: Machine, start: nat, p: Path) returns (q: Path)
    requires WellFormed(m.prog) && NoWordTests(m.prog) && NoFront(m.prog) && PickedFrom(m, start, p)
    requires Settles(m.prog, m.flags, Last(p).pc, NextByte(m.text, Last(p).pos))
    ensures PickedFrom(m, start, q) && Last(q).pos == Last(p).pos && Last(q).pc < |m.prog|
    ensures Settle(m.prog, m.flags, Last(p).pc, NextByte(m.text, Last(p).pos)) == RestsAt(m.prog[Last(q).pc], Last(q).pc)
    ensures !Consuming(m.prog[Last(q).pc]) ==> Halts(m, start, q)
  {
    var next := NextByte(m.text, Last(p).pos);
    var e :| Rests(m.prog, m.flags, Last(p).pc, next, e);
    SettleIs(m.prog, m.flags, Last(p).pc, next, e);
    assert !LooksBack(m.prog[e[|e| - 1]]);
    hide NoWordTests, NoFront, WellFormed, Pick, Succ, Glide, Settle;
    q := GlideFollows(m, start, p, e, |e| - 1);
    if !Consuming(m.prog[Last(q).pc]) { GlideIsPick(m, Last(q)); }
  }

  /** Without ^ and \A the table reads exactly the span the walk finds. */
  lemma {:induction false} ReadsIsWalk(m: Machine, start: nat, p: Path)
    requires WellFormed(m.prog) && NoWordTests(m.prog) && NoFront(m.prog) && TableHalts(m.prog, m.flags) && PickedFrom(m, start, p)
    requires Met(m.prog, m.flags, NodeAt(m, Last(p)))
    ensures Last(p).pos <= |m.text| && Reads(m, Last(p).pc, Last(p).pos) == EndOf(WalkTo(m, start))
    decreases |m.text| - Last(p).pos
  {
    hide NoWordTests, NoFront, WellFormed, Pick, Succ, Settle, Settles, Met, Reads, WalkTo, Halts, Matches;
    PickedInside(m, start, p);
    var c := Last(p);
    var n := NodeAt(m, c);
    assert Settles(m.prog, m.flags, n.pc, n.next);
    var q := SettleFollows(m, start, p);
    ReadsOn(m, c.pc, c.pos);
    StepMet(m.prog, m.flags, n, NextByte(m.text, c.pos + 1));
    if !Consuming(m.prog[Last(q).pc]) {
      WalkToIs(m, start, q);
    } else {
      PickedInside(m, start, q);
      PickCases(m, Last(q));
      var d := Pick(m, Last(q));
      if d.Some? {
        PickedGrows(m, q, d.value);
        ReadsIsWalk(m, start, q + [d.value]);
      } else {
        PickedHalts(m, start, q);
        WalkToIs(m, start, q);
      }
    }
  }

  lemma {:induction false} PickedInside(m: Machine, start: nat, p: Path)
    requires WellFormed(m.prog) && PickedFrom(m, start, p)
    ensures |p| > 0 && InBounds(m, Last(p)) && Picked(m, p)
  {
  }

  lemma {:induction false} PickedHalts(m: Machine, start: nat, p: Path)
    requires WellFormed(m.prog) && PickedFrom(m, start, p) && InBounds(m, Last(p)) && Pick(m, Last(p)).None?
    ensures Halts(m, start, p)
  {
  }

  // ---- the program with its leading ^ or \A taken out ----

  /** The same program with a jump where the leading ^ or \A was. */
  function Freed(prog: seq<Instr>): (r: seq<Instr>)
    ensures |r| == |prog|
  {
    if |prog| > 2 && LooksBack(prog[1]) then prog[1 := Jump(2)] else prog
  }

  ghost function FreedMachine(m: Machine): Machine {
    m.(prog := Freed(m.prog))
  }

  ghost predicate Lookalike(prog: seq<Instr>, free: seq<Instr>) {
    && WellFormed(prog) && WellFormed(free) && |prog| == |free|
    && (forall pc: nat :: pc < |prog| ==> EpsSucc(free, pc) == EpsSucc(prog, pc))
    && (forall pc: nat :: pc < |prog| && !LooksBack(prog[pc]) ==> free[pc] == prog[pc])
    && (forall pc: nat :: pc < |prog| && LooksBack(prog[pc]) ==> pc == 1 && free[pc] == Jump(2))
  }

  lemma {:induction false} SameReach(prog: seq<Instr>, free: seq<Instr>, pc: nat, q: nat)
    requires Lookalike(prog, free)
    ensures EpsReach(free, pc, q) <==> EpsReach(prog, pc, q)
  {
    assert forall p :: EpsPath(free, p) <==> EpsPath(prog, p);
  }

  lemma {:induction false} SameStart(prog: seq<Instr>, free: seq<Instr>, flags: Flags, pc: nat, b: Byte)
    requires Lookalike(prog, free)
    ensures CanStart(free, flags, pc, b) <==> CanStart(prog, flags, pc, b)
  {
    hide EpsReach, WellFormed, Matches;
    forall q: nat ensures EpsReach(free, pc, q) <==> EpsReach(prog, pc, q) {
      SameReach(prog, free, pc, q);
    }
  }

  lemma {:induction false} SameSide(prog: seq<Instr>, free: seq<Instr>, flags: Flags, pc: nat, next: Option<Byte>)
    requires Lookalike(prog, free) && pc < |prog| && prog[pc].Split?
    ensures free[pc] == prog[pc] && Side(free, flags, pc, next) == Side(prog, flags, pc, next)
  {
    var a, b := prog[pc].a, prog[pc].b;
    assert free[pc] == prog[pc];
    hide CanStart, EpsReach, WellFormed;
    if next.Some? {
      SameStart(prog, free, flags, a, next.value);
      SameStart(prog, free, flags, b, next.value);
    }
    SameReach(prog, free, a, |prog| - 1);
    SameReach(prog, free, b, |prog| - 1);
  }

  /** What glides past the anchor glides past the jump. */
  lemma {:induction false} SameGlide(prog: seq<Instr>, free: seq<Instr>, flags: Flags, pc: nat, next: Option<Byte>)
    requires Lookalike(prog, free) && pc < |prog|
    ensures Glide(free, flags, pc, next) == Glide(prog, flags, pc, next) && RestsAt(free[pc], pc) == RestsAt(prog[pc], pc)
    ensures Consuming(prog[pc]) ==> free[pc] == prog[pc]
    ensures Consuming(free[pc]) <==> Consuming(prog[pc])
  {
    if prog[pc].Split? { SameSide(prog, free, flags, pc, next); }
    hide Side, WellFormed;
  }

  lemma {:induction false} SameRests(prog: seq<Instr>, free: seq<Instr>, flags: Flags, pc: nat, next: Option<Byte>, e: seq<nat>)
    requires Lookalike(prog, free)
    ensures Rests(free, flags, pc, next, e) <==> Rests(prog, flags, pc, next, e)
  {
    assert |free| == |prog| && WellFormed(prog) && WellFormed(free);
    hide Lookalike, WellFormed, Glide;
    forall q: nat | q < |prog| ensures Glide(free, flags, q, next) == Glide(prog, flags, q, next) {
      SameGlide(prog, free, flags, q, next);
    }
  }

  lemma {:induction false} SameSettles(prog: seq<Instr>, free: seq<Instr>, flags: Flags, pc: nat, next: Option<Byte>)
    requires Lookalike(prog, free)
    ensures Settles(free, flags, pc, next) <==> Settles(prog, flags, pc, next)
    ensures Settle(free, flags, pc, next) == Settle(prog, flags, pc, next)
  {
    assert |free| == |prog| && WellFormed(prog) && WellFormed(free);
    hide Lookalike, WellFormed, Rests;
    forall e ensures Rests(free, flags, pc, next, e) <==> Rests(prog, flags, pc, next, e) { SameRests(prog, free, flags, pc, next, e); }
    if e :| Rests(prog, flags, pc, next, e) {
      SettleIs(prog, flags, pc, next, e);
      SettleIs(free, flags, pc, next, e);
      SameGlide(prog, free, flags, e[|e| - 1], next);
    }
  }

  lemma {:induction false} SameReads(m: Machine, f: Machine, state: nat, pos: nat)
    requires f == m.(prog := f.prog) && Lookalike(m.prog, f.prog) && pos <= |m.text|
    ensures WellFormed(m.prog) && WellFormed(f.prog) && Reads(f, state, pos) == Reads(m, state, pos)
    decreases |m.text| - pos
  {
    assert |f.prog| == |m.prog| && WellFormed(m.prog) && WellFormed(f.prog);
    hide Settle, Lookalike, WellFormed, Matches, Reads;
    var next := NextByte(m.text, pos);
    SameSettles(m.prog, f.prog, m.flags, state, next);
    var c := Settle(m.prog, m.flags, state, next);
    if c >= 0 { SameGlide(m.prog, f.prog, m.flags, c, next); }
    ReadsOn(m, state, pos);
    ReadsOn(f, state, pos);
    var r := StepOf(m.prog, m.flags, state, next);
    if r >= 0 { SameReads(m, f, r, pos + 1); }
  }

  lemma {:induction false} SameMoves(prog: seq<Instr>, free: seq<Instr>, flags: Flags, n: Node, d: Node)
    requires Lookalike(prog, free) && n.pc < |prog|
    ensures Moves(free, flags, n, d) <==> Moves(prog, flags, n, d)
  {
    SameGlide(prog, free, flags, n.pc, n.next);
    assert |free| == |prog| && WellFormed(prog) && WellFormed(free);
    hide Lookalike, WellFormed, Glide, Matches;
    if !Consuming(prog[n.pc]) {
      hide Moves;
      GlideMoves(prog, flags, n, d);
      GlideMoves(free, flags, n, d);
    }
  }

  lemma {:induction false} SameTraces(prog: seq<Instr>, free: seq<Instr>, flags: Flags, t: seq<Node>)
    requires Lookalike(prog, free)
    ensures Trace(free, flags, t) <==> Trace(prog, flags, t)
  {
    assert |free| == |prog| && WellFormed(prog) && WellFormed(free);
    hide Lookalike, WellFormed, Moves;
    forall n: Node, d: Node | n.pc < |prog| ensures Moves(free, flags, n, d) <==> Moves(prog, flags, n, d) {
      SameMoves(prog, free, flags, n, d);
    }
  }

  lemma {:induction false} SameHalts(prog: seq<Instr>, free: seq<Instr>, flags: Flags)
    requires Lookalike(prog, free)
    ensures WellFormed(prog) && WellFormed(free) && (TableHalts(free, flags) <==> TableHalts(prog, flags))
  {
    assert |free| == |prog| && WellFormed(prog) && WellFormed(free);
    hide Lookalike, WellFormed, Trace, Settles;
    forall t ensures Trace(free, flags, t) <==> Trace(prog, flags, t) { SameTraces(prog, free, flags, t); }
    forall n: Node ensures Settles(free, flags, n.pc, n.next) <==> Settles(prog, flags, n.pc, n.next) {
      SameSettles(prog, free, flags, n.pc, n.next);
    }
    assert forall n: Node :: Met(free, flags, n) <==> Met(prog, flags, n);
  }

  /** The program is one the table may be tried on, its resolving always ending. */
  ghost predicate Tabled(m: Machine) {
    WellFormed(m.prog) && NoWordTests(m.prog) && TableHalts(m.prog, m.flags) && FrontOnly(m.prog) && |m.prog| > 2
  }

  lemma {:induction false} FreedLooks(prog: seq<Instr>)
    requires WellFormed(prog) && NoWordTests(prog) && FrontOnly(prog) && |prog| > 2
    ensures Lookalike(prog, Freed(prog)) && WellFormed(Freed(prog)) && NoWordTests(Freed(prog)) && NoFront(Freed(prog))
  {
  }

  /** With no hypothesis on branches: the table computes the one-pass walk of the program freed of its leading anchor. */
  lemma {:induction false} DfaDropsAnchor(m: Machine, start: nat)
    requires Tabled(m) && start <= |m.text|
    ensures WellFormed(Freed(m.prog)) && Reads(m, 0, start) == EndOf(WalkTo(FreedMachine(m), start))
  {
    hide NoWordTests, FrontOnly, WellFormed, TableHalts, Freed, Lookalike, NoFront, Reads, WalkTo, Met, Pick;
    FreedLooks(m.prog);
    var f := FreedMachine(m);
    SameReads(m, f, 0, start);
    SameHalts(m.prog, f.prog, m.flags);
    StartsPicked(f, start);
    StartMet(f.prog, f.flags, NextByte(f.text, start));
    ReadsIsWalk(f, start, Root(start));
  }

  // ---- when the anchor may be dropped ----

  /** A walk of the freed program to MATCH that comes back to the leading anchor. */
  ghost predicate Returns(prog: seq<Instr>, flags: Flags, t: seq<Node>, j: nat)
    requires WellFormed(Freed(prog))
  {
    && Trace(Freed(prog), flags, t) && t[0].pc == 0 && prog[t[|t| - 1].pc].Match?
    && 1 < j < |t| && t[j].pc == 1
  }

  /** A check of the program alone: no walk to MATCH branches back to its leading ^ or \A. */
  ghost predicate NeverReturns(prog: seq<Instr>, flags: Flags)
    requires WellFormed(Freed(prog))
  {
    |prog| > 2 && LooksBack(prog[1]) ==> forall t: seq<Node>, j: nat :: !Returns(prog, flags, t, j)
  }

  /** Where the anchored walk moves, the freed one moves along. */
  lemma {:induction false} PickFreed(m: Machine, c: Config)
    requires WellFormed(m.prog) && NoWordTests(m.prog) && FrontOnly(m.prog) && |m.prog| > 2 && InBounds(m, c)
    ensures WellFormed(Freed(m.prog))
    ensures !LooksBack(m.prog[c.pc]) ==> Pick(FreedMachine(m), c) == Pick(m, c)
    ensures LooksBack(m.prog[c.pc]) ==> Pick(FreedMachine(m), c) == Some(Config(2, c.pos)) && c.pc == 1
    ensures LooksBack(m.prog[c.pc]) && c.pos == 0 ==> Pick(m, c) == Some(Config(2, c.pos))
    ensures LooksBack(m.prog[c.pc]) && c.pos > 0 && !m.flags.multiline ==> Pick(m, c).None?
    ensures m.prog[c.pc].Match? <==> Freed(m.prog)[c.pc].Match?
  {
    FreedLooks(m.prog);
    var f := FreedMachine(m);
    if m.prog[c.pc].Split? { SameSide(m.prog, f.prog, m.flags, c.pc, NextByte(m.text, c.pos)); }
    assert LooksBack(m.prog[c.pc]) ==> c.pc == 1 && f.prog[c.pc] == Jump(2);
    assert !LooksBack(m.prog[c.pc]) ==> f.prog[c.pc] == m.prog[c.pc];
    hide Side, Lookalike, Matches;
  }

  /** The picks along w are picks of the machine f as well. */
  lemma {:induction false} PicksMoveOver(m: Machine, f: Machine, start: nat, w: Path)
    requires WellFormed(m.prog) && WellFormed(f.prog) && Halts(m, start, w) && |m.prog| == |f.prog| && m.text == f.text
    requires Last(w).pc < |m.prog| && m.prog[Last(w).pc].Match? && f.prog[Last(w).pc].Match?
    requires forall k :: 0 <= k < |w| && InBounds(m, w[k]) && Pick(m, w[k]).Some? ==> Pick(f, w[k]) == Pick(m, w[k])
    ensures WalkTo(f, start) == Some(w)
  {
    hide WellFormed, Pick, Succ, WalkTo;
    forall i, j | 0 <= i < |w| && j == i + 1 < |w| ensures Pick(f, w[i]) == Some(w[j]) && w[j] in Succ(f, w[i]) {
      assert Pick(m, w[i]) == Some(w[j]);
      PickIsNext(f, w[i]);
    }
    AtMatch(f, Last(w));
    assert Picked(f, w);
    WalkToIs(f, start, w);
  }

  lemma {:induction false} AtMatch(m: Machine, c: Config)
    requires WellFormed(m.prog) && InBounds(m, c) && m.prog[c.pc].Match?
    ensures Pick(m, c).None?
  {
  }

  /** A walk that succeeds with the anchor succeeds, the same way, without it. */
  lemma {:induction false} WalkSurvives(m: Machine, start: nat)
    requires WellFormed(m.prog) && NoWordTests(m.prog) && FrontOnly(m.prog) && |m.prog| > 2
    requires !m.flags.multiline && WalkTo(m, start).Some?
    ensures WellFormed(Freed(m.prog)) && WalkTo(FreedMachine(m), start) == WalkTo(m, start)
  {
    var w := WalkTo(m, start).value;
    HaltMatch(m, start, w);
    FreedLooks(m.prog);
    var f := FreedMachine(m);
    hide WellFormed, NoWordTests, FrontOnly, Freed, Lookalike, Pick, WalkTo, Halts, NoFront;
    PickFreed(m, Last(w));
    forall k | 0 <= k < |w| && InBounds(m, w[k]) && Pick(m, w[k]).Some? ensures Pick(f, w[k]) == Pick(m, w[k]) {
      PickFreed(m, w[k]);
    }
    PicksMoveOver(m, f, start, w);
  }

  lemma {:induction false} HaltMatch(m: Machine, start: nat, w: Path)
    requires WellFormed(m.prog) && Halts(m, start, w) && Accepting(m, w)
    ensures |w| > 0 && InBounds(m, Last(w)) && m.prog[Last(w).pc].Match?
  {
  }

  /** A walk without the anchor that meets its pc only at position 0 is a walk with it. */
  lemma {:induction false} WalkHolds(m: Machine, start: nat)
    requires WellFormed(m.prog) && NoWordTests(m.prog) && FrontOnly(m.prog) && |m.prog| > 2 && WellFormed(Freed(m.prog))
    requires WalkTo(FreedMachine(m), start).Some?
    requires
      var w := WalkTo(FreedMachine(m), start).value;
      forall j :: 0 <= j < |w| && w[j].pc < |m.prog| && LooksBack(m.prog[w[j].pc]) ==> w[j].pos == 0
    ensures WalkTo(m, start) == WalkTo(FreedMachine(m), start)
  {
    var f := FreedMachine(m);
    var w := WalkTo(f, start).value;
    HaltMatch(f, start, w);
    hide WellFormed, NoWordTests, FrontOnly, Freed, Pick, WalkTo, Halts;
    PickFreed(m, Last(w));
    forall k | 0 <= k < |w| && InBounds(f, w[k]) && Pick(f, w[k]).Some? ensures Pick(m, w[k]) == Pick(f, w[k]) {
      PickFreed(m, w[k]);
    }
    PicksMoveOver(f, m, start, w);
  }

  ghost predicate DfaWalkable(prog: seq<Instr>, flags: Flags, nslots: nat) {
    && Framed(Machine(prog, flags, nslots, [])) && NoWordTests(prog) && TableHalts(prog, flags)
    && FrontOnly(prog) && !flags.multiline
  }

  /** Table and walk give the same span from every start the search would try. */
  ghost predicate DfaAgreesOn(prog: seq<Instr>, flags: Flags, nslots: nat, text: seq<Byte>)
    requires DfaWalkable(prog, flags, nslots)
  {
    var m := Machine(prog, flags, nslots, text);
    forall start: nat :: start <= |text| && (LooksBack(prog[1]) ==> start == 0) ==>
      Reads(m, 0, start) == EndOf(WalkTo(m, start))
  }

  lemma {:induction false} FreedFrame(prog: seq<Instr>, flags: Flags, nslots: nat, text: seq<Byte>)
    requires DfaWalkable(prog, flags, nslots)
    ensures
      var m := Machine(prog, flags, nslots, text);
      && Framed(m) && WellFormed(prog) && NoWordTests(prog) && Tabled(m) && FrontOnly(prog) && |prog| > 2 && !flags.multiline
      && prog[0].Save? && WellFormed(Freed(prog)) && NoWordTests(Freed(prog)) && Framed(FreedMachine(m)) && |Freed(prog)| == |prog|
      && NoFront(Freed(prog)) && (!LooksBack(prog[1]) ==> FreedMachine(m) == m)
  {
    FreedLooks(prog);
    hide TableHalts;
  }

  /** The first two configurations of any run. */
  lemma {:induction false} RunOpens(m: Machine, p: Path)
    requires WellFormed(m.prog) && IsPath(m, p) && p[0] == Config(0, 0) && m.prog[0].Save?
    ensures |p| > 1 ==> p[1] == Config(1, 0)
  {
    if |p| > 1 { assert p[1] in Succ(m, p[0]); }
  }

  lemma {:induction false} FaithfulAt(prog: seq<Instr>, flags: Flags, nslots: nat, text: seq<Byte>)
    requires DfaWalkable(prog, flags, nslots) && WellFormed(Freed(prog)) && NeverReturns(prog, flags) && LooksBack(prog[1])
    ensures
      var m := Machine(prog, flags, nslots, text);
      WellFormed(prog) && Reads(m, 0, 0) == EndOf(WalkTo(m, 0))
  {
    var m := Machine(prog, flags, nslots, text);
    var f := FreedMachine(m);
    hide DfaWalkable, Framed, NoWordTests, FrontOnly, NoFront, Freed, WellFormed, WalkTo, Reads, Trace, Pick, NeverReturns, TableHalts;
    FreedFrame(prog, flags, nslots, text);
    DfaDropsAnchor(m, 0);
    if WalkTo(m, 0).Some? {
      WalkSurvives(m, 0);
    } else if WalkTo(f, 0).Some? {
      var w := WalkTo(f, 0).value;
      HaltWalked(f, w);
      var t := WalkedTrace(f, w);
      OnlyAtFront(m, w, t);
      WalkHolds(m, 0);
    }
  }

  lemma {:induction false} HaltWalked(m: Machine, w: Path)
    requires WellFormed(m.prog) && Halts(m, 0, w)
    ensures Walked(m, w)
  {
  }

  lemma {:induction false} OnlyAtFront(m: Machine, w: Path, t: seq<Node>)
    requires WellFormed(m.prog) && NoWordTests(m.prog) && FrontOnly(m.prog) && |m.prog| > 2 && m.prog[0].Save? && LooksBack(m.prog[1])
    requires WellFormed(Freed(m.prog)) && NeverReturns(m.prog, m.flags)
    requires Accepting(FreedMachine(m), w) && w[0] == Config(0, 0)
    requires Trace(Freed(m.prog), m.flags, t) && |t| == |w| && forall i :: 0 <= i < |w| ==> t[i] == NodeAt(FreedMachine(m), w[i])
    ensures forall j :: 0 <= j < |w| && w[j].pc < |m.prog| && LooksBack(m.prog[w[j].pc]) ==> w[j].pos == 0
  {
    var f := FreedMachine(m);
    RunOpens(f, w);
    forall j: nat | j < |w| && w[j].pc < |m.prog| && LooksBack(m.prog[w[j].pc]) ensures w[j].pos == 0 {
      assert t[j].pc == 1;
      assert !Returns(m.prog, m.flags, t, j);
    }
  }

  /** A text that spells a returning walk makes the table accept and the walk fail. */
  lemma {:induction false} ReturnsDisagrees(prog: seq<Instr>, flags: Flags, nslots: nat, t: seq<Node>, j: nat)
    requires DfaWalkable(prog, flags, nslots) && LooksBack(prog[1])
    requires WellFormed(Freed(prog)) && Returns(prog, flags, t, j)
    ensures !DfaAgreesOn(prog, flags, nslots, TextOf(Freed(prog), t))
  {
    var text := TextOf(Freed(prog), t);
    var m := Machine(prog, flags, nslots, text);
    var f := FreedMachine(m);
    FreedFrame(prog, flags, nslots, text);
    TextSpells(Freed(prog), t);
    assert Trace(Freed(prog), flags, t) && t[0].pc == 0 && prog[t[|t| - 1].pc].Match? && 1 < j < |t| && t[j].pc == 1;
    hide DfaWalkable, Framed, NoWordTests, FrontOnly, Freed, WellFormed, NoFront, WalkTo, Reads, Trace, Pick, TextOf, Spells, Read, TableHalts;
    var p := Realize(f, t);
    assert NodeAt(f, Last(p)) == t[|t| - 1] && NodeAt(f, p[j]) == t[j];
    WalkedEnds(m, p);
    DfaDropsAnchor(m, 0);
    if WalkTo(m, 0).Some? {
      WalkSurvives(m, 0);
      ReturnsTwice(m, p, j);
    }
  }

  /** A walk of the freed program that has come to MATCH. */
  lemma {:induction false} WalkedEnds(m: Machine, p: Path)
    requires WellFormed(m.prog) && NoWordTests(m.prog) && FrontOnly(m.prog) && |m.prog| > 2 && WellFormed(Freed(m.prog))
    requires Walked(FreedMachine(m), p) && p[0] == Config(0, 0) && Last(p).pc < |m.prog| && m.prog[Last(p).pc].Match?
    ensures WalkTo(FreedMachine(m), 0) == Some(p)
  {
    var f := FreedMachine(m);
    assert InBounds(m, Last(p)) && PickedFrom(f, 0, p);
    hide WellFormed, NoWordTests, FrontOnly, Freed, WalkTo, Pick, PickedFrom, Walked;
    PickFreed(m, Last(p));
    AtMatch(f, Last(p));
    PickedHalts(f, 0, p);
    WalkToIs(f, 0, p);
  }

  lemma {:induction false} ReturnsTwice(m: Machine, p: Path, j: nat)
    requires WellFormed(m.prog) && |m.prog| > 1 && LooksBack(m.prog[1]) && m.prog[0].Save? && !m.flags.multiline
    requires WalkTo(m, 0) == Some(p) && 1 < j < |p|
    ensures p[j].pc != 1
  {
    HaltedIsSimple(m, 0, p);
    RunOpens(m, p);
    FrontAtZero(m, p, j);
  }

  /** An accepting run passes its leading anchor at the start of the text only. */
  lemma {:induction false} FrontAtZero(m: Machine, p: Path, j: nat)
    requires WellFormed(m.prog) && |m.prog| > 1 && LooksBack(m.prog[1]) && !m.flags.multiline && Accepting(m, p) && j < |p|
    ensures p[j].pc == 1 ==> p[j].pos == 0
  {
    if j + 1 < |p| { assert p[j + 1] in Succ(m, p[j + 1 - 1]); }
  }

  /** The table stands in for the walk on every text exactly when no walk to MATCH branches back to the leading anchor. */
  lemma {:induction false} DfaAgreementExact(prog: seq<Instr>, flags: Flags, nslots: nat)
    requires DfaWalkable(prog, flags, nslots)
    ensures WellFormed(Freed(prog))
    ensures (forall text: seq<Byte> :: DfaAgreesOn(prog, flags, nslots, text)) <==> NeverReturns(prog, flags)
  {
    FreedFrame(prog, flags, nslots, []);
    if NeverReturns(prog, flags) {
      forall text: seq<Byte> ensures DfaAgreesOn(prog, flags, nslots, text) {
        FaithfulEverywhere(prog, flags, nslots, text);
      }
    } else {
      var t: seq<Node>, j: nat :| Returns(prog, flags, t, j);
      ReturnsDisagrees(prog, flags, nslots, t, j);
    }
  }

  lemma {:induction false} FaithfulEverywhere(prog: seq<Instr>, flags: Flags, nslots: nat, text: seq<Byte>)
    requires DfaWalkable(prog, flags, nslots) && WellFormed(Freed(prog)) && NeverReturns(prog, flags)
    ensures DfaAgreesOn(prog, flags, nslots, text)
  {
    hide Reads, WalkTo, NeverReturns, WellFormed, Framed, NoWordTests, FrontOnly, Freed, NoFront, TableHalts;
    var m := Machine(prog, flags, nslots, text);
    FreedFrame(prog, flags, nslots, text);
    forall start: nat | start <= |text| && (LooksBack(prog[1]) ==> start == 0)
      ensures Reads(m, 0, start) == EndOf(WalkTo(m, start))
    {
      if LooksBack(prog[1]) {
        FaithfulAt(prog, flags, nslots, text);
      } else {
        DfaDropsAnchor(m, start);
      }
    }
  }

  /** Enough for that: nothing branches to the leading anchor. */
  lemma {:induction false} NoBranchNoReturn(prog: seq<Instr>, flags: Flags)
    requires WellFormed(prog) && WellFormed(Freed(prog)) && FrontAnchors(prog) && prog[0].Save?
    ensures NeverReturns(prog, flags)
  {
    if LooksBack(prog[1]) {
      forall t: seq<Node>, j: nat ensures !Returns(prog, flags, t, j) {
        if Returns(prog, flags, t, j) {
          NotBackToOne(prog, flags, t, j);
        }
      }
    }
  }

  lemma {:induction false} NotBackToOne(prog: seq<Instr>, flags: Flags, t: seq<Node>, j: nat)
    requires WellFormed(prog) && WellFormed(Freed(prog)) && FrontAnchors(prog) && prog[0].Save? && LooksBack(prog[1])
    requires Trace(Freed(prog), flags, t) && t[0].pc == 0 && 0 < j < |t|
    ensures t[j].pc == 1 ==> j == 1
    ensures t[j].pc != 0
  {
    assert Moves(Freed(prog), flags, t[j - 1], t[j]);
    if j > 1 { NotBackToOne(prog, flags, t, j - 1); }
    hide CanStart, MatchEmpty, Matches;
  }
}
