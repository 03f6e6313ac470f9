/** From pattern to answer: a compiled handle reports the preferred parse at the leftmost position that matches. */
module EndToEnd {
  import opened Basics
  import opened Machine
  import opened Regex
  import opened ParseTree
  import opened PatternMeaning
  import opened Search
  import Backtracking
  import Compiler
  import DfaWalk
  import Dfa
  import FirstSet
  import H = Handle
  import opened LoopRank
  import OnePassWalk
  import HaltingWalk

  /** The pattern matches at position s. */
  ghost predicate MatchesAt(m: Machine, e: Regex, s: nat) {
    s <= |m.text| && exists t :: Means(m.flags, m.text, e, Opened(m, s), t)
  }

  /** r are the captures of the best parse at s. */
  ghost predicate BestAt(m: Machine, e: Regex, s: nat, r: seq<int>) {
    exists tree, t :: BestParse(m, e, s, tree, t) && r == Outcome(t)
  }

  /** Nothing when the pattern matches nowhere from start on, else the best parse at the first place it does. */
  ghost predicate Leftmost(m: Machine, e: Regex, start: nat, r: Option<seq<int>>) {
    match r
    case None => forall s: nat :: start <= s ==> !MatchesAt(m, e, s)
    case Some(captures) =>
      exists s: nat :: start <= s && MatchesAt(m, e, s) && BestAt(m, e, s, captures) &&
        forall s': nat :: start <= s' < s ==> !MatchesAt(m, e, s')
  }

  lemma {:induction false} AttemptIsBest(m: Machine, e: Regex, s: nat)
    requires CompiledFrom(m, e) && WellFormed(m.prog) && s <= |m.text|
    ensures Backtracking.FirstMatch(m, s).Some? <==> MatchesAt(m, e, s)
    ensures Backtracking.FirstMatch(m, s).Some? ==>
      var p := Backtracking.FirstMatch(m, s).value;
      (forall i :: 0 <= i < |p| ==> p[i].pc < |m.prog|) && BestAt(m, e, s, Captures(m, p))
  {
    hide Means, Backtracking.FirstMatch, CompiledFrom, WellFormed, Opened, BestParse, PathOf, Captures, Outcome;
    FirstMatchIsBest(m, e, s);
    if r :| r == Backtracking.FirstMatch(m, s) && r.Some? {
      var tree, t :| BestRun(m, e, s, r.value, tree, t);
    }
  }

  /** The naive search over a compiled pattern is leftmost and, there, preferred. */
  lemma {:induction false} SearchIsLeftmost(m: Machine, e: Regex, start: nat)
    requires CompiledFrom(m, e) && Framed(m)
    ensures Leftmost(m, e, start, H.Found(m, FirstHit(m, Reference, start)))
    decreases |m.text| + 1 - start
  {
    hide CompiledFrom, Framed, MatchesAt, BestAt, WellFormed;
    if start > |m.text| {
      NoneBeyond(m, e, start);
    } else {
      FramedIsWell(m);
      AttemptIsBest(m, e, start);
      if !MatchesAt(m, e, start) {
        SearchIsLeftmost(m, e, start + 1);
        LeftmostOn(m, e, start, H.Found(m, FirstHit(m, Reference, start + 1)));
      }
    }
  }

  lemma {:induction false} FramedIsWell(m: Machine)
    requires Framed(m)
    ensures WellFormed(m.prog)
  {
  }

  lemma {:induction false} NoneBeyond(m: Machine, e: Regex, start: nat)
    requires start > |m.text|
    ensures Leftmost(m, e, start, None)
  {
  }

  lemma {:induction false} LeftmostOn(m: Machine, e: Regex, start: nat, r: Option<seq<int>>)
    requires !MatchesAt(m, e, start) && Leftmost(m, e, start + 1, r)
    ensures Leftmost(m, e, start, r)
  {
    hide MatchesAt, BestAt;
    if r.Some? {
      var s: nat :| start + 1 <= s && MatchesAt(m, e, s) && BestAt(m, e, s, r.value) &&
        forall s': nat :: start + 1 <= s' < s ==> !MatchesAt(m, e, s');
      assert forall s': nat :: start <= s' < s ==> !MatchesAt(m, e, s');
    }
  }

  /** On the compiled program the walk always ends, if the classifier licenses it. */
  ghost predicate WalkFits(e: Regex, flags: Flags)
    requires Parsed(e)
  {
    ProgramIsWell(e);
    FirstSet.OnePass(Program(e), flags) ==> !HaltingWalk.Loops(Program(e), flags)
  }

  /** And resolving for the table always ends and no walk to MATCH returns to the leading anchor, if it is eligible. */
  ghost predicate TableFits(e: Regex, flags: Flags)
    requires Parsed(e)
  {
    ProgramIsWell(e);
    Dfa.Eligible(Program(e), flags) ==>
      && Dfa.TableHalts(Program(e), flags)
      && WellFormed(DfaWalk.Freed(Program(e))) && DfaWalk.NeverReturns(Program(e), flags)
  }

  /** A compiled program meets what a handle needs of it, whenever the two analyses that license the fast engines do. */
  lemma {:induction false} CompiledIsSane(e: Regex, flags: Flags, nGroups: nat)
    requires Parsed(e) && GroupsBelow(e, nGroups + 1) && nGroups < MAX_GROUPS && |Program(e)| <= MAX_INSTRS
    requires WalkFits(e, flags) && TableFits(e, flags)
    ensures H.Sane(Program(e), flags, nGroups)
  {
    hide Program, Parsed, Code, FirstSet.OnePass, HaltingWalk.Loops, Dfa.TableHalts, Dfa.Eligible, DfaWalk.NeverReturns, GroupsBelow, SlotsFit, OneOpening, Framed, WellFormed;
    ProgramIsWell(e);
    Compiler.ProgramSlots(e, nGroups + 1);
    var m := Machine(Program(e), flags, 2, []);
    assert CompiledFrom(m, e);
    ProgramFramed(m, e);
  }

  /** No walk of the compiled program to MATCH comes back to its leading anchor. */
  ghost predicate FrontOnce(e: Regex, flags: Flags)
    requires Parsed(e)
  {
    ProgramIsWell(e);
    WellFormed(DfaWalk.Freed(Program(e))) && DfaWalk.NeverReturns(Program(e), flags)
  }

  /** Where every loop reads only that condition is left, and only for programs the table is used on. */
  lemma {:induction false} LoopsReadIsSane(e: Regex, flags: Flags, nGroups: nat)
    requires Parsed(e) && LoopsRead(e) && GroupsBelow(e, nGroups + 1) && nGroups < MAX_GROUPS && |Program(e)| <= MAX_INSTRS
    requires (ProgramIsWell(e); Dfa.Eligible(Program(e), flags)) ==> FrontOnce(e, flags)
    ensures H.Sane(Program(e), flags, nGroups)
  {
    hide Parsed, LoopsRead, Program, ProgramRanks, GroupsBelow, H.Sane, OnePassWalk.CanWalk, HaltingWalk.Loops, Dfa.TableHalts, DfaWalk.NeverReturns, WellFormed;
    ProgramIsWell(e);
    LoopsReadCanWalk(e, flags);
    if FirstSet.OnePass(Program(e), flags) {
      HaltingWalk.RankedNeverLoops(Program(e), flags, ProgramRanks(e));
      Dfa.RankedTableHalts(Program(e), flags, ProgramRanks(e));
    }
    CompiledIsSane(e, flags, nGroups);
  }

  /** What an exec on a handle for a compiled pattern answers. */
  lemma {:induction false} HandleAnswersPattern(h: H.Handle, e: Regex, text: seq<Byte>, start: nat)
    requires H.Planned(h.plan) && Parsed(e) && h.plan.prog == Program(e)
    requires H.Exact(h.plan) && start <= |text|
    ensures Leftmost(h.plan.On(text), e, start, h.Answer(text, start))
  {
    hide H.Planned, H.Exact, Program, Parsed, Leftmost;
    var m := h.plan.On(text);
    H.AnswerIsLeftmost(h, text, start);
    assert CompiledFrom(m, e) && Framed(m);
    SearchIsLeftmost(m, e, start);
  }
}
