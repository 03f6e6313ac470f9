/** A compiled handle: tiered search over three engines, and sub-group captures filled in only when asked for. */
module Handle {
  import opened Basics
  import opened Machine
  import opened Backtracking
  import opened FirstSet
  import opened OnePassWalk
  import opened OnePassVm
  import opened HaltingWalk
  import opened Dfa
  import opened DfaWalk
  import opened Search
  import Agreement
  import Pike
  import PikeVm
  import StrFind

  const SLOTS := 2 * MAX_GROUPS

  /** The engines a search can try a start position with. */
  datatype Runner = OnVm | OnWalker | OnTable

  function EngineOf(run: Runner): Engine {
    if run.OnVm? then Vm else Walker
  }

  /** What re_build_prefilter, re_detect_anchor, re_is_onepass and the table builder leave in a handle. */
  datatype Plan = Plan(prog: seq<Instr>, flags: Flags, nGroups: nat, pre: Prefilter, mode: int,
                       onepass: bool, table: seq<SplitInfo>, dfaEligible: bool)
  {
    function NSlots(): nat { 2 * (nGroups + 1) }

    function On(text: seq<Byte>): Machine { Machine(prog, flags, NSlots(), text) }
  }

  /** The program comes from the compiler, and the engines its flags license terminate and are faithful on it. */
  ghost predicate Sane(prog: seq<Instr>, flags: Flags, nGroups: nat) {
    && Framed(Machine(prog, flags, 2, [])) && OneOpening(prog) && SlotsFit(prog, 2 * (nGroups + 1))
    && nGroups < MAX_GROUPS && |prog| <= MAX_INSTRS
    && (OnePass(prog, flags) ==> !Loops(prog, flags))
    && (Eligible(prog, flags) ==> TableHalts(prog, flags) && WellFormed(Freed(prog)) && NeverReturns(prog, flags))
  }

  ghost predicate Planned(p: Plan) {
    && Sane(p.prog, p.flags, p.nGroups)
    && PrefilterOk(p.prog, p.flags, p.pre) && p.mode == AnchorMode(p.prog, p.flags)
    && (p.onepass <==> OnePass(p.prog, p.flags))
    && (p.onepass ==> TableOk(p.prog, p.flags, p.table))
    && (p.dfaEligible <==> Eligible(p.prog, p.flags))
  }

  /** A text this handle may be run on with this engine. */
  lemma {:induction false} PlanRuns(p: Plan, text: seq<Byte>)
    requires Planned(p)
    ensures var m := p.On(text);
      && WellFormed(m.prog) && |m.prog| > 2 && Framed(m) && SlotsFit(m.prog, m.nslots)
      && (p.onepass ==> NoWordTests(m.prog) && OnePass(m.prog, m.flags) && !Loops(m.prog, m.flags))
      && (p.dfaEligible ==> p.onepass && TableHalts(m.prog, m.flags) && !m.flags.multiline)
  {
  }

  /** The two group-0 slots of a walk are the span the table reads. */
  lemma {:induction false} TableIsWalk(p: Plan, text: seq<Byte>, s: nat)
    requires Planned(p) && p.dfaEligible && s <= |text| && (LooksBack(p.prog[1]) ==> s == 0)
    ensures var m := p.On(text);
      && Framed(m) && WellFormed(m.prog)
      && Reads(m, 0, s).Some? == Attempt(m, Walker, s).Some?
      && (Reads(m, 0, s).Some? ==>
            var c := Captures(m, Attempt(m, Walker, s).value);
            |c| == p.NSlots() && c[0] == s && c[1] == Reads(m, 0, s).value)
  {
    PlanRuns(p, text);
    var m := p.On(text);
    assert DfaWalkable(p.prog, p.flags, p.NSlots());
    assert NeverReturns(p.prog, p.flags) && OneOpening(m.prog);
    hide Planned, Framed, TableHalts, WalkTo, Reads, NeverReturns, DfaWalkable, WellFormed, OneOpening, Captures;
    FaithfulEverywhere(p.prog, p.flags, p.NSlots(), text);
    var w := WalkTo(m, s);
    if w.Some? {
      FrameCloses(m, w.value);
      Opens(m, w.value);
      GroupZeroStarts(m, w.value);
    }
  }

  /** Where the walk from s comes to an end, and what the walker answers there. */
  lemma {:induction false} WalkStops(m: Machine, s: nat) returns (end: Path)
    requires WellFormed(m.prog) && !Loops(m.prog, m.flags) && s <= |m.text|
    ensures Halts(m, s, end) && end != [] && Last(end).pc < |m.prog|
    ensures WalkTo(m, s) == if m.prog[Last(end).pc].Match? then Some(end) else None
  {
    hide WellFormed, Loops, Halts, WalkTo;
    HaltsExactly(m.prog, m.flags, m.nslots);
    assert m == Machine(m.prog, m.flags, m.nslots, m.text) && Ends(m, s);
    end :| Halts(m, s, end);
    WalkToIs(m, s, end);
  }

  lemma {:induction false} EmptyTableSound(prog: seq<Instr>, flags: Flags, trans: seq<int>)
    requires WellFormed(prog)
    requires |trans| == |prog| * ROW && forall k :: 0 <= k < |trans| ==> trans[k] == UNFILLED
    ensures TableSound(prog, flags, trans)
  {
    hide WellFormed, StepOf, Cell;
    forall s: nat, b: Byte | s < |prog| ensures CellOk(prog, flags, trans, s, b) {
      CellsApart(s, b, |prog|);
    }
  }

  /** What a search leaves in the 34 slots: captures (group 0 alone from the table), or all unset. */
  ghost predicate Committed(p: Plan, run: Runner, was: seq<int>, now: seq<int>, found: Option<seq<int>>) {
    && |was| == |now| == SLOTS && p.NSlots() <= SLOTS
    && (found.None? ==> now == Unset(SLOTS))
    && (found.Some? ==> |found.value| == p.NSlots())
    && (found.Some? && !run.OnTable? ==> now == found.value + was[p.NSlots()..])
    && (found.Some? && run.OnTable? ==> now == Unset(SLOTS)[0 := found.value[0]][1 := found.value[1]])
  }

  /** The slots one attempt reports: all of them, or from the table only group 0. */
  ghost predicate Reported(p: Plan, run: Runner, ms: seq<int>, captures: seq<int>) {
    && |ms| == |captures| == p.NSlots() && ms[0] == captures[0] && ms[1] == captures[1]
    && (!run.OnTable? ==> ms == captures)
  }

  ghost function Found(m: Machine, w: Option<Path>): (r: Option<seq<int>>)
    requires w.Some? ==> forall i :: 0 <= i < |w.value| ==> w.value[i].pc < |m.prog|
    ensures r.Some? == w.Some?
  {
    if w.Some? then Some(Captures(m, w.value)) else None
  }

  class Handle {
    const plan: Plan
    const saved: array<int>
    const trans: array<int>
    var dfaOnlyValid: bool
    var dfaOnlyText: seq<Byte>
    var dfaOnlyStart: nat
    ghost var execs: nat
    ghost var refills: nat

    ghost predicate Valid()
      reads this, saved, trans
    {
      && Planned(plan) && saved.Length == SLOTS && saved != trans
      && (plan.dfaEligible ==> TableSound(plan.prog, plan.flags, trans[..]))
    }

    /** The end of __ls_regex_compile: analyses run once, the table starts empty, the slots start zeroed. */
    constructor (prog: seq<Instr>, flags: Flags, nGroups: nat)
      requires Sane(prog, flags, nGroups)
      ensures Good() && plan.prog == prog && plan.flags == flags && plan.nGroups == nGroups
      ensures View() == seq(plan.NSlots(), _ => 0) && execs == refills == 0
      ensures fresh(saved) && fresh(trans) && saved.Length == 34 && (plan.dfaEligible ==> trans.Length == |prog| * 256)
    {
      var pre := BuildPrefilter(prog, flags);
      var mode := DetectAnchor(prog, flags);
      var onepass := IsOnePass(prog, flags);
      var table: seq<SplitInfo> := [];
      if onepass {
        table := BuildTables(prog, flags);
      }
      var eligible := CheckEligible(prog, flags, onepass);
      plan := Plan(prog, flags, nGroups, pre, mode, onepass, table, eligible);
      saved := new int[SLOTS](_ => 0);
      trans := new int[if eligible then |prog| * ROW else 0](_ => UNFILLED);
      dfaOnlyValid, dfaOnlyText, dfaOnlyStart := false, [], 0;
      execs, refills := 0, 0;
      new;
      if eligible {
        EmptyTableSound(prog, flags, trans[..]);
      }
    }

    /** One start position with one engine. */
    method TryAt(m: Machine, run: Runner, s: nat, bufA: PikeVm.ThreadList, bufB: PikeVm.ThreadList, vis: PikeVm.Visited)
      returns (ok: bool, ms: seq<int>)
      requires Valid() && m == plan.On(m.text) && s <= |m.text|
      requires run.OnWalker? ==> plan.onepass
      requires run.OnTable? ==> plan.dfaEligible && (LooksBack(plan.prog[1]) ==> s == 0)
      requires bufA.Valid() && bufB.Valid() && vis.Valid(|m.prog|) && bufA != bufB && bufA.threads != bufB.threads
      modifies bufA, bufA.threads, bufB, bufB.threads, vis, vis.gen, trans
      ensures Valid() && bufA.Valid() && bufB.Valid() && vis.Valid(|m.prog|)
      ensures Framed(m)
      ensures ok == Attempt(m, EngineOf(run), s).Some?
      ensures
        var found := Found(m, Attempt(m, EngineOf(run), s));
        found.Some? ==> Reported(plan, run, ms, found.value)
    {
      PlanRuns(plan, m.text);
      match run {
        case OnVm =>
          ok, ms := PikeVm.ExecRange(m, s, bufA, bufB, vis, Unset(m.nslots));
        case OnWalker =>
          var slots := new int[m.nslots];
          ghost var end := WalkStops(m, s);
          ok := ExecOnePass(m, plan.table, end, s, slots);
          ms := slots[..];
        case OnTable =>
          TableIsWalk(plan, m.text, s);
          var from, to;
          ok, from, to := Dfa.ExecDfa(m, plan.table, trans, s);
          ms := Unset(m.nslots)[0 := from][1 := to];
      }
    }
  
    /** No match: clear every slot. */
    method ClearSaved()
      requires Valid()
      modifies saved
      ensures Valid() && saved[..] == Unset(SLOTS)
    {
      var k := 0;
      while k < SLOTS
        invariant 0 <= k <= SLOTS && forall j :: 0 <= j < k ==> saved[j] == -1
      {
        saved[k] := -1;
        k := k + 1;
      }
    }

    /** A match: copy the slots this pattern uses, or from the table set group 0 and clear the rest. */
    method Commit(run: Runner, ms: seq<int>, ghost captures: seq<int>)
      requires Valid() && Reported(plan, run, ms, captures)
      modifies saved
      ensures Valid() && Committed(plan, run, old(saved[..]), saved[..], Some(captures))
    {
      if run.OnTable? {
        ClearSaved();
        saved[0] := ms[0];
        saved[1] := ms[1];
      } else {
        var k := 0;
        while k < |ms|
          invariant 0 <= k <= |ms| && (forall j :: 0 <= j < k ==> saved[j] == ms[j])
          invariant forall j :: k <= j < SLOTS ==> saved[j] == old(saved[j])
        {
          saved[k] := ms[k];
          k := k + 1;
        }
        assert saved[..] == ms + old(saved[..])[|ms|..];
      }
    }

    /** The next line start, or the end of the text. */
    method SkipToLineStart(m: Machine, from: nat) returns (s: nat)
      requires Framed(m) && AnchorMode(m.prog, m.flags) == 2 && 0 < from <= |m.text|
      ensures from <= s <= |m.text| && DeadRange(m, from, s)
      ensures (s < |m.text| ==> m.text[s - 1] == 10) && forall k :: from - 1 <= k < s - 1 ==> m.text[k] != 10
    {
      s := from;
      while s < |m.text| && m.text[s - 1] != NEWLINE
        invariant from <= s <= |m.text| && forall k: nat :: from <= k < s ==> CannotOpen(m, k)
        invariant forall k :: from - 1 <= k < s - 1 ==> m.text[k] != 10
      {
        s := s + 1;
      }
      AnchoredDeadRange(m, from, s);
    }

    /** What a search from start finds: the naive search's captures. */
    ghost function FoundFrom(run: Runner, text: seq<Byte>, start: nat): (r: Option<seq<int>>)
      requires Framed(plan.On(text))
    {
      Found(plan.On(text), FirstHit(plan.On(text), EngineOf(run), start))
    }

    lemma {:induction false} FoundSteps(run: Runner, text: seq<Byte>, s: nat)
      requires Framed(plan.On(text))
      ensures s > |text| ==> FoundFrom(run, text, s).None?
      ensures s <= |text| ==>
        var a := Found(plan.On(text), Attempt(plan.On(text), EngineOf(run), s));
        FoundFrom(run, text, s) == if a.Some? then a else FoundFrom(run, text, s + 1)
    {
    }

    lemma {:induction false} FoundSkips(run: Runner, text: seq<Byte>, from: nat, to: nat)
      requires Framed(plan.On(text)) && from <= to && DeadRange(plan.On(text), from, to)
      ensures FoundFrom(run, text, from) == FoundFrom(run, text, to)
    {
      SkipDead(plan.On(text), EngineOf(run), from, to);
    }

    ghost predicate Ready(run: Runner, text: seq<Byte>, start: nat)
      reads this, saved, trans
    {
      Valid() && start <= |text| && (run.OnWalker? ==> plan.onepass) && (run.OnTable? ==> plan.dfaEligible)
    }

    lemma {:induction false} ReadyRuns(run: Runner, text: seq<Byte>, start: nat)
      requires Ready(run, text, start)
      ensures Valid() && start <= |text| && saved != trans && saved.Length == SLOTS
      ensures Framed(plan.On(text)) && WellFormed(plan.prog) && |plan.prog| > 2
      ensures plan.mode == AnchorMode(plan.prog, plan.flags) && PrefilterOk(plan.prog, plan.flags, plan.pre)
      ensures |plan.prog| <= MAX_INSTRS && plan.NSlots() <= SLOTS
      ensures (run.OnWalker? ==> plan.onepass) && (run.OnTable? ==> plan.dfaEligible)
      ensures plan.mode == 0 || plan.mode == 1 || plan.mode == 2
      ensures run.OnTable? && LooksBack(plan.prog[1]) ==> plan.mode == 1
    {
      PlanRuns(plan, text);
    }

    /** Anchored to the start of the text: one attempt at most. */
    method SearchAtStart(run: Runner, text: seq<Byte>, start: nat) returns (ok: bool)
      requires Ready(run, text, start) && plan.mode == 1
      modifies saved, trans
      ensures Valid() && Framed(plan.On(text))
      ensures ok == FoundFrom(run, text, start).Some?
      ensures Committed(plan, run, old(saved[..]), saved[..], FoundFrom(run, text, start))
    {
      hide Valid, Ready, Framed, WellFormed, Attempt, FoundFrom, DeadRange, Reported, AnchorMode, Found, PrefilterOk;
      ReadyRuns(run, text, start);
      var m := plan.On(text);
      FoundSteps(run, text, |text| + 1);
      if start > 0 {
        CannotOpenRange(m, start);
        FoundSkips(run, text, start, |text| + 1);
        ClearSaved();
        return false;
      }
      var bufA := new PikeVm.ThreadList();
      var bufB := new PikeVm.ThreadList();
      var vis := new PikeVm.Visited(|m.prog|);
      var ms;
      ok, ms := TryAt(m, run, 0, bufA, bufB, vis);
      FoundSteps(run, text, 0);
      if ok {
        Commit(run, ms, FoundFrom(run, text, 0).value);
        return true;
      }
      CannotOpenRange(m, 1);
      FoundSkips(run, text, 1, |text| + 1);
      ClearSaved();
      return false;
    }

    /** Anchored to line starts: only those, and the end of the text, are tried. */
    method SearchLineStarts(run: Runner, text: seq<Byte>, start: nat) returns (ok: bool)
      requires Ready(run, text, start) && plan.mode == 2
      modifies saved, trans
      ensures Valid() && Framed(plan.On(text))
      ensures ok == FoundFrom(run, text, start).Some?
      ensures Committed(plan, run, old(saved[..]), saved[..], FoundFrom(run, text, start))
    {
      hide Valid, Ready, Framed, WellFormed, Attempt, FoundFrom, DeadRange, Reported, AnchorMode, Found, PrefilterOk;
      ReadyRuns(run, text, start);
      var m := plan.On(text);
      FoundSteps(run, text, |text| + 1);
      var bufA := new PikeVm.ThreadList();
      var bufB := new PikeVm.ThreadList();
      var vis := new PikeVm.Visited(|m.prog|);
      var ms;
      var s := start;
      if s != 0 {
        s := SkipToLineStart(m, s);
        FoundSkips(run, text, start, s);
      }
      while s <= |text|
        invariant start <= s <= |text| && FoundFrom(run, text, start) == FoundFrom(run, text, s)
        invariant Valid() && bufA.Valid() && bufB.Valid() && vis.Valid(|m.prog|) && saved[..] == old(saved[..])
        decreases |text| - s
      {
        ok, ms := TryAt(m, run, s, bufA, bufB, vis);
        FoundSteps(run, text, s);
        if ok {
          Commit(run, ms, FoundFrom(run, text, s).value);
          return true;
        }
        if s >= |text| {
          break;
        }
        var t := SkipToLineStart(m, s + 1);
        FoundSkips(run, text, s + 1, t);
        s := t;
      }
      ClearSaved();
      return false;
    }

    /** Anywhere: from one start position the literal or first-byte tier leaves to the next. */
    method SearchAnywhere(run: Runner, text: seq<Byte>, start: nat) returns (ok: bool)
      requires Ready(run, text, start) && plan.mode == 0
      modifies saved, trans
      ensures Valid() && Framed(plan.On(text))
      ensures ok == FoundFrom(run, text, start).Some?
      ensures Committed(plan, run, old(saved[..]), saved[..], FoundFrom(run, text, start))
    {
      hide Valid, Ready, Framed, WellFormed, Attempt, FoundFrom, DeadRange, Reported, AnchorMode, Found, PrefilterOk;
      ReadyRuns(run, text, start);
      var m := plan.On(text);
      FoundSteps(run, text, |text| + 1);
      var bufA := new PikeVm.ThreadList();
      var bufB := new PikeVm.ThreadList();
      var vis := new PikeVm.Visited(|m.prog|);
      var ms;
      var s := start;
      while s <= |text|
        invariant start <= s <= |text| + 1 && FoundFrom(run, text, start) == FoundFrom(run, text, s)
        invariant Valid() && bufA.Valid() && bufB.Valid() && vis.Valid(|m.prog|) && saved[..] == old(saved[..])
        decreases |text| + 1 - s
      {
        var at := NextStart(m, plan.pre, s);
        if at < 0 {
          FoundSkips(run, text, s, |text| + 1);
          ClearSaved();
          return false;
        }
        FoundSkips(run, text, s, at);
        s := at;
        ok, ms := TryAt(m, run, s, bufA, bufB, vis);
        FoundSteps(run, text, s);
        if ok {
          Commit(run, ms, FoundFrom(run, text, s).value);
          return true;
        }
        s := s + 1;
      }
      ClearSaved();
      return false;
    }

    /** re_exec_vm_general, re_exec_vm_onepass and re_exec_vm_dfa: the same tiers around three engines. */
    method SearchFrom(run: Runner, text: seq<Byte>, start: nat) returns (ok: bool)
      requires Ready(run, text, start)
      modifies saved, trans
      ensures Valid() && Framed(plan.On(text))
      ensures ok == FoundFrom(run, text, start).Some?
      ensures Committed(plan, run, old(saved[..]), saved[..], FoundFrom(run, text, start))
    {
      ReadyRuns(run, text, start);
      if plan.mode == 1 {
        ok := SearchAtStart(run, text, start);
      } else if plan.mode == 2 {
        ok := SearchLineStarts(run, text, start);
      } else {
        ok := SearchAnywhere(run, text, start);
      }
    }

    // ---- answers, captures filled in late ----

    /** The engine an eager exec uses; a whole-literal pattern needs none and answers like the reference. */
    ghost function Answer(text: seq<Byte>, start: nat): (r: Option<seq<int>>)
      requires Planned(plan)
    {
      PlanRuns(plan, text);
      if plan.pre.whole then Found(plan.On(text), FirstHit(plan.On(text), Reference, start))
      else FoundFrom(if plan.onepass then OnWalker else OnVm, text, start)
    }

    /** A pending refill belongs to a table-only answer, whose group 0 is already in place. */
    ghost predicate Good()
      reads this, saved, trans
    {
      && Valid() && refills + (if dfaOnlyValid then 1 else 0) <= execs
      && (dfaOnlyValid ==>
            && plan.dfaEligible && plan.onepass && !plan.pre.whole && dfaOnlyStart <= |dfaOnlyText|
            && Committed(plan, OnTable, saved[..], saved[..], Answer(dfaOnlyText, dfaOnlyStart))
            && Answer(dfaOnlyText, dfaOnlyStart).Some?)
    }

    /** The capture slots a caller sees: what an eager exec would have left. */
    ghost function View(): (v: seq<int>)
      requires Good()
      reads this, saved, trans
    {
      if dfaOnlyValid then Answer(dfaOnlyText, dfaOnlyStart).value else saved[..plan.NSlots()]
    }

    function Count(ok: bool): nat {
      if ok then plan.nGroups + 1 else 0
    }

    ghost predicate Answered(found: Option<seq<int>>, n: nat)
      reads this, saved, trans
    {
      Good() && n == Count(found.Some?) && View() == if found.Some? then found.value else Unset(plan.NSlots())
    }

    lemma {:induction false} AnswerSlots(text: seq<Byte>, start: nat)
      requires Planned(plan)
      ensures Answer(text, start).Some? ==> |Answer(text, start).value| == 2 * (plan.nGroups + 1)
    {
    }

    lemma {:induction false} LiteralAnswer(text: seq<Byte>, start: nat, at: int)
      requires Planned(plan) && plan.pre.whole && start <= |text| && StrFind.Finds(text, plan.pre.lit, start, at)
      ensures 2 <= plan.NSlots() <= SLOTS && at >= -1
      ensures Answer(text, start) == if at == -1 then None else Some(LitSlots(plan.NSlots(), at, at + |plan.pre.lit|))
    {
      hide *;
      LiteralFound(text, start);
      FoundInside(text, plan.pre.lit, start, at);
      WholeSearch(plan.On(text), plan.pre, start, at);
    }

    lemma {:induction false} LiteralFound(text: seq<Byte>, start: nat)
      requires Planned(plan) && plan.pre.whole
      ensures Framed(plan.On(text)) && 2 <= plan.NSlots() <= SLOTS && plan.On(text).text == text
      ensures PrefilterOk(plan.On(text).prog, plan.On(text).flags, plan.pre) && plan.On(text).nslots == plan.NSlots()
      ensures
        var w := FirstHit(plan.On(text), Reference, start);
        Answer(text, start) == if w.Some? then Some(Captures(plan.On(text), w.value)) else None
    {
      PlanRuns(plan, text);
    }

    /** Tier 1: the pattern is a literal and the substring search is the answer. */
    method ExecLiteral(text: seq<Byte>, start: nat) returns (n: nat)
      requires Good() && start <= |text| && plan.pre.whole && !dfaOnlyValid
      modifies saved
      ensures Answered(Answer(text, start), n)
    {
      hide Planned, Answer, LitSlots, TableSound, StrFind.Finds;
      var found := StrFind.Find(text, plan.pre.lit, start);
      var at := found.at;
      LiteralAnswer(text, start, at);
      ClearSaved();
      if at < 0 {
        return 0;
      }
      saved[0] := at;
      saved[1] := at + |plan.pre.lit|;
      LitSlotsFill(plan.NSlots(), at, at + |plan.pre.lit|, saved[..]);
      return plan.nGroups + 1;
    }

    /** __ls_regex_exec: one more than the number of groups, which is half the slots of the answer, or 0. */
    method Exec(text: seq<Byte>, start: nat) returns (n: nat)
      requires Good() && start <= |text|
      modifies this, saved, trans
      ensures Answered(Answer(text, start), n) && !dfaOnlyValid
      ensures Answer(text, start).Some? ==> n == plan.nGroups + 1 && 2 * n == |Answer(text, start).value|
      ensures Answer(text, start).None? ==> n == 0
      ensures execs == old(execs) + 1 && refills == old(refills)
    {
      AnswerSlots(text, start);
      dfaOnlyValid := false;
      execs := execs + 1;
      if plan.pre.whole && !plan.flags.ignoreCase {
        n := ExecLiteral(text, start);
        return;
      }
      var ok := SearchFrom(if plan.onepass then OnWalker else OnVm, text, start);
      return Count(ok);
    }

    lemma {:induction false} AnswerByTable(text: seq<Byte>, start: nat)
      requires Planned(plan) && plan.dfaEligible && !(plan.pre.whole && !plan.flags.ignoreCase)
      ensures Framed(plan.On(text)) && plan.onepass && !plan.pre.whole
      ensures Answer(text, start) == FoundFrom(OnTable, text, start) && Answer(text, start) == FoundFrom(OnWalker, text, start)
      ensures 2 <= plan.NSlots() <= SLOTS
    {
      PlanRuns(plan, text);
    }

    /** __ls_regex_exec_dfa: the same answer, sub-groups not computed yet when the table gave it. */
    method ExecDfa(text: seq<Byte>, start: nat) returns (n: nat)
      requires Good() && start <= |text|
      modifies this, saved, trans
      ensures Answered(Answer(text, start), n)
      ensures Answer(text, start).Some? ==> n == plan.nGroups + 1 && 2 * n == |Answer(text, start).value|
      ensures Answer(text, start).None? ==> n == 0
      ensures execs == old(execs) + 1 && refills == old(refills)
    {
      hide Planned, TableSound, FoundFrom, Answer, Framed;
      AnswerSlots(text, start);
      if plan.pre.whole && !plan.flags.ignoreCase {
        n := Exec(text, start);
        return;
      }
      if !plan.dfaEligible {
        dfaOnlyValid := false;
        n := Exec(text, start);
        return;
      }
      AnswerByTable(text, start);
      execs := execs + 1;
      var ok := SearchFrom(OnTable, text, start);
      n := Count(ok);
      if n > 0 {
        dfaOnlyValid, dfaOnlyText, dfaOnlyStart := true, text, start;
      } else {
        dfaOnlyValid := false;
      }
    }

    /** re_dfa_fill_captures. */
    method FillCaptures()
      requires Good()
      modifies this, saved, trans
      ensures Good() && !dfaOnlyValid && View() == old(View())
      ensures execs == old(execs) && refills == old(refills) + if old(dfaOnlyValid) then 1 else 0
    {
      hide Planned, TableSound, FoundFrom, Answer, Framed;
      if !dfaOnlyValid {
        return;
      }
      AnswerByTable(dfaOnlyText, dfaOnlyStart);
      dfaOnlyValid := false;
      refills := refills + 1;
      var ok := SearchFrom(OnWalker, dfaOnlyText, dfaOnlyStart);
    }

    /** The stored slots of a group are up to date: always for group 0, for the others once nothing is pending. */
    lemma {:induction false} SlotsCurrent(group: nat)
      requires Good() && group <= plan.nGroups && (group == 0 || !dfaOnlyValid)
      ensures 2 * group + 1 < saved.Length && 2 * group + 1 < |View()|
      ensures saved[2 * group] == View()[2 * group] && saved[2 * group + 1] == View()[2 * group + 1]
    {
      hide Planned, TableSound, Answer;
      SlotsThere();
    }

    lemma {:induction false} SlotsThere()
      requires Good()
      ensures saved.Length == SLOTS && plan.nGroups < MAX_GROUPS && |View()| == 2 * (plan.nGroups + 1)
    {
    }

    /** __ls_regex_cap_start. */
    method CapStart(group: int) returns (r: int)
      requires Good()
      modifies this, saved, trans
      ensures Good() && View() == old(View()) && execs == old(execs)
      ensures group < 0 || group >= 17 ==> r == -1
      ensures 0 <= group <= plan.nGroups ==> r == View()[2 * group]
    {
      hide Good, View;
      SlotsThere();
      if group < 0 || group >= MAX_GROUPS {
        return -1;
      }
      if group > 0 {
        FillCaptures();
      }
      SlotsThere();
      if group <= plan.nGroups { SlotsCurrent(group); }
      return saved[group * 2];
    }

    /** __ls_regex_cap_len. */
    method CapLen(group: int) returns (r: int)
      requires Good()
      modifies this, saved, trans
      ensures Good() && View() == old(View()) && execs == old(execs)
      ensures group < 0 || group >= 17 ==> r == -1
      ensures 0 <= group <= plan.nGroups ==>
        r == if View()[2 * group] < 0 || View()[2 * group + 1] < 0 then -1 else View()[2 * group + 1] - View()[2 * group]
    {
      hide Good, View;
      SlotsThere();
      if group < 0 || group >= MAX_GROUPS {
        return -1;
      }
      if group > 0 {
        FillCaptures();
      }
      SlotsThere();
      if group <= plan.nGroups { SlotsCurrent(group); }
      var s, e := saved[group * 2], saved[group * 2 + 1];
      if s < 0 || e < 0 {
        return -1;
      }
      return e - s;
    }
  }

  lemma {:induction false} LitSlotsFill(n: nat, s: nat, e: nat, saved: seq<int>)
    requires 2 <= n <= SLOTS && saved == Unset(SLOTS)[0 := s][1 := e]
    ensures saved[..n] == LitSlots(n, s, e)
  {
  }

  lemma {:induction false} CannotOpenRange(m: Machine, from: nat)
    requires Framed(m) && AnchorMode(m.prog, m.flags) == 1 && from > 0
    ensures DeadRange(m, from, |m.text| + 1)
  {
    AnchoredDeadRange(m, from, |m.text| + 1);
  }

  /** The search engines agree with the reference on a program: few enough threads, or a safe one-pass program. */
  ghost predicate Exact(p: Plan)
    requires WellFormed(p.prog)
  {
    p.pre.whole ||
    if p.onepass then Agreement.Safe(p.prog, p.flags)
    else |Pike.Consumers(p.On([]))| <= 512
  }

  /** Then every exec, eager or lazy, answers with the captures of the leftmost start's first match in priority order. */
  lemma {:induction false} AnswerIsLeftmost(h: Handle, text: seq<Byte>, start: nat)
    requires Planned(h.plan) && Exact(h.plan) && start <= |text|
    ensures Framed(h.plan.On(text))
    ensures h.Answer(text, start) == Found(h.plan.On(text), FirstHit(h.plan.On(text), Reference, start))
  {
    var p, m := h.plan, h.plan.On(text);
    PlanRuns(p, text);
    if p.pre.whole { return; }
    var e := EngineOf(if p.onepass then OnWalker else OnVm);
    if p.onepass { Agreement.SafeEverywhere(m); }
    forall k: nat | start <= k <= |text| ensures Attempt(m, e, k) == Attempt(m, Reference, k) {
      if !p.onepass {
        assert Pike.Consumers(m) == Pike.Consumers(p.On([]));
        Pike.ExecIsFirstMatch(m, k);
      }
    }
    hide Attempt, Planned, Framed, Found;
    SearchesAgree(m, e, Reference, start);
  }

  // ---- any interleaving ----

  datatype Op = Run(text: seq<Byte>, start: nat, lazily: bool) | Start(group: int) | Length(group: int)

  predicate OpOk(p: Plan, op: Op) {
    match op
    case Run(text, start, _) => start <= |text|
    case Start(g) => g <= p.nGroups || g >= MAX_GROUPS
    case Length(g) => g <= p.nGroups || g >= MAX_GROUPS
  }

  /** What the caller of an eager handle is told, from the slots it last left. */
  ghost function Told(h: Handle, view: seq<int>, op: Op): (r: (int, seq<int>))
    requires Planned(h.plan) && |view| == h.plan.NSlots() && OpOk(h.plan, op)
    ensures |r.1| == h.plan.NSlots()
  {
    match op
    case Run(text, start, _) =>
      var a := h.Answer(text, start);
      (h.Count(a.Some?), if a.Some? then a.value else Unset(h.plan.NSlots()))
    case Start(g) => (if 0 <= g <= h.plan.nGroups then view[2 * g] else -1, view)
    case Length(g) =>
      (if 0 <= g <= h.plan.nGroups && view[2 * g] >= 0 && view[2 * g + 1] >= 0 then view[2 * g + 1] - view[2 * g] else -1, view)
  }

  ghost function ToldAll(h: Handle, view: seq<int>, ops: seq<Op>): (r: seq<int>)
    requires Planned(h.plan) && |view| == h.plan.NSlots() && forall k :: 0 <= k < |ops| ==> OpOk(h.plan, ops[k])
  {
    if ops == [] then []
    else
      var n := |ops| - 1;
      ToldAll(h, view, ops[..n]) + [Told(h, ViewAfter(h, view, ops[..n]), ops[n]).0]
  }

  ghost function ViewAfter(h: Handle, view: seq<int>, ops: seq<Op>): (r: seq<int>)
    requires Planned(h.plan) && |view| == h.plan.NSlots() && forall k :: 0 <= k < |ops| ==> OpOk(h.plan, ops[k])
    ensures |r| == h.plan.NSlots()
  {
    if ops == [] then view else Told(h, ViewAfter(h, view, ops[..|ops| - 1]), ops[|ops| - 1]).1
  }

  /** An exec tells one more than the number of groups on a match, and 0 otherwise. */
  ghost predicate CountTold(h: Handle, op: Op, told: int)
    requires Planned(h.plan)
  {
    op.Run? ==>
      var a := h.Answer(op.text, op.start);
      (a.Some? ==> told == h.plan.nGroups + 1 && 2 * told == |a.value|) && (a.None? ==> told == 0)
  }

  /** One call on a handle tells what the eager one would, whichever kind of exec is used. */
  method Call(h: Handle, op: Op) returns (r: int)
    requires h.Good() && OpOk(h.plan, op)
    modifies h, h.saved, h.trans
    ensures h.Good() && (r, h.View()) == Told(h, old(h.View()), op)
    ensures Planned(h.plan) && CountTold(h, op, r)
    ensures h.execs == old(h.execs) + if op.Run? then 1 else 0
  {
    hide Planned, Handle.Good, Handle.View, Handle.Answer;
    match op {
      case Run(text, start, lazily) =>
        if lazily {
          r := h.ExecDfa(text, start);
        } else {
          r := h.Exec(text, start);
        }
      case Start(group) => r := h.CapStart(group);
      case Length(group) => r := h.CapLen(group);
    }
    GoodIs(h);
  }

  /** Over any run of calls, lazily filled handles tell exactly what eager ones do, with at most one refill per exec. */
  method Replay(h: Handle, ops: seq<Op>) returns (told: seq<int>)
    requires h.Good() && forall k :: 0 <= k < |ops| ==> OpOk(h.plan, ops[k])
    modifies h, h.saved, h.trans
    ensures h.Good() && told == ToldAll(h, old(h.View()), ops) && h.View() == ViewAfter(h, old(h.View()), ops)
    ensures h.refills <= h.execs
    ensures |told| == |ops| && forall k :: 0 <= k < |ops| ==> CountTold(h, ops[k], told[k])
  {
    hide Told, ToldAll, ViewAfter, CountTold, Planned, Handle.Good, Handle.View, OpOk;
    told := [];
    var k := 0;
    GoodIs(h);
    ghost var first := h.View();
    assert ops[..0] == [];
    ToldNone(h, first);
    while k < |ops|
      invariant 0 <= k <= |ops| && h.Good() && Planned(h.plan) && |first| == h.plan.NSlots()
      invariant |told| == k && forall j :: 0 <= j < k ==> CountTold(h, ops[j], told[j])
      invariant told == ToldAll(h, first, ops[..k]) && h.View() == ViewAfter(h, first, ops[..k]) && h.refills <= h.execs
    {
      ToldMore(h, first, ops, k);
      var r := Call(h, ops[k]);
      told := told + [r];
      k := k + 1;
      GoodIs(h);
    }
    assert ops[..|ops|] == ops;
  }

  lemma {:induction false} GoodIs(h: Handle)
    requires h.Good()
    ensures Planned(h.plan) && |h.View()| == h.plan.NSlots() && h.refills <= h.execs
  {
  }

  lemma {:induction false} ToldNone(h: Handle, view: seq<int>)
    requires Planned(h.plan) && |view| == h.plan.NSlots()
    ensures ToldAll(h, view, []) == [] && ViewAfter(h, view, []) == view
  {
  }

  lemma {:induction false} ToldMore(h: Handle, view: seq<int>, ops: seq<Op>, k: nat)
    requires Planned(h.plan) && |view| == h.plan.NSlots() && k < |ops| && forall k :: 0 <= k < |ops| ==> OpOk(h.plan, ops[k])
    ensures
      var was := ViewAfter(h, view, ops[..k]);
      && ToldAll(h, view, ops[..k + 1]) == ToldAll(h, view, ops[..k]) + [Told(h, was, ops[k]).0]
      && ViewAfter(h, view, ops[..k + 1]) == Told(h, was, ops[k]).1
  {
    hide Told, Planned;
    assert ops[..k + 1][..k] == ops[..k];
  }
}
