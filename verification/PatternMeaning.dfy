/** A whole compiled pattern: its accepting runs are its parses, in the same order of preference, and the VM answers with the preferred one. */
module PatternMeaning {
  import opened Basics
  import opened Machine
  import opened Regex
  import opened ParseTree
  import opened CodeMeaning
  import opened ParseRuns
  import opened Preference
  import opened Backtracking
  import opened Pike

  /** m runs the compiled form of e. */
  ghost predicate CompiledFrom(m: Machine, e: Regex) {
    Parsed(e) && m.prog == Program(e) && m.nslots >= 2
  }

  lemma {:induction false} ProgramFramed(m: Machine, e: Regex)
    requires CompiledFrom(m, e)
    ensures Framed(m) && WellFormed(m.prog) && Holds(m, 1, Code(e, 1)) && Parsed(e)
    ensures |m.prog| == Len(e) + 3 && m.prog[0] == Save(0)
    ensures m.prog[Len(e) + 1] == Save(1) && m.prog[Len(e) + 2] == Match
  {
    hide *;
    ProgramIs(m, e);
    CodeContained(e, 1, 1, 1 + Len(e));
    FramedByContained(m, Code(e, 1));
  }

  /** Compiled programs are well formed. */
  lemma {:induction false} ProgramIsWell(e: Regex)
    requires Parsed(e)
    ensures WellFormed(Program(e))
  {
    hide Program, Parsed;
    var m := Machine(Program(e), Flags(false, false, false), 2, []);
    assert CompiledFrom(m, e);
    ProgramFramed(m, e);
  }

  lemma {:induction false} ProgramIs(m: Machine, e: Regex)
    requires CompiledFrom(m, e)
    ensures Parsed(e) && m.nslots >= 2 && m.prog == [Save(0)] + Code(e, 1) + [Save(1), Match]
  {
    hide Code, Parsed, Len;
  }

  lemma {:induction false} FramedByContained(m: Machine, c: seq<Instr>)
    requires m.nslots >= 2 && m.prog == [Save(0)] + c + [Save(1), Match] && Contained(c, 1, 1 + |c|)
    ensures Framed(m) && WellFormed(m.prog) && Holds(m, 1, c) && |m.prog| == |c| + 3
    ensures m.prog[0] == Save(0) && m.prog[|c| + 1] == Save(1) && m.prog[|c| + 2] == Match
  {
    assert m.prog[1..1 + |c|] == c;
    forall k | 0 <= k < |m.prog|
      ensures TargetsIn(m.prog[k], 1, 1 + |c|) && (m.prog[k].Match? ==> k == |m.prog| - 1)
    {
      if 1 <= k <= |c| { assert m.prog[k] == c[k - 1]; }
    }
  }

  ghost function Enter(m: Machine, start: nat): State {
    State(start, Unset(m.nslots))
  }

  /** The state the pattern is entered in: slot 0 saved. */
  ghost function Opened(m: Machine, start: nat): State {
    Put(Enter(m, start), 0)
  }

  /** tree is a parse of the pattern at start that ends in t. */
  ghost predicate IsParse(m: Machine, e: Regex, start: nat, tree: Tree, t: State) {
    Yield(m.flags, m.text, e, Opened(m, start), tree) == Some(t)
  }

  /** The run of a parse. */
  ghost function PathOf(m: Machine, e: Regex, start: nat, tree: Tree, t: State): (p: Path)
    ensures |p| > 0 && p[0] == Config(0, start) && Last(p).pos == t.pos
  {
    [Config(0, start)] + Trail(m, e, 1, Opened(m, start), tree) + [Config(1 + Len(e), t.pos)] + [Config(2 + Len(e), t.pos)]
  }

  /** The captures of a match that ends in state t. */
  ghost function Outcome(t: State): seq<int> {
    Put(t, 1).saved
  }

  // ---- paths and runs ----

  lemma {:induction false} PathInRange(m: Machine, p: Path)
    requires WellFormed(m.prog) && IsPath(m, p)
    ensures |p| > 0 && forall i :: 0 <= i < |p| ==> p[i].pc < |m.prog|
  {
  }

  lemma {:induction false} LastStep(m: Machine, p: Path)
    requires WellFormed(m.prog) && IsPath(m, p) && |p| > 1
    ensures var q := p[..|p| - 1];
      && IsPath(m, q) && |q| > 0 && (forall i :: 0 <= i < |p| ==> p[i].pc < |m.prog|) && q[0] == p[0] && Last(q).pc < |m.prog|
      && Steps(m, Last(q).pc, State(Last(q).pos, Captures(m, q)), Last(p).pc, State(Last(p).pos, Captures(m, p)))
  {
    SubPath(m, p, 0, |p| - 1);
    assert p[0..|p| - 1] == p[..|p| - 1];
    assert p[|p| - 1] in Succ(m, p[|p| - 2]);
    hide Succ;
  }

  /** A path is a run, and the run carries the captures of the path. */
  lemma {:induction false} PathRuns(m: Machine, p: Path)
    requires WellFormed(m.prog) && IsPath(m, p)
    ensures |p| > 0 && forall i :: 0 <= i < |p| ==> p[i].pc < |m.prog|
    ensures Runs(m, 0, |m.prog|, p[..|p| - 1], p[0].pc, Enter(m, p[0].pos), Last(p).pc, State(Last(p).pos, Captures(m, p)))
    decreases |p|
  {
    PathInRange(m, p);
    if |p| == 1 {
      EnterIs(m, p);
      hide *;
      RunsNowhere(m, 0, |m.prog|, p[0].pc, Enter(m, p[0].pos));
      assert p[..0] == [];
    } else {
      hide *;
      var q := p[..|p| - 1];
      LastStep(m, p);
      PathRuns(m, q);
      var s, t := State(Last(q).pos, Captures(m, q)), State(Last(p).pos, Captures(m, p));
      LastOf(q);
      RunsNowhere(m, 0, |m.prog|, Last(p).pc, t);
      RunsCons(m, 0, |m.prog|, Last(q).pc, s, Last(p).pc, t, [], Last(p).pc, t);
      RunsJoin(m, 0, |m.prog|, q[..|q| - 1], p[0].pc, Enter(m, p[0].pos), Last(q).pc, s, [Config(Last(q).pc, s.pos)] + [], Last(p).pc, t);
      NoMore([Config(Last(q).pc, s.pos)]);
      LastOf(p);
    }
  }

  lemma {:induction false} LastOf(p: Path)
    requires |p| > 0
    ensures Last(p) == p[|p| - 1] && p == p[..|p| - 1] + [Config(Last(p).pc, Last(p).pos)]
  {
  }

  lemma {:induction false} EnterIs(m: Machine, p: Path)
    requires |p| == 1 && p[0].pc < |m.prog|
    ensures Last(p) == p[0] && Enter(m, p[0].pos) == State(Last(p).pos, Captures(m, p))
  {
  }

  lemma {:induction false} StepExtends(m: Machine, p: Path, pc: nat, s: State)
    requires WellFormed(m.prog) && IsPath(m, p) && Steps(m, Last(p).pc, State(Last(p).pos, Captures(m, p)), pc, s)
    ensures var q := p + [Config(pc, s.pos)]; IsPath(m, q) && Last(q) == Config(pc, s.pos)
    ensures forall i :: 0 <= i < |p| + 1 ==> (p + [Config(pc, s.pos)])[i].pc < |m.prog|
    ensures s == State(s.pos, Captures(m, p + [Config(pc, s.pos)]))
  {
    hide Captures;
    ExtendPath(m, p, Config(pc, s.pos));
  }

  /** A run can be walked as a path, going on from any path that has reached its start. */
  lemma {:induction false} RunsPath(m: Machine, tr: Path, p: Path, pc: nat, t: State)
    requires WellFormed(m.prog) && IsPath(m, p)
    requires Runs(m, 0, |m.prog|, tr, Last(p).pc, State(Last(p).pos, Captures(m, p)), pc, t)
    ensures var q := p + (tr + [Config(pc, t.pos)])[1..];
      IsPath(m, q) && (forall i :: 0 <= i < |q| ==> q[i].pc < |m.prog|) && Captures(m, q) == t.saved
    decreases |tr|
  {
    hide WellFormed, Captures, IsPath, Steps;
    PathInRange(m, p);
    var end := Config(pc, t.pos);
    if tr == [] {
      assert p + (tr + [end])[1..] == p;
    } else {
      var pc1: nat, s1 :| Steps(m, Last(p).pc, State(Last(p).pos, Captures(m, p)), pc1, s1)
        && Runs(m, 0, |m.prog|, tr[1..], pc1, s1, pc, t);
      StepExtends(m, p, pc1, s1);
      var next := p + [Config(pc1, s1.pos)];
      RunsPath(m, tr[1..], next, pc, t);
      assert (tr + [end])[1..] == tr[1..] + [end];
      assert (tr[1..] + [end])[0] == Config(pc1, s1.pos);
      assert next + (tr[1..] + [end])[1..] == p + (tr[1..] + [end]);
    }
  }

  // ---- runs are parses ----

  lemma {:induction false} AtMatch(m: Machine, tr: Path, s: State, t: State)
    requires WellFormed(m.prog) && Runs(m, 0, |m.prog|, tr, |m.prog| - 1, s, |m.prog| - 1, t)
    ensures tr == [] && s == t
  {
  }

  lemma {:induction false} RunIsParse(m: Machine, e: Regex, start: nat, tr: Path, end: State) returns (tree: Tree, t: State)
    requires CompiledFrom(m, e) && WellFormed(m.prog)
    requires Runs(m, 0, |m.prog|, tr, 0, Enter(m, start), |m.prog| - 1, end)
    ensures Spells(m, e, 1, Put(Enter(m, start), 0), tree, t, Trail(m, e, 1, Put(Enter(m, start), 0), tree)) && end == Put(t, 1)
    ensures tr == [Config(0, Enter(m, start).pos)] + Trail(m, e, 1, Put(Enter(m, start), 0), tree) + [Config(1 + Len(e), t.pos)]
  {
    hide *;
    ProgramFramed(m, e);
    var s, hi, last := Enter(m, start), |m.prog|, |m.prog| - 1;
    var pc1, s1, rest := FirstStep(m, 0, hi, tr, 0, s, last, end);
    StepIs(m, 0, s, pc1, s1);
    var a, z;
    tree, a, t, z := Through(m, e, 1, 0, hi, rest, s1, last, end);
    var pc2, s2, rest2 := FirstStep(m, 0, hi, z, 1 + Len(e), t, last, end);
    StepIs(m, 1 + Len(e), t, pc2, s2);
    AtMatch(m, rest2, s2, end);
    SpelledTrail(m, e, 1, s1, tree, t, a);
    Joined(Config(0, s.pos), a, Config(1 + Len(e), t.pos), []);
    NoMore([Config(0, s.pos)] + a + [Config(1 + Len(e), t.pos)]);
  }

  lemma {:induction false} SpelledTrail(m: Machine, e: Regex, b: nat, s: State, tree: Tree, t: State, tr: Path)
    requires Spells(m, e, b, s, tree, t, tr)
    ensures tr == Trail(m, e, b, s, tree)
  {
  }

  /** Every accepting run is the run of a parse, with its span and all its captures. */
  lemma {:induction false} RunMatchesPattern(m: Machine, e: Regex, start: nat, p: Path) returns (tree: Tree, t: State)
    requires CompiledFrom(m, e) && WellFormed(m.prog) && Accepting(m, p) && p[0] == Config(0, start)
    ensures IsParse(m, e, start, tree, t) && p == PathOf(m, e, start, tree, t)
    ensures Last(p).pos == t.pos && Captures(m, p) == Outcome(t)
  {
    hide *;
    EndsAtMatch(m, p);
    PathRuns(m, p);
    var end := State(Last(p).pos, Captures(m, p));
    tree, t := RunIsParse(m, e, start, p[..|p| - 1], end);
    ParseSpelled(m, e, start, tree, t);
    PathOfIs(m, e, start, tree, t);
    EnterPos(m, start);
    assert p == p[..|p| - 1] + [Last(p)];
    ProgramFramed(m, e);
  }

  lemma {:induction false} EndsAtMatch(m: Machine, p: Path)
    requires WellFormed(m.prog) && Accepting(m, p)
    ensures IsPath(m, p) && |p| > 0 && Last(p) == p[|p| - 1] && Last(p).pc == |m.prog| - 1
    ensures forall i :: 0 <= i < |p| ==> p[i].pc < |m.prog|
  {
  }

  lemma {:induction false} ParseSpelled(m: Machine, e: Regex, start: nat, tree: Tree, t: State)
    requires Spells(m, e, 1, Put(Enter(m, start), 0), tree, t, Trail(m, e, 1, Put(Enter(m, start), 0), tree))
    ensures IsParse(m, e, start, tree, t)
  {
    hide Trail, Yield;
  }

  /** Every parse has a run, with its span and all its captures. */
  lemma {:induction false} PatternMatchRuns(m: Machine, e: Regex, start: nat, tree: Tree, t: State)
    requires CompiledFrom(m, e) && start <= |m.text| && IsParse(m, e, start, tree, t)
    ensures WellFormed(m.prog) && Accepting(m, PathOf(m, e, start, tree, t))
    ensures Captures(m, PathOf(m, e, start, tree, t)) == Outcome(t)
  {
    hide *;
    ProgramFramed(m, e);
    ParseSpells(m, e, start, tree, t);
    var tr := Trail(m, e, 1, Put(Enter(m, start), 0), tree);
    ParseGoes(m, e, start, tree, t, tr);
    GoesPath(m, start, [Config(0, start)] + tr + [Config(1 + Len(e), t.pos)], 2 + Len(e), Put(t, 1));
    PathOfIs(m, e, start, tree, t);
  }

  lemma {:induction false} ParseSpells(m: Machine, e: Regex, start: nat, tree: Tree, t: State)
    requires IsParse(m, e, start, tree, t)
    ensures Spells(m, e, 1, Put(Enter(m, start), 0), tree, t, Trail(m, e, 1, Put(Enter(m, start), 0), tree))
  {
  }

  lemma {:induction false} PathOfIs(m: Machine, e: Regex, start: nat, tree: Tree, t: State)
    ensures PathOf(m, e, start, tree, t) ==
      [Config(0, start)] + Trail(m, e, 1, Put(Enter(m, start), 0), tree) + [Config(1 + Len(e), t.pos)] + [Config(2 + Len(e), t.pos)]
    ensures Outcome(t) == Put(t, 1).saved && Put(t, 1).pos == t.pos
  {
  }

  /** A run to MATCH from the start of the program is an accepting path. */
  lemma {:induction false} GoesPath(m: Machine, start: nat, tr: Path, pc: nat, t: State)
    requires WellFormed(m.prog) && start <= |m.text| && pc < |m.prog| && m.prog[pc].Match?
    requires Goes(m, 0, |m.prog|, tr, 0, Enter(m, start), pc, t) && tr != [] && tr[0] == Config(0, start)
    ensures var q := tr + [Config(pc, t.pos)]; Accepting(m, q) && (forall i :: 0 <= i < |q| ==> q[i].pc < |m.prog|) && Captures(m, q) == t.saved
  {
    assert IsPath(m, Root(start)) && Captures(m, Root(start)) == Unset(m.nslots);
    hide Runs;
    RunsPath(m, tr, Root(start), pc, t);
    assert Root(start) + (tr + [Config(pc, t.pos)])[1..] == tr + [Config(pc, t.pos)];
  }

  lemma {:induction false} ParseGoes(m: Machine, e: Regex, start: nat, tree: Tree, t: State, tr: Path)
    requires CompiledFrom(m, e) && WellFormed(m.prog) && start <= |m.text|
    requires Spells(m, e, 1, Put(Enter(m, start), 0), tree, t, tr)
    ensures Goes(m, 0, |m.prog|, [Config(0, start)] + tr + [Config(1 + Len(e), t.pos)], 0, Enter(m, start), 2 + Len(e), Put(t, 1))
  {
    EnterPos(m, start);
    hide *;
    ProgramFramed(m, e);
    var hi, s0, close := |m.prog|, Enter(m, start), 1 + Len(e);
    GoesStep(m, 0, hi, 0, s0, 1, Put(s0, 0));
    Across(m, e, 1, 0, hi, Put(s0, 0), tree, t, tr);
    GoesOn(m, 0, hi, [Config(0, start)], 0, s0, 1, Put(s0, 0), tr, close, t);
    GoesStep(m, 0, hi, close, t, close + 1, Put(t, 1));
    GoesOn(m, 0, hi, [Config(0, start)] + tr, 0, s0, close, t, [Config(close, t.pos)], close + 1, Put(t, 1));
  }

  lemma {:induction false} EnterPos(m: Machine, start: nat)
    ensures Enter(m, start).pos == start && Put(Enter(m, start), 0).pos == start
  {
  }

  /** The preferred of two parses is the run the machine tries first. */
  lemma {:induction false} PreferredRunsFirst(m: Machine, e: Regex, start: nat, tree: Tree, t: State, tree': Tree, t': State)
    requires CompiledFrom(m, e) && start <= |m.text|
    requires IsParse(m, e, start, tree, t) && IsParse(m, e, start, tree', t') && Prefers(e, tree, tree')
    ensures WellFormed(m.prog) && Before(m, PathOf(m, e, start, tree, t), PathOf(m, e, start, tree', t'))
  {
    EnterPos(m, start);
    hide *;
    ProgramFramed(m, e);
    ParseSpells(m, e, start, tree, t);
    ParseSpells(m, e, start, tree', t');
    PathOfIs(m, e, start, tree, t);
    PathOfIs(m, e, start, tree', t');
    var s := Put(Enter(m, start), 0);
    var tr, tr' := Trail(m, e, 1, s, tree), Trail(m, e, 1, s, tree');
    var d, d' := [Config(1 + Len(e), t.pos)], [Config(1 + Len(e), t'.pos)];
    var z, z' := [Config(2 + Len(e), t.pos)], [Config(2 + Len(e), t'.pos)];
    Preferred(m, e, 1, s, tree, t, tr, tree', t', tr');
    BeforeWithin(m, [Config(0, start)], tr + d, tr' + d', z, z');
    Regroup([Config(0, start)], tr, d, z);
    Regroup([Config(0, start)], tr', d', z');
  }

  /** tree is a parse at start whose run never repeats a configuration, and no such parse is preferred to it. */
  ghost predicate BestParse(m: Machine, e: Regex, start: nat, tree: Tree, t: State) {
    && IsParse(m, e, start, tree, t) && Simple(PathOf(m, e, start, tree, t))
    && forall tree', t' :: IsParse(m, e, start, tree', t') && Simple(PathOf(m, e, start, tree', t')) ==> !Prefers(e, tree', tree)
  }

  /** There is one best parse at most. */
  lemma {:induction false} BestIsUnique(m: Machine, e: Regex, start: nat, tree: Tree, t: State, tree': Tree, t': State)
    requires BestParse(m, e, start, tree, t) && BestParse(m, e, start, tree', t')
    ensures tree == tree' && t == t'
  {
    hide Yield, PathOf, Simple, Prefers;
    PreferenceIsTotal(m.flags, m.text, e, Opened(m, start), tree, tree');
  }

  /** p is the run of that best parse, with its span and captures. */
  ghost predicate BestRun(m: Machine, e: Regex, start: nat, p: Path, tree: Tree, t: State) {
    && BestParse(m, e, start, tree, t) && p == PathOf(m, e, start, tree, t)
    && (forall i :: 0 <= i < |p| ==> p[i].pc < |m.prog|) && Captures(m, p) == Outcome(t)
  }

  /** The right answer at start: nothing when the pattern does not match there, else the run of its best parse. */
  ghost predicate Answers(m: Machine, e: Regex, start: nat, r: Option<Path>) {
    && (r.Some? <==> exists t :: Means(m.flags, m.text, e, Opened(m, start), t))
    && (r.Some? ==> exists tree, t :: BestRun(m, e, start, r.value, tree, t))
  }

  lemma {:induction false} NothingMissed(m: Machine, e: Regex, start: nat, t: State)
    requires CompiledFrom(m, e) && start <= |m.text| && WellFormed(m.prog) && Means(m.flags, m.text, e, Opened(m, start), t)
    ensures FirstMatch(m, start).Some?
  {
    hide Means, Yield, Program, FirstMatch, PathOf, Accepting;
    MeaningIsParsing(m.flags, m.text, e, Opened(m, start), t);
    var tree :| Yield(m.flags, m.text, e, Opened(m, start), tree) == Some(t);
    PatternMatchRuns(m, e, start, tree, t);
    PathStarts(m, e, start, tree, t);
    FirstMatchSpec(m, start, PathOf(m, e, start, tree, t));
  }

  lemma {:induction false} PathStarts(m: Machine, e: Regex, start: nat, tree: Tree, t: State)
    ensures PathOf(m, e, start, tree, t)[0] == Config(0, start)
  {
  }

  /** No parse with a loop-free run is preferred to the one that is found. */
  lemma {:induction false} NothingPreferred(m: Machine, e: Regex, start: nat, tree: Tree, t: State, tree': Tree, t': State)
    requires CompiledFrom(m, e) && start <= |m.text| && WellFormed(m.prog)
    requires FirstMatch(m, start) == Some(PathOf(m, e, start, tree, t)) && IsParse(m, e, start, tree, t)
    requires IsParse(m, e, start, tree', t') && Simple(PathOf(m, e, start, tree', t'))
    ensures !Prefers(e, tree', tree)
  {
    hide *;
    PatternMatchRuns(m, e, start, tree', t');
    PathStarts(m, e, start, tree', t');
    FirstMatchSpec(m, start, PathOf(m, e, start, tree', t'));
    if Prefers(e, tree', tree) {
      PreferredRunsFirst(m, e, start, tree', t', tree, t);
    }
  }

  lemma {:induction false} FoundIsBest(m: Machine, e: Regex, start: nat) returns (tree: Tree, t: State)
    requires CompiledFrom(m, e) && start <= |m.text| && WellFormed(m.prog) && FirstMatch(m, start).Some?
    ensures BestRun(m, e, start, FirstMatch(m, start).value, tree, t) && Means(m.flags, m.text, e, Opened(m, start), t)
  {
    var star := FirstMatch(m, start).value;
    assert Accepting(m, star) && Simple(star) && star[0] == Config(0, start);
    assert forall i :: 0 <= i < |star| ==> star[i].pc < |m.prog|;
    hide Means, Yield, Program, FirstMatch, PathOf, Accepting, Simple, Captures, Outcome, Prefers, WellFormed, IsParse;
    tree, t := RunMatchesPattern(m, e, start, star);
    ParseIsMeaning(m, e, start, tree, t);
    forall tree', t' | IsParse(m, e, start, tree', t') && Simple(PathOf(m, e, start, tree', t')) ensures !Prefers(e, tree', tree) {
      NothingPreferred(m, e, start, tree, t, tree', t');
    }
  }

  lemma {:induction false} ParseIsMeaning(m: Machine, e: Regex, start: nat, tree: Tree, t: State)
    requires IsParse(m, e, start, tree, t)
    ensures Means(m.flags, m.text, e, Opened(m, start), t)
  {
    hide Means, Yield;
    ParseMeans(m.flags, m.text, e, Opened(m, start), tree);
  }

  /** Matching a compiled pattern by backtracking gives the right answer. */
  lemma {:induction false} FirstMatchIsBest(m: Machine, e: Regex, start: nat)
    requires CompiledFrom(m, e) && start <= |m.text| && WellFormed(m.prog)
    ensures Answers(m, e, start, FirstMatch(m, start))
  {
    hide Means, FirstMatch, BestRun, CompiledFrom, WellFormed, Opened;
    if FirstMatch(m, start).Some? {
      var tree, t := FoundIsBest(m, e, start);
    }
    if t :| Means(m.flags, m.text, e, Opened(m, start), t) {
      NothingMissed(m, e, start, t);
    }
  }

  /** And so does the VM. */
  lemma {:induction false} VmMatchesPattern(m: Machine, e: Regex, start: nat)
    requires CompiledFrom(m, e) && start <= |m.text| && WellFormed(m.prog)
    requires |Consumers(m)| <= 512
    ensures Answers(m, e, start, Exec(m, start))
  {
    hide *;
    ExecIsFirstMatch(m, start);
    FirstMatchIsBest(m, e, start);
  }
}
