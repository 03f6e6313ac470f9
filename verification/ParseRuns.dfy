/** Every parse is a run of the compiled code, through exactly the configurations of its trail. */
module ParseRuns {
  import opened Basics
  import opened Machine
  import opened Regex
  import opened ParseTree
  import opened CodeMeaning

  // ---- taking parses apart ----

  lemma {:induction false} OpenGroup(m: Machine, id: nat, e: Regex, b: nat, s: State, tree: Tree, t: State, tr: Path) returns (x: Tree, u: State, a: Path)
    requires Spells(m, Group(id, e), b, s, tree, t, tr)
    ensures tree == Inside(x) && Spells(m, e, b + 1, Put(s, 2 * id), x, u, a) && t == Put(u, 2 * id + 1)
    ensures tr == [Config(b, s.pos)] + a + [Config(b + 1 + Len(e), u.pos)]
  {
    hide Len, Put;
    x := tree.t;
    u := Yield(m.flags, m.text, e, Put(s, 2 * id), x).value;
    a := Trail(m, e, b + 1, Put(s, 2 * id), x);
  }

  lemma {:induction false} OpenCat(m: Machine, f: Regex, g: Regex, b: nat, s: State, tree: Tree, t: State, tr: Path)
    returns (x: Tree, u: State, a: Path, y: Tree, z: Path)
    requires Spells(m, Cat(f, g), b, s, tree, t, tr)
    ensures tree == Both(x, y) && Spells(m, f, b, s, x, u, a) && Spells(m, g, b + Len(f), u, y, t, z) && tr == a + z
  {
    hide Len;
    x, y := tree.l, tree.r;
    u := Yield(m.flags, m.text, f, s, x).value;
    a, z := Trail(m, f, b, s, x), Trail(m, g, b + Len(f), u, y);
  }

  lemma {:induction false} OpenAlt(m: Machine, f: Regex, g: Regex, b: nat, s: State, tree: Tree, t: State, tr: Path) returns (x: Tree, a: Path)
    requires Spells(m, Alt(f, g), b, s, tree, t, tr)
    ensures tree == Pick(tree.Pick? && tree.right, x)
    ensures if tree.right then Spells(m, g, b + 2 + Len(f), s, x, t, a) else Spells(m, f, b + 1, s, x, t, a)
    ensures tr == [Config(b, s.pos)] + a + if tree.right then [] else [Config(b + 1 + Len(f), t.pos)]
  {
    hide Len;
    x := tree.t;
    a := if tree.right then Trail(m, g, b + 2 + Len(f), s, x) else Trail(m, f, b + 1, s, x);
    if tree.right { NoMore([Config(b, s.pos)] + a); }
  }

  lemma {:induction false} OpenOpt(m: Machine, e: Regex, b: nat, s: State, tree: Tree, t: State, tr: Path) returns (a: Path)
    requires SpellsOpt(m, e, b, s, tree, t, tr)
    ensures tree.Skip? || tree.Take?
    ensures tree.Skip? ==> s == t && a == []
    ensures tree.Take? ==> Spells(m, e, b + 1, s, tree.t, t, a)
    ensures tr == [Config(b, s.pos)] + a
  {
    a := if tree.Take? then Trail(m, e, b + 1, s, tree.t) else [];
  }

  lemma {:induction false} OpenStar(m: Machine, e: Regex, b: nat, s: State, tree: Tree, t: State, tr: Path) returns (u: State, a: Path, z: Path)
    requires SpellsStar(m, e, b, s, tree, t, tr)
    ensures tree.Done? || tree.More?
    ensures tree.Done? ==> s == t && tr == [Config(b, s.pos)]
    ensures tree.More? ==>
      && Spells(m, e, b + 1, s, tree.head, u, a) && SpellsStar(m, e, b, u, tree.tail, t, z)
      && tr == [Config(b, s.pos)] + a + [Config(b + 1 + Len(e), u.pos)] + z
  {
    hide Len, Trail, Yield;
    u, a, z := s, [], [];
    if tree.More? {
      u := Yield(m.flags, m.text, e, s, tree.head).value;
      a, z := Trail(m, e, b + 1, s, tree.head), StarTrail(m, e, b, u, tree.tail);
    }
  }

  lemma {:induction false} OpenPlus(m: Machine, e: Regex, b: nat, s: State, tree: Tree, t: State, tr: Path) returns (u: State, a: Path, z: Path)
    requires SpellsPlus(m, e, b, s, tree, t, tr) && tree.More?
    ensures Spells(m, e, b, s, tree.head, u, a) && SpellsPlus(m, e, b, u, tree.tail, t, z)
    ensures tr == a + [Config(b + Len(e), u.pos)] + z
    ensures tree.tail.Done? || tree.tail.More?
    ensures tree.tail.Done? ==> u == t && z == []
  {
    hide Len, Trail, Yield;
    u := Yield(m.flags, m.text, e, s, tree.head).value;
    a, z := Trail(m, e, b, s, tree.head), PlusTrail(m, e, b, u, tree.tail);
  }

  lemma {:induction false} OpenCount(m: Machine, e: Regex, min: nat, extra: Option<nat>, b: nat, s: State, tree: Tree, t: State, tr: Path)
    returns (u: State, a: Path, z: Path)
    requires SpellsCount(m, e, min, extra, b, s, tree, t, tr)
    ensures min > 0 ==>
      && tree.More? && Spells(m, e, b, s, tree.head, u, a)
      && SpellsCount(m, e, min - 1, extra, b + Len(e), u, tree.tail, t, z) && tr == a + z
    ensures min == 0 && extra.None? ==> SpellsStar(m, e, b, s, tree, t, tr)
    ensures min == 0 && extra == Some(0) ==> tree.Done? && s == t && tr == []
    ensures min == 0 && extra.Some? && extra.value > 0 ==>
      && tree.More? && SpellsOpt(m, e, b, s, tree.head, u, a)
      && SpellsCount(m, e, 0, Some(extra.value - 1), b + Len(e) + 1, u, tree.tail, t, z) && tr == a + z
  {
    hide Len, OptTrail, StarTrail, YieldOpt, YieldChain;
    u, a, z := s, [], [];
    if min > 0 {
      u := Yield(m.flags, m.text, e, s, tree.head).value;
      a, z := Trail(m, e, b, s, tree.head), CountTrail(m, e, min - 1, extra, b + Len(e), u, tree.tail);
    } else if extra.Some? && extra.value > 0 {
      u := YieldOpt(m.flags, m.text, e, s, tree.head).value;
      a, z := OptTrail(m, e, b, s, tree.head), CountTrail(m, e, 0, Some(extra.value - 1), b + Len(e) + 1, u, tree.tail);
    }
  }

  lemma {:induction false} OpenQuantified(m: Machine, e: Regex, b: nat, s: State, tree: Tree, t: State, tr: Path)
    requires Spells(m, e, b, s, tree, t, tr)
    ensures e.Opt? ==> SpellsOpt(m, e.e, b, s, tree, t, tr)
    ensures e.Star? ==> SpellsStar(m, e.e, b, s, tree, t, tr)
    ensures e.Plus? ==> SpellsPlus(m, e.e, b, s, tree, t, tr) && tree.More?
    ensures e.Count? ==> SpellsCount(m, e.e, e.min, e.extra, b, s, tree, t, tr)
  {
    hide OptTrail, StarTrail, PlusTrail, CountTrail, YieldOpt, YieldChain, YieldCount;
  }

  // ---- running a parse ----

  /** A run that stays inside the text. */
  ghost predicate Goes(m: Machine, lo: nat, hi: nat, tr: Path, pc: nat, s: State, pc': nat, t: State)
    requires WellFormed(m.prog)
  {
    t.pos <= |m.text| && Runs(m, lo, hi, tr, pc, s, pc', t)
  }

  lemma {:induction false} GoesNowhere(m: Machine, lo: nat, hi: nat, pc: nat, s: State)
    requires WellFormed(m.prog) && s.pos <= |m.text|
    ensures Goes(m, lo, hi, [], pc, s, pc, s)
  {
  }

  lemma {:induction false} GoesOn(m: Machine, lo: nat, hi: nat, tr: Path, pc: nat, s: State, pc1: nat, s1: State, tr2: Path, pc2: nat, s2: State)
    requires WellFormed(m.prog) && Goes(m, lo, hi, tr, pc, s, pc1, s1) && Goes(m, lo, hi, tr2, pc1, s1, pc2, s2)
    ensures Goes(m, lo, hi, tr + tr2, pc, s, pc2, s2)
  {
    hide Runs;
    RunsJoin(m, lo, hi, tr, pc, s, pc1, s1, tr2, pc2, s2);
  }

  lemma {:induction false} GoesWider(m: Machine, lo: nat, hi: nat, tr: Path, pc: nat, s: State, pc': nat, t: State, lo': nat, hi': nat)
    requires WellFormed(m.prog) && Goes(m, lo, hi, tr, pc, s, pc', t) && lo' <= lo && hi <= hi'
    ensures Goes(m, lo', hi', tr, pc, s, pc', t)
  {
    hide Runs;
    RunsWiden(m, lo, hi, tr, pc, s, pc', t, lo', hi');
  }

  /** Taking the step the instruction at pc allows. */
  lemma {:induction false} GoesStep(m: Machine, lo: nat, hi: nat, pc: nat, s: State, pc': nat, s': State)
    requires WellFormed(m.prog) && lo <= pc < hi && pc < |m.prog| && s.pos <= |m.text|
    requires
      var i := m.prog[pc];
      if i.Save? then pc' == pc + 1 && s' == Put(s, i.slot)
      else if i.Jump? then pc' == i.target && s' == s
      else if i.Split? then (pc' == i.a || pc' == i.b) && s' == s
      else (Consuming(i) || Anchor(i)) && pc' == pc + 1 && YieldOp(m.flags, m.text, i, s) == Some(s')
    ensures Goes(m, lo, hi, [Config(pc, s.pos)], pc, s, pc', s')
  {
    StepTo(m, pc, s, pc', s');
    hide WellFormed, Steps;
    RunsNowhere(m, lo, hi, pc', s');
    RunsCons(m, lo, hi, pc, s, pc', s', [], pc', s');
    NoMore([Config(pc, s.pos)]);
  }

  /** From the start of e's code to its end, within a wider range. */
  lemma {:induction false} Across(m: Machine, e: Regex, b: nat, lo: nat, hi: nat, s: State, tree: Tree, t: State, tr: Path)
    requires WellFormed(m.prog) && Parsed(e) && Holds(m, b, Code(e, b)) && s.pos <= |m.text|
    requires lo <= b && b + Len(e) <= hi && Spells(m, e, b, s, tree, t, tr)
    ensures Goes(m, lo, hi, tr, b, s, b + Len(e), t) && t.pos <= |m.text|
    decreases e, 1
  {
    hide *;
    Complete(m, e, b, s, tree, t, tr);
    GoesWider(m, b, b + Len(e), tr, b, s, b + Len(e), t, lo, hi);
  }

  lemma {:induction false} Complete(m: Machine, e: Regex, b: nat, s: State, tree: Tree, t: State, tr: Path)
    requires WellFormed(m.prog) && Parsed(e) && Holds(m, b, Code(e, b)) && s.pos <= |m.text|
    requires Spells(m, e, b, s, tree, t, tr)
    ensures Goes(m, b, b + Len(e), tr, b, s, b + Len(e), t) && t.pos <= |m.text|
    decreases e, 0, 1
  {
    hide *;
    Shape(e, b);
    match e
    case Empty =>
      OpenEmpty(m, b, s, tree, t, tr);
      GoesNowhere(m, b, b, b, s);
    case Op(i) => CompleteOp(m, i, b, s, tree, t, tr);
    case Group(id, f) => CompleteGroup(m, id, f, b, s, tree, t, tr);
    case Cat(f, g) => CompleteCat(m, f, g, b, s, tree, t, tr);
    case Alt(f, g) => CompleteAlt(m, f, g, b, s, tree, t, tr);
    case Opt(f, lazy) =>
      OpenQuantified(m, e, b, s, tree, t, tr);
      CompleteOpt(m, f, lazy, b, s, tree, t, tr);
    case Star(f, lazy) =>
      OpenQuantified(m, e, b, s, tree, t, tr);
      CompleteStar(m, f, lazy, b, s, tree, t, tr);
    case Plus(f, lazy) =>
      OpenQuantified(m, e, b, s, tree, t, tr);
      CompletePlus(m, f, lazy, b, s, tree, t, tr);
    case Count(f, min, extra, lazy) =>
      OpenQuantified(m, e, b, s, tree, t, tr);
      CompleteCount(m, f, min, extra, lazy, b, s, tree, t, tr);
  }

  lemma {:induction false} OpenEmpty(m: Machine, b: nat, s: State, tree: Tree, t: State, tr: Path)
    requires Spells(m, Empty, b, s, tree, t, tr)
    ensures s == t && tr == []
  {
  }

  lemma {:induction false} OpenOp(m: Machine, i: Instr, b: nat, s: State, tree: Tree, t: State, tr: Path)
    requires Spells(m, Op(i), b, s, tree, t, tr)
    ensures YieldOp(m.flags, m.text, i, s) == Some(t) && tr == [Config(b, s.pos)] && (s.pos <= |m.text| ==> t.pos <= |m.text|)
  {
    hide Matches, AnchorOk;
  }

  lemma {:induction false} CompleteOp(m: Machine, i: Instr, b: nat, s: State, tree: Tree, t: State, tr: Path)
    requires WellFormed(m.prog) && Holds(m, b, [i]) && (Consuming(i) || Anchor(i)) && s.pos <= |m.text|
    requires Spells(m, Op(i), b, s, tree, t, tr)
    ensures Goes(m, b, b + 1, tr, b, s, b + 1, t) && t.pos <= |m.text|
  {
    hide WellFormed, Holds, Goes, Spells, YieldOp;
    OpenOp(m, i, b, s, tree, t, tr);
    HoldsAt(m, b, [i], 0);
    GoesStep(m, b, b + 1, b, s, b + 1, t);
  }

  lemma {:induction false} CompleteCat(m: Machine, f: Regex, g: Regex, b: nat, s: State, tree: Tree, t: State, tr: Path)
    requires WellFormed(m.prog) && Parsed(f) && Parsed(g) && Holds(m, b, Code(f, b) + Code(g, b + Len(f))) && s.pos <= |m.text|
    requires Spells(m, Cat(f, g), b, s, tree, t, tr)
    ensures Goes(m, b, b + Len(f) + Len(g), tr, b, s, b + Len(f) + Len(g), t) && t.pos <= |m.text|
    decreases Cat(f, g), 0, 0
  {
    hide *;
    var hi := b + Len(f) + Len(g);
    var x, u, a, y, z := OpenCat(m, f, g, b, s, tree, t, tr);
    HoldsParts(m, b, Code(f, b), Code(g, b + Len(f)));
    Across(m, f, b, b, hi, s, x, u, a);
    Across(m, g, b + Len(f), b, hi, u, y, t, z);
    GoesOn(m, b, hi, a, b, s, b + Len(f), u, z, hi, t);
  }

  lemma {:induction false} CompleteGroup(m: Machine, id: nat, e: Regex, b: nat, s: State, tree: Tree, t: State, tr: Path)
    requires WellFormed(m.prog) && Parsed(e) && Holds(m, b, GroupCode(id, e, b)) && s.pos <= |m.text|
    requires Spells(m, Group(id, e), b, s, tree, t, tr)
    ensures Goes(m, b, b + Len(e) + 2, tr, b, s, b + Len(e) + 2, t) && t.pos <= |m.text|
    decreases e, 2
  {
    hide *;
    var hi := b + Len(e) + 2;
    var x, u, a := OpenGroup(m, id, e, b, s, tree, t, tr);
    GroupParts(m, id, e, b);
    GoesStep(m, b, hi, b, s, b + 1, Put(s, 2 * id));
    Across(m, e, b + 1, b, hi, Put(s, 2 * id), x, u, a);
    GoesOn(m, b, hi, [Config(b, s.pos)], b, s, b + 1, Put(s, 2 * id), a, b + 1 + Len(e), u);
    GoesStep(m, b, hi, b + 1 + Len(e), u, hi, t);
    GoesOn(m, b, hi, [Config(b, s.pos)] + a, b, s, b + 1 + Len(e), u, [Config(b + 1 + Len(e), u.pos)], hi, t);
  }

  lemma {:induction false} CompleteAlt(m: Machine, e: Regex, f: Regex, b: nat, s: State, tree: Tree, t: State, tr: Path)
    requires WellFormed(m.prog) && Parsed(e) && Parsed(f) && Holds(m, b, AltCode(e, f, b)) && s.pos <= |m.text|
    requires Spells(m, Alt(e, f), b, s, tree, t, tr)
    ensures
      var hi := b + Len(e) + Len(f) + 2;
      Goes(m, b, hi, tr, b, s, hi, t) && t.pos <= |m.text|
    decreases Alt(e, f), 0, 0
  {
    hide *;
    var hi := b + Len(e) + Len(f) + 2;
    var other := b + 2 + Len(e);
    AltParts(m, e, f, b);
    var x, a := OpenAlt(m, e, f, b, s, tree, t, tr);
    if tree.right {
      GoesStep(m, b, hi, b, s, other, s);
      Across(m, f, other, b, hi, s, x, t, a);
      GoesOn(m, b, hi, [Config(b, s.pos)], b, s, other, s, a, hi, t);
      NoMore([Config(b, s.pos)] + a);
    } else {
      GoesStep(m, b, hi, b, s, b + 1, s);
      Across(m, e, b + 1, b, hi, s, x, t, a);
      GoesOn(m, b, hi, [Config(b, s.pos)], b, s, b + 1, s, a, b + 1 + Len(e), t);
      GoesStep(m, b, hi, b + 1 + Len(e), t, hi, t);
      GoesOn(m, b, hi, [Config(b, s.pos)] + a, b, s, b + 1 + Len(e), t, [Config(b + 1 + Len(e), t.pos)], hi, t);
    }
  }

  lemma {:induction false} CompleteOpt(m: Machine, e: Regex, lazy: bool, b: nat, s: State, tree: Tree, t: State, tr: Path)
    requires WellFormed(m.prog) && Parsed(e) && Holds(m, b, OptCode(e, lazy, b)) && s.pos <= |m.text|
    requires SpellsOpt(m, e, b, s, tree, t, tr)
    ensures Goes(m, b, b + Len(e) + 1, tr, b, s, b + Len(e) + 1, t) && t.pos <= |m.text|
    decreases e, 2
  {
    hide *;
    var hi := b + Len(e) + 1;
    OptParts(m, e, lazy, b);
    ForkIs(b + 1, hi, lazy);
    var a := OpenOpt(m, e, b, s, tree, t, tr);
    if tree.Take? {
      GoesStep(m, b, hi, b, s, b + 1, s);
      Across(m, e, b + 1, b, hi, s, tree.t, t, a);
      GoesOn(m, b, hi, [Config(b, s.pos)], b, s, b + 1, s, a, hi, t);
    } else {
      GoesStep(m, b, hi, b, s, hi, s);
      NoMore([Config(b, s.pos)]);
    }
  }

  lemma {:induction false} CompleteStar(m: Machine, e: Regex, lazy: bool, b: nat, s: State, tree: Tree, t: State, tr: Path)
    requires WellFormed(m.prog) && Parsed(e) && Holds(m, b, StarCode(e, lazy, b)) && s.pos <= |m.text|
    requires SpellsStar(m, e, b, s, tree, t, tr)
    ensures Goes(m, b, b + Len(e) + 2, tr, b, s, b + Len(e) + 2, t) && t.pos <= |m.text|
    decreases e, 2, tree
  {
    hide *;
    var hi := b + Len(e) + 2;
    StarParts(m, e, lazy, b);
    ForkIs(b + 1, hi, lazy);
    var u, a, z := OpenStar(m, e, b, s, tree, t, tr);
    var c, d := [Config(b, s.pos)], [Config(b + 1 + Len(e), u.pos)];
    if tree.Done? {
      GoesStep(m, b, hi, b, s, hi, s);
    } else {
      GoesStep(m, b, hi, b, s, b + 1, s);
      Across(m, e, b + 1, b, hi, s, tree.head, u, a);
      GoesOn(m, b, hi, c, b, s, b + 1, s, a, b + 1 + Len(e), u);
      GoesStep(m, b, hi, b + 1 + Len(e), u, b, u);
      GoesOn(m, b, hi, c + a, b, s, b + 1 + Len(e), u, d, b, u);
      CompleteStar(m, e, lazy, b, u, tree.tail, t, z);
      GoesOn(m, b, hi, c + a + d, b, s, b, u, z, hi, t);
    }
  }

  lemma {:induction false} CompletePlus(m: Machine, e: Regex, lazy: bool, b: nat, s: State, tree: Tree, t: State, tr: Path)
    requires WellFormed(m.prog) && Parsed(e) && Holds(m, b, PlusCode(e, lazy, b)) && s.pos <= |m.text|
    requires SpellsPlus(m, e, b, s, tree, t, tr) && tree.More?
    ensures Goes(m, b, b + Len(e) + 1, tr, b, s, b + Len(e) + 1, t) && t.pos <= |m.text|
    decreases e, 2, tree
  {
    hide *;
    var hi := b + Len(e) + 1;
    PlusParts(m, e, lazy, b);
    ForkIs(b, hi, lazy);
    var u, a, z := OpenPlus(m, e, b, s, tree, t, tr);
    var d := [Config(b + Len(e), u.pos)];
    Across(m, e, b, b, hi, s, tree.head, u, a);
    if tree.tail.Done? {
      GoesStep(m, b, hi, b + Len(e), u, hi, t);
      GoesOn(m, b, hi, a, b, s, b + Len(e), u, d, hi, t);
      NoMore(a + d);
    } else {
      GoesStep(m, b, hi, b + Len(e), u, b, u);
      GoesOn(m, b, hi, a, b, s, b + Len(e), u, d, b, u);
      CompletePlus(m, e, lazy, b, u, tree.tail, t, z);
      GoesOn(m, b, hi, a + d, b, s, b, u, z, hi, t);
    }
  }

  lemma {:induction false} CompleteCount(m: Machine, e: Regex, min: nat, extra: Option<nat>, lazy: bool, b: nat, s: State, tree: Tree, t: State, tr: Path)
    requires WellFormed(m.prog) && Parsed(e) && Holds(m, b, CountCode(e, min, extra, lazy, b)) && s.pos <= |m.text|
    requires SpellsCount(m, e, min, extra, b, s, tree, t, tr)
    ensures
      var hi := b + CountLen(Len(e), min, extra);
      Goes(m, b, hi, tr, b, s, hi, t) && t.pos <= |m.text|
    decreases e, 3, min, if extra.Some? then extra.value else 0
  {
    hide *;
    var hi := b + CountLen(Len(e), min, extra);
    CountParts(m, e, min, extra, lazy, b);
    CountLenIs(Len(e), min, extra);
    var u, a, z := OpenCount(m, e, min, extra, b, s, tree, t, tr);
    if min > 0 {
      var mid := b + Len(e);
      Across(m, e, b, b, hi, s, tree.head, u, a);
      CompleteCount(m, e, min - 1, extra, lazy, mid, u, tree.tail, t, z);
      GoesWider(m, mid, hi, z, mid, u, hi, t, b, hi);
      GoesOn(m, b, hi, a, b, s, mid, u, z, hi, t);
    } else if extra.None? {
      CompleteStar(m, e, lazy, b, s, tree, t, tr);
    } else if extra.value == 0 {
      GoesNowhere(m, b, hi, b, s);
    } else {
      var mid := b + Len(e) + 1;
      CompleteOpt(m, e, lazy, b, s, tree.head, u, a);
      GoesWider(m, b, mid, a, b, s, mid, u, b, hi);
      CompleteCount(m, e, 0, Some(extra.value - 1), lazy, mid, u, tree.tail, t, z);
      GoesWider(m, mid, hi, z, mid, u, hi, t, b, hi);
      GoesOn(m, b, hi, a, b, s, mid, u, z, hi, t);
    }
  }
}
