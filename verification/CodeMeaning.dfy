/** Running the compiled code of a pattern is parsing with the pattern: every run spells a parse and every parse a run. */
module CodeMeaning {
  import opened Basics
  import opened Machine
  import opened Regex
  import opened ParseTree

  /** One step from pc in state s. */
  ghost predicate Steps(m: Machine, pc: nat, s: State, pc': nat, s': State)
    requires WellFormed(m.prog)
  {
    && InBounds(m, Config(pc, s.pos))
    && Config(pc', s'.pos) in Succ(m, Config(pc, s.pos))
    && s'.saved == Store(m.prog, Config(pc, s.pos), s.saved)
  }

  /** A run through the configurations of tr, all with a pc in lo..hi-1, to pc' in state s'. */
  ghost predicate Runs(m: Machine, lo: nat, hi: nat, tr: Path, pc: nat, s: State, pc': nat, s': State)
    requires WellFormed(m.prog)
    decreases |tr|
  {
    if tr == [] then pc == pc' && s == s'
    else
      && tr[0] == Config(pc, s.pos) && lo <= pc < hi
      && exists pc1: nat, s1 :: Steps(m, pc, s, pc1, s1) && Runs(m, lo, hi, tr[1..], pc1, s1, pc', s')
  }

  /** c sits in the program at base, with something after it. */
  ghost predicate Holds(m: Machine, base: nat, c: seq<Instr>) {
    base + |c| < |m.prog| && m.prog[base..base + |c|] == c
  }

  lemma {:induction false} HoldsAt(m: Machine, base: nat, c: seq<Instr>, k: nat)
    requires Holds(m, base, c) && k < |c|
    ensures base + k < |m.prog| && m.prog[base + k] == c[k]
  {
    assert m.prog[base..base + |c|][k] == c[k];
  }

  lemma {:induction false} HoldsParts(m: Machine, base: nat, c: seq<Instr>, d: seq<Instr>)
    requires Holds(m, base, c + d)
    ensures Holds(m, base, c) && Holds(m, base + |c|, d)
  {
    var e := c + d;
    assert m.prog[base..base + |c|] == m.prog[base..base + |e|][..|c|] == e[..|c|];
    assert m.prog[base + |c|..base + |e|] == m.prog[base..base + |e|][|c|..] == e[|c|..];
  }

  lemma {:induction false} RunsCons(m: Machine, lo: nat, hi: nat, pc: nat, s: State, pc1: nat, s1: State, rest: Path, pc': nat, s': State)
    requires WellFormed(m.prog) && lo <= pc < hi && Steps(m, pc, s, pc1, s1) && Runs(m, lo, hi, rest, pc1, s1, pc', s')
    ensures Runs(m, lo, hi, [Config(pc, s.pos)] + rest, pc, s, pc', s')
  {
    hide WellFormed, Steps;
    assert ([Config(pc, s.pos)] + rest)[1..] == rest;
  }

  lemma {:induction false} FirstStep(m: Machine, lo: nat, hi: nat, tr: Path, pc: nat, s: State, pc': nat, s': State)
    returns (pc1: nat, s1: State, rest: Path)
    requires WellFormed(m.prog) && Runs(m, lo, hi, tr, pc, s, pc', s') && pc != pc'
    ensures lo <= pc < hi && tr == [Config(pc, s.pos)] + rest
    ensures Steps(m, pc, s, pc1, s1) && Runs(m, lo, hi, rest, pc1, s1, pc', s')
  {
    hide WellFormed, Steps;
    pc1, s1 :| Steps(m, pc, s, pc1, s1) && Runs(m, lo, hi, tr[1..], pc1, s1, pc', s');
    rest := tr[1..];
  }

  lemma {:induction false} RunsJoin(m: Machine, lo: nat, hi: nat, tr: Path, pc: nat, s: State, pc1: nat, s1: State, tr2: Path, pc2: nat, s2: State)
    requires WellFormed(m.prog)
    requires Runs(m, lo, hi, tr, pc, s, pc1, s1) && Runs(m, lo, hi, tr2, pc1, s1, pc2, s2)
    ensures Runs(m, lo, hi, tr + tr2, pc, s, pc2, s2)
    decreases |tr|
  {
    hide WellFormed, Steps;
    if tr == [] {
      assert tr + tr2 == tr2;
    } else {
      var pc', s' :| Steps(m, pc, s, pc', s') && Runs(m, lo, hi, tr[1..], pc', s', pc1, s1);
      RunsJoin(m, lo, hi, tr[1..], pc', s', pc1, s1, tr2, pc2, s2);
      assert (tr + tr2)[1..] == tr[1..] + tr2;
    }
  }

  lemma {:induction false} RunsWiden(m: Machine, lo: nat, hi: nat, tr: Path, pc: nat, s: State, pc1: nat, s1: State, lo': nat, hi': nat)
    requires WellFormed(m.prog) && Runs(m, lo, hi, tr, pc, s, pc1, s1) && lo' <= lo && hi <= hi'
    ensures Runs(m, lo', hi', tr, pc, s, pc1, s1)
    decreases |tr|
  {
    hide WellFormed, Steps;
    if tr != [] {
      var pc', s' :| Steps(m, pc, s, pc', s') && Runs(m, lo, hi, tr[1..], pc', s', pc1, s1);
      RunsWiden(m, lo, hi, tr[1..], pc', s', pc1, s1, lo', hi');
    }
  }

  /** A step out of contained code leaves through its end. */
  lemma {:induction false} StepInside(m: Machine, base: nat, c: seq<Instr>, pc: nat, s: State, pc': nat, s': State)
    requires WellFormed(m.prog) && Holds(m, base, c) && Contained(c, base, base + |c|)
    requires base <= pc < base + |c| && Steps(m, pc, s, pc', s')
    ensures base <= pc' <= base + |c|
  {
    HoldsAt(m, base, c, pc - base);
  }

  /** Part one of a run that enters contained code at its start is a run through it to its end. */
  lemma {:induction false} Phase(m: Machine, b: nat, c: seq<Instr>, lo: nat, hi: nat, tr: Path, pc: nat, s: State, pc': nat, s': State)
    returns (a: Path, u: State, z: Path)
    requires WellFormed(m.prog) && Holds(m, b, c) && Contained(c, b, b + |c|)
    requires b <= pc <= b + |c| && !(b <= pc' < b + |c|)
    requires Runs(m, lo, hi, tr, pc, s, pc', s')
    ensures tr == a + z && Runs(m, b, b + |c|, a, pc, s, b + |c|, u)
    ensures Runs(m, lo, hi, z, b + |c|, u, pc', s')
    decreases |tr|
  {
    hide WellFormed, Holds, Contained, Steps, Runs;
    if pc == b + |c| {
      RunsNowhere(m, b, b + |c|, pc, s);
      return [], s, tr;
    }
    var pc1, s1, rest := FirstStep(m, lo, hi, tr, pc, s, pc', s');
    StepInside(m, b, c, pc, s, pc1, s1);
    a, u, z := Phase(m, b, c, lo, hi, rest, pc1, s1, pc', s');
    RunsCons(m, b, b + |c|, pc, s, pc1, s1, a, b + |c|, u);
    a := [Config(pc, s.pos)] + a;
  }

  lemma {:induction false} RunsNowhere(m: Machine, lo: nat, hi: nat, pc: nat, s: State)
    requires WellFormed(m.prog)
    ensures Runs(m, lo, hi, [], pc, s, pc, s)
  {
  }

  /** A run from outside its range goes nowhere. */
  lemma {:induction false} RunStops(m: Machine, lo: nat, hi: nat, tr: Path, pc: nat, s: State, pc': nat, s': State)
    requires WellFormed(m.prog) && Runs(m, lo, hi, tr, pc, s, pc', s') && !(lo <= pc < hi)
    ensures tr == [] && pc == pc' && s == s'
  {
  }

  /** What a step does, instruction by instruction. */
  lemma {:induction false} StepIs(m: Machine, pc: nat, s: State, pc': nat, s': State)
    requires WellFormed(m.prog) && Steps(m, pc, s, pc', s')
    ensures pc < |m.prog| && s.pos <= |m.text|
    ensures
      var i := m.prog[pc];
      if i.Save? then pc' == pc + 1 && s' == Put(s, i.slot)
      else if i.Jump? then pc' == i.target && s' == s
      else if i.Split? then (pc' == i.a || pc' == i.b) && s' == s
      else pc' == pc + 1 && YieldOp(m.flags, m.text, i, s) == Some(s') && (Consuming(i) || Anchor(i))
  {
  }

  /** The step that an instruction allows. */
  lemma {:induction false} StepTo(m: Machine, pc: nat, s: State, pc': nat, s': State)
    requires WellFormed(m.prog) && pc < |m.prog| && s.pos <= |m.text|
    requires
      var i := m.prog[pc];
      if i.Save? then pc' == pc + 1 && s' == Put(s, i.slot)
      else if i.Jump? then pc' == i.target && s' == s
      else if i.Split? then (pc' == i.a || pc' == i.b) && s' == s
      else (Consuming(i) || Anchor(i)) && pc' == pc + 1 && YieldOp(m.flags, m.text, i, s) == Some(s')
    ensures Steps(m, pc, s, pc', s') && s'.pos <= |m.text|
  {
  }

  // ---- where the parts of a construct sit ----

  lemma {:induction false} GroupParts(m: Machine, id: nat, e: Regex, b: nat)
    requires Holds(m, b, GroupCode(id, e, b))
    ensures b + Len(e) + 2 < |m.prog|
    ensures m.prog[b] == Save(2 * id) && m.prog[b + 1 + Len(e)] == Save(2 * id + 1)
    ensures Holds(m, b + 1, Code(e, b + 1))
  {
    hide *;
    GroupCodeIs(id, e, b);
    HoldsParts(m, b, [Save(2 * id)] + Code(e, b + 1), [Save(2 * id + 1)]);
    HoldsParts(m, b, [Save(2 * id)], Code(e, b + 1));
    HoldsAt(m, b, [Save(2 * id)], 0);
    HoldsAt(m, b + 1 + Len(e), [Save(2 * id + 1)], 0);
    HoldsEnd(m, b, GroupCode(id, e, b));
  }

  lemma {:induction false} AltParts(m: Machine, e: Regex, f: Regex, b: nat)
    requires Holds(m, b, AltCode(e, f, b))
    ensures
      var other := b + 2 + Len(e);
      && other + Len(f) < |m.prog|
      && m.prog[b] == Split(b + 1, other) && m.prog[b + 1 + Len(e)] == Jump(other + Len(f))
      && Holds(m, b + 1, Code(e, b + 1)) && Holds(m, other, Code(f, other))
  {
    hide *;
    AltCodeIs(e, f, b);
    var other := b + 2 + Len(e);
    var fork, jump := Split(b + 1, other), Jump(other + Len(f));
    HoldsParts(m, b, [fork] + Code(e, b + 1) + [jump], Code(f, other));
    HoldsParts(m, b, [fork] + Code(e, b + 1), [jump]);
    HoldsParts(m, b, [fork], Code(e, b + 1));
    HoldsAt(m, b, [fork], 0);
    HoldsAt(m, b + 1 + Len(e), [jump], 0);
    HoldsEnd(m, b, AltCode(e, f, b));
  }

  lemma {:induction false} OptParts(m: Machine, e: Regex, lazy: bool, b: nat)
    requires Holds(m, b, OptCode(e, lazy, b))
    ensures b + 1 + Len(e) < |m.prog|
    ensures m.prog[b] == Fork(b + 1, b + 1 + Len(e), lazy) && Holds(m, b + 1, Code(e, b + 1))
  {
    hide *;
    QuantifiedCodeIs(e, lazy, b);
    var fork := Fork(b + 1, b + 1 + Len(e), lazy);
    HoldsParts(m, b, [fork], Code(e, b + 1));
    HoldsAt(m, b, [fork], 0);
    HoldsEnd(m, b, OptCode(e, lazy, b));
  }

  lemma {:induction false} StarParts(m: Machine, e: Regex, lazy: bool, b: nat)
    requires Holds(m, b, StarCode(e, lazy, b))
    ensures b + 2 + Len(e) < |m.prog|
    ensures m.prog[b] == Fork(b + 1, b + 2 + Len(e), lazy) && m.prog[b + 1 + Len(e)] == Jump(b)
    ensures Holds(m, b + 1, Code(e, b + 1))
  {
    hide *;
    QuantifiedCodeIs(e, lazy, b);
    var fork := Fork(b + 1, b + 2 + Len(e), lazy);
    HoldsParts(m, b, [fork] + Code(e, b + 1), [Jump(b)]);
    HoldsParts(m, b, [fork], Code(e, b + 1));
    HoldsAt(m, b, [fork], 0);
    HoldsAt(m, b + 1 + Len(e), [Jump(b)], 0);
    HoldsEnd(m, b, StarCode(e, lazy, b));
  }

  lemma {:induction false} PlusParts(m: Machine, e: Regex, lazy: bool, b: nat)
    requires Holds(m, b, PlusCode(e, lazy, b))
    ensures b + 1 + Len(e) < |m.prog|
    ensures m.prog[b + Len(e)] == Fork(b, b + 1 + Len(e), lazy) && Holds(m, b, Code(e, b))
  {
    hide *;
    QuantifiedCodeIs(e, lazy, b);
    var fork := Fork(b, b + 1 + Len(e), lazy);
    HoldsParts(m, b, Code(e, b), [fork]);
    HoldsAt(m, b + Len(e), [fork], 0);
    HoldsEnd(m, b, PlusCode(e, lazy, b));
  }

  lemma {:induction false} CountParts(m: Machine, e: Regex, min: nat, extra: Option<nat>, lazy: bool, b: nat)
    requires Holds(m, b, CountCode(e, min, extra, lazy, b))
    ensures
      if min > 0 then
        Holds(m, b, Code(e, b)) && Holds(m, b + Len(e), CountCode(e, min - 1, extra, lazy, b + Len(e)))
      else if extra.None? then Holds(m, b, StarCode(e, lazy, b))
      else if extra.value == 0 then b < |m.prog|
      else
        && Holds(m, b, OptCode(e, lazy, b))
        && Holds(m, b + Len(e) + 1, CountCode(e, 0, Some(extra.value - 1), lazy, b + Len(e) + 1))
  {
    hide *;
    CountCodeIs(e, min, extra, lazy, b);
    HoldsEnd(m, b, CountCode(e, min, extra, lazy, b));
    if min > 0 {
      HoldsParts(m, b, Code(e, b), CountCode(e, min - 1, extra, lazy, b + Len(e)));
    } else if extra.Some? && extra.value > 0 {
      HoldsParts(m, b, OptCode(e, lazy, b), CountCode(e, 0, Some(extra.value - 1), lazy, b + Len(e) + 1));
    }
  }

  lemma {:induction false} HoldsEnd(m: Machine, base: nat, c: seq<Instr>)
    requires Holds(m, base, c)
    ensures base + |c| < |m.prog|
  {
  }

  // ---- the configurations a parse goes through ----

  function Reached(y: Option<State>, s: State): State {
    if y.Some? then y.value else s
  }

  ghost function Trail(m: Machine, e: Regex, b: nat, s: State, t: Tree): Path
    decreases t, 2
  {
    match e
    case Empty => []
    case Op(_) => [Config(b, s.pos)]
    case Group(id, f) =>
      if !t.Inside? then []
      else
        var u := Reached(Yield(m.flags, m.text, f, Put(s, 2 * id), t.t), s);
        [Config(b, s.pos)] + Trail(m, f, b + 1, Put(s, 2 * id), t.t) + [Config(b + 1 + Len(f), u.pos)]
    case Cat(f, g) =>
      if !t.Both? then []
      else Trail(m, f, b, s, t.l) + Trail(m, g, b + Len(f), Reached(Yield(m.flags, m.text, f, s, t.l), s), t.r)
    case Alt(f, g) =>
      if !t.Pick? then []
      else if t.right then [Config(b, s.pos)] + Trail(m, g, b + 2 + Len(f), s, t.t)
      else
        [Config(b, s.pos)] + Trail(m, f, b + 1, s, t.t) +
        [Config(b + 1 + Len(f), Reached(Yield(m.flags, m.text, f, s, t.t), s).pos)]
    case Opt(f, _) => OptTrail(m, f, b, s, t)
    case Star(f, _) => StarTrail(m, f, b, s, t)
    case Plus(f, _) => PlusTrail(m, f, b, s, t)
    case Count(f, min, extra, _) => CountTrail(m, f, min, extra, b, s, t)
  }

  ghost function OptTrail(m: Machine, e: Regex, b: nat, s: State, t: Tree): Path
    decreases t, 0
  {
    [Config(b, s.pos)] + if t.Take? then Trail(m, e, b + 1, s, t.t) else []
  }

  ghost function StarTrail(m: Machine, e: Regex, b: nat, s: State, t: Tree): Path
    decreases t, 0
  {
    if !t.More? then [Config(b, s.pos)]
    else
      var u := Reached(Yield(m.flags, m.text, e, s, t.head), s);
      [Config(b, s.pos)] + Trail(m, e, b + 1, s, t.head) + [Config(b + 1 + Len(e), u.pos)] + StarTrail(m, e, b, u, t.tail)
  }

  ghost function PlusTrail(m: Machine, e: Regex, b: nat, s: State, t: Tree): Path
    decreases t, 0
  {
    if !t.More? then []
    else
      var u := Reached(Yield(m.flags, m.text, e, s, t.head), s);
      Trail(m, e, b, s, t.head) + [Config(b + Len(e), u.pos)] + PlusTrail(m, e, b, u, t.tail)
  }

  ghost function CountTrail(m: Machine, e: Regex, min: nat, extra: Option<nat>, b: nat, s: State, t: Tree): Path
    decreases t, 1
  {
    if min > 0 then
      if !t.More? then []
      else
        var u := Reached(Yield(m.flags, m.text, e, s, t.head), s);
        Trail(m, e, b, s, t.head) + CountTrail(m, e, min - 1, extra, b + Len(e), u, t.tail)
    else if extra.None? then StarTrail(m, e, b, s, t)
    else if extra.value == 0 || !t.More? then []
    else
      var u := Reached(YieldOpt(m.flags, m.text, e, s, t.head), s);
      OptTrail(m, e, b, s, t.head) + CountTrail(m, e, 0, Some(extra.value - 1), b + Len(e) + 1, u, t.tail)
  }

  /** t is a parse of e from s that yields u, and tr is where it goes. */
  ghost predicate Spells(m: Machine, e: Regex, b: nat, s: State, t: Tree, u: State, tr: Path) {
    Yield(m.flags, m.text, e, s, t) == Some(u) && Trail(m, e, b, s, t) == tr
  }

  ghost predicate SpellsOpt(m: Machine, e: Regex, b: nat, s: State, t: Tree, u: State, tr: Path) {
    YieldOpt(m.flags, m.text, e, s, t) == Some(u) && OptTrail(m, e, b, s, t) == tr
  }

  ghost predicate SpellsStar(m: Machine, e: Regex, b: nat, s: State, t: Tree, u: State, tr: Path) {
    YieldChain(m.flags, m.text, e, s, t) == Some(u) && StarTrail(m, e, b, s, t) == tr
  }

  ghost predicate SpellsPlus(m: Machine, e: Regex, b: nat, s: State, t: Tree, u: State, tr: Path) {
    YieldChain(m.flags, m.text, e, s, t) == Some(u) && PlusTrail(m, e, b, s, t) == tr
  }

  ghost predicate SpellsCount(m: Machine, e: Regex, min: nat, extra: Option<nat>, b: nat, s: State, t: Tree, u: State, tr: Path) {
    YieldCount(m.flags, m.text, e, min, extra, s, t) == Some(u) && CountTrail(m, e, min, extra, b, s, t) == tr
  }

  lemma {:induction false} BuildGroup(m: Machine, id: nat, e: Regex, b: nat, s: State, x: Tree, u: State, tr: Path)
    requires Spells(m, e, b + 1, Put(s, 2 * id), x, u, tr)
    ensures Spells(m, Group(id, e), b, s, Inside(x), Put(u, 2 * id + 1), [Config(b, s.pos)] + tr + [Config(b + 1 + Len(e), u.pos)])
  {
    hide Put, Len;
  }

  lemma {:induction false} BuildCat(m: Machine, f: Regex, g: Regex, b: nat, s: State, x: Tree, u: State, tr: Path, y: Tree, v: State, tr': Path)
    requires Spells(m, f, b, s, x, u, tr) && Spells(m, g, b + Len(f), u, y, v, tr')
    ensures Spells(m, Cat(f, g), b, s, Both(x, y), v, tr + tr')
  {
    hide Len;
  }

  lemma {:induction false} BuildAlt(m: Machine, f: Regex, g: Regex, b: nat, s: State, right: bool, x: Tree, u: State, tr: Path)
    requires if right then Spells(m, g, b + 2 + Len(f), s, x, u, tr) else Spells(m, f, b + 1, s, x, u, tr)
    ensures Spells(m, Alt(f, g), b, s, Pick(right, x), u,
      [Config(b, s.pos)] + tr + if right then [] else [Config(b + 1 + Len(f), u.pos)])
  {
    hide Len;
    if right { assert [Config(b, s.pos)] + tr + [] == [Config(b, s.pos)] + tr; }
  }

  lemma {:induction false} BuildOpt(m: Machine, e: Regex, b: nat, s: State, x: Tree, u: State, tr: Path)
    ensures SpellsOpt(m, e, b, s, Skip, s, [Config(b, s.pos)])
    ensures Spells(m, e, b + 1, s, x, u, tr) ==> SpellsOpt(m, e, b, s, Take(x), u, [Config(b, s.pos)] + tr)
  {
    assert [Config(b, s.pos)] + [] == [Config(b, s.pos)];
  }

  lemma {:induction false} BuildStar(m: Machine, e: Regex, b: nat, s: State, x: Tree, u: State, tr: Path, y: Tree, v: State, tr': Path)
    ensures SpellsStar(m, e, b, s, Done, s, [Config(b, s.pos)])
    ensures Spells(m, e, b + 1, s, x, u, tr) && SpellsStar(m, e, b, u, y, v, tr') ==>
      SpellsStar(m, e, b, s, More(x, y), v, [Config(b, s.pos)] + tr + [Config(b + 1 + Len(e), u.pos)] + tr')
  {
    hide Len;
  }

  lemma {:induction false} BuildPlus(m: Machine, e: Regex, b: nat, s: State, x: Tree, u: State, tr: Path, y: Tree, v: State, tr': Path)
    requires Spells(m, e, b, s, x, u, tr) && SpellsPlus(m, e, b, u, y, v, tr')
    ensures SpellsPlus(m, e, b, u, Done, u, [])
    ensures SpellsPlus(m, e, b, s, More(x, y), v, tr + [Config(b + Len(e), u.pos)] + tr')
  {
    hide Len;
  }

  lemma {:induction false} BuildCount(m: Machine, e: Regex, min: nat, extra: Option<nat>, b: nat, s: State, x: Tree, u: State, tr: Path, y: Tree, v: State, tr': Path)
    requires min > 0 && Spells(m, e, b, s, x, u, tr) && SpellsCount(m, e, min - 1, extra, b + Len(e), u, y, v, tr')
    ensures SpellsCount(m, e, min, extra, b, s, More(x, y), v, tr + tr')
  {
    hide Len;
  }

  lemma {:induction false} BuildOptional(m: Machine, e: Regex, extra: nat, b: nat, s: State, x: Tree, u: State, tr: Path, y: Tree, v: State, tr': Path)
    requires extra > 0 && SpellsOpt(m, e, b, s, x, u, tr) && SpellsCount(m, e, 0, Some(extra - 1), b + Len(e) + 1, u, y, v, tr')
    ensures SpellsCount(m, e, 0, Some(extra), b, s, More(x, y), v, tr + tr')
  {
    hide Len, OptTrail, YieldOpt;
  }

  lemma {:induction false} BuildBase(m: Machine, e: Regex, b: nat, s: State, x: Tree, u: State, tr: Path)
    ensures SpellsCount(m, e, 0, Some(0), b, s, Done, s, [])
    ensures SpellsStar(m, e, b, s, x, u, tr) ==> SpellsCount(m, e, 0, None, b, s, x, u, tr)
  {
  }

  lemma {:induction false} BuildQuantified(m: Machine, e: Regex, lazy: bool, min: nat, extra: Option<nat>, b: nat, s: State, x: Tree, u: State, tr: Path)
    ensures SpellsOpt(m, e, b, s, x, u, tr) ==> Spells(m, Opt(e, lazy), b, s, x, u, tr)
    ensures SpellsStar(m, e, b, s, x, u, tr) ==> Spells(m, Star(e, lazy), b, s, x, u, tr)
    ensures SpellsPlus(m, e, b, s, x, u, tr) && x.More? ==> Spells(m, Plus(e, lazy), b, s, x, u, tr)
    ensures SpellsCount(m, e, min, extra, b, s, x, u, tr) ==> Spells(m, Count(e, min, extra, lazy), b, s, x, u, tr)
  {
    hide OptTrail, StarTrail, PlusTrail, CountTrail, YieldOpt, YieldChain, YieldCount;
  }

  lemma {:induction false} NoMore(p: Path)
    ensures p + [] == p
  {
  }

  lemma {:induction false} Joined(c: Config, a: Path, d: Config, z: Path)
    ensures [c] + (a + ([d] + z)) == [c] + a + [d] + z
  {
  }

  // ---- every run through the code spells a parse ----

  /** A run that enters the code of e spells a parse of e on its way out. */
  lemma {:induction false} Through(m: Machine, e: Regex, b: nat, lo: nat, hi: nat, tr: Path, s: State, pc': nat, t: State)
    returns (tree: Tree, a: Path, u: State, z: Path)
    requires WellFormed(m.prog) && Parsed(e) && Holds(m, b, Code(e, b))
    requires Runs(m, lo, hi, tr, b, s, pc', t) && !(b <= pc' < b + Len(e))
    ensures tr == a + z && Spells(m, e, b, s, tree, u, a)
    ensures Runs(m, lo, hi, z, b + Len(e), u, pc', t)
    decreases e, 1
  {
    hide *;
    CodeContained(e, b, b, b + Len(e));
    a, u, z := Phase(m, b, Code(e, b), lo, hi, tr, b, s, pc', t);
    tree := Sound(m, e, b, a, s, u);
  }

  lemma {:induction false} Sound(m: Machine, e: Regex, b: nat, tr: Path, s: State, t: State) returns (tree: Tree)
    requires WellFormed(m.prog) && Parsed(e) && Holds(m, b, Code(e, b))
    requires Runs(m, b, b + Len(e), tr, b, s, b + Len(e), t)
    ensures Spells(m, e, b, s, tree, t, tr)
    decreases e, 0, 1
  {
    hide *;
    Shape(e, b);
    match e
    case Empty =>
      RunStops(m, b, b, tr, b, s, b, t);
      tree := Leaf;
      BuildEmpty(m, b, s);
    case Op(i) => tree := SoundOp(m, i, b, tr, s, t);
    case Group(id, f) => tree := SoundGroup(m, id, f, b, tr, s, t);
    case Cat(f, g) => tree := SoundCat(m, f, g, b, tr, s, t);
    case Alt(f, g) => tree := SoundAlt(m, f, g, b, tr, s, t);
    case Opt(f, lazy) =>
      tree := SoundOpt(m, f, lazy, b, tr, s, t);
      BuildQuantified(m, f, lazy, 0, None, b, s, tree, t, tr);
    case Star(f, lazy) =>
      tree := SoundStar(m, f, lazy, b, tr, s, t);
      BuildQuantified(m, f, lazy, 0, None, b, s, tree, t, tr);
    case Plus(f, lazy) =>
      tree := SoundPlus(m, f, lazy, b, tr, s, t);
      BuildQuantified(m, f, lazy, 0, None, b, s, tree, t, tr);
    case Count(f, min, extra, lazy) =>
      tree := SoundCount(m, f, min, extra, lazy, b, tr, s, t);
      BuildQuantified(m, f, lazy, min, extra, b, s, tree, t, tr);
  }

  lemma {:induction false} BuildEmpty(m: Machine, b: nat, s: State)
    ensures Spells(m, Empty, b, s, Leaf, s, [])
  {
  }

  lemma {:induction false} BuildOp(m: Machine, i: Instr, b: nat, s: State, t: State)
    requires YieldOp(m.flags, m.text, i, s) == Some(t)
    ensures Spells(m, Op(i), b, s, Leaf, t, [Config(b, s.pos)])
  {
    hide YieldOp;
  }

  lemma {:induction false} SoundOp(m: Machine, i: Instr, b: nat, tr: Path, s: State, t: State) returns (tree: Tree)
    requires WellFormed(m.prog) && Holds(m, b, [i]) && (Consuming(i) || Anchor(i))
    requires Runs(m, b, b + 1, tr, b, s, b + 1, t)
    ensures Spells(m, Op(i), b, s, tree, t, tr)
  {
    hide WellFormed, Holds, Steps, Runs, YieldOp, Spells;
    var pc1, s1, rest := FirstStep(m, b, b + 1, tr, b, s, b + 1, t);
    HoldsAt(m, b, [i], 0);
    StepIs(m, b, s, pc1, s1);
    RunStops(m, b, b + 1, rest, pc1, s1, b + 1, t);
    NoMore([Config(b, s.pos)]);
    BuildOp(m, i, b, s, t);
    tree := Leaf;
  }

  lemma {:induction false} SoundCat(m: Machine, f: Regex, g: Regex, b: nat, tr: Path, s: State, t: State) returns (tree: Tree)
    requires WellFormed(m.prog) && Parsed(f) && Parsed(g) && Holds(m, b, Code(f, b) + Code(g, b + Len(f)))
    requires Runs(m, b, b + Len(f) + Len(g), tr, b, s, b + Len(f) + Len(g), t)
    ensures Spells(m, Cat(f, g), b, s, tree, t, tr)
    decreases Cat(f, g), 0, 0
  {
    hide *;
    var hi := b + Len(f) + Len(g);
    HoldsParts(m, b, Code(f, b), Code(g, b + Len(f)));
    var x, a, u, z := Through(m, f, b, b, hi, tr, s, hi, t);
    var y, a', v, z' := Through(m, g, b + Len(f), b, hi, z, u, hi, t);
    RunStops(m, b, hi, z', hi, v, hi, t);
    BuildCat(m, f, g, b, s, x, u, a, y, v, a');
    NoMore(a');
    tree := Both(x, y);
  }

  lemma {:induction false} SoundGroup(m: Machine, id: nat, e: Regex, b: nat, tr: Path, s: State, t: State) returns (tree: Tree)
    requires WellFormed(m.prog) && Parsed(e) && Holds(m, b, GroupCode(id, e, b))
    requires Runs(m, b, b + Len(e) + 2, tr, b, s, b + Len(e) + 2, t)
    ensures Spells(m, Group(id, e), b, s, tree, t, tr)
    decreases e, 2
  {
    hide *;
    var hi := b + Len(e) + 2;
    GroupParts(m, id, e, b);
    var pc1, s1, rest := FirstStep(m, b, hi, tr, b, s, hi, t);
    StepIs(m, b, s, pc1, s1);
    var x, a, u, z := Through(m, e, b + 1, b, hi, rest, s1, hi, t);
    var pc2, s2, rest2 := FirstStep(m, b, hi, z, b + 1 + Len(e), u, hi, t);
    StepIs(m, b + 1 + Len(e), u, pc2, s2);
    RunStops(m, b, hi, rest2, pc2, s2, hi, t);
    BuildGroup(m, id, e, b, s, x, u, a);
    Joined(Config(b, s.pos), a, Config(b + 1 + Len(e), u.pos), []);
    NoMore([Config(b, s.pos)] + a + [Config(b + 1 + Len(e), u.pos)]);
    tree := Inside(x);
  }

  lemma {:induction false} SoundAlt(m: Machine, e: Regex, f: Regex, b: nat, tr: Path, s: State, t: State) returns (tree: Tree)
    requires WellFormed(m.prog) && Parsed(e) && Parsed(f) && Holds(m, b, AltCode(e, f, b))
    requires Runs(m, b, b + Len(e) + Len(f) + 2, tr, b, s, b + Len(e) + Len(f) + 2, t)
    ensures Spells(m, Alt(e, f), b, s, tree, t, tr)
    decreases Alt(e, f), 0, 0
  {
    hide *;
    var hi := b + Len(e) + Len(f) + 2;
    var other := b + 2 + Len(e);
    AltParts(m, e, f, b);
    var pc1, s1, rest := FirstStep(m, b, hi, tr, b, s, hi, t);
    StepIs(m, b, s, pc1, s1);
    if pc1 == other {
      var x, a, u, z := Through(m, f, other, b, hi, rest, s1, hi, t);
      RunStops(m, b, hi, z, hi, u, hi, t);
      BuildAlt(m, e, f, b, s, true, x, u, a);
      NoMore(a);
      NoMore([Config(b, s.pos)] + a);
      tree := Pick(true, x);
    } else {
      var x, a, u, z := Through(m, e, b + 1, b, hi, rest, s1, hi, t);
      var pc2, s2, rest2 := FirstStep(m, b, hi, z, b + 1 + Len(e), u, hi, t);
      StepIs(m, b + 1 + Len(e), u, pc2, s2);
      RunStops(m, b, hi, rest2, pc2, s2, hi, t);
      BuildAlt(m, e, f, b, s, false, x, u, a);
      Joined(Config(b, s.pos), a, Config(b + 1 + Len(e), u.pos), []);
      NoMore([Config(b, s.pos)] + a + [Config(b + 1 + Len(e), u.pos)]);
      tree := Pick(false, x);
    }
  }

  lemma {:induction false} SoundOpt(m: Machine, e: Regex, lazy: bool, b: nat, tr: Path, s: State, t: State) returns (tree: Tree)
    requires WellFormed(m.prog) && Parsed(e) && Holds(m, b, OptCode(e, lazy, b))
    requires Runs(m, b, b + Len(e) + 1, tr, b, s, b + Len(e) + 1, t)
    ensures SpellsOpt(m, e, b, s, tree, t, tr)
    decreases e, 2
  {
    hide *;
    var hi := b + Len(e) + 1;
    OptParts(m, e, lazy, b);
    ForkIs(b + 1, hi, lazy);
    var pc1, s1, rest := FirstStep(m, b, hi, tr, b, s, hi, t);
    StepIs(m, b, s, pc1, s1);
    if pc1 == hi {
      RunStops(m, b, hi, rest, hi, s1, hi, t);
      NoMore([Config(b, s.pos)]);
      BuildOpt(m, e, b, s, Leaf, s, []);
      tree := Skip;
    } else {
      var x, a, u, z := Through(m, e, b + 1, b, hi, rest, s1, hi, t);
      RunStops(m, b, hi, z, hi, u, hi, t);
      BuildOpt(m, e, b, s, x, u, a);
      NoMore(a);
      tree := Take(x);
    }
  }

  lemma {:induction false} ForkIs(stay: nat, leave: nat, lazy: bool)
    ensures Fork(stay, leave, lazy) == if lazy then Split(leave, stay) else Split(stay, leave)
  {
  }

  lemma {:induction false} SoundStar(m: Machine, e: Regex, lazy: bool, b: nat, tr: Path, s: State, t: State) returns (tree: Tree)
    requires WellFormed(m.prog) && Parsed(e) && Holds(m, b, StarCode(e, lazy, b))
    requires Runs(m, b, b + Len(e) + 2, tr, b, s, b + Len(e) + 2, t)
    ensures SpellsStar(m, e, b, s, tree, t, tr)
    decreases e, 2, |tr|
  {
    hide *;
    var hi := b + Len(e) + 2;
    StarParts(m, e, lazy, b);
    ForkIs(b + 1, hi, lazy);
    var pc1, s1, rest := FirstStep(m, b, hi, tr, b, s, hi, t);
    StepIs(m, b, s, pc1, s1);
    if pc1 == hi {
      RunStops(m, b, hi, rest, hi, s1, hi, t);
      NoMore([Config(b, s.pos)]);
      BuildStar(m, e, b, s, Leaf, s, [], Leaf, s, []);
      tree := Done;
    } else {
      var x, a, u, z := Through(m, e, b + 1, b, hi, rest, s1, hi, t);
      var pc2, s2, rest2 := FirstStep(m, b, hi, z, b + 1 + Len(e), u, hi, t);
      StepIs(m, b + 1 + Len(e), u, pc2, s2);
      var y := SoundStar(m, e, lazy, b, rest2, u, t);
      BuildStar(m, e, b, s, x, u, a, y, t, rest2);
      Joined(Config(b, s.pos), a, Config(b + 1 + Len(e), u.pos), rest2);
      tree := More(x, y);
    }
  }

  lemma {:induction false} SoundPlus(m: Machine, e: Regex, lazy: bool, b: nat, tr: Path, s: State, t: State) returns (tree: Tree)
    requires WellFormed(m.prog) && Parsed(e) && Holds(m, b, PlusCode(e, lazy, b))
    requires Runs(m, b, b + Len(e) + 1, tr, b, s, b + Len(e) + 1, t)
    ensures SpellsPlus(m, e, b, s, tree, t, tr) && tree.More?
    decreases e, 2, |tr|
  {
    hide *;
    var hi := b + Len(e) + 1;
    PlusParts(m, e, lazy, b);
    ForkIs(b, hi, lazy);
    var x, a, u, z := Through(m, e, b, b, hi, tr, s, hi, t);
    var pc1, s1, rest := FirstStep(m, b, hi, z, b + Len(e), u, hi, t);
    StepIs(m, b + Len(e), u, pc1, s1);
    assert tr == a + [Config(b + Len(e), u.pos)] + rest;
    PlusDone(m, e, b, u);
    if pc1 == hi {
      RunStops(m, b, hi, rest, hi, s1, hi, t);
      BuildPlus(m, e, b, s, x, u, a, Done, u, []);
      tree := More(x, Done);
    } else {
      var y := SoundPlus(m, e, lazy, b, rest, u, t);
      BuildPlus(m, e, b, s, x, u, a, y, t, rest);
      tree := More(x, y);
    }
  }

  lemma {:induction false} PlusDone(m: Machine, e: Regex, b: nat, u: State)
    ensures SpellsPlus(m, e, b, u, Done, u, [])
  {
  }

  lemma {:induction false} ThroughOpt(m: Machine, e: Regex, lazy: bool, b: nat, lo: nat, hi: nat, tr: Path, s: State, pc': nat, t: State)
    returns (tree: Tree, a: Path, u: State, z: Path)
    requires WellFormed(m.prog) && Parsed(e) && Holds(m, b, OptCode(e, lazy, b))
    requires Runs(m, lo, hi, tr, b, s, pc', t) && !(b <= pc' < b + Len(e) + 1)
    ensures tr == a + z && SpellsOpt(m, e, b, s, tree, u, a)
    ensures Runs(m, lo, hi, z, b + Len(e) + 1, u, pc', t)
    decreases e, 3, 0, 0, 0
  {
    hide *;
    OptContained(e, lazy, b, b, b + Len(e) + 1);
    a, u, z := Phase(m, b, OptCode(e, lazy, b), lo, hi, tr, b, s, pc', t);
    tree := SoundOpt(m, e, lazy, b, a, s, u);
  }

  lemma {:induction false} ThroughCount(m: Machine, e: Regex, min: nat, extra: Option<nat>, lazy: bool, b: nat, lo: nat, hi: nat, tr: Path, s: State, pc': nat, t: State)
    returns (tree: Tree, a: Path, u: State, z: Path)
    requires WellFormed(m.prog) && Parsed(e) && Holds(m, b, CountCode(e, min, extra, lazy, b))
    requires Runs(m, lo, hi, tr, b, s, pc', t) && !(b <= pc' < b + CountLen(Len(e), min, extra))
    ensures tr == a + z && SpellsCount(m, e, min, extra, b, s, tree, u, a)
    ensures Runs(m, lo, hi, z, b + CountLen(Len(e), min, extra), u, pc', t)
    decreases e, 3, min, if extra.Some? then extra.value else 0, 1
  {
    hide *;
    var end := b + CountLen(Len(e), min, extra);
    CountContained(e, min, extra, lazy, b, b, end);
    a, u, z := Phase(m, b, CountCode(e, min, extra, lazy, b), lo, hi, tr, b, s, pc', t);
    tree := SoundCount(m, e, min, extra, lazy, b, a, s, u);
  }

  lemma {:induction false} SoundCount(m: Machine, e: Regex, min: nat, extra: Option<nat>, lazy: bool, b: nat, tr: Path, s: State, t: State)
    returns (tree: Tree)
    requires WellFormed(m.prog) && Parsed(e) && Holds(m, b, CountCode(e, min, extra, lazy, b))
    requires
      var hi := b + CountLen(Len(e), min, extra);
      Runs(m, b, hi, tr, b, s, hi, t)
    ensures SpellsCount(m, e, min, extra, b, s, tree, t, tr)
    decreases e, 3, min, if extra.Some? then extra.value else 0, 0
  {
    hide *;
    CountParts(m, e, min, extra, lazy, b);
    CountLenIs(Len(e), min, extra);
    var hi := b + CountLen(Len(e), min, extra);
    if min > 0 {
      var x, a, u, z := Through(m, e, b, b, hi, tr, s, hi, t);
      var y, a', v, z' := ThroughCount(m, e, min - 1, extra, lazy, b + Len(e), b, hi, z, u, hi, t);
      RunStops(m, b, hi, z', hi, v, hi, t);
      BuildCount(m, e, min, extra, b, s, x, u, a, y, v, a');
      NoMore(a');
      tree := More(x, y);
    } else if extra.None? {
      tree := SoundStar(m, e, lazy, b, tr, s, t);
      BuildBase(m, e, b, s, tree, t, tr);
    } else if extra.value == 0 {
      RunStops(m, b, hi, tr, b, s, hi, t);
      BuildBase(m, e, b, s, Leaf, s, []);
      tree := Done;
    } else {
      var x, a, u, z := ThroughOpt(m, e, lazy, b, b, hi, tr, s, hi, t);
      var y, a', v, z' := ThroughCount(m, e, 0, Some(extra.value - 1), lazy, b + Len(e) + 1, b, hi, z, u, hi, t);
      RunStops(m, b, hi, z', hi, v, hi, t);
      BuildOptional(m, e, extra.value, b, s, x, u, a, y, v, a');
      NoMore(a');
      tree := More(x, y);
    }
  }
}
