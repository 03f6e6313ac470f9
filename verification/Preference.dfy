/** The preferred parse is the run the machine tries first. */
module Preference {
  import opened Basics
  import opened Machine
  import opened Regex
  import opened ParseTree
  import opened CodeMeaning
  import opened ParseRuns

  lemma {:induction false} BeforeWithin(m: Machine, front: Path, p: Path, q: Path, y: Path, z: Path)
    requires WellFormed(m.prog) && Before(m, p, q)
    ensures Before(m, front + p + y, front + q + z)
  {
    hide Succ, WellFormed;
    var k: nat :| Parts(m, p, q, k);
    var n := |front|;
    var p', q' := front + p + y, front + q + z;
    assert p'[n + k] == p[k] && q'[n + k] == q[k] && p'[n + k - 1] == p[k - 1];
    forall i | 0 <= i < n + k ensures p'[i] == q'[i] {
      if i >= n { assert p'[i] == p[i - n] && q'[i] == q[i - n]; }
    }
    assert Parts(m, p', q', n + k);
  }

  /** Two runs that leave a SPLIT by different branches. */
  lemma {:induction false} ForkBefore(m: Machine, c: Config, x: nat, y: nat, p: Path, q: Path)
    requires WellFormed(m.prog) && InBounds(m, c) && m.prog[c.pc] == Split(x, y) && x != y
    requires |p| > 0 && |q| > 0 && p[0] == Config(x, c.pos) && q[0] == Config(y, c.pos)
    ensures Before(m, [c] + p, [c] + q)
  {
    assert Parts(m, [c] + p, [c] + q, 1);
  }

  /** A run and where it ends, read together, start where the run starts. */
  lemma {:induction false} RunStarts(m: Machine, lo: nat, hi: nat, tr: Path, pc: nat, s: State, pc': nat, t: State)
    requires WellFormed(m.prog) && Goes(m, lo, hi, tr, pc, s, pc', t)
    ensures (tr + [Config(pc', t.pos)])[0] == Config(pc, s.pos)
  {
  }

  lemma {:induction false} ParseStarts(m: Machine, e: Regex, b: nat, s: State, tree: Tree, t: State, tr: Path)
    requires WellFormed(m.prog) && Parsed(e) && Holds(m, b, Code(e, b)) && s.pos <= |m.text|
    requires Spells(m, e, b, s, tree, t, tr)
    ensures (tr + [Config(b + Len(e), t.pos)])[0] == Config(b, s.pos) && t.pos <= |m.text|
  {
    hide *;
    Complete(m, e, b, s, tree, t, tr);
    RunStarts(m, b, b + Len(e), tr, b, s, b + Len(e), t);
  }

  lemma {:induction false} SameParse(m: Machine, e: Regex, b: nat, s: State, tree: Tree, t: State, tr: Path, t': State, tr': Path)
    requires Spells(m, e, b, s, tree, t, tr) && Spells(m, e, b, s, tree, t', tr')
    ensures t == t' && tr == tr'
  {
  }

  /** p starts with a and then the configuration c. */
  lemma {:induction false} Leads(p: Path, a: Path, c: Config, z: Path, end: Config)
    requires p == a + z + [end] && (z + [end])[0] == c
    ensures p == [] + (a + [c]) + (z + [end])[1..]
  {
    assert p == a + (z + [end]);
    assert z + [end] == [c] + (z + [end])[1..];
  }

  /** One step of the order of preference. */
  lemma {:induction false} Choices(e: Regex, t: Tree, u: Tree)
    requires Prefers(e, t, u)
    ensures
      match e
      case Empty => false
      case Op(_) => false
      case Group(_, f) => t.Inside? && u.Inside? && Prefers(f, t.t, u.t)
      case Cat(f, g) => t.Both? && u.Both? && (Prefers(f, t.l, u.l) || (t.l == u.l && Prefers(g, t.r, u.r)))
      case Alt(f, g) =>
        t.Pick? && u.Pick? && ((!t.right && u.right) || (t.right == u.right && Prefers(if t.right then g else f, t.t, u.t)))
      case Opt(f, lazy) => PrefersOpt(f, lazy, t, u)
      case Star(f, lazy) => PrefersChain(f, lazy, t, u)
      case Plus(f, lazy) => t.More? && u.More? && PrefersChain(f, lazy, t, u)
      case Count(f, min, extra, lazy) => PrefersCount(f, min, extra, lazy, t, u)
  {
    hide PrefersOpt, PrefersChain, PrefersCount;
  }

  /** The preferred of two parses runs before the other. */
  lemma {:induction false} Preferred(m: Machine, e: Regex, b: nat, s: State, t: Tree, u: State, tr: Path, t': Tree, u': State, tr': Path)
    requires WellFormed(m.prog) && Parsed(e) && Holds(m, b, Code(e, b)) && s.pos <= |m.text|
    requires Spells(m, e, b, s, t, u, tr) && Spells(m, e, b, s, t', u', tr') && Prefers(e, t, t')
    ensures Before(m, tr + [Config(b + Len(e), u.pos)], tr' + [Config(b + Len(e), u'.pos)])
    decreases e, 0, 1
  {
    hide *;
    Shape(e, b);
    Choices(e, t, t');
    match e
    case Empty =>
    case Op(i) =>
    case Group(id, f) => PreferredGroup(m, id, f, b, s, t, u, tr, t', u', tr');
    case Cat(f, g) => PreferredCat(m, f, g, b, s, t, u, tr, t', u', tr');
    case Alt(f, g) => PreferredAlt(m, f, g, b, s, t, u, tr, t', u', tr');
    case Opt(f, lazy) =>
      OpenQuantified(m, e, b, s, t, u, tr);
      OpenQuantified(m, e, b, s, t', u', tr');
      PreferredOpt(m, f, lazy, b, s, t, u, tr, t', u', tr');
    case Star(f, lazy) =>
      OpenQuantified(m, e, b, s, t, u, tr);
      OpenQuantified(m, e, b, s, t', u', tr');
      PreferredStar(m, f, lazy, b, s, t, u, tr, t', u', tr');
    case Plus(f, lazy) =>
      OpenQuantified(m, e, b, s, t, u, tr);
      OpenQuantified(m, e, b, s, t', u', tr');
      PreferredPlus(m, f, lazy, b, s, t, u, tr, t', u', tr');
    case Count(f, min, extra, lazy) =>
      OpenQuantified(m, e, b, s, t, u, tr);
      OpenQuantified(m, e, b, s, t', u', tr');
      PreferredCount(m, f, min, extra, lazy, b, s, t, u, tr, t', u', tr');
  }

  lemma {:induction false} PreferredGroup(m: Machine, id: nat, e: Regex, b: nat, s: State, t: Tree, u: State, tr: Path, t': Tree, u': State, tr': Path)
    requires WellFormed(m.prog) && Parsed(e) && Holds(m, b, GroupCode(id, e, b)) && s.pos <= |m.text|
    requires Spells(m, Group(id, e), b, s, t, u, tr) && Spells(m, Group(id, e), b, s, t', u', tr')
    requires t.Inside? && t'.Inside? && Prefers(e, t.t, t'.t)
    ensures Before(m, tr + [Config(b + Len(e) + 2, u.pos)], tr' + [Config(b + Len(e) + 2, u'.pos)])
    decreases e, 2
  {
    hide *;
    GroupParts(m, id, e, b);
    var x, v, a := OpenGroup(m, id, e, b, s, t, u, tr);
    var x', v', a' := OpenGroup(m, id, e, b, s, t', u', tr');
    Preferred(m, e, b + 1, Put(s, 2 * id), x, v, a, x', v', a');
    var c, end, end' := [Config(b, s.pos)], [Config(b + Len(e) + 2, u.pos)], [Config(b + Len(e) + 2, u'.pos)];
    var d, d' := [Config(b + 1 + Len(e), v.pos)], [Config(b + 1 + Len(e), v'.pos)];
    BeforeWithin(m, c, a + d, a' + d', end, end');
    Regroup(c, a, d, end);
    Regroup(c, a', d', end');
  }

  lemma {:induction false} Regroup(c: Path, a: Path, d: Path, z: Path)
    ensures c + (a + d) + z == c + a + d + z && c + a + d + z == c + (a + (d + z))
  {
  }

  lemma {:induction false} PreferredCat(m: Machine, f: Regex, g: Regex, b: nat, s: State, t: Tree, u: State, tr: Path, t': Tree, u': State, tr': Path)
    requires WellFormed(m.prog) && Parsed(f) && Parsed(g) && Holds(m, b, Code(f, b) + Code(g, b + Len(f))) && s.pos <= |m.text|
    requires Spells(m, Cat(f, g), b, s, t, u, tr) && Spells(m, Cat(f, g), b, s, t', u', tr')
    requires t.Both? && t'.Both? && (Prefers(f, t.l, t'.l) || (t.l == t'.l && Prefers(g, t.r, t'.r)))
    ensures Before(m, tr + [Config(b + Len(f) + Len(g), u.pos)], tr' + [Config(b + Len(f) + Len(g), u'.pos)])
    decreases Cat(f, g), 0, 0
  {
    hide *;
    var mid := b + Len(f);
    HoldsParts(m, b, Code(f, b), Code(g, mid));
    var x, v, a, y, z := OpenCat(m, f, g, b, s, t, u, tr);
    var x', v', a', y', z' := OpenCat(m, f, g, b, s, t', u', tr');
    var end, end' := Config(mid + Len(g), u.pos), Config(mid + Len(g), u'.pos);
    ParseStarts(m, f, b, s, x, v, a);
    ParseStarts(m, f, b, s, x', v', a');
    ParseStarts(m, g, mid, v, y, u, z);
    ParseStarts(m, g, mid, v', y', u', z');
    if Prefers(f, x, x') {
      Preferred(m, f, b, s, x, v, a, x', v', a');
      Leads(tr + [end], a, Config(mid, v.pos), z, end);
      Leads(tr' + [end'], a', Config(mid, v'.pos), z', end');
      BeforeWithin(m, [], a + [Config(mid, v.pos)], a' + [Config(mid, v'.pos)], (z + [end])[1..], (z' + [end'])[1..]);
    } else {
      SameParse(m, f, b, s, x, v, a, v', a');
      Preferred(m, g, mid, v, y, u, z, y', u', z');
      BeforeWithin(m, a, z + [end], z' + [end'], [], []);
      Trimmed(a, z, end);
      Trimmed(a, z', end');
    }
  }

  lemma {:induction false} Trimmed(a: Path, z: Path, end: Config)
    ensures a + (z + [end]) + [] == a + z + [end]
  {
  }

  lemma {:induction false} PreferredAlt(m: Machine, f: Regex, g: Regex, b: nat, s: State, t: Tree, u: State, tr: Path, t': Tree, u': State, tr': Path)
    requires WellFormed(m.prog) && Parsed(f) && Parsed(g) && Holds(m, b, AltCode(f, g, b)) && s.pos <= |m.text|
    requires Spells(m, Alt(f, g), b, s, t, u, tr) && Spells(m, Alt(f, g), b, s, t', u', tr')
    requires t.Pick? && t'.Pick? &&
      ((!t.right && t'.right) || (t.right == t'.right && Prefers(if t.right then g else f, t.t, t'.t)))
    ensures Before(m, tr + [Config(b + Len(f) + Len(g) + 2, u.pos)], tr' + [Config(b + Len(f) + Len(g) + 2, u'.pos)])
    decreases Alt(f, g), 0, 0
  {
    hide *;
    AltParts(m, f, g, b);
    var other := b + 2 + Len(f);
    var x, a := OpenAlt(m, f, g, b, s, t, u, tr);
    var x', a' := OpenAlt(m, f, g, b, s, t', u', tr');
    var c := Config(b, s.pos);
    var end, end' := [Config(other + Len(g), u.pos)], [Config(other + Len(g), u'.pos)];
    var d, d' := [Config(b + 1 + Len(f), u.pos)], [Config(b + 1 + Len(f), u'.pos)];
    if !t.right {
      ParseStarts(m, f, b + 1, s, x, u, a);
      Regroup([c], a, d, end);
      if t'.right {
        ParseStarts(m, g, other, s, x', u', a');
        BoundsAt(m, b, s);
        FirstOf(a, d, end);
        ForkBefore(m, c, b + 1, other, a + d + end, a' + end');
        Regrouped(c, a, d, end);
        Regrouped(c, a', [], end');
      } else {
        Preferred(m, f, b + 1, s, x, u, a, x', u', a');
        BeforeWithin(m, [c], a + d, a' + d', end, end');
        Regroup([c], a', d', end');
      }
    } else {
      Preferred(m, g, other, s, x, u, a, x', u', a');
      BeforeWithin(m, [c], a + end, a' + end', [], []);
      Regrouped(c, a, [], end);
      Regrouped(c, a', [], end');
      NoMore([c] + (a + end));
      NoMore([c] + (a' + end'));
    }
  }

  lemma {:induction false} BoundsAt(m: Machine, b: nat, s: State)
    requires b < |m.prog| && s.pos <= |m.text|
    ensures InBounds(m, Config(b, s.pos))
  {
  }

  lemma {:induction false} FirstOf(a: Path, d: Path, z: Path)
    requires |d| > 0
    ensures |a + d| > 0 && (a + d + z)[0] == (a + d)[0]
  {
  }

  lemma {:induction false} Regrouped(c: Config, a: Path, d: Path, z: Path)
    ensures [c] + (a + d + z) == [c] + a + d + z
    ensures d == [] ==> [c] + (a + z) == [c] + a + d + z
  {
  }

  lemma {:induction false} PreferredOpt(m: Machine, e: Regex, lazy: bool, b: nat, s: State, t: Tree, u: State, tr: Path, t': Tree, u': State, tr': Path)
    requires WellFormed(m.prog) && Parsed(e) && Len(e) > 0 && Holds(m, b, OptCode(e, lazy, b)) && s.pos <= |m.text|
    requires SpellsOpt(m, e, b, s, t, u, tr) && SpellsOpt(m, e, b, s, t', u', tr') && PrefersOpt(e, lazy, t, t')
    ensures Before(m, tr + [Config(b + Len(e) + 1, u.pos)], tr' + [Config(b + Len(e) + 1, u'.pos)])
    decreases e, 2
  {
    hide *;
    OptChoice(e, lazy, t, t');
    OptParts(m, e, lazy, b);
    var leave := b + 1 + Len(e);
    ForkIs(b + 1, leave, lazy);
    BoundsAt(m, b, s);
    var a := OpenOpt(m, e, b, s, t, u, tr);
    var a' := OpenOpt(m, e, b, s, t', u', tr');
    var c, end, end' := Config(b, s.pos), [Config(leave, u.pos)], [Config(leave, u'.pos)];
    OptStarts(m, e, lazy, b, s, t, u, a);
    OptStarts(m, e, lazy, b, s, t', u', a');
    Outer([c], a, end);
    Outer([c], a', end');
    if t.Take? && t'.Take? {
      Preferred(m, e, b + 1, s, t.t, u, a, t'.t, u', a');
      BeforeWithin(m, [c], a + end, a' + end', [], []);
      NoMore([c] + (a + end));
      NoMore([c] + (a' + end'));
    } else if lazy {
      ForkBefore(m, c, leave, b + 1, a + end, a' + end');
    } else {
      ForkBefore(m, c, b + 1, leave, a + end, a' + end');
    }
  }

  /** After the SPLIT of an optional: into the body, or out. */
  lemma {:induction false} OptStarts(m: Machine, e: Regex, lazy: bool, b: nat, s: State, tree: Tree, t: State, a: Path)
    requires WellFormed(m.prog) && Parsed(e) && Holds(m, b, OptCode(e, lazy, b)) && s.pos <= |m.text|
    requires if tree.Take? then Spells(m, e, b + 1, s, tree.t, t, a) else a == [] && s == t
    ensures (a + [Config(b + 1 + Len(e), t.pos)])[0] == Config(if tree.Take? then b + 1 else b + 1 + Len(e), s.pos)
  {
    hide *;
    OptParts(m, e, lazy, b);
    if tree.Take? { ParseStarts(m, e, b + 1, s, tree.t, t, a); }
  }

  lemma {:induction false} OptChoice(e: Regex, lazy: bool, t: Tree, t': Tree)
    requires PrefersOpt(e, lazy, t, t')
    ensures t.Take? && t'.Take? ==> Prefers(e, t.t, t'.t)
    ensures !(t.Take? && t'.Take?) ==> if lazy then t.Skip? && t'.Take? else t.Take? && t'.Skip?
  {
  }

  lemma {:induction false} ChainChoice(e: Regex, lazy: bool, t: Tree, t': Tree)
    requires PrefersChain(e, lazy, t, t')
    ensures t.More? && t'.More? ==>
      Prefers(e, t.head, t'.head) || (t.head == t'.head && PrefersChain(e, lazy, t.tail, t'.tail))
    ensures !(t.More? && t'.More?) ==> if lazy then t.Done? && t'.More? else t.More? && t'.Done?
  {
  }

  lemma {:induction false} PreferredStar(m: Machine, e: Regex, lazy: bool, b: nat, s: State, t: Tree, u: State, tr: Path, t': Tree, u': State, tr': Path)
    requires WellFormed(m.prog) && Parsed(e) && Len(e) > 0 && Holds(m, b, StarCode(e, lazy, b)) && s.pos <= |m.text|
    requires SpellsStar(m, e, b, s, t, u, tr) && SpellsStar(m, e, b, s, t', u', tr') && PrefersChain(e, lazy, t, t')
    ensures Before(m, tr + [Config(b + Len(e) + 2, u.pos)], tr' + [Config(b + Len(e) + 2, u'.pos)])
    decreases e, 2, t
  {
    hide *;
    ChainChoice(e, lazy, t, t');
    StarParts(m, e, lazy, b);
    var leave, jump := b + 2 + Len(e), b + 1 + Len(e);
    ForkIs(b + 1, leave, lazy);
    BoundsAt(m, b, s);
    var v, a, z := OpenStar(m, e, b, s, t, u, tr);
    var v', a', z' := OpenStar(m, e, b, s, t', u', tr');
    var c, end, end' := Config(b, s.pos), [Config(leave, u.pos)], [Config(leave, u'.pos)];
    var d, d' := [Config(jump, v.pos)], [Config(jump, v'.pos)];
    if t.More? && t'.More? {
      Spread(c, a, d, z, end);
      Spread(c, a', d', z', end');
      if Prefers(e, t.head, t'.head) {
        Preferred(m, e, b + 1, s, t.head, v, a, t'.head, v', a');
        BeforeWithin(m, [c], a + d, a' + d', z + end, z' + end');
      } else {
        SameParse(m, e, b + 1, s, t.head, v, a, v', a');
        ParseStarts(m, e, b + 1, s, t.head, v, a);
        PreferredStar(m, e, lazy, b, v, t.tail, u, z, t'.tail, u', z');
        BeforeWithin(m, [c] + a + d, z + end, z' + end', [], []);
        NoMore([c] + a + d + (z + end));
        NoMore([c] + a + d + (z' + end'));
      }
    } else {
      StarForks(m, e, lazy, b, s, t, u, tr, t', u', tr');
    }
  }

  lemma {:induction false} Spread(c: Config, a: Path, d: Path, z: Path, end: Path)
    ensures [c] + a + d + z + end == [c] + (a + d) + (z + end)
    ensures [c] + a + d + z + end == [c] + a + d + (z + end)
    ensures [c] + a + d + z + end == [c] + (a + d + (z + end))
  {
  }

  /** One goes round, the other leaves. */
  lemma {:induction false} StarForks(m: Machine, e: Regex, lazy: bool, b: nat, s: State, t: Tree, u: State, tr: Path, t': Tree, u': State, tr': Path)
    requires WellFormed(m.prog) && Parsed(e) && Len(e) > 0 && Holds(m, b, StarCode(e, lazy, b)) && s.pos <= |m.text|
    requires SpellsStar(m, e, b, s, t, u, tr) && SpellsStar(m, e, b, s, t', u', tr')
    requires if lazy then t.Done? && t'.More? else t.More? && t'.Done?
    ensures Before(m, tr + [Config(b + Len(e) + 2, u.pos)], tr' + [Config(b + Len(e) + 2, u'.pos)])
  {
    hide *;
    StarParts(m, e, lazy, b);
    var leave := b + 2 + Len(e);
    ForkIs(b + 1, leave, lazy);
    BoundsAt(m, b, s);
    var c := Config(b, s.pos);
    var p := StarAfter(m, e, lazy, b, s, t, u, tr);
    var p' := StarAfter(m, e, lazy, b, s, t', u', tr');
    if lazy {
      ForkBefore(m, c, leave, b + 1, p, p');
    } else {
      ForkBefore(m, c, b + 1, leave, p, p');
    }
  }

  /** What follows the SPLIT of a star: its body, or the way out. */
  lemma {:induction false} StarAfter(m: Machine, e: Regex, lazy: bool, b: nat, s: State, t: Tree, u: State, tr: Path) returns (p: Path)
    requires WellFormed(m.prog) && Parsed(e) && Holds(m, b, StarCode(e, lazy, b)) && s.pos <= |m.text|
    requires SpellsStar(m, e, b, s, t, u, tr)
    ensures |p| > 0 && tr + [Config(b + Len(e) + 2, u.pos)] == [Config(b, s.pos)] + p
    ensures p[0] == Config(if t.More? then b + 1 else b + Len(e) + 2, s.pos)
  {
    hide *;
    StarParts(m, e, lazy, b);
    var v, a, z := OpenStar(m, e, b, s, t, u, tr);
    var end := [Config(b + Len(e) + 2, u.pos)];
    if t.More? {
      var d := [Config(b + 1 + Len(e), v.pos)];
      Spread(Config(b, s.pos), a, d, z, end);
      ParseStarts(m, e, b + 1, s, t.head, v, a);
      FirstOf(a, d, z + end);
      p := a + d + (z + end);
    } else {
      p := end;
    }
  }

  lemma {:induction false} Outer(p: Path, z: Path, end: Path)
    ensures p + z + end == p + (z + end)
  {
  }

  lemma {:induction false} PreferredPlus(m: Machine, e: Regex, lazy: bool, b: nat, s: State, t: Tree, u: State, tr: Path, t': Tree, u': State, tr': Path)
    requires WellFormed(m.prog) && Parsed(e) && Len(e) > 0 && Holds(m, b, PlusCode(e, lazy, b)) && s.pos <= |m.text|
    requires t.More? && t'.More?
    requires SpellsPlus(m, e, b, s, t, u, tr) && SpellsPlus(m, e, b, s, t', u', tr') && PrefersChain(e, lazy, t, t')
    ensures Before(m, tr + [Config(b + Len(e) + 1, u.pos)], tr' + [Config(b + Len(e) + 1, u'.pos)])
    decreases e, 2, t
  {
    hide *;
    ChainChoice(e, lazy, t, t');
    PlusParts(m, e, lazy, b);
    var leave, fork := b + 1 + Len(e), b + Len(e);
    ForkIs(b, leave, lazy);
    var v, a, z := OpenPlus(m, e, b, s, t, u, tr);
    var v', a', z' := OpenPlus(m, e, b, s, t', u', tr');
    var end, end' := [Config(leave, u.pos)], [Config(leave, u'.pos)];
    var d, d' := Config(fork, v.pos), Config(fork, v'.pos);
    ParseStarts(m, e, b, s, t.head, v, a);
    ParseStarts(m, e, b, s, t'.head, v', a');
    Outer(a + [d], z, end);
    Outer(a' + [d'], z', end');
    if Prefers(e, t.head, t'.head) {
      Preferred(m, e, b, s, t.head, v, a, t'.head, v', a');
      BeforeWithin(m, [], a + [d], a' + [d'], z + end, z' + end');
      NoneFirst(a + [d]);
      NoneFirst(a' + [d']);
    } else {
      SameParse(m, e, b, s, t.head, v, a, v', a');
      BoundsAt(m, fork, v);
      TailChoice(e, lazy, t, t');
      PlusTail(m, e, lazy, b, v, t.tail, u, z);
      PlusTail(m, e, lazy, b, v, t'.tail, u', z');
      if t.tail.More? && t'.tail.More? {
        PreferredPlus(m, e, lazy, b, v, t.tail, u, z, t'.tail, u', z');
        BeforeWithin(m, a + [d], z + end, z' + end', [], []);
        NoMore(a + [d] + (z + end));
        NoMore(a + [d] + (z' + end'));
      } else {
        if lazy {
          ForkBefore(m, d, leave, b, z + end, z' + end');
        } else {
          ForkBefore(m, d, b, leave, z + end, z' + end');
        }
        BeforeWithin(m, a, [d] + (z + end), [d] + (z' + end'), [], []);
        NoMore(a + ([d] + (z + end)));
        NoMore(a + ([d] + (z' + end')));
        Outer(a, [d], z + end);
        Outer(a, [d], z' + end');
      }
    }
  }

  lemma {:induction false} NoneFirst(p: Path)
    ensures [] + p == p
  {
  }

  lemma {:induction false} TailChoice(e: Regex, lazy: bool, t: Tree, t': Tree)
    requires PrefersChain(e, lazy, t, t') && t.More? && t'.More? && !Prefers(e, t.head, t'.head)
    ensures t.head == t'.head && PrefersChain(e, lazy, t.tail, t'.tail)
    ensures !(t.tail.More? && t'.tail.More?) ==>
      if lazy then t.tail.Done? && t'.tail.More? else t.tail.More? && t'.tail.Done?
  {
  }

  /** After a repetition of a +: out, or round again. */
  lemma {:induction false} PlusTail(m: Machine, e: Regex, lazy: bool, b: nat, v: State, tail: Tree, u: State, z: Path)
    requires WellFormed(m.prog) && Parsed(e) && Holds(m, b, PlusCode(e, lazy, b)) && v.pos <= |m.text|
    requires SpellsPlus(m, e, b, v, tail, u, z) && (tail.Done? || tail.More?)
    ensures tail.Done? ==> z == [] && u == v && (z + [Config(b + 1 + Len(e), u.pos)])[0] == Config(b + 1 + Len(e), v.pos)
    ensures tail.More? ==> (z + [Config(b + 1 + Len(e), u.pos)])[0] == Config(b, v.pos)
  {
    hide *;
    if tail.More? {
      CompletePlus(m, e, lazy, b, v, tail, u, z);
      RunStarts(m, b, b + Len(e) + 1, z, b, v, b + Len(e) + 1, u);
    } else {
      PlusOver(m, e, b, v, tail, u, z);
    }
  }

  lemma {:induction false} PlusOver(m: Machine, e: Regex, b: nat, v: State, tail: Tree, u: State, z: Path)
    requires SpellsPlus(m, e, b, v, tail, u, z) && tail.Done?
    ensures z == [] && u == v
  {
  }

  lemma {:induction false} CountChoice(e: Regex, min: nat, extra: Option<nat>, lazy: bool, t: Tree, t': Tree)
    requires PrefersCount(e, min, extra, lazy, t, t')
    ensures min > 0 ==>
      && t.More? && t'.More?
      && (Prefers(e, t.head, t'.head) || (t.head == t'.head && PrefersCount(e, min - 1, extra, lazy, t.tail, t'.tail)))
    ensures min == 0 && extra.None? ==> PrefersChain(e, lazy, t, t')
    ensures min == 0 && extra.Some? ==>
      && extra.value > 0 && t.More? && t'.More?
      && (PrefersOpt(e, lazy, t.head, t'.head) ||
          (t.head == t'.head && PrefersCount(e, 0, Some(extra.value - 1), lazy, t.tail, t'.tail)))
  {
  }

  lemma {:induction false} CountStartsAt(m: Machine, e: Regex, min: nat, extra: Option<nat>, lazy: bool, b: nat, s: State, tree: Tree, t: State, tr: Path)
    requires WellFormed(m.prog) && Parsed(e) && Holds(m, b, CountCode(e, min, extra, lazy, b)) && s.pos <= |m.text|
    requires SpellsCount(m, e, min, extra, b, s, tree, t, tr)
    ensures (tr + [Config(b + CountLen(Len(e), min, extra), t.pos)])[0] == Config(b, s.pos)
  {
    hide *;
    var hi := b + CountLen(Len(e), min, extra);
    CompleteCount(m, e, min, extra, lazy, b, s, tree, t, tr);
    RunStarts(m, b, hi, tr, b, s, hi, t);
  }

  lemma {:induction false} OptEndsInside(m: Machine, e: Regex, lazy: bool, b: nat, s: State, tree: Tree, t: State, tr: Path)
    requires WellFormed(m.prog) && Parsed(e) && Holds(m, b, OptCode(e, lazy, b)) && s.pos <= |m.text|
    requires SpellsOpt(m, e, b, s, tree, t, tr)
    ensures t.pos <= |m.text|
  {
    hide *;
    CompleteOpt(m, e, lazy, b, s, tree, t, tr);
  }

  lemma {:induction false} SameOpt(m: Machine, e: Regex, b: nat, s: State, tree: Tree, t: State, tr: Path, t': State, tr': Path)
    requires SpellsOpt(m, e, b, s, tree, t, tr) && SpellsOpt(m, e, b, s, tree, t', tr')
    ensures t == t' && tr == tr'
  {
  }

  lemma {:induction false} PreferredCount(m: Machine, e: Regex, min: nat, extra: Option<nat>, lazy: bool, b: nat, s: State, t: Tree, u: State, tr: Path, t': Tree, u': State, tr': Path)
    requires WellFormed(m.prog) && Parsed(e) && Len(e) > 0 && Holds(m, b, CountCode(e, min, extra, lazy, b)) && s.pos <= |m.text|
    requires SpellsCount(m, e, min, extra, b, s, t, u, tr) && SpellsCount(m, e, min, extra, b, s, t', u', tr')
    requires PrefersCount(e, min, extra, lazy, t, t')
    ensures
      var hi := b + CountLen(Len(e), min, extra);
      Before(m, tr + [Config(hi, u.pos)], tr' + [Config(hi, u'.pos)])
    decreases e, 3, min, if extra.Some? then extra.value else 0
  {
    hide *;
    CountChoice(e, min, extra, lazy, t, t');
    CountParts(m, e, min, extra, lazy, b);
    CountLenIs(Len(e), min, extra);
    var v, a, z := OpenCount(m, e, min, extra, b, s, t, u, tr);
    var v', a', z' := OpenCount(m, e, min, extra, b, s, t', u', tr');
    if min > 0 {
      var mid := b + Len(e);
      ParseStarts(m, e, b, s, t.head, v, a);
      ParseStarts(m, e, b, s, t'.head, v', a');
      if Prefers(e, t.head, t'.head) {
        Preferred(m, e, b, s, t.head, v, a, t'.head, v', a');
        HeadDecides(m, e, min - 1, extra, lazy, mid, v, t.tail, u, a, z, v', t'.tail, u', a', z');
      } else {
        SameParse(m, e, b, s, t.head, v, a, v', a');
        PreferredCount(m, e, min - 1, extra, lazy, mid, v, t.tail, u, z, t'.tail, u', z');
        TailDecides(m, a, z, z', Config(mid + CountLen(Len(e), min - 1, extra), u.pos), Config(mid + CountLen(Len(e), min - 1, extra), u'.pos));
      }
    } else if extra.None? {
      PreferredStar(m, e, lazy, b, s, t, u, tr, t', u', tr');
    } else {
      var mid, rest := b + Len(e) + 1, Some(extra.value - 1);
      OptEndsInside(m, e, lazy, b, s, t.head, v, a);
      OptEndsInside(m, e, lazy, b, s, t'.head, v', a');
      if PrefersOpt(e, lazy, t.head, t'.head) {
        PreferredOpt(m, e, lazy, b, s, t.head, v, a, t'.head, v', a');
        HeadDecides(m, e, 0, rest, lazy, mid, v, t.tail, u, a, z, v', t'.tail, u', a', z');
      } else {
        SameOpt(m, e, b, s, t.head, v, a, v', a');
        PreferredCount(m, e, 0, rest, lazy, mid, v, t.tail, u, z, t'.tail, u', z');
        TailDecides(m, a, z, z', Config(mid + CountLen(Len(e), 0, rest), u.pos), Config(mid + CountLen(Len(e), 0, rest), u'.pos));
      }
    }
  }

  /** The heads part: whatever follows does not matter. */
  lemma {:induction false} HeadDecides(m: Machine, e: Regex, min: nat, extra: Option<nat>, lazy: bool, mid: nat,
                    v: State, t: Tree, u: State, a: Path, z: Path, v': State, t': Tree, u': State, a': Path, z': Path)
    requires WellFormed(m.prog) && Parsed(e) && Holds(m, mid, CountCode(e, min, extra, lazy, mid))
    requires v.pos <= |m.text| && v'.pos <= |m.text|
    requires SpellsCount(m, e, min, extra, mid, v, t, u, z) && SpellsCount(m, e, min, extra, mid, v', t', u', z')
    requires Before(m, a + [Config(mid, v.pos)], a' + [Config(mid, v'.pos)])
    ensures
      var hi := mid + CountLen(Len(e), min, extra);
      Before(m, a + z + [Config(hi, u.pos)], a' + z' + [Config(hi, u'.pos)])
  {
    hide *;
    var hi := mid + CountLen(Len(e), min, extra);
    var end, end' := Config(hi, u.pos), Config(hi, u'.pos);
    CountStartsAt(m, e, min, extra, lazy, mid, v, t, u, z);
    CountStartsAt(m, e, min, extra, lazy, mid, v', t', u', z');
    Leads(a + z + [end], a, Config(mid, v.pos), z, end);
    Leads(a' + z' + [end'], a', Config(mid, v'.pos), z', end');
    BeforeWithin(m, [], a + [Config(mid, v.pos)], a' + [Config(mid, v'.pos)], (z + [end])[1..], (z' + [end'])[1..]);
  }

  /** The heads are the same: what follows decides. */
  lemma {:induction false} TailDecides(m: Machine, a: Path, z: Path, z': Path, end: Config, end': Config)
    requires WellFormed(m.prog) && Before(m, z + [end], z' + [end'])
    ensures Before(m, a + z + [end], a + z' + [end'])
  {
    hide *;
    BeforeWithin(m, a, z + [end], z' + [end'], [], []);
    Trimmed(a, z, end);
    Trimmed(a, z', end');
  }
}
