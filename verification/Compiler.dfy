/** The one-pass emitter: one growing program, bodies shifted and copied in place, targets fixed up. */
module Compiler {
  import opened Basics
  import opened Machine
  import opened Regex
  import opened Limits

  const MAX_DEPTH: nat := 256
  const MAX_JUMPS: nat := 64
  const MAX_REPEAT: nat := 255

  datatype Quantifier = Maybe | Many | Some1

  function Quantified(e: Regex, q: Quantifier, lazy: bool): Regex {
    match q
    case Maybe => Opt(e, lazy)
    case Many => Star(e, lazy)
    case Some1 => Plus(e, lazy)
  }

  // ---- what the emitter can hold ----

  const PROGRAM_LIMIT := MAX_INSTRS - 8

  function Max(a: nat, b: nat): nat {
    if a >= b then a else b
  }

  /** How far the program grows, at its longest, while e is being emitted. */
  function Room(e: Regex): (r: nat)
    ensures Len(e) <= r
  {
    match e
    case Empty => 0
    case Op(_) => 1
    case Group(_, f) => Room(f) + 2
    case Cat(a, b) => Max(Room(a), Len(a) + Room(b))
    case Alt(a, b) => Max(Room(a) + 1, Len(a) + 2 + Room(b))
    case Opt(f, _) => Max(Room(f), Len(f) + 1)
    case Star(f, _) => Max(Room(f), Len(f) + 2)
    case Plus(f, _) => Max(Room(f), Len(f) + 1)
    case Count(f, min, extra, _) => Max(Room(f), CountLen(Len(f), min, extra))
  }

  function Bars(e: Regex): nat {
    if e.Alt? then 1 + Bars(e.b) else 0
  }

  /** At most 16 groups, 64 bars in a chain, 255 repetitions. */
  predicate Fits(e: Regex) {
    match e
    case Empty => true
    case Op(_) => true
    case Group(id, f) => 0 < id < MAX_GROUPS && Fits(f)
    case Cat(a, b) => Fits(a) && Fits(b)
    case Alt(a, b) => Bars(e) <= MAX_JUMPS && Fits(a) && Fits(b)
    case Opt(f, _) => Fits(f)
    case Star(f, _) => Fits(f)
    case Plus(f, _) => Fits(f)
    case Count(f, min, extra, _) => Fits(f) && (extra.Some? ==> min + extra.value <= MAX_REPEAT)
  }

  /** How many expressions are open at once while e is parsed as an expression, a concatenation and so on. */
  function ExprNest(e: Regex): nat
    decreases e, 4
  {
    1 + AltNest(e)
  }

  function AltNest(e: Regex): nat
    decreases e, 3
  {
    if e.Alt? then Max(ConcatNest(e.a), AltNest(e.b)) else ConcatNest(e)
  }

  function ConcatNest(e: Regex): nat
    decreases e, if e.Alt? then 7 else 2
  {
    if e.Cat? then Max(PieceNest(e.a), ConcatNest(e.b)) else if e.Empty? then 0 else PieceNest(e)
  }

  function PieceNest(e: Regex): nat
    decreases e, if e.Cat? || e.Alt? || e.Empty? then 6 else 1
  {
    match e
    case Opt(f, _) => AtomNest(f)
    case Star(f, _) => AtomNest(f)
    case Plus(f, _) => AtomNest(f)
    case Count(f, _, _, _) => AtomNest(f)
    case _ => AtomNest(e)
  }

  function AtomNest(e: Regex): nat
    decreases e, if e.Op? || e.Group? then 0 else 5
  {
    match e
    case Op(_) => 0
    case Group(_, f) => ExprNest(f)
    case _ => ExprNest(e)
  }

  // ---- enough room left at length n and nesting depth to emit e ----

  ghost predicate AtomFits(n: nat, depth: nat, e: Regex) {
    n + Room(e) <= PROGRAM_LIMIT && Fits(e) && depth + AtomNest(e) <= MAX_DEPTH
  }

  ghost predicate PieceFits(n: nat, depth: nat, e: Regex) {
    n + Room(e) <= PROGRAM_LIMIT && Fits(e) && depth + PieceNest(e) <= MAX_DEPTH
  }

  ghost predicate ConcatFits(n: nat, depth: nat, e: Regex) {
    n + Room(e) <= PROGRAM_LIMIT && Fits(e) && depth + ConcatNest(e) <= MAX_DEPTH
  }

  ghost predicate ExprFits(n: nat, depth: nat, e: Regex) {
    n + Room(e) <= PROGRAM_LIMIT && Fits(e) && depth + ExprNest(e) <= MAX_DEPTH
  }

  ghost predicate AltFits(n: nat, depth: nat, e: Regex) {
    n + Room(e) <= PROGRAM_LIMIT && Fits(e) && depth + AltNest(e) <= MAX_DEPTH
  }

  /** e is within every limit but the size of the program, so many expressions being open already. */
  ghost predicate Kept(depth: nat, nest: nat, e: Regex) {
    Fits(e) && depth + nest <= Max(depth, MAX_DEPTH)
  }

  /** So is the alternative being written when rest is what is left of an alternation. */
  ghost predicate BranchKept(depth: nat, rest: Regex) {
    var e := if rest.Alt? then rest.a else rest;
    Kept(depth, ConcatNest(e), e)
  }

  lemma {:induction false} PieceKept(depth: nat, e: Regex)
    ensures
      match e
      case Opt(f, _) => Kept(depth, AtomNest(f), f) ==> Kept(depth, PieceNest(e), e)
      case Star(f, _) => Kept(depth, AtomNest(f), f) ==> Kept(depth, PieceNest(e), e)
      case Plus(f, _) => Kept(depth, AtomNest(f), f) ==> Kept(depth, PieceNest(e), e)
      case Count(f, min, extra, _) =>
        Kept(depth, AtomNest(f), f) && (extra.Some? ==> min + extra.value <= MAX_REPEAT) ==> Kept(depth, PieceNest(e), e)
      case _ => Kept(depth, AtomNest(e), e) ==> Kept(depth, PieceNest(e), e)
  {
  }

  lemma {:induction false} ConcatKept(depth: nat, e: Regex)
    ensures e.Cat? && Kept(depth, PieceNest(e.a), e.a) && Kept(depth, ConcatNest(e.b), e.b) ==> Kept(depth, ConcatNest(e), e)
    ensures e.Empty? || (!e.Cat? && Kept(depth, PieceNest(e), e)) ==> Kept(depth, ConcatNest(e), e)
  {
  }

  lemma {:induction false} AltKept(depth: nat, e: Regex)
    ensures e.Alt? ==> Bars(e) == 1 + Bars(e.b)
    ensures e.Alt? && Bars(e) <= MAX_JUMPS && BranchKept(depth, e) && Kept(depth, AltNest(e.b), e.b) ==> Kept(depth, AltNest(e), e)
    ensures !e.Alt? ==> Bars(e) == 0 && (BranchKept(depth, e) ==> Kept(depth, AltNest(e), e)) && (BranchKept(depth, e) <==> Kept(depth, ConcatNest(e), e))
    ensures e.Alt? ==> (BranchKept(depth, e) <==> Kept(depth, ConcatNest(e.a), e.a))
  {
  }

  lemma {:induction false} PieceParts(e: Regex)
    ensures e.Opt? ==> Quantified(e.e, Maybe, e.lazy) == e
    ensures e.Star? ==> Quantified(e.e, Many, e.lazy) == e
    ensures e.Plus? ==> Quantified(e.e, Some1, e.lazy) == e
    ensures (e.Opt? || e.Star? || e.Plus? || e.Count?) ==>
      (Parsed(e) ==> Parsed(e.e)) && PieceNest(e) == AtomNest(e.e)
    ensures e.Opt? || e.Star? || e.Plus? ==> (Fits(e) <==> Fits(e.e))
    ensures !(e.Opt? || e.Star? || e.Plus? || e.Count?) ==> PieceNest(e) == AtomNest(e)
  {
  }

  ghost predicate CountedFits(n: nat, depth: nat, f: Regex, min: nat, extra: Option<nat>) {
    && AtomFits(n, depth, f) && (extra.Some? ==> min + extra.value <= MAX_REPEAT)
    && n + CountLen(Len(f), min, extra) <= PROGRAM_LIMIT && n + Len(f) <= PROGRAM_LIMIT
  }

  lemma {:induction false} PieceFitsOn(n: nat, depth: nat, e: Regex)
    requires PieceFits(n, depth, e)
    ensures
      match e
      case Count(f, min, extra, _) =>
        CountedFits(n, depth, f, min, extra)
      case Opt(f, _) => AtomFits(n, depth, f) && n + Len(f) + 4 <= MAX_INSTRS
      case Star(f, _) => AtomFits(n, depth, f) && n + Len(f) + 4 <= MAX_INSTRS
      case Plus(f, _) => AtomFits(n, depth, f) && n + Len(f) + 4 <= MAX_INSTRS
      case _ => AtomFits(n, depth, e)
  {
    hide CountLen;
  }

  lemma {:induction false} ConcatFitsOn(n: nat, depth: nat, e: Regex)
    requires ConcatFits(n, depth, e)
    ensures e.Cat? ==> PieceFits(n, depth, e.a) && ConcatFits(n + Len(e.a), depth, e.b)
    ensures !e.Cat? && !e.Empty? ==> PieceFits(n, depth, e)
  {
  }

  lemma {:induction false} AltFitsOn(n: nat, depth: nat, e: Regex)
    requires AltFits(n, depth, e)
    ensures e.Alt? ==> ConcatFits(n, depth, e.a) && AltFits(n + Len(e.a) + 2, depth, e.b)
    ensures e.Alt? ==> n + Len(e.a) + 4 <= MAX_INSTRS - 4 && 1 + Bars(e.b) == Bars(e) <= MAX_JUMPS
    ensures !e.Alt? ==> ConcatFits(n, depth, e) && Bars(e) == 0
  {
  }

  // ---- what the two fix-up passes do to a program ----

  function Bump(t: nat, oldPos: nat, shift: nat, moved: bool): nat {
    if (moved && t >= oldPos) || (!moved && t > oldPos) then t + shift else t
  }

  function Bumped(i: Instr, oldPos: nat, shift: nat, moved: bool): Instr {
    match i
    case Jump(t) => Jump(Bump(t, oldPos, shift, moved))
    case Split(a, b) => Split(Bump(a, oldPos, shift, moved), Bump(b, oldPos, shift, moved))
    case _ => i
  }

  function AfterShift(i: Instr, at: nat, oldPos: nat, shift: nat): Instr {
    if oldPos <= at < oldPos + shift then i else Bumped(i, oldPos, shift, at >= oldPos + shift)
  }

  function CopyTarget(t: nat, src: nat, end: nat, dst: nat): nat
    requires src <= dst
  {
    if src <= t <= end then t + (dst - src) else t
  }

  function AfterCopy(i: Instr, src: nat, end: nat, dst: nat): Instr
    requires src <= dst
  {
    match i
    case Jump(t) => Jump(CopyTarget(t, src, end, dst))
    case Split(a, b) => Split(CopyTarget(a, src, end, dst), CopyTarget(b, src, end, dst))
    case _ => i
  }

  /** No instruction so far points past the end of what is emitted. */
  ghost predicate Settled(prog: seq<Instr>) {
    forall k :: 0 <= k < |prog| ==> TargetsIn(prog[k], 0, |prog|)
  }

  lemma {:induction false} SettledAppend(p: seq<Instr>, c: seq<Instr>)
    requires Settled(p) && Contained(c, |p|, |p| + |c|)
    ensures Settled(p + c)
  {
    forall k | 0 <= k < |p + c| ensures TargetsIn((p + c)[k], 0, |p + c|) {
      if k >= |p| { assert (p + c)[k] == c[k - |p|]; }
    }
  }

  lemma {:induction false} SettledCode(p: seq<Instr>, e: Regex)
    requires Settled(p) && Parsed(e)
    ensures Settled(p + Code(e, |p|))
  {
    var n, c := |p|, Code(e, |p|);
    hide *;
    CodeContained(e, n, n, n + Len(e));
    SettledAppend(p, c);
  }

  lemma {:induction false} SettledAt(p: seq<Instr>, k: nat)
    requires Settled(p) && k < |p|
    ensures TargetsIn(p[k], 0, |p|)
  {
  }

  lemma {:induction false} ContainedAt(c: seq<Instr>, lo: nat, hi: nat, k: nat)
    requires Contained(c, lo, hi) && k < |c|
    ensures TargetsIn(c[k], lo, hi)
  {
  }

  lemma {:induction false} MoveAllAt(c: seq<Instr>, from: nat, to: nat)
    ensures |MoveAll(c, from, to)| == |c| && forall k :: 0 <= k < |c| ==> MoveAll(c, from, to)[k] == Moved(c[k], from, to)
  {
    hide Moved;
  }

  lemma {:induction false} ShiftedBefore(i: Instr, at: nat, n: nat)
    requires TargetsIn(i, 0, n) && at < n
    ensures AfterShift(i, at, n, 1) == i
  {
  }

  lemma {:induction false} ShiftedBody(i: Instr, at: nat, n: nat, hi: nat)
    requires TargetsIn(i, n, hi) && at > n
    ensures AfterShift(i, at, n, 1) == Moved(i, n, n + 1)
  {
  }

  lemma {:induction false} ShiftedPrefix(p: seq<Instr>, was: seq<Instr>, now: seq<Instr>)
    requires Settled(p) && |was| == |now| >= |p| && was[..|p|] == p
    requires forall k :: 0 <= k < |was| ==> now[k] == AfterShift(was[k], k, |p|, 1)
    ensures now[..|p|] == p
  {
    hide *;
    forall k | 0 <= k < |p| ensures now[k] == p[k] {
      assert was[k] == was[..|p|][k];
      SettledAt(p, k);
      ShiftedBefore(p[k], k, |p|);
    }
  }

  lemma {:induction false} ShiftedSuffix(n: nat, hi: nat, c: seq<Instr>, d: seq<Instr>, was: seq<Instr>, now: seq<Instr>)
    requires Contained(c, n, hi) && |was| == |now| == n + 1 + |c| && was[n + 1..] == c && d == MoveAll(c, n, n + 1)
    requires forall k :: 0 <= k < |was| ==> now[k] == AfterShift(was[k], k, n, 1)
    ensures now[n + 1..] == d
  {
    hide *;
    MoveAllAt(c, n, n + 1);
    forall k | 0 <= k < |c| ensures now[n + 1..][k] == d[k] {
      assert was[n + 1 + k] == was[n + 1..][k];
      ContainedAt(c, n, hi, k);
      ShiftedBody(c[k], n + 1 + k, n, hi);
    }
  }

  /** Shifting compiled code by one leaves the code of the same pattern one further on. */
  lemma {:induction false} ShiftedCode(p: seq<Instr>, e: Regex, was: seq<Instr>, now: seq<Instr>)
    requires Settled(p) && Parsed(e) && |was| == |now| == |p| + 1 + Len(e)
    requires was[..|p|] == p && was[|p| + 1..] == Code(e, |p|)
    requires forall k :: 0 <= k < |was| ==> now[k] == AfterShift(was[k], k, |p|, 1)
    ensures now[..|p|] == p && now[|p| + 1..] == Code(e, |p| + 1)
  {
    hide *;
    CodeContained(e, |p|, |p|, |p| + Len(e));
    CodeMoves(e, |p|, |p|, |p| + 1);
    ShiftedPrefix(p, was, now);
    ShiftedSuffix(|p|, |p| + Len(e), Code(e, |p|), Code(e, |p| + 1), was, now);
  }

  /** A copied body, fixed up, is the code of the same pattern at its new place. */
  lemma {:induction false} CopiedCode(e: Regex, src: nat, dst: nat, now: seq<Instr>)
    requires Parsed(e) && src <= dst && |now| == Len(e)
    requires forall k :: 0 <= k < |now| ==> now[k] == AfterCopy(Code(e, src)[k], src, src + Len(e), dst)
    ensures now == Code(e, dst)
  {
    hide Code;
    var c := Code(e, src);
    CodeContained(e, src, src, src + Len(e));
    CodeMoves(e, src, src, dst);
    var d := MoveAll(c, src, dst);
    forall k | 0 <= k < |c| ensures now[k] == d[k] {
      assert TargetsIn(c[k], src, src + Len(e));
    }
  }

  // ---- a counted repetition grows at its end ----

  lemma {:induction false} CountLenGrows(n: nat, min: nat, x: nat)
    ensures CountLen(n, min, Some(x + 1)) == CountLen(n, min, Some(x)) + n + 1
    ensures CountLen(n, min + 1, Some(0)) == CountLen(n, min, Some(0)) + n
    ensures CountLen(n, min, None) == CountLen(n, min, Some(0)) + n + 2
    decreases min + x
  {
    if min > 0 {
      CountLenGrows(n, min - 1, x);
    } else if x > 0 {
      CountLenGrows(n, 0, x - 1);
    }
  }

  lemma {:induction false} CountFirst(e: Regex, min: nat, extra: Option<nat>, lazy: bool, base: nat)
    requires min > 0
    ensures CountCode(e, min, extra, lazy, base) == Code(e, base) + CountCode(e, min - 1, extra, lazy, base + Len(e))
    ensures CountLen(Len(e), min, extra) == Len(e) + CountLen(Len(e), min - 1, extra)
  {
    hide *;
    CountCodeIs(e, min, extra, lazy, base);
    CountLenIs(Len(e), min, extra);
  }

  lemma {:induction false} CountFirstOptional(e: Regex, x: nat, lazy: bool, base: nat)
    requires x > 0
    ensures CountCode(e, 0, Some(x), lazy, base) ==
      OptCode(e, lazy, base) + CountCode(e, 0, Some(x - 1), lazy, base + Len(e) + 1)
    ensures CountLen(Len(e), 0, Some(x)) == Len(e) + 1 + CountLen(Len(e), 0, Some(x - 1))
  {
    hide *;
    CountCodeIs(e, 0, Some(x), lazy, base);
    CountLenIs(Len(e), 0, Some(x));
  }

  lemma {:induction false} CountNothing(e: Regex, lazy: bool, base: nat)
    ensures CountCode(e, 0, Some(0), lazy, base) == [] && CountLen(Len(e), 0, Some(0)) == 0
    ensures CountCode(e, 0, None, lazy, base) == StarCode(e, lazy, base)
  {
    hide *;
    CountCodeIs(e, 0, Some(0), lazy, base);
    CountCodeIs(e, 0, None, lazy, base);
    CountLenIs(Len(e), 0, Some(0));
    CountLenIs(Len(e), 0, None);
  }

  lemma {:induction false} Associate<T>(a: seq<T>, b: seq<T>, c: seq<T>)
    ensures a + (b + c) == (a + b) + c
  {
  }

  lemma {:induction false} CountGrowsOptional(e: Regex, min: nat, x: nat, lazy: bool, base: nat)
    ensures CountCode(e, min, Some(x + 1), lazy, base) ==
      CountCode(e, min, Some(x), lazy, base) + OptCode(e, lazy, base + CountLen(Len(e), min, Some(x)))
    decreases min + x
  {
    hide *;
    CountCodeIs(e, min, Some(x), lazy, base);
    CountCodeIs(e, min, Some(x + 1), lazy, base);
    CountLenIs(Len(e), min, Some(x));
    if min > 0 {
      CountGrowsOptional(e, min - 1, x, lazy, base + Len(e));
      GrownBehind(Code(e, base), CountCode(e, min - 1, Some(x), lazy, base + Len(e)),
        OptCode(e, lazy, base + Len(e) + CountLen(Len(e), min - 1, Some(x))));
      assert base + Len(e) + CountLen(Len(e), min - 1, Some(x)) == base + CountLen(Len(e), min, Some(x));
    } else if x > 0 {
      CountGrowsOptional(e, 0, x - 1, lazy, base + Len(e) + 1);
      GrownBehind(OptCode(e, lazy, base), CountCode(e, 0, Some(x - 1), lazy, base + Len(e) + 1),
        OptCode(e, lazy, base + Len(e) + 1 + CountLen(Len(e), 0, Some(x - 1))));
      assert base + Len(e) + 1 + CountLen(Len(e), 0, Some(x - 1)) == base + CountLen(Len(e), 0, Some(x));
    } else {
      CountNothing(e, lazy, base + Len(e) + 1);
      assert OptCode(e, lazy, base) + [] == OptCode(e, lazy, base) == [] + OptCode(e, lazy, base);
    }
  }

  lemma {:induction false} GrownBehind(a: seq<Instr>, b: seq<Instr>, c: seq<Instr>)
    ensures a + (b + c) == a + b + c
  {
  }

  lemma {:induction false} CountGrowsBody(e: Regex, min: nat, lazy: bool, base: nat)
    ensures CountCode(e, min + 1, Some(0), lazy, base) ==
      CountCode(e, min, Some(0), lazy, base) + Code(e, base + CountLen(Len(e), min, Some(0)))
  {
    hide Code, OptCode, StarCode, CountCode, CountLen, Len;
    var last := Code(e, base + CountLen(Len(e), min, Some(0)));
    CountFirst(e, min + 1, Some(0), lazy, base);
    if min > 0 {
      CountFirst(e, min, Some(0), lazy, base);
      CountGrowsBody(e, min - 1, lazy, base + Len(e));
      Associate(Code(e, base), CountCode(e, min - 1, Some(0), lazy, base + Len(e)), last);
    } else {
      CountNothing(e, lazy, base);
      CountNothing(e, lazy, base + Len(e));
    }
  }

  lemma {:induction false} CountGrowsStar(e: Regex, min: nat, lazy: bool, base: nat)
    ensures CountCode(e, min, None, lazy, base) ==
      CountCode(e, min, Some(0), lazy, base) + StarCode(e, lazy, base + CountLen(Len(e), min, Some(0)))
  {
    hide Code, OptCode, StarCode, CountCode, CountLen, Len;
    var last := StarCode(e, lazy, base + CountLen(Len(e), min, Some(0)));
    if min > 0 {
      CountFirst(e, min, None, lazy, base);
      CountFirst(e, min, Some(0), lazy, base);
      CountGrowsStar(e, min - 1, lazy, base + Len(e));
      Associate(Code(e, base), CountCode(e, min - 1, Some(0), lazy, base + Len(e)), last);
    } else {
      CountNothing(e, lazy, base);
    }
  }

  lemma {:induction false} CountLenMonotone(n: nat, min: nat, x: nat, x': nat)
    requires x <= x'
    ensures CountLen(n, min, Some(x)) <= CountLen(n, min, Some(x'))
    ensures x > 0 ==> CountLen(n, min, Some(x)) == CountLen(n, min, Some(x - 1)) + n + 1
    decreases x'
  {
    if x > 0 { CountLenGrows(n, min, x - 1); }
    if x < x' {
      CountLenGrows(n, min, x' - 1);
      CountLenMonotone(n, min, x, x' - 1);
    }
  }

  lemma {:induction false} CountLenMonotoneMin(n: nat, min: nat, min': nat)
    requires 0 < min <= min'
    ensures CountLen(n, min, Some(0)) <= CountLen(n, min', Some(0))
    ensures CountLen(n, min, Some(0)) == CountLen(n, min - 1, Some(0)) + n
    decreases min'
  {
    CountLenGrows(n, min - 1, 0);
    if min < min' {
      CountLenGrows(n, min' - 1, 0);
      CountLenMonotoneMin(n, min, min' - 1);
    }
  }

  lemma {:induction false} CountingLength(prog: seq<Instr>, p: seq<Instr>, e: Regex, min: nat, x: nat, lazy: bool)
    requires Counting(prog, p, e, min, x, lazy)
    ensures |prog| == |p| + CountLen(Len(e), min, Some(x))
  {
  }

  /** The state of the program while a repetition at |p| is being written. */
  ghost predicate Counting(prog: seq<Instr>, p: seq<Instr>, e: Regex, min: nat, x: nat, lazy: bool) {
    prog == p + CountCode(e, min, Some(x), lazy, |p|)
  }

  lemma {:induction false} CountingSettled(prog: seq<Instr>, p: seq<Instr>, e: Regex, min: nat, x: nat, lazy: bool)
    requires Settled(p) && Parsed(e) && Counting(prog, p, e, min, x, lazy)
    ensures Settled(prog) && |prog| == |p| + CountLen(Len(e), min, Some(x))
  {
    CountContained(e, min, Some(x), lazy, |p|, |p|, |prog|);
  }

  /** The body that copies are taken from: after the first SPLIT when nothing is mandatory. */
  lemma {:induction false} CountingSource(prog: seq<Instr>, p: seq<Instr>, e: Regex, min: nat, x: nat, lazy: bool)
    requires Counting(prog, p, e, min, x, lazy) && min + x > 0
    ensures
      var src := if min > 0 then |p| else |p| + 1;
      src + Len(e) <= |prog| && prog[src..src + Len(e)] == Code(e, src)
  {
    hide Code, CountCode, CountLen, Len;
    var n := |p|;
    if min > 0 {
      CountFirst(e, min, Some(x), lazy, n);
      Middle(p, Code(e, n), CountCode(e, min - 1, Some(x), lazy, n + Len(e)));
    } else {
      CountFirstOptional(e, x, lazy, n);
      var fork := [Fork(n + 1, n + 1 + Len(e), lazy)];
      var rest := CountCode(e, 0, Some(x - 1), lazy, n + Len(e) + 1);
      Associate(p + fork, Code(e, n + 1), rest);
      Associate(p, fork + Code(e, n + 1), rest);
      Associate(p, fork, Code(e, n + 1));
      Middle(p + fork, Code(e, n + 1), rest);
    }
  }

  lemma {:induction false} Middle<T>(a: seq<T>, b: seq<T>, c: seq<T>)
    ensures |a + (b + c)| >= |a| + |b| && (a + (b + c))[|a|..|a| + |b|] == b
  {
  }

  // ---- a chain of alternatives, written front to back with its jumps patched last ----

  function AltLen(done: seq<Regex>): nat {
    if done == [] then 0 else AltLen(done[..|done| - 1]) + Len(done[|done| - 1]) + 2
  }

  /** One finished alternative: its SPLIT, its code, its JUMP. */
  function AltBlock(e: Regex, base: nat, end: nat): (c: seq<Instr>)
    ensures |c| == Len(e) + 2
  {
    [Split(base + 1, base + 2 + Len(e))] + Code(e, base + 1) + [Jump(end)]
  }

  /** The finished alternatives; the first `patched` jumps already point to end, the others to 0. */
  function AltPrefix(done: seq<Regex>, base: nat, patched: nat, end: nat): (c: seq<Instr>)
    ensures |c| == AltLen(done)
  {
    if done == [] then []
    else
      var n := |done| - 1;
      AltPrefix(done[..n], base, patched, end) +
      AltBlock(done[n], base + AltLen(done[..n]), if n < patched then end else 0)
  }

  ghost function Chain(done: seq<Regex>, last: Regex): Regex {
    if done == [] then last else Chain(done[..|done| - 1], Alt(done[|done| - 1], last))
  }

  lemma {:induction false} ChainSnoc(done: seq<Regex>, e: Regex, last: Regex, base: nat)
    ensures Chain(done + [e], last) == Chain(done, Alt(e, last))
    ensures AltLen(done + [e]) == AltLen(done) + Len(e) + 2
    ensures AltPrefix(done + [e], base, 0, 0) == AltPrefix(done, base, 0, 0) + AltBlock(e, base + AltLen(done), 0)
  {
    assert (done + [e])[..|done|] == done;
  }

  /** Patched all through, the chain is the code of the nested alternatives. */
  lemma {:induction false} ChainCode(done: seq<Regex>, last: Regex, base: nat)
    ensures
      var e := Chain(done, last);
      && Len(e) == AltLen(done) + Len(last)
      && Code(e, base) == AltPrefix(done, base, |done|, base + Len(e)) + Code(last, base + AltLen(done))
    decreases |done|
  {
    hide Code, AltBlock, AltCode;
    if done != [] {
      var n := |done| - 1;
      var init, x := done[..n], done[n];
      var at := base + AltLen(init);
      ChainCode(init, Alt(x, last), base);
      var end := base + Len(Chain(done, last));
      PatchedEnough(init, base, n, n + 1, end);
      AltIsBlock(x, last, at);
      Associate(AltPrefix(init, base, n, end), AltBlock(x, at, end), Code(last, at + Len(x) + 2));
    } else {
      assert [] + Code(last, base) == Code(last, base);
    }
  }

  lemma {:induction false} AltIsBlock(a: Regex, b: Regex, base: nat)
    ensures Len(Alt(a, b)) == Len(a) + Len(b) + 2
    ensures Code(Alt(a, b), base) == AltBlock(a, base, base + Len(Alt(a, b))) + Code(b, base + Len(a) + 2)
  {
    CodeOfAlt(a, b, base);
    hide Code, Len;
  }

  lemma {:induction false} CodeOfAlt(a: Regex, b: Regex, base: nat)
    ensures Len(Alt(a, b)) == Len(a) + Len(b) + 2
    ensures Code(Alt(a, b), base) == AltCode(a, b, base)
  {
    hide *;
    Shape(Alt(a, b), base);
  }

  lemma {:induction false} PatchedEnough(done: seq<Regex>, base: nat, k: nat, k': nat, end: nat)
    requires |done| <= k && |done| <= k'
    ensures AltPrefix(done, base, k, end) == AltPrefix(done, base, k', end)
  {
    hide AltBlock;
    if done != [] {
      PatchedEnough(done[..|done| - 1], base, k, k', end);
    }
  }

  lemma {:induction false} AltLenPrefix(done: seq<Regex>, k: nat)
    requires k < |done|
    ensures 2 <= AltLen(done[..k + 1]) <= AltLen(done)
  {
    var n := |done| - 1;
    if k < n {
      AltLenPrefix(done[..n], k);
      assert done[..n][..k + 1] == done[..k + 1];
    } else {
      assert done[..k + 1] == done;
    }
  }

  lemma {:induction false} UpdateJoin<T>(a: seq<T>, b: seq<T>, i: nat, x: T)
    requires i < |a| + |b|
    ensures (a + b)[i := x] == if i < |a| then a[i := x] + b else a + b[i - |a| := x]
  {
  }

  lemma {:induction false} BlockJump(e: Regex, base: nat, end: nat)
    ensures AltBlock(e, base, end) == AltBlock(e, base, 0)[Len(e) + 1 := Jump(end)]
  {
    hide Code, Len;
  }

  lemma {:induction false} AltPrefixUnfolds(done: seq<Regex>, base: nat, patched: nat, end: nat)
    requires done != []
    ensures
      var n := |done| - 1;
      AltPrefix(done, base, patched, end) == AltPrefix(done[..n], base, patched, end) +
        AltBlock(done[n], base + AltLen(done[..n]), if n < patched then end else 0)
    ensures AltLen(done) == AltLen(done[..|done| - 1]) + Len(done[|done| - 1]) + 2
  {
    hide AltBlock;
  }

  lemma {:induction false} PatchLast(done: seq<Regex>, base: nat, end: nat)
    requires done != []
    ensures AltLen(done) >= 2
    ensures AltPrefix(done, base, |done|, end) == AltPrefix(done, base, |done| - 1, end)[AltLen(done) - 1 := Jump(end)]
  {
    hide AltBlock, AltPrefix, AltLen, Len;
    var n := |done| - 1;
    var init := done[..n];
    var at := base + AltLen(init);
    AltPrefixUnfolds(done, base, n, end);
    AltPrefixUnfolds(done, base, n + 1, end);
    PatchedEnough(init, base, n, n + 1, end);
    BlockJump(done[n], at, end);
    UpdateJoin(AltPrefix(init, base, n, end), AltBlock(done[n], at, 0), AltLen(done) - 1, Jump(end));
  }

  lemma {:induction false} PatchOne(done: seq<Regex>, base: nat, k: nat, end: nat)
    requires k < |done|
    ensures 2 <= AltLen(done[..k + 1]) <= AltLen(done)
    ensures AltPrefix(done, base, k + 1, end) ==
      AltPrefix(done, base, k, end)[AltLen(done[..k + 1]) - 1 := Jump(end)]
  {
    hide AltBlock, AltPrefix, AltLen, Len;
    AltLenPrefix(done, k);
    var n := |done| - 1;
    if k == n {
      assert done[..k + 1] == done;
      PatchLast(done, base, end);
    } else {
      var init := done[..n];
      assert init[..k + 1] == done[..k + 1];
      PatchOne(init, base, k, end);
      AltPrefixUnfolds(done, base, k, end);
      AltPrefixUnfolds(done, base, k + 1, end);
      UpdateJoin(AltPrefix(init, base, k, end), AltBlock(done[n], base + AltLen(init), 0), AltLen(done[..k + 1]) - 1, Jump(end));
    }
  }

  lemma {:induction false} BlockSettled(q: seq<Instr>, e: Regex)
    requires Settled(q) && Parsed(e)
    ensures Settled(q + AltBlock(e, |q|, 0))
  {
    hide Code;
    var n := |q|;
    var c := AltBlock(e, n, 0);
    CodeContained(e, n + 1, n + 1, n + 1 + Len(e));
    forall k | 0 <= k < |q + c| ensures TargetsIn((q + c)[k], 0, n + |c|) {
      if n < k <= n + Len(e) { assert (q + c)[k] == Code(e, n + 1)[k - n - 1]; }
    }
  }

  class Builder {
    var prog: seq<Instr>
    var depth: nat

    constructor ()
      ensures prog == [] && depth == 0
    {
      prog := [];
      depth := 0;
    }

    method Emit(i: Instr) returns (r: int)
      modifies this`prog
      ensures
        if |old(prog)| >= MAX_INSTRS - 1 then r == -1 && prog == old(prog)
        else r == |old(prog)| && prog == old(prog) + [i]
    {
      if |prog| >= MAX_INSTRS - 1 {
        return -1;
      }
      r := |prog|;
      prog := prog + [i];
    }

    method FixupAfterShift(oldPos: nat, shift: nat, limit: nat)
      requires limit == |prog|
      modifies this`prog
      ensures |prog| == |old(prog)|
      ensures forall k :: 0 <= k < |prog| ==> prog[k] == AfterShift(old(prog)[k], k, oldPos, shift)
    {
      var movedFrom := oldPos + shift;
      var i := 0;
      while i < limit
        invariant 0 <= i <= limit == |prog|
        invariant forall k :: 0 <= k < |prog| ==>
          prog[k] == if k < i then AfterShift(old(prog)[k], k, oldPos, shift) else old(prog)[k]
      {
        if !(oldPos <= i < movedFrom) {
          var inMoved := i >= movedFrom;
          var ins := prog[i];
          if ins.Jump? {
            prog := prog[i := Jump(Bump(ins.target, oldPos, shift, inMoved))];
          } else if ins.Split? {
            prog := prog[i := Split(Bump(ins.a, oldPos, shift, inMoved), Bump(ins.b, oldPos, shift, inMoved))];
          }
        }
        i := i + 1;
      }
    }

    method FixupAfterCopy(src: nat, end: nat, dst: nat)
      requires src <= end <= dst && dst + (end - src) == |prog|
      modifies this`prog
      ensures |prog| == |old(prog)| && prog[..dst] == old(prog)[..dst]
      ensures forall k :: dst <= k < |prog| ==> prog[k] == AfterCopy(old(prog)[k], src, end, dst)
    {
      var len := end - src;
      var i := 0;
      while i < len
        invariant 0 <= i <= len && |prog| == |old(prog)|
        invariant forall k :: 0 <= k < |prog| ==>
          prog[k] == if dst <= k < dst + i then AfterCopy(old(prog)[k], src, end, dst) else old(prog)[k]
      {
        var ins := prog[dst + i];
        if ins.Jump? {
          prog := prog[dst + i := Jump(CopyTarget(ins.target, src, end, dst))];
        } else if ins.Split? {
          prog := prog[dst + i := Split(CopyTarget(ins.a, src, end, dst), CopyTarget(ins.b, src, end, dst))];
        }
        i := i + 1;
      }
    }

    /** memmove, the length bump and the fix-up: room for one instruction before the body at start. */
    method OpenSlot(start: nat, ghost p: seq<Instr>, ghost e: Regex)
      requires Settled(p) && Parsed(e) && start == |p| && prog == p + Code(e, start)
      modifies this`prog
      ensures |prog| == |old(prog)| + 1
      ensures prog[..start] == p && prog[start + 1..] == Code(e, start + 1)
    {
      hide Code;
      var body := prog[start..];
      prog := prog[..start] + (if |body| > 0 then [body[0]] else [Match]) + body;
      ghost var was := prog;
      FixupAfterShift(start, 1, |prog|);
      ShiftedCode(p, e, was, prog);
    }

    /** Appends a copy of the body at src. */
    method CopyBody(src: nat, len: nat, ghost e: Regex)
      requires Parsed(e) && len == Len(e) && src + len <= |prog| && prog[src..src + len] == Code(e, src)
      modifies this`prog
      ensures prog == old(prog) + Code(e, |old(prog)|)
    {
      hide Code;
      var dst := |prog|;
      ghost var was := prog;
      prog := prog + prog[src..src + len];
      ghost var mid := prog;
      FixupAfterCopy(src, src + len, dst);
      assert prog[..dst] == was;
      forall k | 0 <= k < len ensures prog[dst..][k] == AfterCopy(Code(e, src)[k], src, src + Len(e), dst) {
        assert mid[dst + k] == Code(e, src)[k];
      }
      CopiedCode(e, src, dst, prog[dst..]);
    }

    /** apply_quantifier on the body from start to the end of the program. */
    method ApplyQuantifier(start: nat, q: Quantifier, lazy: bool, ghost p: seq<Instr>, ghost e: Regex) returns (r: int)
      requires Settled(p) && Parsed(e) && start == |p| && prog == p + Code(e, start)
      modifies this`prog
      ensures r >= 0 ==> r == |prog| && prog == p + Code(Quantified(e, q, lazy), start)
      ensures |p| + Len(e) + 4 <= MAX_INSTRS ==> r >= 0
    {
      hide Code, Settled, Parsed, Len;
      var end := |prog|;
      QuantifiedCode(e, lazy, start);
      match q
      case Maybe =>
        if end - start > MAX_INSTRS - 3 || |prog| + 1 > MAX_INSTRS {
          return -1;
        }
        OpenSlot(start, p, e);
        end := end + 1;
        prog := prog[start := if lazy then Split(end, start + 1) else Split(start + 1, end)];
        Associate(p, [Fork(start + 1, end, lazy)], Code(e, start + 1));
        return end;
      case Many =>
        if |prog| + 1 > MAX_INSTRS {
          return -1;
        }
        OpenSlot(start, p, e);
        var jmp := Emit(Jump(start));
        if jmp < 0 {
          return -1;
        }
        end := |prog|;
        prog := prog[start := if lazy then Split(jmp + 1, start + 1) else Split(start + 1, jmp + 1)];
        Enclosed(p, Fork(start + 1, jmp + 1, lazy), Code(e, start + 1), Jump(start));
        return end;
      case Some1 =>
        var sp := Emit(Split(0, 0));
        if sp < 0 {
          return -1;
        }
        end := |prog|;
        prog := prog[sp := if lazy then Split(end, start) else Split(start, end)];
        Associate(p, Code(e, start), [Fork(start, end, lazy)]);
        return end;
    }

    /** One more copy of the body at src, made optional. */
    method AppendOptional(src: nat, len: nat, lazy: bool, ghost p: seq<Instr>, ghost e: Regex, ghost min: nat, ghost x: nat)
      returns (r: int)
      requires Settled(p) && Parsed(e) && Counting(prog, p, e, min, x, lazy) && min + x > 0
      requires len == Len(e) && src == if min > 0 then |p| else |p| + 1
      modifies this`prog
      ensures r >= 0 ==> r == |prog| && Counting(prog, p, e, min, x + 1, lazy)
      ensures |old(prog)| + len + 1 <= PROGRAM_LIMIT ==> r >= 0
    {
      hide CountCode, CountLen, OptCode, Code, Settled;
      if |prog| + len + 2 >= MAX_INSTRS - 4 || |prog| + len + 2 > MAX_INSTRS {
        return -1;
      }
      ghost var was := prog;
      var optStart := |prog|;
      CountingSettled(prog, p, e, min, x, lazy);
      CountingSource(prog, p, e, min, x, lazy);
      CopyBody(src, len, e);
      r := ApplyQuantifier(optStart, Maybe, lazy, was, e);
      CodeOfQuantified(e, lazy, optStart);
      CountGrowsOptional(e, min, x, lazy, |p|);
      Associate(p, CountCode(e, min, Some(x), lazy, |p|), OptCode(e, lazy, optStart));
    }

    /** apply_count without a mandatory copy: {0,}, {0,0} and {0,max}. */
    method ApplyCountFromZero(start: nat, max: Option<nat>, lazy: bool, ghost p: seq<Instr>, ghost e: Regex) returns (r: int)
      requires Settled(p) && Parsed(e) && start == |p| && prog == p + Code(e, start)
      modifies this`prog
      ensures r >= 0 ==> r == |prog| && prog == p + CountCode(e, 0, max, lazy, start)
      ensures |p| + CountLen(Len(e), 0, max) <= PROGRAM_LIMIT && |p| + Len(e) <= PROGRAM_LIMIT ==> r >= 0
    {
      hide CountCode, CountLen, Len, Code, Settled;
      var len := |prog| - start;
      CountStarts(e, lazy, start);
      if max == Some(0) {
        prog := prog[..start];
        return |prog|;
      }
      if max.None? {
        r := ApplyQuantifier(start, Many, lazy, p, e);
        return;
      }
      r := ApplyQuantifier(start, Maybe, lazy, p, e);
      if r < 0 {
        return -1;
      }
      var i := 1;
      while i < max.value
        invariant 1 <= i <= max.value && Counting(prog, p, e, 0, i, lazy)
      {
        CountingLength(prog, p, e, 0, i, lazy);
        CountLenMonotone(Len(e), 0, i + 1, max.value);
        r := AppendOptional(start + 1, len, lazy, p, e, 0, i);
        if r < 0 {
          return -1;
        }
        i := i + 1;
      }
      return |prog|;
    }

    /** The mandatory copies of apply_count. */
    method AppendMandatory(start: nat, min: nat, len: nat, lazy: bool, ghost p: seq<Instr>, ghost e: Regex) returns (ok: bool)
      requires Settled(p) && Parsed(e) && start == |p| && prog == p + Code(e, start) && min > 0 && len == Len(e)
      modifies this`prog
      ensures ok ==> Counting(prog, p, e, min, 0, lazy)
      ensures |p| + CountLen(len, min, Some(0)) <= PROGRAM_LIMIT ==> ok
    {
      hide CountCode, CountLen, Code, Settled;
      CountStarts(e, lazy, start);
      var i := 1;
      while i < min
        invariant 1 <= i <= min && Counting(prog, p, e, i, 0, lazy)
      {
        CountingLength(prog, p, e, i, 0, lazy);
        CountLenMonotoneMin(len, i + 1, min);
        if |prog| + len >= MAX_INSTRS - 4 || |prog| + len > MAX_INSTRS {
          return false;
        }
        ghost var at := |prog|;
        CountingSettled(prog, p, e, i, 0, lazy);
        CountingSource(prog, p, e, i, 0, lazy);
        CopyBody(start, len, e);
        CountGrowsBody(e, i, lazy, |p|);
        Associate(p, CountCode(e, i, Some(0), lazy, |p|), Code(e, at));
        i := i + 1;
      }
      return true;
    }

    /** apply_count: {min,}, {min,max} and {0,max} on the body from start to the end of the program. */
    method ApplyCount(start: nat, min: nat, max: Option<nat>, lazy: bool, ghost p: seq<Instr>, ghost e: Regex) returns (r: int)
      requires Settled(p) && Parsed(e) && start == |p| && prog == p + Code(e, start)
      requires max.Some? ==> min <= max.value
      modifies this`prog
      ensures
        var extra := if max.Some? then Some(max.value - min) else None;
        && (r >= 0 ==> r == |prog| && prog == p + CountCode(e, min, extra, lazy, start))
        && (|p| + CountLen(Len(e), min, extra) <= PROGRAM_LIMIT && |p| + Len(e) <= PROGRAM_LIMIT ==> r >= 0)
    {
      hide CountCode, CountLen, StarCode, OptCode, Code, Len, Settled, Parsed, TargetsIn, Contained, Fork, Fits, Room;
      var len := |prog| - start;
      if min == 0 {
        r := ApplyCountFromZero(start, max, lazy, p, e);
        return;
      }
      CountLenGrows(len, min, 0);
      CountLenMonotone(len, min, 0, if max.Some? then max.value - min else 0);
      var ok := AppendMandatory(start, min, len, lazy, p, e);
      if !ok {
        return -1;
      }
      if max.None? {
        if |prog| + len + 2 > MAX_INSTRS {
          return -1;
        }
        ghost var was := prog;
        CountingSettled(prog, p, e, min, 0, lazy);
        CountingSource(prog, p, e, min, 0, lazy);
        var optStart := |prog|;
        CopyBody(start, len, e);
        r := ApplyQuantifier(optStart, Many, lazy, was, e);
        CodeOfQuantified(e, lazy, optStart);
        CountGrowsStar(e, min, lazy, |p|);
        Associate(p, CountCode(e, min, Some(0), lazy, |p|), StarCode(e, lazy, optStart));
        return;
      }
      var i := min;
      while i < max.value
        invariant min <= i <= max.value && Counting(prog, p, e, min, i - min, lazy)
      {
        CountingLength(prog, p, e, min, i - min, lazy);
        CountLenMonotone(len, min, i + 1 - min, max.value - min);
        r := AppendOptional(start, len, lazy, p, e, min, i - min);
        if r < 0 {
          return -1;
        }
        i := i + 1;
      }
      return |prog|;
    }

    // ---- recursive descent ----

    /** parse_atom: one instruction, a capturing group, or anything else in a non-capturing one. */
    method EmitAtom(e: Regex) returns (r: int)
      requires Settled(prog) && Parsed(e)
      modifies this
      ensures r >= 0 ==> prog == old(prog) + Code(e, |old(prog)|) && depth == old(depth)
      ensures r >= 0 ==> Kept(old(depth), AtomNest(e), e)
      ensures AtomFits(|old(prog)|, old(depth), e) ==> r >= 0
      decreases e, if e.Op? || e.Group? then 0 else 5
    {
      hide Settled, Code;
      match e
      case Op(i) =>
        OneCode(i, |prog|);
        r := Emit(i);
      case Group(id, f) =>
        if id == 0 || id >= MAX_GROUPS {
          return -1;
        }
        ghost var was := prog;
        r := Emit(Save(2 * id));
        if r < 0 {
          return -1;
        }
        SettledMore(was, Save(2 * id));
        r := EmitExpr(f);
        if r < 0 {
          return -1;
        }
        r := Emit(Save(2 * id + 1));
        if r < 0 {
          return -1;
        }
        Enclosed(was, Save(2 * id), Code(f, |was| + 1), Save(2 * id + 1));
        GroupedCode(id, f, |was|);
        r := |prog|;
      case _ =>
        r := EmitExpr(e);
    }

    method EmitQuantified(f: Regex, q: Quantifier, lazy: bool) returns (r: int)
      requires Settled(prog) && Parsed(f)
      modifies this
      ensures r >= 0 ==> r == |prog| && prog == old(prog) + Code(Quantified(f, q, lazy), |old(prog)|) && depth == old(depth)
      ensures r >= 0 ==> Kept(old(depth), AtomNest(f), f)
      ensures AtomFits(|old(prog)|, old(depth), f) && |old(prog)| + Len(f) + 4 <= MAX_INSTRS ==> r >= 0
      decreases f, 8
    {
      hide Settled, Code, Parsed, Kept, AtomFits, Len;
      var start := |prog|;
      ghost var p := prog;
      r := EmitAtom(f);
      if r < 0 { return -1; }
      r := ApplyQuantifier(start, q, lazy, p, f);
    }

    /** parse_piece: an atom and its quantifier. */
    method EmitPiece(e: Regex) returns (r: int)
      requires Settled(prog) && Parsed(e)
      modifies this
      ensures r >= 0 ==> r == |prog| && prog == old(prog) + Code(e, |old(prog)|) && depth == old(depth)
      ensures r >= 0 ==> Kept(old(depth), PieceNest(e), e)
      ensures PieceFits(|old(prog)|, old(depth), e) ==> r >= 0
      decreases e, if e.Cat? || e.Alt? || e.Empty? then 6 else 1
    {
      hide *;
      PieceParts(e);
      PieceKept(depth, e);
      if PieceFits(|prog|, depth, e) { PieceFitsOn(|prog|, depth, e); }
      match e
      case Opt(f, lazy) => r := EmitQuantified(f, Maybe, lazy);
      case Star(f, lazy) => r := EmitQuantified(f, Many, lazy);
      case Plus(f, lazy) => r := EmitQuantified(f, Some1, lazy);
      case Count(f, min, extra, lazy) => r := EmitCounted(f, min, extra, lazy);
      case _ =>
        r := EmitAtom(e);
        if r < 0 { return -1; }
        r := |prog|;
    }

    method EmitCounted(f: Regex, min: nat, extra: Option<nat>, lazy: bool) returns (r: int)
      requires Settled(prog) && Parsed(f)
      modifies this
      ensures r >= 0 ==> r == |prog| && prog == old(prog) + Code(Count(f, min, extra, lazy), |old(prog)|) && depth == old(depth)
      ensures r >= 0 ==> Kept(old(depth), AtomNest(f), f) && (extra.Some? ==> min + extra.value <= MAX_REPEAT)
      ensures CountedFits(|old(prog)|, old(depth), f, min, extra) ==> r >= 0
      decreases f, 8
    {
      hide Settled, Code, Parsed, Kept, AtomFits, Len, CountCode, CountLen;
      var start := |prog|;
      ghost var p := prog;
      r := EmitAtom(f);
      if r < 0 { return -1; }
      var max := if extra.Some? then Some(min + extra.value) else None;
      if max.Some? && max.value > MAX_REPEAT {
        return -1;
      }
      CountedCode(f, min, extra, lazy, start);
      if min == 0 && max == Some(0) {
        prog := prog[..start];
        assert prog == p + [];
        return start;
      }
      r := ApplyCount(start, min, max, lazy, p, f);
    }

    /** parse_concat: pieces one after another. */
    method EmitConcat(e: Regex) returns (r: int)
      requires Settled(prog) && Parsed(e)
      modifies this
      ensures r >= 0 ==> r == |prog| && prog == old(prog) + Code(e, |old(prog)|) && depth == old(depth)
      ensures r >= 0 ==> Kept(old(depth), ConcatNest(e), e)
      ensures ConcatFits(|old(prog)|, old(depth), e) ==> r >= 0
      decreases e, if e.Alt? then 7 else 2
    {
      hide Settled, Code, ConcatFits, PieceFits, Len, Room, Kept, ConcatNest;
      ghost var p := prog;
      var rest := e;
      assert prog + Code(rest, |prog|) == p + Code(e, |p|);
      while rest.Cat?
        invariant Settled(prog) && Parsed(rest) && depth == old(depth)
        invariant prog + Code(rest, |prog|) == p + Code(e, |p|)
        invariant Kept(depth, ConcatNest(rest), rest) ==> Kept(depth, ConcatNest(e), e)
        invariant rest == e || rest < e
        invariant ConcatFits(|p|, depth, e) ==> ConcatFits(|prog|, depth, rest)
        decreases rest
      {
        ghost var was := prog;
        if ConcatFits(|p|, depth, e) { ConcatFitsOn(|prog|, depth, rest); }
        r := EmitPiece(rest.a);
        if r < 0 {
          return -1;
        }
        ConcatKept(depth, rest);
        SettledCode(was, rest.a);
        CatCode(rest.a, rest.b, |was|);
        Associate(was, Code(rest.a, |was|), Code(rest.b, |prog|));
        rest := rest.b;
      }
      ConcatKept(depth, rest);
      if rest.Empty? {
        EmptyCode(|prog|);
        assert prog == prog + [];
        return |prog|;
      }
      if ConcatFits(|p|, depth, e) { ConcatFitsOn(|prog|, depth, rest); }
      r := EmitPiece(rest);
    }

    /** parse_expr: the nesting guard. */
    method EmitExpr(e: Regex) returns (r: int)
      requires Settled(prog) && Parsed(e)
      modifies this
      ensures r >= 0 ==> r == |prog| && prog == old(prog) + Code(e, |old(prog)|) && depth == old(depth)
      ensures r >= 0 ==> Kept(old(depth), ExprNest(e), e)
      ensures ExprFits(|old(prog)|, old(depth), e) ==> r >= 0
      decreases e, 4
    {
      if depth >= MAX_DEPTH {
        return -1;
      }
      depth := depth + 1;
      r := EmitAlternatives(e);
      depth := if depth > 0 then depth - 1 else 0;
    }

    /** parse_expr_inner: alternatives in a chain, every JUMP patched once the end is known. */
    method EmitAlternatives(e: Regex) returns (r: int)
      requires Settled(prog) && Parsed(e)
      modifies this
      ensures r >= 0 ==> r == |prog| && prog == old(prog) + Code(e, |old(prog)|) && depth == old(depth)
      ensures r >= 0 ==> Kept(old(depth), AltNest(e), e)
      ensures AltFits(|old(prog)|, old(depth), e) ==> r >= 0
      decreases e, 3
    {
      hide *;
      ghost var fits := AltFits(|prog|, depth, e);
      if fits { AltFitsOn(|prog|, depth, e); }
      AltKept(depth, e);
      if !e.Alt? {
        r := EmitConcat(e);
        return;
      }
      ghost var p := prog;
      var start := |prog|;
      ChainingStarts(p, e);
      r := EmitConcat(e.a);
      if r < 0 || |prog| + 2 >= MAX_INSTRS || |prog| + 1 > MAX_INSTRS {
        return -1;
      }
      OpenBranch(start, p, e.a);
      InBranchIs(prog, p, e);
      var altStart := start;
      var jumps: seq<nat> := [];
      var rest := e;
      ghost var done: seq<Regex> := [];
      ghost var q := p;
      while rest.Alt?
        invariant depth == old(depth) && (rest == e || rest < e)
        invariant Chaining(p, q, e, done, rest) && altStart == |q|
        invariant InBranch(prog, q, rest)
        invariant JumpsAt(jumps, done, start)
        invariant BranchKept(depth, rest) && Bars(e) == |jumps| + Bars(rest) && |jumps| <= MAX_JUMPS
        invariant Bars(e) <= MAX_JUMPS && Kept(depth, AltNest(rest), rest) ==> Kept(depth, AltNest(e), e)
        invariant fits ==> AltFits(|q|, depth, rest) && |jumps| + Bars(rest) <= MAX_JUMPS
        decreases rest
      {
        if |jumps| >= MAX_JUMPS {
          assert !fits by { if fits { AltFitsOn(|q|, depth, rest); } }
          return -1;
        }
        if fits { AltFitsOn(|q|, depth, rest); }
        ChainingStep(p, q, e, done, rest);
        AltKept(depth, rest);
        JumpsMore(jumps, done, rest.a, start);
        var j := NextBranch(altStart, rest, q);
        if j < 0 {
          return -1;
        }
        jumps := jumps + [j];
        q := q + AltBlock(rest.a, |q|, 0);
        done := done + [rest.a];
        rest := rest.b;
        altStart := j + 1;
      }
      AltKept(depth, rest);
      ChainingEnds(p, q, e, done, rest);
      InBranchIs(prog, q, rest);
      ChainedCode(p, start, e, done, rest);
      PatchJumps(jumps, p, done, rest, start);
      r := |prog|;
    }

    /** Ends the branch of rest after q and writes the next one, with an open SPLIT if more follow. */
    method NextBranch(altStart: nat, rest: Regex, ghost q: seq<Instr>) returns (j: int)
      requires rest.Alt? && Parsed(rest) && altStart == |q| && InBranch(prog, q, rest)
      requires Settled(q + AltBlock(rest.a, |q|, 0))
      modifies this
      ensures j >= 0 ==> j == |q| + Len(rest.a) + 1 && depth == old(depth)
      ensures j >= 0 ==> InBranch(prog, q + AltBlock(rest.a, |q|, 0), rest.b)
      ensures j >= 0 ==> BranchKept(depth, rest.b)
      ensures AltFits(|q|, old(depth), rest) ==> j >= 0
      decreases rest, 1
    {
      hide Settled, Code, Len, AltBlock, AltFits, ConcatFits, Bars, Kept;
      ghost var fits := AltFits(|q|, depth, rest);
      if fits {
        AltFitsOn(|q|, depth, rest);
        AltFitsOn(|q| + Len(rest.a) + 2, depth, rest.b);
      }
      j := CloseBranch(altStart, q, rest.a);
      if j < 0 {
        return -1;
      }
      var start := |prog|;
      ghost var p := prog;
      var next := rest.b;
      var branch := if next.Alt? then next.a else next;
      var r := EmitConcat(branch);
      if r < 0 {
        return -1;
      }
      if next.Alt? {
        if |prog| + 1 >= MAX_INSTRS || |prog| + 1 > MAX_INSTRS {
          return -1;
        }
        OpenBranch(start, p, branch);
      }
    }

    /** Room for the SPLIT in front of a branch; its targets are not known yet. */
    method OpenBranch(start: nat, ghost p: seq<Instr>, ghost e: Regex)
      requires Settled(p) && Parsed(e) && start == |p| && prog == p + Code(e, start)
      modifies this`prog
      ensures prog == p + [Split(0, 0)] + Code(e, start + 1)
    {
      hide Code;
      OpenSlot(start, p, e);
      prog := prog[start := Split(0, 0)];
    }

    /** A JUMP after the branch, and the SPLIT before it aimed at what follows. */
    method CloseBranch(altStart: nat, ghost q: seq<Instr>, ghost e: Regex) returns (j: int)
      requires altStart == |q| && prog == q + [Split(0, 0)] + Code(e, altStart + 1)
      modifies this`prog
      ensures j >= 0 ==> j + 1 == |prog| && prog == q + AltBlock(e, altStart, 0)
      ensures |old(prog)| < MAX_INSTRS - 1 ==> j >= 0
    {
      hide Code;
      j := Emit(Jump(0));
      if j < 0 {
        return -1;
      }
      var branchStart := |prog|;
      prog := prog[altStart := Split(altStart + 1, branchStart)];
      assert prog == q + [Split(altStart + 1, branchStart)] + Code(e, altStart + 1) + [Jump(0)];
      Enclosed(q, Split(altStart + 1, branchStart), Code(e, altStart + 1), Jump(0));
    }

    /** Every JUMP of the chain gets its target, the end of the program. */
    method PatchJumps(jumps: seq<nat>, ghost p: seq<Instr>, ghost done: seq<Regex>, ghost rest: Regex, ghost start: nat)
      requires start == |p| && JumpsAt(jumps, done, start)
      requires prog == p + AltPrefix(done, start, 0, 0) + Code(rest, start + AltLen(done))
      modifies this`prog
      ensures prog == p + AltPrefix(done, start, |done|, |old(prog)|) + Code(rest, start + AltLen(done))
    {
      hide Code, AltBlock, AltPrefix, AltLen;
      var finalEnd := |prog|;
      ghost var tail := Code(rest, start + AltLen(done));
      var i := 0;
      NothingPatched(done, start, finalEnd);
      while i < |jumps|
        invariant 0 <= i <= |jumps|
        invariant prog == p + AltPrefix(done, start, i, finalEnd) + tail
      {
        PatchOne(done, start, i, finalEnd);
        UpdateJoin(p + AltPrefix(done, start, i, finalEnd), tail, jumps[i], Jump(finalEnd));
        UpdateJoin(p, AltPrefix(done, start, i, finalEnd), jumps[i], Jump(finalEnd));
        prog := prog[jumps[i] := Jump(finalEnd)];
        i := i + 1;
      }
    }
  }

  /** q is the prefix p and the finished alternatives of e; rest is what is left of e. */
  ghost predicate Chaining(p: seq<Instr>, q: seq<Instr>, e: Regex, done: seq<Regex>, rest: Regex) {
    && Parsed(rest) && Chain(done, rest) == e && Settled(q)
    && q == p + AltPrefix(done, |p|, 0, 0) && |q| == |p| + AltLen(done)
    && (rest.Alt? ==> Parsed(rest.a) && Parsed(rest.b))
  }

  /** The branch being written after q, with its open SPLIT in front if another one follows. */
  ghost predicate InBranch(prog: seq<Instr>, q: seq<Instr>, rest: Regex) {
    prog == if rest.Alt? then q + [Split(0, 0)] + Code(rest.a, |q| + 1) else q + Code(rest, |q|)
  }

  lemma {:induction false} InBranchIs(prog: seq<Instr>, q: seq<Instr>, rest: Regex)
    ensures InBranch(prog, q, rest) <==>
      prog == if rest.Alt? then q + [Split(0, 0)] + Code(rest.a, |q| + 1) else q + Code(rest, |q|)
  {
  }

  lemma {:induction false} ChainingStarts(p: seq<Instr>, e: Regex)
    requires Settled(p) && Parsed(e)
    ensures Chaining(p, p, e, [], e)
    ensures e.Alt? ==> Parsed(e.a)
    ensures JumpsAt([], [], |p|)
  {
    assert p == p + [];
  }

  lemma {:induction false} ChainingStep(p: seq<Instr>, q: seq<Instr>, e: Regex, done: seq<Regex>, rest: Regex)
    requires Chaining(p, q, e, done, rest) && rest.Alt?
    ensures Chaining(p, q + AltBlock(rest.a, |q|, 0), e, done + [rest.a], rest.b)
    ensures Parsed(rest) && Parsed(if rest.b.Alt? then rest.b.a else rest.b)
    ensures |q| == |p| + AltLen(done) && |AltBlock(rest.a, |q|, 0)| == Len(rest.a) + 2
    ensures Settled(q + AltBlock(rest.a, |q|, 0))
  {
    hide Settled, Code, AltBlock, AltPrefix, AltLen, Chain;
    ChainSnoc(done, rest.a, rest.b, |p|);
    Associate(p, AltPrefix(done, |p|, 0, 0), AltBlock(rest.a, |q|, 0));
    BlockSettled(q, rest.a);
  }

  lemma {:induction false} ChainedCode(p: seq<Instr>, n: nat, e: Regex, done: seq<Regex>, rest: Regex)
    requires n == |p| && e == Chain(done, rest)
    ensures Len(e) == AltLen(done) + Len(rest)
    ensures p + Code(e, n) == p + AltPrefix(done, n, |done|, n + Len(e)) + Code(rest, n + AltLen(done))
  {
    hide Code, AltPrefix, AltLen, Chain, Len;
    ChainCode(done, rest, n);
    assert Code(e, n) == AltPrefix(done, n, |done|, n + Len(e)) + Code(rest, n + AltLen(done));
    var a, c := AltPrefix(done, n, |done|, n + Len(e)), Code(rest, n + AltLen(done));
    calc {
      p + Code(e, n);
      p + (a + c);
      { Associate(p, a, c); }
      p + a + c;
    }
  }

  lemma {:induction false} ChainingEnds(p: seq<Instr>, q: seq<Instr>, e: Regex, done: seq<Regex>, rest: Regex)
    requires Chaining(p, q, e, done, rest)
    ensures q == p + AltPrefix(done, |p|, 0, 0) && |q| == |p| + AltLen(done)
    ensures Chain(done, rest) == e
  {
    hide Code, AltPrefix, AltLen, Chain, Len, Settled, Parsed;
  }

  ghost predicate JumpsAt(jumps: seq<nat>, done: seq<Regex>, start: nat) {
    |jumps| == |done| && forall k :: 0 <= k < |jumps| ==> jumps[k] == start + AltLen(done[..k + 1]) - 1
  }

  lemma {:induction false} AltLenSnoc(done: seq<Regex>, e: Regex)
    ensures AltLen(done + [e]) == AltLen(done) + Len(e) + 2
  {
    hide Len;
    assert (done + [e])[..|done|] == done;
  }

  lemma {:induction false} JumpsMore(jumps: seq<nat>, done: seq<Regex>, e: Regex, start: nat)
    requires JumpsAt(jumps, done, start)
    ensures JumpsAt(jumps + [start + AltLen(done) + Len(e) + 1], done + [e], start)
  {
    var j', d' := jumps + [start + AltLen(done) + Len(e) + 1], done + [e];
    hide AltLen, Len;
    AltLenSnoc(done, e);
    forall k | 0 <= k < |j'| ensures j'[k] == start + AltLen(d'[..k + 1]) - 1 {
      if k < |jumps| {
        assert d'[..k + 1] == done[..k + 1];
      } else {
        assert d'[..k + 1] == d';
      }
    }
  }

  lemma {:induction false} Enclosed<T>(q: seq<T>, a: T, c: seq<T>, b: T)
    ensures q + [a] + c + [b] == q + ([a] + c + [b])
  {
    Associate(q, [a], c);
    Associate(q, [a] + c, [b]);
  }

  lemma {:induction false} NothingPatched(done: seq<Regex>, base: nat, end: nat)
    ensures AltPrefix(done, base, 0, 0) == AltPrefix(done, base, 0, end)
  {
    hide AltBlock;
    if done != [] {
      NothingPatched(done[..|done| - 1], base, end);
    }
  }

  lemma {:induction false} SettledMore(p: seq<Instr>, i: Instr)
    requires Settled(p) && !i.Jump? && !i.Split?
    ensures Settled(p + [i])
  {
  }

  lemma {:induction false} CatCode(a: Regex, b: Regex, base: nat)
    ensures Code(Cat(a, b), base) == Code(a, base) + Code(b, base + Len(a))
  {
    hide *;
    Shape(Cat(a, b), base);
  }

  lemma {:induction false} OneCode(i: Instr, base: nat)
    ensures Code(Op(i), base) == [i]
  {
    hide *;
    Shape(Op(i), base);
  }

  lemma {:induction false} GroupedCode(id: nat, e: Regex, base: nat)
    ensures Code(Group(id, e), base) == [Save(2 * id)] + Code(e, base + 1) + [Save(2 * id + 1)]
  {
    hide *;
    Shape(Group(id, e), base);
    GroupCodeIs(id, e, base);
  }

  lemma {:induction false} EmptyCode(base: nat)
    ensures Code(Empty, base) == []
  {
    hide *;
    Shape(Empty, base);
  }

  lemma {:induction false} CountedCode(e: Regex, min: nat, extra: Option<nat>, lazy: bool, base: nat)
    ensures Code(Count(e, min, extra, lazy), base) == CountCode(e, min, extra, lazy, base)
    ensures CountCode(e, 0, Some(0), lazy, base) == []
  {
    hide *;
    Shape(Count(e, min, extra, lazy), base);
    CountCodeIs(e, 0, Some(0), lazy, base);
  }

  lemma {:induction false} CodeOfQuantified(e: Regex, lazy: bool, base: nat)
    ensures Code(Opt(e, lazy), base) == OptCode(e, lazy, base)
    ensures Code(Star(e, lazy), base) == StarCode(e, lazy, base)
    ensures Code(Plus(e, lazy), base) == PlusCode(e, lazy, base)
  {
    hide *;
    Shape(Opt(e, lazy), base);
    Shape(Star(e, lazy), base);
    Shape(Plus(e, lazy), base);
  }

  lemma {:induction false} QuantifiedCode(e: Regex, lazy: bool, base: nat)
    ensures OptCode(e, lazy, base) == Code(Opt(e, lazy), base)
    ensures Code(Opt(e, lazy), base) == [Fork(base + 1, base + 1 + Len(e), lazy)] + Code(e, base + 1)
    ensures Code(Star(e, lazy), base) == [Fork(base + 1, base + 2 + Len(e), lazy)] + Code(e, base + 1) + [Jump(base)]
    ensures Code(Plus(e, lazy), base) == Code(e, base) + [Fork(base, base + Len(e) + 1, lazy)]
  {
    hide *;
    CodeOfQuantified(e, lazy, base);
    QuantifiedCodeIs(e, lazy, base);
  }

  lemma {:induction false} CountedNone(e: Regex, lazy: bool, base: nat)
    ensures CountCode(e, 0, None, lazy, base) == Code(Star(e, lazy), base)
    ensures OptCode(e, lazy, base) == Code(Opt(e, lazy), base)
  {
    hide *;
    CodeOfQuantified(e, lazy, base);
    CountCodeIs(e, 0, None, lazy, base);
  }

  lemma {:induction false} CountStarts(e: Regex, lazy: bool, base: nat)
    ensures CountCode(e, 0, Some(0), lazy, base) == []
    ensures CountCode(e, 0, None, lazy, base) == Code(Star(e, lazy), base)
    ensures CountCode(e, 0, Some(1), lazy, base) == Code(Opt(e, lazy), base)
    ensures CountCode(e, 1, Some(0), lazy, base) == Code(e, base)
  {
    hide *;
    CountedNone(e, lazy, base);
    CountNothing(e, lazy, base);
    CountFirstOptional(e, 1, lazy, base);
    CountNothing(e, lazy, base + Len(e) + 1);
    CountFirst(e, 1, Some(0), lazy, base);
    CountNothing(e, lazy, base + Len(e));
  }

  ghost predicate ProgramFits(e: Regex) {
    ExprFits(1, 0, e)
  }

  // ---- the limits, counted on the pattern ----

  /** One step of each measure. */
  lemma {:induction false} MeasuresUnfold(e: Regex)
    ensures
      match e
      case Group(id, f) => Numbers(e) == {id} + Numbers(f) && MostBars(e) == MostBars(f) && MostTimes(e) == MostTimes(f)
      case Cat(a, b) =>
        && Numbers(e) == Numbers(a) + Numbers(b) && MostBars(e) == Max(MostBars(a), MostBars(b))
        && MostTimes(e) == Max(MostTimes(a), MostTimes(b))
      case Alt(a, b) =>
        && Numbers(e) == Numbers(a) + Numbers(b) && MostBars(e) == Max(OwnBars(e), Max(MostBars(a), MostBars(b)))
        && MostTimes(e) == Max(MostTimes(a), MostTimes(b)) && OwnBars(e) == OwnBars(b) + 1 && Bars(e) == 1 + Bars(b)
      case Opt(f, _) => Numbers(e) == Numbers(f) && MostBars(e) == MostBars(f) && MostTimes(e) == MostTimes(f)
      case Star(f, _) => Numbers(e) == Numbers(f) && MostBars(e) == MostBars(f) && MostTimes(e) == MostTimes(f)
      case Plus(f, _) => Numbers(e) == Numbers(f) && MostBars(e) == MostBars(f) && MostTimes(e) == MostTimes(f)
      case Count(f, min, extra, _) =>
        && Numbers(e) == Numbers(f) && MostBars(e) == MostBars(f)
        && MostTimes(e) == Max(if extra.Some? then min + extra.value else 0, MostTimes(f))
      case _ => Numbers(e) == {} && MostBars(e) == 0 && MostTimes(e) == 0
    ensures !e.Alt? ==> OwnBars(e) == 0 && Bars(e) == 0
  {
  }

  lemma {:induction false} FitsUnfolds(e: Regex)
    ensures
      match e
      case Group(id, f) => Fits(e) <==> 0 < id < MAX_GROUPS && Fits(f)
      case Cat(a, b) => Fits(e) <==> Fits(a) && Fits(b)
      case Alt(a, b) => Fits(e) <==> Bars(e) <= MAX_JUMPS && Fits(a) && Fits(b)
      case Opt(f, _) => Fits(e) <==> Fits(f)
      case Star(f, _) => Fits(e) <==> Fits(f)
      case Plus(f, _) => Fits(e) <==> Fits(f)
      case Count(f, min, extra, _) => Fits(e) <==> Fits(f) && (extra.Some? ==> min + extra.value <= MAX_REPEAT)
      case _ => Fits(e)
  {
  }

  lemma {:induction false} FitsCounted(e: Regex)
    ensures Fits(e) <==> (forall id :: id in Numbers(e) ==> 1 <= id <= 16) && MostBars(e) <= 64 && MostTimes(e) <= 255
    ensures Bars(e) == OwnBars(e)
  {
    hide Fits, Numbers, MostBars, MostTimes, OwnBars, Bars;
    MeasuresUnfold(e);
    FitsUnfolds(e);
    match e
    case Empty =>
    case Op(_) =>
    case Group(_, f) => FitsCounted(f);
    case Cat(a, b) => FitsCounted(a); FitsCounted(b);
    case Alt(a, b) => FitsCounted(a); FitsCounted(b);
    case Opt(f, _) => FitsCounted(f);
    case Star(f, _) => FitsCounted(f);
    case Plus(f, _) => FitsCounted(f);
    case Count(f, _, _, _) => FitsCounted(f);
  }

  lemma {:induction false} FitsGroups(e: Regex)
    requires Fits(e)
    ensures GroupsBelow(e, MAX_GROUPS)
  {
    match e
    case Empty =>
    case Op(_) =>
    case Group(_, f) => FitsGroups(f);
    case Cat(a, b) => FitsGroups(a); FitsGroups(b);
    case Alt(a, b) => FitsGroups(a); FitsGroups(b);
    case Opt(f, _) => FitsGroups(f);
    case Star(f, _) => FitsGroups(f);
    case Plus(f, _) => FitsGroups(f);
    case Count(f, _, _, _) => FitsGroups(f);
  }

  lemma {:induction false} NestUnfolds(e: Regex)
    ensures ExprNest(e) == 1 + AltNest(e)
    ensures AltNest(e) == if e.Alt? then Max(ConcatNest(e.a), AltNest(e.b)) else ConcatNest(e)
    ensures ConcatNest(e) == if e.Cat? then Max(PieceNest(e.a), ConcatNest(e.b)) else if e.Empty? then 0 else PieceNest(e)
    ensures PieceNest(e) == if e.Opt? || e.Star? || e.Plus? || e.Count? then AtomNest(e.e) else AtomNest(e)
    ensures AtomNest(e) == if e.Op? then 0 else if e.Group? then ExprNest(e.e) else ExprNest(e)
  {
  }

  lemma {:induction false} ParensUnfold(e: Regex, at: Place)
    ensures
      Parens(e, at) == (if NeedsParens(e, at) then 1 else 0) +
        (if e.Empty? || e.Op? then 0
         else if e.Group? then Parens(e.e, Alone) + 1
         else if e.Cat? then Max(Parens(e.a, InRow), Parens(e.b, Between))
         else if e.Alt? then Max(Parens(e.a, Between), Parens(e.b, Alone))
         else Parens(e.e, Repeated))
  {
  }

  /** An expression is opened for the whole pattern and for every pair of parentheses. */
  lemma {:induction false} NestIsParens(e: Regex)
    ensures ExprNest(e) == 1 + Parens(e, Alone) && AltNest(e) == Parens(e, Alone)
    ensures ConcatNest(e) == Parens(e, Between) && PieceNest(e) == Parens(e, InRow) && AtomNest(e) == Parens(e, Repeated)
  {
    hide ExprNest, AltNest, ConcatNest, PieceNest, AtomNest, Parens;
    NestUnfolds(e);
    ParensUnfold(e, Alone);
    ParensUnfold(e, Between);
    ParensUnfold(e, InRow);
    ParensUnfold(e, Repeated);
    match e
    case Empty =>
    case Op(_) =>
    case Group(_, f) => NestIsParens(f);
    case Cat(a, b) => NestIsParens(a); NestIsParens(b);
    case Alt(a, b) => NestIsParens(a); NestIsParens(b);
    case Opt(f, _) => NestIsParens(f);
    case Star(f, _) => NestIsParens(f);
    case Plus(f, _) => NestIsParens(f);
    case Count(f, _, _, _) => NestIsParens(f);
  }

  lemma {:induction false} TimesMore(min: nat, x: nat, y: nat)
    requires x <= y
    ensures min * x <= min * y
  {
  }

  lemma {:induction false} CountLenIsProduct(body: nat, min: nat, extra: Option<nat>)
    ensures CountLen(body, min, extra) == min * body + if extra.Some? then extra.value * (body + 1) else body + 2
    decreases min, if extra.Some? then extra.value else 0
  {
    if min > 0 {
      CountLenIsProduct(body, min - 1, extra);
      assert min * body == (min - 1) * body + body;
    } else if extra.Some? && extra.value > 0 {
      CountLenIsProduct(body, 0, Some(extra.value - 1));
      assert extra.value * (body + 1) == (extra.value - 1) * (body + 1) + (body + 1);
    }
  }

  lemma {:induction false} CountRoom(body: nat, counted: nat, min: nat, extra: Option<nat>)
    requires body <= counted
    ensures CountLen(body, min, extra) <= min * counted + if extra.Some? then extra.value * (counted + 1) else counted + 2
  {
    CountLenIsProduct(body, min, extra);
    TimesMore(min, body, counted);
    if extra.Some? { TimesMore(extra.value, body + 1, counted + 1); }
  }

  lemma {:induction false} RoomUnfolds(e: Regex)
    ensures
      match e
      case Empty => Room(e) == 0
      case Op(_) => Room(e) == 1
      case Group(_, f) => Room(e) == Room(f) + 2
      case Cat(a, b) => Room(e) == Max(Room(a), Len(a) + Room(b)) && Len(a) <= Room(a)
      case Alt(a, b) => Room(e) == Max(Room(a) + 1, Len(a) + 2 + Room(b)) && Len(a) <= Room(a)
      case Opt(f, _) => Room(e) == Max(Room(f), Len(f) + 1) && Len(f) <= Room(f)
      case Star(f, _) => Room(e) == Max(Room(f), Len(f) + 2) && Len(f) <= Room(f)
      case Plus(f, _) => Room(e) == Max(Room(f), Len(f) + 1) && Len(f) <= Room(f)
      case Count(f, min, extra, _) => Room(e) == Max(Room(f), CountLen(Len(f), min, extra)) && Len(f) <= Room(f)
  {
    hide CountLen, Len;
  }

  lemma {:induction false} InstructionsUnfold(e: Regex)
    ensures
      match e
      case Empty => Instructions(e) == 0
      case Op(_) => Instructions(e) == 1
      case Group(_, f) => Instructions(e) == Instructions(f) + 2
      case Cat(a, b) => Instructions(e) == Instructions(a) + Instructions(b)
      case Alt(a, b) => Instructions(e) == Instructions(a) + 2 + Instructions(b)
      case Opt(f, _) => Instructions(e) == Instructions(f) + 1
      case Star(f, _) => Instructions(e) == Instructions(f) + 2
      case Plus(f, _) => Instructions(e) == Instructions(f) + 1
      case Count(f, _, _, _) => Instructions(e) >= Instructions(f)
  {
  }

  lemma {:induction false} CountInstructions(f: Regex, min: nat, extra: Option<nat>, lazy: bool)
    ensures
      var n := Instructions(f);
      Instructions(Count(f, min, extra, lazy)) >= min * n + if extra.Some? then extra.value * (n + 1) else n + 2
  {
  }

  /** No step of emitting e needs more room than that. */
  lemma {:induction false} RoomCounted(e: Regex)
    ensures Room(e) <= Instructions(e)
  {
    hide Room, Instructions, CountLen, Len;
    RoomUnfolds(e);
    InstructionsUnfold(e);
    match e
    case Empty =>
    case Op(_) =>
    case Group(_, f) => RoomCounted(f);
    case Cat(a, b) => RoomCounted(a); RoomCounted(b);
    case Alt(a, b) => RoomCounted(a); RoomCounted(b);
    case Opt(f, _) => RoomCounted(f);
    case Star(f, _) => RoomCounted(f);
    case Plus(f, _) => RoomCounted(f);
    case Count(f, min, extra, _) =>
      RoomCounted(f);
      CountRoom(Len(f), Instructions(f), min, extra);
      CountInstructions(f, min, extra, e.lazy);
  }

  lemma {:induction false} KeptCounted(e: Regex)
    ensures Kept(0, ExprNest(e), e) <==>
      (forall id :: id in Numbers(e) ==> 1 <= id <= 16) && MostBars(e) <= 64 && MostTimes(e) <= 255 && Parens(e, Alone) < 256
  {
    hide Fits, ExprNest, Parens;
    FitsCounted(e);
    NestIsParens(e);
  }

  /** A pattern of sixteen groups, 64 bars a chain, 255 repetitions, parentheses below 256 deep and 2039 instructions always fits. */
  lemma {:induction false} ModestFits(e: Regex)
    requires (forall id :: id in Numbers(e) ==> 1 <= id <= 16) && MostBars(e) <= 64 && MostTimes(e) <= 255 && Parens(e, Alone) < 256
    requires Instructions(e) <= 2039
    ensures ProgramFits(e)
  {
    hide Fits, ExprNest, Parens, Room;
    KeptCounted(e);
    RoomCounted(e);
  }

  /** __ls_regex_compile, from the parsed pattern: group 0 around it, MATCH at the end. */
  method Compile(e: Regex) returns (program: Option<seq<Instr>>)
    requires Parsed(e)
    ensures program.Some? ==> program.value == Program(e) && GroupsBelow(e, MAX_GROUPS) && |program.value| <= 2048
    ensures program.Some? ==>
      (forall id :: id in Numbers(e) ==> 1 <= id <= 16) && MostBars(e) <= 64 && MostTimes(e) <= 255 && Parens(e, Alone) < 256
    ensures
      && (forall id :: id in Numbers(e) ==> 1 <= id <= 16) && MostBars(e) <= 64 && MostTimes(e) <= 255 && Parens(e, Alone) < 256
      && Instructions(e) <= 2039
      ==> program.Some?
    ensures ProgramFits(e) ==> program.Some?
  {
    hide Code, Parsed, Room, Fits, ExprNest, Parens, MostBars, MostTimes, Numbers, Instructions, GroupsBelow;
    KeptCounted(e);
    if Kept(0, ExprNest(e), e) {
      FitsGroups(e);
      if Instructions(e) <= 2039 { ModestFits(e); }
    }
    var b := new Builder();
    var r := b.Emit(Save(0));
    if r < 0 { return None; }
    r := b.EmitExpr(e);
    if r < 0 { return None; }
    r := b.Emit(Save(1));
    if r < 0 { return None; }
    r := b.Emit(Match);
    if r < 0 { return None; }
    assert b.prog == [Save(0)] + Code(e, 1) + [Save(1), Match];
    return Some(b.prog);
  }

  /** A slot of a numbered group. */
  predicate GroupSlot(i: Instr, n: nat) {
    i.Save? ==> 2 <= i.slot < n
  }

  ghost predicate SlotsBelow(c: seq<Instr>, n: nat) {
    forall k :: 0 <= k < |c| ==> GroupSlot(c[k], n)
  }

  lemma {:induction false} SlotsJoin(c: seq<Instr>, d: seq<Instr>, n: nat)
    requires SlotsBelow(c, n) && SlotsBelow(d, n)
    ensures SlotsBelow(c + d, n)
  {
  }

  /** Every slot that compiled code saves to is one of the two of an existing group. */
  lemma {:induction false} CodeSlots(e: Regex, base: nat, n: nat)
    requires Parsed(e) && GroupsBelow(e, n)
    ensures SlotsBelow(Code(e, base), 2 * n)
    decreases e, 1
  {
    hide SlotsBelow, GroupCode, AltCode, OptCode, StarCode, PlusCode, CountCode;
    match e
    case Empty => NoSlots([], 2 * n);
    case Op(i) => NoSlots([i], 2 * n);
    case Group(id, f) => GroupSlots(id, f, base, n);
    case Cat(a, b) => CatSlots(a, b, base, n);
    case Alt(a, b) => AltSlots(a, b, base, n);
    case Opt(f, lazy) => OptSlots(f, lazy, base, n);
    case Star(f, lazy) => StarSlots(f, lazy, base, n);
    case Plus(f, lazy) => PlusSlots(f, lazy, base, n);
    case Count(f, min, extra, lazy) => CountSlots(f, min, extra, lazy, base, n);
  }

  lemma {:induction false} CatSlots(a: Regex, b: Regex, base: nat, n: nat)
    requires Parsed(Cat(a, b)) && GroupsBelow(Cat(a, b), n)
    ensures SlotsBelow(Code(Cat(a, b), base), 2 * n)
    decreases Cat(a, b), 0
  {
    hide SlotsBelow, GroupCode, AltCode, OptCode, StarCode, PlusCode, CountCode;
    CodeSlots(a, base, n);
    CodeSlots(b, base + Len(a), n);
    SlotsJoin(Code(a, base), Code(b, base + Len(a)), 2 * n);
  }

  lemma {:induction false} NoSlots(c: seq<Instr>, n: nat)
    requires forall k :: 0 <= k < |c| ==> !c[k].Save?
    ensures SlotsBelow(c, n)
  {
  }

  lemma {:induction false} OneSlot(slot: nat, n: nat)
    requires 2 <= slot < n
    ensures SlotsBelow([Save(slot)], n)
  {
  }

  lemma {:induction false} GroupSlots(id: nat, e: Regex, base: nat, n: nat)
    requires Parsed(e) && GroupsBelow(e, n) && 0 < id < n
    ensures SlotsBelow(GroupCode(id, e, base), 2 * n)
    decreases e, 2
  {
    hide SlotsBelow, Code;
    CodeSlots(e, base + 1, n);
    OneSlot(2 * id, 2 * n);
    OneSlot(2 * id + 1, 2 * n);
    SlotsJoin([Save(2 * id)], Code(e, base + 1), 2 * n);
    SlotsJoin([Save(2 * id)] + Code(e, base + 1), [Save(2 * id + 1)], 2 * n);
  }

  lemma {:induction false} AltSlots(a: Regex, b: Regex, base: nat, n: nat)
    requires Parsed(a) && Parsed(b) && GroupsBelow(a, n) && GroupsBelow(b, n)
    ensures SlotsBelow(AltCode(a, b, base), 2 * n)
    decreases Alt(a, b), 0
  {
    hide *;
    AltCodeIs(a, b, base);
    var other := base + 2 + Len(a);
    var fork, jump := Split(base + 1, other), Jump(other + Len(b));
    CodeSlots(a, base + 1, n);
    CodeSlots(b, other, n);
    NoSlots([fork], 2 * n);
    NoSlots([jump], 2 * n);
    SlotsJoin([fork], Code(a, base + 1), 2 * n);
    SlotsJoin([fork] + Code(a, base + 1), [jump], 2 * n);
    SlotsJoin([fork] + Code(a, base + 1) + [jump], Code(b, other), 2 * n);
  }

  lemma {:induction false} PlusSlots(e: Regex, lazy: bool, base: nat, n: nat)
    requires Parsed(e) && GroupsBelow(e, n)
    ensures SlotsBelow(PlusCode(e, lazy, base), 2 * n)
    decreases e, 2
  {
    hide SlotsBelow, Code, Parsed, Len, GroupsBelow;
    var fork := Fork(base, base + Len(e) + 1, lazy);
    CodeSlots(e, base, n);
    NoSlots([fork], 2 * n);
    SlotsJoin(Code(e, base), [fork], 2 * n);
  }

  lemma {:induction false} OptSlots(e: Regex, lazy: bool, base: nat, n: nat)
    requires Parsed(e) && GroupsBelow(e, n)
    ensures SlotsBelow(OptCode(e, lazy, base), 2 * n)
    decreases e, 2
  {
    hide SlotsBelow, Code;
    CodeSlots(e, base + 1, n);
    NoSlots([Fork(base + 1, base + 1 + Len(e), lazy)], 2 * n);
    SlotsJoin([Fork(base + 1, base + 1 + Len(e), lazy)], Code(e, base + 1), 2 * n);
  }

  lemma {:induction false} StarSlots(e: Regex, lazy: bool, base: nat, n: nat)
    requires Parsed(e) && GroupsBelow(e, n)
    ensures SlotsBelow(StarCode(e, lazy, base), 2 * n)
    decreases e, 2
  {
    hide SlotsBelow, Code;
    var fork := Fork(base + 1, base + 2 + Len(e), lazy);
    CodeSlots(e, base + 1, n);
    NoSlots([fork], 2 * n);
    NoSlots([Jump(base)], 2 * n);
    SlotsJoin([fork], Code(e, base + 1), 2 * n);
    SlotsJoin([fork] + Code(e, base + 1), [Jump(base)], 2 * n);
  }

  lemma {:induction false} CountSlots(e: Regex, min: nat, extra: Option<nat>, lazy: bool, base: nat, n: nat)
    requires Parsed(e) && GroupsBelow(e, n)
    ensures SlotsBelow(CountCode(e, min, extra, lazy, base), 2 * n)
    decreases e, 3, min, if extra.Some? then extra.value else 0
  {
    hide SlotsBelow, Code, OptCode, StarCode, CountCode, Parsed, Len;
    CountCodeIs(e, min, extra, lazy, base);
    if min > 0 {
      CodeSlots(e, base, n);
      CountSlots(e, min - 1, extra, lazy, base + Len(e), n);
      SlotsJoin(Code(e, base), CountCode(e, min - 1, extra, lazy, base + Len(e)), 2 * n);
    } else if extra.None? {
      StarSlots(e, lazy, base, n);
    } else if extra.value == 0 {
      NoSlots([], 2 * n);
    } else {
      OptSlots(e, lazy, base, n);
      CountSlots(e, 0, Some(extra.value - 1), lazy, base + Len(e) + 1, n);
      SlotsJoin(OptCode(e, lazy, base), CountCode(e, 0, Some(extra.value - 1), lazy, base + Len(e) + 1), 2 * n);
    }
  }

  /** Compiled programs save inside the slots of their groups, open group 0 once and never branch back to that. */
  lemma {:induction false} ProgramSlots(e: Regex, n: nat)
    requires Parsed(e) && GroupsBelow(e, n) && n >= 1
    ensures SlotsFit(Program(e), 2 * n) && OneOpening(Program(e))
  {
    hide Code;
    var c := Code(e, 1);
    CodeSlots(e, 1, n);
    CodeContained(e, 1, 1, 1 + Len(e));
    forall k | 0 <= k < |Program(e)|
      ensures (1 <= k <= |c| ==> GroupSlot(Program(e)[k], 2 * n)) && TargetsIn(Program(e)[k], 1, 1 + Len(e))
    {
      if 1 <= k <= |c| { assert Program(e)[k] == c[k - 1]; }
    }
  }
}
