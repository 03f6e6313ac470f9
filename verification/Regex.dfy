/** Regular expressions as parsed, what they mean, and the code each one compiles to. */
module Regex {
  import opened Basics
  import opened Machine

  datatype Regex =
    | Empty
    | Op(i: Instr)
    | Group(id: nat, e: Regex)
    | Cat(a: Regex, b: Regex)
    | Alt(a: Regex, b: Regex)
    | Opt(e: Regex, lazy: bool)
    | Star(e: Regex, lazy: bool)
    | Plus(e: Regex, lazy: bool)
    | Count(e: Regex, min: nat, extra: Option<nat>, lazy: bool)  // {min,min+extra}, {min,} when there is no extra

  /** What the parser builds: one-instruction atoms, and quantifiers only on atoms that emit something. */
  predicate Parsed(e: Regex) {
    match e
    case Empty => true
    case Op(i) => Consuming(i) || Anchor(i)
    case Group(_, e) => Parsed(e)
    case Cat(a, b) => Parsed(a) && Parsed(b)
    case Alt(a, b) => Parsed(a) && Parsed(b)
    case Opt(e, _) => Parsed(e) && Len(e) > 0
    case Star(e, _) => Parsed(e) && Len(e) > 0
    case Plus(e, _) => Parsed(e) && Len(e) > 0
    case Count(e, _, _, _) => Parsed(e) && Len(e) > 0
  }

  /** Every capture group has an id below n. */
  predicate GroupsBelow(e: Regex, n: nat) {
    match e
    case Empty => true
    case Op(_) => true
    case Group(id, e) => 0 < id < n && GroupsBelow(e, n)
    case Cat(a, b) => GroupsBelow(a, n) && GroupsBelow(b, n)
    case Alt(a, b) => GroupsBelow(a, n) && GroupsBelow(b, n)
    case Opt(e, _) => GroupsBelow(e, n)
    case Star(e, _) => GroupsBelow(e, n)
    case Plus(e, _) => GroupsBelow(e, n)
    case Count(e, _, _, _) => GroupsBelow(e, n)
  }

  // ---- meaning: a relation between text positions with the capture slots carried along ----

  datatype State = State(pos: nat, saved: seq<int>)

  function Put(s: State, slot: nat): (t: State)
    ensures t.pos == s.pos && |t.saved| == |s.saved|
  {
    if slot < |s.saved| then State(s.pos, s.saved[slot := s.pos]) else s
  }

  ghost predicate Means(flags: Flags, text: seq<Byte>, e: Regex, s: State, t: State)
    decreases e, 0
  {
    match e
    case Empty => s == t
    case Op(i) =>
      if Consuming(i) then
        s.pos < |text| && Matches(flags, i, text[s.pos]) && t == State(s.pos + 1, s.saved)
      else
        s.pos <= |text| && AnchorOk(flags, i, text, s.pos) && s == t
    case Group(id, e) => exists u :: Means(flags, text, e, Put(s, 2 * id), u) && t == Put(u, 2 * id + 1)
    case Cat(a, b) => exists u :: Means(flags, text, a, s, u) && Means(flags, text, b, u, t)
    case Alt(a, b) => Means(flags, text, a, s, t) || Means(flags, text, b, s, t)
    case Opt(e, _) => s == t || Means(flags, text, e, s, t)
    case Star(e, _) => exists k: nat :: Times(flags, text, e, k, s, t)
    case Plus(e, _) => exists k: nat :: k >= 1 && Times(flags, text, e, k, s, t)
    case Count(e, min, extra, _) =>
      exists k: nat :: min <= k && (extra.Some? ==> k <= min + extra.value) && Times(flags, text, e, k, s, t)
  }

  /** k repetitions, one after another. */
  ghost predicate Times(flags: Flags, text: seq<Byte>, e: Regex, k: nat, s: State, t: State)
    decreases e, k + 1
  {
    if k == 0 then s == t
    else exists u :: Means(flags, text, e, s, u) && Times(flags, text, e, k - 1, u, t)
  }

  // ---- code ----

  function Len(e: Regex): nat {
    match e
    case Empty => 0
    case Op(_) => 1
    case Group(_, e) => Len(e) + 2
    case Cat(a, b) => Len(a) + Len(b)
    case Alt(a, b) => Len(a) + Len(b) + 2
    case Opt(e, _) => Len(e) + 1
    case Star(e, _) => Len(e) + 2
    case Plus(e, _) => Len(e) + 1
    case Count(e, min, extra, _) => CountLen(Len(e), min, extra)
  }

  function CountLen(body: nat, min: nat, extra: Option<nat>): nat
    decreases min, if extra.Some? then extra.value else 0
  {
    if min > 0 then body + CountLen(body, min - 1, extra)
    else if extra.None? then body + 2
    else if extra.value == 0 then 0
    else body + 1 + CountLen(body, 0, Some(extra.value - 1))
  }

  /** A SPLIT that prefers staying over leaving, or the other way round when lazy. */
  function Fork(stay: nat, leave: nat, lazy: bool): Instr {
    if lazy then Split(leave, stay) else Split(stay, leave)
  }

  function GroupCode(id: nat, e: Regex, base: nat): (c: seq<Instr>)
    ensures |c| == Len(e) + 2
    decreases e, 1
  {
    [Save(2 * id)] + Code(e, base + 1) + [Save(2 * id + 1)]
  }

  function AltCode(a: Regex, b: Regex, base: nat): (c: seq<Instr>)
    ensures |c| == Len(a) + Len(b) + 2
    decreases Alt(a, b), 0, 0
  {
    var other := base + 2 + Len(a);
    [Split(base + 1, other)] + Code(a, base + 1) + [Jump(other + Len(b))] + Code(b, other)
  }

  function PlusCode(e: Regex, lazy: bool, base: nat): (c: seq<Instr>)
    ensures |c| == Len(e) + 1
    decreases e, 1
  {
    Code(e, base) + [Fork(base, base + Len(e) + 1, lazy)]
  }

  function OptCode(e: Regex, lazy: bool, base: nat): (c: seq<Instr>)
    ensures |c| == Len(e) + 1
    decreases e, 1
  {
    [Fork(base + 1, base + 1 + Len(e), lazy)] + Code(e, base + 1)
  }

  function StarCode(e: Regex, lazy: bool, base: nat): (c: seq<Instr>)
    ensures |c| == Len(e) + 2
    decreases e, 1
  {
    [Fork(base + 1, base + 2 + Len(e), lazy)] + Code(e, base + 1) + [Jump(base)]
  }

  /** The mandatory copies, then a starred copy or the optional ones. */
  function CountCode(e: Regex, min: nat, extra: Option<nat>, lazy: bool, base: nat): (c: seq<Instr>)
    ensures |c| == CountLen(Len(e), min, extra)
    decreases e, 2, min, if extra.Some? then extra.value else 0
  {
    if min > 0 then Code(e, base) + CountCode(e, min - 1, extra, lazy, base + Len(e))
    else if extra.None? then StarCode(e, lazy, base)
    else if extra.value == 0 then []
    else OptCode(e, lazy, base) + CountCode(e, 0, Some(extra.value - 1), lazy, base + Len(e) + 1)
  }

  /** The code of e placed at pc base, with absolute targets. */
  function Code(e: Regex, base: nat): (c: seq<Instr>)
    ensures |c| == Len(e)
    decreases e, 0, 1
  {
    match e
    case Empty => []
    case Op(i) => [i]
    case Group(id, e) => GroupCode(id, e, base)
    case Cat(a, b) => Code(a, base) + Code(b, base + Len(a))
    case Alt(a, b) => AltCode(a, b, base)
    case Opt(e, lazy) => OptCode(e, lazy, base)
    case Star(e, lazy) => StarCode(e, lazy, base)
    case Plus(e, lazy) => PlusCode(e, lazy, base)
    case Count(e, min, extra, lazy) => CountCode(e, min, extra, lazy, base)
  }

  /** The whole program: group 0 around the pattern. */
  function Program(e: Regex): (c: seq<Instr>)
    ensures |c| == Len(e) + 3
  {
    [Save(0)] + Code(e, 1) + [Save(1), Match]
  }

  // ---- one step of each definition, on its own ----

  /** The code, the length and the side condition of e, in terms of its parts. */
  lemma {:induction false} Shape(e: Regex, base: nat)
    ensures
      match e
      case Empty => Code(e, base) == [] && Len(e) == 0
      case Op(i) => Code(e, base) == [i] && Len(e) == 1 && (Parsed(e) <==> Consuming(i) || Anchor(i))
      case Group(id, f) => Code(e, base) == GroupCode(id, f, base) && Len(e) == Len(f) + 2 && (Parsed(e) <==> Parsed(f))
      case Cat(f, g) =>
        Code(e, base) == Code(f, base) + Code(g, base + Len(f)) && Len(e) == Len(f) + Len(g) && (Parsed(e) <==> Parsed(f) && Parsed(g))
      case Alt(f, g) =>
        Code(e, base) == AltCode(f, g, base) && Len(e) == Len(f) + Len(g) + 2 && (Parsed(e) <==> Parsed(f) && Parsed(g))
      case Opt(f, lazy) => Code(e, base) == OptCode(f, lazy, base) && Len(e) == Len(f) + 1 && (Parsed(e) <==> Parsed(f) && Len(f) > 0)
      case Star(f, lazy) => Code(e, base) == StarCode(f, lazy, base) && Len(e) == Len(f) + 2 && (Parsed(e) <==> Parsed(f) && Len(f) > 0)
      case Plus(f, lazy) => Code(e, base) == PlusCode(f, lazy, base) && Len(e) == Len(f) + 1 && (Parsed(e) <==> Parsed(f) && Len(f) > 0)
      case Count(f, min, extra, lazy) =>
        Code(e, base) == CountCode(f, min, extra, lazy, base) && Len(e) == CountLen(Len(f), min, extra) &&
        (Parsed(e) <==> Parsed(f) && Len(f) > 0)
  {
    hide GroupCode, AltCode, OptCode, StarCode, PlusCode, CountCode, CountLen;
  }

  lemma {:induction false} GroupCodeIs(id: nat, e: Regex, base: nat)
    ensures GroupCode(id, e, base) == [Save(2 * id)] + Code(e, base + 1) + [Save(2 * id + 1)]
  {
    hide Code, Len;
  }

  lemma {:induction false} AltCodeIs(a: Regex, b: Regex, base: nat)
    ensures AltCode(a, b, base) ==
      [Split(base + 1, base + 2 + Len(a))] + Code(a, base + 1) + [Jump(base + 2 + Len(a) + Len(b))] + Code(b, base + 2 + Len(a))
  {
    hide Code, Len;
  }

  lemma {:induction false} QuantifiedCodeIs(e: Regex, lazy: bool, base: nat)
    ensures OptCode(e, lazy, base) == [Fork(base + 1, base + 1 + Len(e), lazy)] + Code(e, base + 1)
    ensures StarCode(e, lazy, base) == [Fork(base + 1, base + 2 + Len(e), lazy)] + Code(e, base + 1) + [Jump(base)]
    ensures PlusCode(e, lazy, base) == Code(e, base) + [Fork(base, base + Len(e) + 1, lazy)]
  {
    hide Code, Len, Fork;
  }

  lemma {:induction false} CountCodeIs(e: Regex, min: nat, extra: Option<nat>, lazy: bool, base: nat)
    ensures CountCode(e, min, extra, lazy, base) ==
      if min > 0 then Code(e, base) + CountCode(e, min - 1, extra, lazy, base + Len(e))
      else if extra.None? then StarCode(e, lazy, base)
      else if extra.value == 0 then []
      else OptCode(e, lazy, base) + CountCode(e, 0, Some(extra.value - 1), lazy, base + Len(e) + 1)
  {
    hide Code, StarCode, OptCode, Len;
  }

  lemma {:induction false} CountLenIs(body: nat, min: nat, extra: Option<nat>)
    ensures CountLen(body, min, extra) ==
      if min > 0 then body + CountLen(body, min - 1, extra)
      else if extra.None? then body + 2
      else if extra.value == 0 then 0
      else body + 1 + CountLen(body, 0, Some(extra.value - 1))
  {
  }

  // ---- targets stay inside ----

  predicate TargetsIn(i: Instr, lo: nat, hi: nat) {
    && (i.Jump? ==> lo <= i.target <= hi)
    && (i.Split? ==> lo <= i.a <= hi && lo <= i.b <= hi)
  }

  ghost predicate Contained(c: seq<Instr>, lo: nat, hi: nat) {
    forall k :: 0 <= k < |c| ==> TargetsIn(c[k], lo, hi) && !c[k].Match?
  }

  lemma {:induction false} ContainedNone(lo: nat, hi: nat)
    ensures Contained([], lo, hi)
  {
  }

  /** One instruction of each kind whose targets are in range. */
  lemma {:induction false} ContainedEach(i: Instr, slot: nat, a: nat, b: nat, lazy: bool, lo: nat, hi: nat)
    ensures !i.Jump? && !i.Split? && !i.Match? ==> Contained([i], lo, hi)
    ensures Contained([Save(slot)], lo, hi)
    ensures lo <= a <= hi ==> Contained([Jump(a)], lo, hi)
    ensures lo <= a <= hi && lo <= b <= hi ==> Contained([Split(a, b)], lo, hi) && Contained([Fork(a, b, lazy)], lo, hi)
  {
  }

  lemma {:induction false} ContainedJoin(c: seq<Instr>, d: seq<Instr>, lo: nat, hi: nat)
    requires Contained(c, lo, hi) && Contained(d, lo, hi)
    ensures Contained(c + d, lo, hi)
  {
  }

  lemma {:induction false} CodeContained(e: Regex, base: nat, lo: nat, hi: nat)
    requires Parsed(e) && lo <= base && base + Len(e) <= hi
    ensures Contained(Code(e, base), lo, hi)
    decreases e, 0, 1
  {
    hide *;
    Shape(e, base);
    match e
    case Empty => ContainedNone(lo, hi);
    case Op(i) => OpContained(i, lo, hi);
    case Group(id, f) => GroupContained(id, f, base, lo, hi);
    case Cat(a, b) =>
      CodeContained(a, base, lo, hi);
      CodeContained(b, base + Len(a), lo, hi);
      ContainedJoin(Code(a, base), Code(b, base + Len(a)), lo, hi);
    case Alt(a, b) => AltContained(a, b, base, lo, hi);
    case Opt(f, lazy) => OptContained(f, lazy, base, lo, hi);
    case Star(f, lazy) => StarContained(f, lazy, base, lo, hi);
    case Plus(f, lazy) => PlusContained(f, lazy, base, lo, hi);
    case Count(f, min, extra, lazy) => CountContained(f, min, extra, lazy, base, lo, hi);
  }

  lemma {:induction false} OpContained(i: Instr, lo: nat, hi: nat)
    requires Consuming(i) || Anchor(i)
    ensures Contained([i], lo, hi)
  {
  }

  lemma {:induction false} GroupContained(id: nat, e: Regex, base: nat, lo: nat, hi: nat)
    requires Parsed(e) && lo <= base && base + Len(e) + 2 <= hi
    ensures Contained(GroupCode(id, e, base), lo, hi)
    decreases e, 1
  {
    hide *;
    GroupCodeIs(id, e, base);
    CodeContained(e, base + 1, lo, hi);
    ContainedEach(Any, 2 * id, 0, 0, false, lo, hi);
    ContainedEach(Any, 2 * id + 1, 0, 0, false, lo, hi);
    ContainedJoin([Save(2 * id)], Code(e, base + 1), lo, hi);
    ContainedJoin([Save(2 * id)] + Code(e, base + 1), [Save(2 * id + 1)], lo, hi);
  }

  lemma {:induction false} AltContained(a: Regex, b: Regex, base: nat, lo: nat, hi: nat)
    requires Parsed(a) && Parsed(b) && lo <= base && base + Len(a) + Len(b) + 2 <= hi
    ensures Contained(AltCode(a, b, base), lo, hi)
    decreases Alt(a, b), 0, 0
  {
    hide *;
    AltCodeIs(a, b, base);
    var other := base + 2 + Len(a);
    var fork, jump := Split(base + 1, other), Jump(other + Len(b));
    CodeContained(a, base + 1, lo, hi);
    CodeContained(b, other, lo, hi);
    ContainedEach(Any, 0, base + 1, other, false, lo, hi);
    ContainedEach(Any, 0, other + Len(b), 0, false, lo, hi);
    ContainedJoin([fork], Code(a, base + 1), lo, hi);
    ContainedJoin([fork] + Code(a, base + 1), [jump], lo, hi);
    ContainedJoin([fork] + Code(a, base + 1) + [jump], Code(b, other), lo, hi);
  }

  lemma {:induction false} PlusContained(e: Regex, lazy: bool, base: nat, lo: nat, hi: nat)
    requires Parsed(e) && lo <= base && base + Len(e) + 1 <= hi
    ensures Contained(PlusCode(e, lazy, base), lo, hi)
    decreases e, 1
  {
    hide *;
    QuantifiedCodeIs(e, lazy, base);
    CodeContained(e, base, lo, hi);
    ContainedEach(Any, 0, base, base + Len(e) + 1, lazy, lo, hi);
    ContainedJoin(Code(e, base), [Fork(base, base + Len(e) + 1, lazy)], lo, hi);
  }

  lemma {:induction false} OptContained(e: Regex, lazy: bool, base: nat, lo: nat, hi: nat)
    requires Parsed(e) && lo <= base && base + Len(e) + 1 <= hi
    ensures Contained(OptCode(e, lazy, base), lo, hi)
    decreases e, 1
  {
    hide *;
    QuantifiedCodeIs(e, lazy, base);
    CodeContained(e, base + 1, lo, hi);
    ContainedEach(Any, 0, base + 1, base + 1 + Len(e), lazy, lo, hi);
    ContainedJoin([Fork(base + 1, base + 1 + Len(e), lazy)], Code(e, base + 1), lo, hi);
  }

  lemma {:induction false} StarContained(e: Regex, lazy: bool, base: nat, lo: nat, hi: nat)
    requires Parsed(e) && lo <= base && base + Len(e) + 2 <= hi
    ensures Contained(StarCode(e, lazy, base), lo, hi)
    decreases e, 1
  {
    hide *;
    QuantifiedCodeIs(e, lazy, base);
    var fork := Fork(base + 1, base + 2 + Len(e), lazy);
    CodeContained(e, base + 1, lo, hi);
    ContainedEach(Any, 0, base + 1, base + 2 + Len(e), lazy, lo, hi);
    ContainedEach(Any, 0, base, 0, lazy, lo, hi);
    ContainedJoin([fork], Code(e, base + 1), lo, hi);
    ContainedJoin([fork] + Code(e, base + 1), [Jump(base)], lo, hi);
  }

  lemma {:induction false} CountContained(e: Regex, min: nat, extra: Option<nat>, lazy: bool, base: nat, lo: nat, hi: nat)
    requires Parsed(e) && lo <= base && base + CountLen(Len(e), min, extra) <= hi
    ensures Contained(CountCode(e, min, extra, lazy, base), lo, hi)
    decreases e, 2, min, if extra.Some? then extra.value else 0
  {
    hide *;
    CountCodeIs(e, min, extra, lazy, base);
    CountLenIs(Len(e), min, extra);
    if min > 0 {
      CodeContained(e, base, lo, hi);
      CountContained(e, min - 1, extra, lazy, base + Len(e), lo, hi);
      ContainedJoin(Code(e, base), CountCode(e, min - 1, extra, lazy, base + Len(e)), lo, hi);
    } else if extra.None? {
      StarContained(e, lazy, base, lo, hi);
    } else if extra.value == 0 {
      ContainedNone(lo, hi);
    } else {
      OptContained(e, lazy, base, lo, hi);
      CountContained(e, 0, Some(extra.value - 1), lazy, base + Len(e) + 1, lo, hi);
      ContainedJoin(OptCode(e, lazy, base), CountCode(e, 0, Some(extra.value - 1), lazy, base + Len(e) + 1), lo, hi);
    }
  }

  // ---- moving code moves its targets ----

  function Retarget(t: nat, from: nat, to: nat): nat {
    if t >= from then t - from + to else t
  }

  function Moved(i: Instr, from: nat, to: nat): Instr {
    match i
    case Jump(t) => Jump(Retarget(t, from, to))
    case Split(a, b) => Split(Retarget(a, from, to), Retarget(b, from, to))
    case _ => i
  }

  function MoveAll(c: seq<Instr>, from: nat, to: nat): (d: seq<Instr>)
    ensures |d| == |c| && forall k :: 0 <= k < |c| ==> d[k] == Moved(c[k], from, to)
  {
    seq(|c|, k requires 0 <= k < |c| => Moved(c[k], from, to))
  }

  lemma {:induction false} MoveNone(from: nat, to: nat)
    ensures MoveAll([], from, to) == []
  {
  }

  lemma {:induction false} MoveJoin(c: seq<Instr>, d: seq<Instr>, from: nat, to: nat)
    ensures MoveAll(c + d, from, to) == MoveAll(c, from, to) + MoveAll(d, from, to)
  {
    hide Moved;
  }

  lemma {:induction false} MoveOne(i: Instr, from: nat, to: nat)
    ensures MoveAll([i], from, to) == [Moved(i, from, to)]
  {
    hide Moved;
  }

  /** What moving by to - from does to one instruction of each kind. */
  lemma {:induction false} MoveEach(i: Instr, slot: nat, a: nat, b: nat, lazy: bool, from: nat, to: nat)
    requires from <= a && from <= b
    ensures !i.Jump? && !i.Split? ==> MoveAll([i], from, to) == [i]
    ensures MoveAll([Save(slot)], from, to) == [Save(slot)]
    ensures MoveAll([Jump(a)], from, to) == [Jump(a - from + to)]
    ensures MoveAll([Split(a, b)], from, to) == [Split(a - from + to, b - from + to)]
    ensures MoveAll([Fork(a, b, lazy)], from, to) == [Fork(a - from + to, b - from + to, lazy)]
  {
    MoveOne(i, from, to);
    MoveOne(Save(slot), from, to);
    MoveOne(Jump(a), from, to);
    MoveOne(Split(a, b), from, to);
    MoveOne(Fork(a, b, lazy), from, to);
    hide MoveAll;
  }

  lemma {:induction false} OpMoves(i: Instr, from: nat, to: nat)
    requires Consuming(i) || Anchor(i)
    ensures MoveAll([i], from, to) == [i]
  {
    MoveEach(i, 0, from, from, false, from, to);
    hide MoveAll;
  }

  /** Code is position independent up to its targets: moving it is compiling it elsewhere. */
  lemma {:induction false} CodeMoves(e: Regex, base: nat, from: nat, to: nat)
    requires Parsed(e) && from <= base
    ensures MoveAll(Code(e, base), from, to) == Code(e, base - from + to)
    decreases e, 0, 1
  {
    hide *;
    Shape(e, base);
    Shape(e, base - from + to);
    match e
    case Empty => MoveNone(from, to);
    case Op(i) => OpMoves(i, from, to);
    case Group(id, f) => GroupMoves(id, f, base, from, to);
    case Cat(a, b) => CatMoves(a, b, base, from, to);
    case Alt(a, b) => AltMoves(a, b, base, from, to);
    case Opt(f, lazy) => OptMoves(f, lazy, base, from, to);
    case Star(f, lazy) => StarMoves(f, lazy, base, from, to);
    case Plus(f, lazy) => PlusMoves(f, lazy, base, from, to);
    case Count(f, min, extra, lazy) => CountMoves(f, min, extra, lazy, base, from, to);
  }

  lemma {:induction false} CatMoves(a: Regex, b: Regex, base: nat, from: nat, to: nat)
    requires Parsed(a) && Parsed(b) && from <= base
    ensures MoveAll(Code(a, base) + Code(b, base + Len(a)), from, to) ==
      Code(a, base - from + to) + Code(b, base - from + to + Len(a))
    decreases Cat(a, b), 0, 0
  {
    hide *;
    CodeMoves(a, base, from, to);
    CodeMoves(b, base + Len(a), from, to);
    MoveJoin(Code(a, base), Code(b, base + Len(a)), from, to);
    assert base + Len(a) - from + to == base - from + to + Len(a);
  }

  lemma {:induction false} GroupMoves(id: nat, e: Regex, base: nat, from: nat, to: nat)
    requires Parsed(e) && from <= base
    ensures MoveAll(GroupCode(id, e, base), from, to) == GroupCode(id, e, base - from + to)
    decreases e, 1
  {
    hide *;
    GroupCodeIs(id, e, base);
    GroupCodeIs(id, e, base - from + to);
    CodeMoves(e, base + 1, from, to);
    assert base + 1 - from + to == base - from + to + 1;
    MoveEach(Any, 2 * id, from, from, false, from, to);
    MoveEach(Any, 2 * id + 1, from, from, false, from, to);
    MoveJoin([Save(2 * id)], Code(e, base + 1), from, to);
    MoveJoin([Save(2 * id)] + Code(e, base + 1), [Save(2 * id + 1)], from, to);
  }

  lemma {:induction false} AltMoves(a: Regex, b: Regex, base: nat, from: nat, to: nat)
    requires Parsed(a) && Parsed(b) && from <= base
    ensures MoveAll(AltCode(a, b, base), from, to) == AltCode(a, b, base - from + to)
    decreases Alt(a, b), 0, 0
  {
    hide *;
    var other := base + 2 + Len(a);
    var fork, jump := Split(base + 1, other), Jump(other + Len(b));
    var there := base - from + to;
    AltCodeIs(a, b, base);
    AltCodeIs(a, b, there);
    CodeMoves(a, base + 1, from, to);
    CodeMoves(b, other, from, to);
    assert there + 1 == base + 1 - from + to && there + 2 + Len(a) == other - from + to;
    assert there + 2 + Len(a) + Len(b) == other + Len(b) - from + to;
    MoveEach(Any, 0, base + 1, other, false, from, to);
    MoveEach(Any, 0, other + Len(b), from, false, from, to);
    MoveJoin([fork], Code(a, base + 1), from, to);
    MoveJoin([fork] + Code(a, base + 1), [jump], from, to);
    MoveJoin([fork] + Code(a, base + 1) + [jump], Code(b, other), from, to);
  }

  lemma {:induction false} PlusMoves(e: Regex, lazy: bool, base: nat, from: nat, to: nat)
    requires Parsed(e) && from <= base
    ensures MoveAll(PlusCode(e, lazy, base), from, to) == PlusCode(e, lazy, base - from + to)
    decreases e, 1
  {
    hide *;
    QuantifiedCodeIs(e, lazy, base);
    QuantifiedCodeIs(e, lazy, base - from + to);
    CodeMoves(e, base, from, to);
    assert base + Len(e) + 1 - from + to == base - from + to + Len(e) + 1;
    MoveEach(Any, 0, base, base + Len(e) + 1, lazy, from, to);
    MoveJoin(Code(e, base), [Fork(base, base + Len(e) + 1, lazy)], from, to);
  }

  lemma {:induction false} OptMoves(e: Regex, lazy: bool, base: nat, from: nat, to: nat)
    requires Parsed(e) && from <= base
    ensures MoveAll(OptCode(e, lazy, base), from, to) == OptCode(e, lazy, base - from + to)
    decreases e, 1
  {
    hide *;
    QuantifiedCodeIs(e, lazy, base);
    QuantifiedCodeIs(e, lazy, base - from + to);
    CodeMoves(e, base + 1, from, to);
    assert base + 1 - from + to == base - from + to + 1;
    assert base + 1 + Len(e) - from + to == base - from + to + 1 + Len(e);
    MoveEach(Any, 0, base + 1, base + 1 + Len(e), lazy, from, to);
    MoveJoin([Fork(base + 1, base + 1 + Len(e), lazy)], Code(e, base + 1), from, to);
  }

  lemma {:induction false} StarMoves(e: Regex, lazy: bool, base: nat, from: nat, to: nat)
    requires Parsed(e) && from <= base
    ensures MoveAll(StarCode(e, lazy, base), from, to) == StarCode(e, lazy, base - from + to)
    decreases e, 1
  {
    hide *;
    QuantifiedCodeIs(e, lazy, base);
    QuantifiedCodeIs(e, lazy, base - from + to);
    var fork := Fork(base + 1, base + 2 + Len(e), lazy);
    CodeMoves(e, base + 1, from, to);
    assert base + 1 - from + to == base - from + to + 1;
    assert base + 2 + Len(e) - from + to == base - from + to + 2 + Len(e);
    MoveEach(Any, 0, base + 1, base + 2 + Len(e), lazy, from, to);
    MoveEach(Any, 0, base, base, lazy, from, to);
    MoveJoin([fork], Code(e, base + 1), from, to);
    MoveJoin([fork] + Code(e, base + 1), [Jump(base)], from, to);
  }

  lemma {:induction false} CountMoves(e: Regex, min: nat, extra: Option<nat>, lazy: bool, base: nat, from: nat, to: nat)
    requires Parsed(e) && from <= base
    ensures MoveAll(CountCode(e, min, extra, lazy, base), from, to) == CountCode(e, min, extra, lazy, base - from + to)
    decreases e, 2, min, if extra.Some? then extra.value else 0
  {
    hide *;
    CountCodeIs(e, min, extra, lazy, base);
    CountCodeIs(e, min, extra, lazy, base - from + to);
    if min > 0 {
      CodeMoves(e, base, from, to);
      CountMoves(e, min - 1, extra, lazy, base + Len(e), from, to);
      assert base + Len(e) - from + to == base - from + to + Len(e);
      MoveJoin(Code(e, base), CountCode(e, min - 1, extra, lazy, base + Len(e)), from, to);
    } else if extra.None? {
      StarMoves(e, lazy, base, from, to);
    } else if extra.value == 0 {
      MoveNone(from, to);
    } else {
      OptMoves(e, lazy, base, from, to);
      CountMoves(e, 0, Some(extra.value - 1), lazy, base + Len(e) + 1, from, to);
      assert base + Len(e) + 1 - from + to == base - from + to + Len(e) + 1;
      MoveJoin(OptCode(e, lazy, base), CountCode(e, 0, Some(extra.value - 1), lazy, base + Len(e) + 1), from, to);
    }
  }
}
