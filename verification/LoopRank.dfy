/** Patterns whose unbounded repetitions always read: their programs have no epsilon cycle, so every parse is a contender. */
module LoopRank {
  import opened Basics
  import opened Machine
  import opened Regex
  import opened ParseTree
  import opened CodeMeaning
  import opened PatternMeaning
  import opened Backtracking
  import FirstSet
  import OnePassWalk

  /** The pattern can match without reading, position tests taken to pass. */
  predicate Nullable(e: Regex) {
    match e
    case Empty => true
    case Op(i) => !Consuming(i)
    case Group(_, f) => Nullable(f)
    case Cat(a, b) => Nullable(a) && Nullable(b)
    case Alt(a, b) => Nullable(a) || Nullable(b)
    case Opt(_, _) => true
    case Star(_, _) => true
    case Plus(f, _) => Nullable(f)
    case Count(f, min, _, _) => min == 0 || Nullable(f)
  }

  /** What is repeated without bound cannot match without reading. */
  predicate LoopsRead(e: Regex) {
    match e
    case Empty => true
    case Op(_) => true
    case Group(_, f) => LoopsRead(f)
    case Cat(a, b) => LoopsRead(a) && LoopsRead(b)
    case Alt(a, b) => LoopsRead(a) && LoopsRead(b)
    case Opt(f, _) => LoopsRead(f)
    case Star(f, _) => LoopsRead(f) && !Nullable(f)
    case Plus(f, _) => LoopsRead(f) && !Nullable(f)
    case Count(f, _, extra, _) => LoopsRead(f) && (extra.None? ==> !Nullable(f))
  }

  function Max(a: nat, b: nat): nat {
    if a < b then b else a
  }

  /** The rank at the start of code with these ranks. */
  function First(r: seq<nat>, out: nat): nat {
    if r == [] then out else r[0]
  }

  /** A rank for every pc of the code of e that falls along every step that reads nothing; out is the rank right behind. */
  function Ranks(e: Regex, out: nat): (r: seq<nat>)
    ensures |r| == Len(e)
    decreases e, 0, 1
  {
    match e
    case Empty => []
    case Op(i) => [if Consuming(i) then 0 else out + 1]
    case Group(_, f) => GroupRanks(f, out)
    case Cat(a, b) => Ranks(a, First(Ranks(b, out), out)) + Ranks(b, out)
    case Alt(a, b) => AltRanks(a, b, out)
    case Opt(f, _) => OptRanks(f, out)
    case Star(f, _) => StarRanks(f, out)
    case Plus(f, _) => PlusRanks(f, out)
    case Count(f, min, extra, _) => CountRanks(f, min, extra, out)
  }

  function GroupRanks(f: Regex, out: nat): (r: seq<nat>)
    ensures |r| == Len(f) + 2
    decreases f, 1
  {
    var x := Ranks(f, out + 1);
    [First(x, out + 1) + 1] + x + [out + 1]
  }

  function AltRanks(a: Regex, b: Regex, out: nat): (r: seq<nat>)
    ensures |r| == Len(a) + Len(b) + 2
    decreases Alt(a, b), 0, 0
  {
    var x, y := Ranks(a, out + 1), Ranks(b, out);
    [Max(First(x, out + 1), First(y, out)) + 1] + x + [out + 1] + y
  }

  function OptRanks(f: Regex, out: nat): (r: seq<nat>)
    ensures |r| == Len(f) + 1
    decreases f, 1
  {
    var x := Ranks(f, out);
    [Max(First(x, out), out) + 1] + x
  }

  /** The rank of the SPLIT of a loop: above what follows and above where the body starts. */
  function Turn(f: Regex, out: nat): nat
    decreases f, 1
  {
    Max(First(Ranks(f, 0), 0), out) + 1
  }

  function StarRanks(f: Regex, out: nat): (r: seq<nat>)
    ensures |r| == Len(f) + 2
    decreases f, 2
  {
    var t := Turn(f, out);
    [t] + Ranks(f, t + 1) + [t + 1]
  }

  function PlusRanks(f: Regex, out: nat): (r: seq<nat>)
    ensures |r| == Len(f) + 1
    decreases f, 2
  {
    Ranks(f, Turn(f, out)) + [Turn(f, out)]
  }

  function CountRanks(f: Regex, min: nat, extra: Option<nat>, out: nat): (r: seq<nat>)
    ensures |r| == CountLen(Len(f), min, extra)
    decreases f, 3, min, if extra.Some? then extra.value else 0
  {
    if min > 0 then
      var rest := CountRanks(f, min - 1, extra, out);
      Ranks(f, First(rest, out)) + rest
    else if extra.None? then StarRanks(f, out)
    else if extra.value == 0 then []
    else
      var rest := CountRanks(f, 0, Some(extra.value - 1), out);
      OptRanks(f, First(rest, out)) + rest
  }

  // ---- what cannot match without reading starts at a rank of its own ----

  /** The rank at the start does not depend on what follows. */
  lemma {:induction false} FirstFixed(e: Regex, x: nat, y: nat)
    requires Parsed(e) && !Nullable(e)
    ensures Ranks(e, x) != [] && Ranks(e, y) != [] && Ranks(e, x)[0] == Ranks(e, y)[0]
    decreases e
  {
    match e
    case Empty =>
    case Op(_) =>
    case Opt(_, _) =>
    case Star(_, _) =>
    case Group(_, f) => FirstFixed(f, x + 1, y + 1);
    case Cat(a, b) =>
      if Nullable(a) {
        FirstFixed(b, x, y);
      } else {
        FirstFixed(a, First(Ranks(b, x), x), First(Ranks(b, y), y));
      }
    case Alt(a, b) =>
      FirstFixed(a, x + 1, y + 1);
      FirstFixed(b, x, y);
    case Plus(f, _) => FirstFixed(f, Turn(f, x), Turn(f, y));
    case Count(f, min, extra, _) =>
      FirstFixed(f, First(CountRanks(f, min - 1, extra, x), x), First(CountRanks(f, min - 1, extra, y), y));
  }

  // ---- the ranks fall ----

  /** Where control goes from pc without reading. */
  function Quiet(i: Instr, pc: nat): seq<nat> {
    if i.Save? || Anchor(i) then [pc + 1]
    else if i.Jump? then [i.target]
    else if i.Split? then [i.a, i.b]
    else []
  }

  ghost predicate FallsAt(i: Instr, pc: nat, rank: seq<nat>) {
    pc < |rank| && forall q :: q in Quiet(i, pc) ==> q < |rank| && rank[q] < rank[pc]
  }

  ghost predicate Falls(c: seq<Instr>, base: nat, rank: seq<nat>) {
    forall k :: 0 <= k < |c| ==> FallsAt(c[k], base + k, rank)
  }

  lemma {:induction false} FallsJoin(c: seq<Instr>, d: seq<Instr>, base: nat, rank: seq<nat>)
    requires Falls(c, base, rank) && Falls(d, base + |c|, rank)
    ensures Falls(c + d, base, rank)
  {
    hide FallsAt;
    forall k | 0 <= k < |c + d| ensures FallsAt((c + d)[k], base + k, rank) {
      if k >= |c| { assert (c + d)[k] == d[k - |c|] && base + k == base + |c| + (k - |c|); }
    }
  }

  lemma {:induction false} FallsNone(base: nat, rank: seq<nat>)
    ensures Falls([], base, rank)
  {
  }

  /** r are the ranks from base on, and out the one right behind. */
  ghost predicate Part(rank: seq<nat>, base: nat, r: seq<nat>, out: nat) {
    base + |r| < |rank| && rank[base..base + |r|] == r && rank[base + |r|] == out
  }

  lemma {:induction false} PartFirst(rank: seq<nat>, base: nat, r: seq<nat>, out: nat)
    requires Part(rank, base, r, out)
    ensures base + |r| < |rank| && rank[base] == First(r, out) && rank[base + |r|] == out
  {
  }

  lemma {:induction false} Parts(rank: seq<nat>, base: nat, x: seq<nat>, y: seq<nat>, out: nat)
    requires Part(rank, base, x + y, out)
    ensures Part(rank, base, x, First(y, out)) && Part(rank, base + |x|, y, out)
  {
    var z := x + y;
    var w := rank[base..base + |z|];
    assert rank[base..base + |x|] == w[..|x|] == z[..|x|] == x;
    assert rank[base + |x|..base + |x| + |y|] == w[|x|..] == z[|x|..] == y;
    if y != [] { assert rank[base + |x|] == w[|x|] == z[|x|] == y[0]; }
  }

  lemma {:induction false} RanksFall(e: Regex, base: nat, rank: seq<nat>, out: nat)
    requires Parsed(e) && LoopsRead(e) && Part(rank, base, Ranks(e, out), out)
    ensures Falls(Code(e, base), base, rank)
    decreases e, 0, 1
  {
    hide *;
    Shape(e, base);
    match e
    case Empty => FallsNone(base, rank);
    case Op(i) =>
      RanksOfOp(i, out);
      OpFalls(i, base, rank, out);
    case Group(id, f) =>
      RanksOfOne(id, f, false, out);
      GroupFalls(id, f, base, rank, out);
    case Cat(a, b) =>
      LoopsReadOfTwo(a, b);
      RanksOfCat(a, b, out);
      var y := Ranks(b, out);
      Parts(rank, base, Ranks(a, First(y, out)), y, out);
      RanksFall(a, base, rank, First(y, out));
      RanksFall(b, base + Len(a), rank, out);
      FallsJoin(Code(a, base), Code(b, base + Len(a)), base, rank);
    case Alt(a, b) =>
      LoopsReadOfTwo(a, b);
      RanksOfAlt(a, b, out);
      AltFalls(a, b, base, rank, out);
    case Opt(f, lazy) =>
      RanksOfOne(0, f, lazy, out);
      OptFalls(f, lazy, base, rank, out);
    case Star(f, lazy) =>
      RanksOfOne(0, f, lazy, out);
      StarFalls(f, lazy, base, rank, out);
    case Plus(f, lazy) =>
      RanksOfOne(0, f, lazy, out);
      PlusFalls(f, lazy, base, rank, out);
    case Count(f, min, extra, lazy) =>
      RanksOfCount(f, min, extra, lazy, out);
      CountFalls(f, min, extra, lazy, base, rank, out);
  }

  /** What the condition and the ranks of a pattern say of its parts. */
  lemma {:induction false} RanksOfCat(a: Regex, b: Regex, out: nat)
    ensures Ranks(Cat(a, b), out) == Ranks(a, First(Ranks(b, out), out)) + Ranks(b, out)
  {
    hide First, Len;
  }

  lemma {:induction false} RanksOfAlt(a: Regex, b: Regex, out: nat)
    ensures Ranks(Alt(a, b), out) == AltRanks(a, b, out)
  {
    hide AltRanks, Len;
  }

  lemma {:induction false} LoopsReadOfTwo(a: Regex, b: Regex)
    ensures LoopsRead(Cat(a, b)) <==> LoopsRead(a) && LoopsRead(b)
    ensures LoopsRead(Alt(a, b)) <==> LoopsRead(a) && LoopsRead(b)
  {
  }

  lemma {:induction false} RanksOfOne(id: nat, f: Regex, lazy: bool, out: nat)
    ensures Ranks(Group(id, f), out) == GroupRanks(f, out) && (LoopsRead(Group(id, f)) <==> LoopsRead(f))
    ensures Ranks(Opt(f, lazy), out) == OptRanks(f, out) && (LoopsRead(Opt(f, lazy)) <==> LoopsRead(f))
    ensures Ranks(Star(f, lazy), out) == StarRanks(f, out) && (LoopsRead(Star(f, lazy)) <==> LoopsRead(f) && !Nullable(f))
    ensures Ranks(Plus(f, lazy), out) == PlusRanks(f, out) && (LoopsRead(Plus(f, lazy)) <==> LoopsRead(f) && !Nullable(f))
  {
    hide GroupRanks, OptRanks, StarRanks, PlusRanks;
  }

  lemma {:induction false} RanksOfCount(f: Regex, min: nat, extra: Option<nat>, lazy: bool, out: nat)
    ensures Ranks(Count(f, min, extra, lazy), out) == CountRanks(f, min, extra, out)
    ensures LoopsRead(Count(f, min, extra, lazy)) <==> LoopsRead(f) && (extra.None? ==> !Nullable(f))
  {
    hide CountRanks;
  }

  lemma {:induction false} RanksOfOp(i: Instr, out: nat)
    ensures Ranks(Op(i), out) == [if Consuming(i) then 0 else out + 1]
  {
  }

  lemma {:induction false} GroupRanksIs(f: Regex, out: nat)
    ensures GroupRanks(f, out) == [First(Ranks(f, out + 1), out + 1) + 1] + (Ranks(f, out + 1) + [out + 1])
  {
    hide Ranks, First;
  }

  lemma {:induction false} AltRanksIs(a: Regex, b: Regex, out: nat)
    ensures
      var x, y := Ranks(a, out + 1), Ranks(b, out);
      AltRanks(a, b, out) == [Max(First(x, out + 1), First(y, out)) + 1] + (x + ([out + 1] + y))
  {
    hide Ranks, First, Max;
  }

  lemma {:induction false} LoopRanksAre(f: Regex, out: nat)
    ensures OptRanks(f, out) == [Max(First(Ranks(f, out), out), out) + 1] + Ranks(f, out)
    ensures StarRanks(f, out) == [Turn(f, out)] + (Ranks(f, Turn(f, out) + 1) + [Turn(f, out) + 1])
    ensures PlusRanks(f, out) == Ranks(f, Turn(f, out)) + [Turn(f, out)]
  {
    hide Ranks, First, Max, Turn;
  }

  lemma {:induction false} OpFalls(i: Instr, base: nat, rank: seq<nat>, out: nat)
    requires (Consuming(i) || Anchor(i)) && Part(rank, base, [if Consuming(i) then 0 else out + 1], out)
    ensures Falls([i], base, rank)
  {
    var r := [if Consuming(i) then 0 else out + 1];
    assert rank[base..base + 1][0] == r[0];
  }

  lemma {:induction false} FallsToNext(i: Instr, pc: nat, rank: seq<nat>)
    requires (i.Save? || (i.Jump? && i.target == pc + 1)) && pc + 1 < |rank| && rank[pc + 1] < rank[pc]
    ensures Falls([i], pc, rank)
  {
  }

  lemma {:induction false} FallsTo(i: Instr, pc: nat, rank: seq<nat>)
    requires pc < |rank|
    requires i.Jump? ==> i.target < |rank| && rank[i.target] < rank[pc]
    requires i.Split? ==> i.a < |rank| && i.b < |rank| && rank[i.a] < rank[pc] && rank[i.b] < rank[pc]
    requires i.Jump? || i.Split?
    ensures Falls([i], pc, rank)
  {
  }

  lemma {:induction false} ForkParts(stay: nat, leave: nat, lazy: bool)
    ensures var i := Fork(stay, leave, lazy);
      i.Split? && ((i.a == stay && i.b == leave) || (i.a == leave && i.b == stay))
  {
  }

  lemma {:induction false} OneRank(rank: seq<nat>, base: nat, v: nat, out: nat)
    requires Part(rank, base, [v], out)
    ensures base + 1 < |rank| && rank[base] == v && rank[base + 1] == out
  {
    assert rank[base..base + 1][0] == v;
  }

  lemma {:induction false} MaxIs(a: nat, b: nat)
    ensures Max(a, b) >= a && Max(a, b) >= b
  {
  }

  lemma {:induction false} FirstIs(r: seq<nat>, out: nat)
    ensures First(r, out) == if r == [] then out else r[0]
  {
  }

  lemma {:induction false} GroupFalls(id: nat, f: Regex, base: nat, rank: seq<nat>, out: nat)
    requires Parsed(f) && LoopsRead(f) && Part(rank, base, GroupRanks(f, out), out)
    ensures Falls(GroupCode(id, f, base), base, rank)
    decreases f, 1
  {
    hide *;
    var x := Ranks(f, out + 1);
    var a, z := [First(x, out + 1) + 1], [out + 1];
    GroupRanksIs(f, out);
    GroupCodeIs(id, f, base);
    FirstIs(z, out);
    Parts(rank, base, a, x + z, out);
    Parts(rank, base + 1, x, z, out);
    OneRank(rank, base, First(x, out + 1) + 1, First(x + z, out));
    OneRank(rank, base + 1 + Len(f), out + 1, out);
    PartFirst(rank, base + 1, x, First(z, out));
    RanksFall(f, base + 1, rank, out + 1);
    FallsToNext(Save(2 * id), base, rank);
    FallsToNext(Save(2 * id + 1), base + 1 + Len(f), rank);
    FallsJoin([Save(2 * id)], Code(f, base + 1), base, rank);
    FallsJoin([Save(2 * id)] + Code(f, base + 1), [Save(2 * id + 1)], base, rank);
  }

  lemma {:induction false} AltFalls(a: Regex, b: Regex, base: nat, rank: seq<nat>, out: nat)
    requires Parsed(a) && Parsed(b) && LoopsRead(a) && LoopsRead(b) && Part(rank, base, AltRanks(a, b, out), out)
    ensures Falls(AltCode(a, b, base), base, rank)
    decreases Alt(a, b), 0, 0
  {
    hide *;
    var x, y := Ranks(a, out + 1), Ranks(b, out);
    var top := Max(First(x, out + 1), First(y, out)) + 1;
    AltRanksIs(a, b, out);
    AltCodeIs(a, b, base);
    MaxIs(First(x, out + 1), First(y, out));
    var other := base + 2 + Len(a);
    Parts(rank, base, [top], x + ([out + 1] + y), out);
    Parts(rank, base + 1, x, [out + 1] + y, out);
    Parts(rank, base + 1 + Len(a), [out + 1], y, out);
    FirstIs([out + 1] + y, out);
    OneRank(rank, base, top, First(x + ([out + 1] + y), out));
    OneRank(rank, base + 1 + Len(a), out + 1, First(y, out));
    PartFirst(rank, base + 1, x, First([out + 1] + y, out));
    PartFirst(rank, other, y, out);
    RanksFall(a, base + 1, rank, out + 1);
    RanksFall(b, other, rank, out);
    FallsTo(Split(base + 1, other), base, rank);
    FallsTo(Jump(other + Len(b)), base + 1 + Len(a), rank);
    AltJoins(a, b, base, rank);
  }

  lemma {:induction false} AltJoins(a: Regex, b: Regex, base: nat, rank: seq<nat>)
    requires Parsed(a) && Parsed(b) && Falls(Code(a, base + 1), base + 1, rank) && Falls(Code(b, base + 2 + Len(a)), base + 2 + Len(a), rank)
    requires Falls([Split(base + 1, base + 2 + Len(a))], base, rank)
    requires Falls([Jump(base + 2 + Len(a) + Len(b))], base + 1 + Len(a), rank)
    ensures Falls(AltCode(a, b, base), base, rank)
  {
    hide *;
    var other := base + 2 + Len(a);
    AltCodeIs(a, b, base);
    FallsJoin([Split(base + 1, other)], Code(a, base + 1), base, rank);
    FallsJoin([Split(base + 1, other)] + Code(a, base + 1), [Jump(other + Len(b))], base, rank);
    FallsJoin([Split(base + 1, other)] + Code(a, base + 1) + [Jump(other + Len(b))], Code(b, other), base, rank);
  }

  lemma {:induction false} OptFalls(f: Regex, lazy: bool, base: nat, rank: seq<nat>, out: nat)
    requires Parsed(f) && LoopsRead(f) && Part(rank, base, OptRanks(f, out), out)
    ensures Falls(OptCode(f, lazy, base), base, rank)
    decreases f, 1
  {
    hide *;
    var x := Ranks(f, out);
    var top := Max(First(x, out), out) + 1;
    LoopRanksAre(f, out);
    QuantifiedCodeIs(f, lazy, base);
    MaxIs(First(x, out), out);
    Parts(rank, base, [top], x, out);
    OneRank(rank, base, top, First(x, out));
    PartFirst(rank, base + 1, x, out);
    RanksFall(f, base + 1, rank, out);
    ForkParts(base + 1, base + 1 + Len(f), lazy);
    FallsTo(Fork(base + 1, base + 1 + Len(f), lazy), base, rank);
    FallsJoin([Fork(base + 1, base + 1 + Len(f), lazy)], Code(f, base + 1), base, rank);
  }

  lemma {:induction false} TurnIs(f: Regex, out: nat)
    requires Parsed(f) && !Nullable(f)
    ensures forall x: nat :: First(Ranks(f, x), x) < Turn(f, out)
    ensures Turn(f, out) > out
  {
    hide Ranks;
    forall x: nat ensures First(Ranks(f, x), x) < Turn(f, out) { FirstFixed(f, x, 0); }
  }

  lemma {:induction false} StarFalls(f: Regex, lazy: bool, base: nat, rank: seq<nat>, out: nat)
    requires Parsed(f) && LoopsRead(f) && !Nullable(f) && Part(rank, base, StarRanks(f, out), out)
    ensures Falls(StarCode(f, lazy, base), base, rank)
    decreases f, 1
  {
    hide *;
    var t := Turn(f, out);
    var x := Ranks(f, t + 1);
    LoopRanksAre(f, out);
    QuantifiedCodeIs(f, lazy, base);
    TurnIs(f, out);
    FirstIs([t + 1], out);
    Parts(rank, base, [t], x + [t + 1], out);
    Parts(rank, base + 1, x, [t + 1], out);
    OneRank(rank, base, t, First(x + [t + 1], out));
    OneRank(rank, base + 1 + Len(f), t + 1, out);
    PartFirst(rank, base + 1, x, First([t + 1], out));
    RanksFall(f, base + 1, rank, t + 1);
    var i, j := Fork(base + 1, base + 2 + Len(f), lazy), Jump(base);
    ForkParts(base + 1, base + 2 + Len(f), lazy);
    FallsTo(i, base, rank);
    FallsTo(j, base + 1 + Len(f), rank);
    FallsJoin([i], Code(f, base + 1), base, rank);
    FallsJoin([i] + Code(f, base + 1), [j], base, rank);
  }

  lemma {:induction false} PlusFalls(f: Regex, lazy: bool, base: nat, rank: seq<nat>, out: nat)
    requires Parsed(f) && LoopsRead(f) && !Nullable(f) && Part(rank, base, PlusRanks(f, out), out)
    ensures Falls(PlusCode(f, lazy, base), base, rank)
    decreases f, 1
  {
    hide *;
    var t := Turn(f, out);
    var x := Ranks(f, t);
    LoopRanksAre(f, out);
    QuantifiedCodeIs(f, lazy, base);
    TurnIs(f, out);
    FirstIs([t], out);
    Parts(rank, base, x, [t], out);
    OneRank(rank, base + Len(f), t, out);
    PartFirst(rank, base, x, First([t], out));
    RanksFall(f, base, rank, t);
    ForkParts(base, base + Len(f) + 1, lazy);
    FallsTo(Fork(base, base + Len(f) + 1, lazy), base + Len(f), rank);
    FallsJoin(Code(f, base), [Fork(base, base + Len(f) + 1, lazy)], base, rank);
  }

  lemma {:induction false} CountRanksIs(f: Regex, min: nat, extra: Option<nat>, out: nat)
    ensures
      var r := CountRanks(f, min, extra, out);
      if min > 0 then
        var rest := CountRanks(f, min - 1, extra, out);
        r == Ranks(f, First(rest, out)) + rest
      else if extra.None? then r == StarRanks(f, out)
      else if extra.value == 0 then r == []
      else
        var rest := CountRanks(f, 0, Some(extra.value - 1), out);
        r == OptRanks(f, First(rest, out)) + rest
  {
    hide Ranks, First, StarRanks, OptRanks, Len, CountLen;
  }

  lemma {:induction false} CountFalls(f: Regex, min: nat, extra: Option<nat>, lazy: bool, base: nat, rank: seq<nat>, out: nat)
    requires Parsed(f) && LoopsRead(f) && (extra.None? ==> !Nullable(f)) && Part(rank, base, CountRanks(f, min, extra, out), out)
    ensures Falls(CountCode(f, min, extra, lazy, base), base, rank)
    decreases f, 2, min, if extra.Some? then extra.value else 0
  {
    hide *;
    CountRanksIs(f, min, extra, out);
    CountCodeIs(f, min, extra, lazy, base);
    if min > 0 {
      var rest := CountRanks(f, min - 1, extra, out);
      Parts(rank, base, Ranks(f, First(rest, out)), rest, out);
      RanksFall(f, base, rank, First(rest, out));
      CountFalls(f, min - 1, extra, lazy, base + Len(f), rank, out);
      FallsJoin(Code(f, base), CountCode(f, min - 1, extra, lazy, base + Len(f)), base, rank);
    } else if extra.None? {
      StarFalls(f, lazy, base, rank, out);
    } else if extra.value == 0 {
      FallsNone(base, rank);
    } else {
      var rest := CountRanks(f, 0, Some(extra.value - 1), out);
      Parts(rank, base, OptRanks(f, First(rest, out)), rest, out);
      OptFalls(f, lazy, base, rank, First(rest, out));
      CountFalls(f, 0, Some(extra.value - 1), lazy, base + Len(f) + 1, rank, out);
      FallsJoin(OptCode(f, lazy, base), CountCode(f, 0, Some(extra.value - 1), lazy, base + Len(f) + 1), base, rank);
    }
  }

  // ---- the whole program ----

  function ProgramRanks(e: Regex): (r: seq<nat>)
    ensures |r| == Len(e) + 3
  {
    [First(Ranks(e, 1), 1) + 1] + Ranks(e, 1) + [1, 0]
  }

  lemma {:induction false} ProgramFalls(e: Regex)
    requires Parsed(e) && LoopsRead(e)
    ensures |ProgramRanks(e)| == |Program(e)| && Falls(Program(e), 0, ProgramRanks(e))
  {
    hide *;
    var x, rank, n := Ranks(e, 1), ProgramRanks(e), Len(e);
    ProgramParts(e);
    PartFirst(rank, 1, x, 1);
    RanksFall(e, 1, rank, 1);
    FallsToNext(Save(0), 0, rank);
    FallsToNext(Save(1), n + 1, rank);
    MatchFalls(n + 2, rank);
    FallsJoin([Save(0)], Code(e, 1), 0, rank);
    FallsJoin([Save(0)] + Code(e, 1), [Save(1)], 0, rank);
    FallsJoin([Save(0)] + Code(e, 1) + [Save(1)], [Match], 0, rank);
  }

  lemma {:induction false} MatchFalls(pc: nat, rank: seq<nat>)
    requires pc < |rank|
    ensures Falls([Match], pc, rank)
  {
  }

  lemma {:induction false} ProgramParts(e: Regex)
    ensures Program(e) == [Save(0)] + Code(e, 1) + [Save(1)] + [Match] && |ProgramRanks(e)| == Len(e) + 3 == |Program(e)|
    ensures
      var r := ProgramRanks(e);
      Part(r, 1, Ranks(e, 1), 1) && r[0] == First(Ranks(e, 1), 1) + 1 && r[Len(e) + 1] == 1 && r[Len(e) + 2] == 0
  {
    hide Code, Ranks, First, Len, Part;
    RankFrame(First(Ranks(e, 1), 1) + 1, Ranks(e, 1));
  }

  lemma {:induction false} RankFrame(top: nat, x: seq<nat>)
    ensures
      var r := [top] + x + [1, 0];
      Part(r, 1, x, 1) && r[0] == top && r[|x| + 1] == 1 && r[|x| + 2] == 0
  {
    var r := [top] + x + [1, 0];
    assert r[1..1 + |x|] == x;
  }

  /** Every step reads a byte or goes down in rank. */
  lemma {:induction false} StepFalls(m: Machine, rank: seq<nat>, c: Config, d: Config)
    requires WellFormed(m.prog) && |rank| == |m.prog| && Falls(m.prog, 0, rank) && InBounds(m, c) && d in Succ(m, c)
    ensures d.pos > c.pos || (d.pos == c.pos && rank[d.pc] < rank[c.pc])
  {
    assert FallsAt(m.prog[c.pc], 0 + c.pc, rank);
    if !Consuming(m.prog[c.pc]) { assert d.pc in Quiet(m.prog[c.pc], c.pc); }
  }

  lemma {:induction false} RunFalls(m: Machine, rank: seq<nat>, p: Path, i: nat, j: nat)
    requires WellFormed(m.prog) && |rank| == |m.prog| && Falls(m.prog, 0, rank) && IsPath(m, p) && i < j < |p|
    ensures p[j].pos > p[i].pos || (p[j].pos == p[i].pos && rank[p[j].pc] < rank[p[i].pc])
    decreases j - i
  {
    hide WellFormed, Falls, Succ;
    assert p[j] in Succ(m, p[j - 1]);
    StepFalls(m, rank, p[j - 1], p[j]);
    if i < j - 1 { RunFalls(m, rank, p, i, j - 1); }
  }

  /** No run of such a program meets a configuration twice, so every parse is a contender. */
  lemma {:induction false} ParseIsSimple(m: Machine, e: Regex, start: nat, tree: Tree, t: State)
    requires CompiledFrom(m, e) && LoopsRead(e) && start <= |m.text| && IsParse(m, e, start, tree, t)
    ensures Simple(PathOf(m, e, start, tree, t))
  {
    var p, rank := PathOf(m, e, start, tree, t), ProgramRanks(e);
    PatternMatchRuns(m, e, start, tree, t);
    assert m.prog == Program(e) && Parsed(e);
    hide Program, Parsed, LoopsRead, ProgramRanks, PathOf, Captures, WellFormed, Succ, IsParse;
    ProgramFalls(e);
    forall i, j | 0 <= i < j < |p| ensures p[i] != p[j] { RunFalls(m, rank, p, i, j); }
  }

  /** tree is preferred to every other parse at start. */
  ghost predicate Foremost(m: Machine, e: Regex, start: nat, tree: Tree) {
    forall tree', t' :: IsParse(m, e, start, tree', t') ==> tree' == tree || Prefers(e, tree, tree')
  }

  /** Where loops read, the best parse is the preferred one among all parses. */
  lemma {:induction false} BestIsForemost(m: Machine, e: Regex, start: nat, tree: Tree, t: State)
    requires CompiledFrom(m, e) && LoopsRead(e) && start <= |m.text| && BestParse(m, e, start, tree, t)
    ensures Foremost(m, e, start, tree)
  {
    hide LoopsRead, CompiledFrom, Simple, PathOf, Prefers, Yield;
    forall tree', t' | IsParse(m, e, start, tree', t') ensures tree' == tree || Prefers(e, tree, tree') {
      ParseIsSimple(m, e, start, tree', t');
      PreferenceIsTotal(m.flags, m.text, e, Opened(m, start), tree, tree');
    }
  }

  lemma {:induction false} MeansIsParse(m: Machine, e: Regex, start: nat, t: State)
    ensures Means(m.flags, m.text, e, Opened(m, start), t) <==> exists tree :: IsParse(m, e, start, tree, t)
  {
    hide Means, Yield, Opened;
    MeaningIsParsing(m.flags, m.text, e, Opened(m, start), t);
    if HasParse(m.flags, m.text, e, Opened(m, start), t) {
      var tree :| Yield(m.flags, m.text, e, Opened(m, start), tree) == Some(t);
      assert IsParse(m, e, start, tree, t);
    }
  }

  /** The answer at a start, on trees alone: none when there is no parse, else the captures of the parse preferred to all others. */
  lemma {:induction false} AnswerIsForemost(m: Machine, e: Regex, start: nat, r: Option<Path>)
    requires CompiledFrom(m, e) && LoopsRead(e) && start <= |m.text| && Answers(m, e, start, r)
    ensures r.None? <==> forall tree, t :: !IsParse(m, e, start, tree, t)
    ensures r.Some? ==> exists tree, t ::
      BestRun(m, e, start, r.value, tree, t) && IsParse(m, e, start, tree, t) && Foremost(m, e, start, tree)
  {
    hide LoopsRead, CompiledFrom, Means, Yield, Foremost, PathOf, Captures, Simple;
    forall t ensures Means(m.flags, m.text, e, Opened(m, start), t) <==> exists tree :: IsParse(m, e, start, tree, t) {
      MeansIsParse(m, e, start, t);
    }
    if r.Some? {
      var tree, t :| BestRun(m, e, start, r.value, tree, t);
      BestIsForemost(m, e, start, tree, t);
    }
    forall tree, t | IsParse(m, e, start, tree, t) ensures r.Some? {
      assert Means(m.flags, m.text, e, Opened(m, start), t);
    }
  }

  // ---- and the walk always ends ----

  lemma {:induction false} QuietIsEps(prog: seq<Instr>, rank: seq<nat>)
    requires WellFormed(prog) && |rank| == |prog| && Falls(prog, 0, rank)
    ensures OnePassWalk.EpsAcyclic(prog, rank)
  {
    forall pc, q | 0 <= pc < |prog| && q in FirstSet.EpsSucc(prog, pc) ensures rank[q] < rank[pc] {
      assert FallsAt(prog[pc], 0 + pc, rank);
      assert q in Quiet(prog[pc], pc);
    }
  }

  /** Where loops read, a program the classifier accepts can be walked. */
  lemma {:induction false} LoopsReadCanWalk(e: Regex, flags: Flags)
    requires Parsed(e) && LoopsRead(e)
    ensures WellFormed(Program(e))
    ensures FirstSet.OnePass(Program(e), flags) ==> OnePassWalk.CanWalk(Program(e), ProgramRanks(e))
  {
    hide Program, Parsed, LoopsRead, ProgramRanks, WellFormed, OnePassWalk.EpsAcyclic;
    ProgramIsWell(e);
    ProgramFalls(e);
    QuietIsEps(Program(e), ProgramRanks(e));
  }
}
