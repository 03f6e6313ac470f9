/** The walk with no assumption on loops: exactly the programs it comes to an end on, whatever the text. */
module HaltingWalk {
  import opened Basics
  import opened Machine
  import opened Backtracking
  import opened FirstSet
  import opened OnePassWalk

  ghost predicate PickedFrom(m: Machine, start: nat, p: Path)
    requires WellFormed(m.prog)
  {
    Picked(m, p) && p[0] == Config(0, start)
  }

  /** The whole walk from start, ending at MATCH or where the walker gives up. */
  ghost predicate Halts(m: Machine, start: nat, p: Path)
    requires WellFormed(m.prog)
  {
    PickedFrom(m, start, p) && Pick(m, Last(p)).None?
  }

  lemma {:induction false} PickedGrows(m: Machine, p: Path, d: Config)
    requires WellFormed(m.prog) && Picked(m, p) && Pick(m, Last(p)) == Some(d)
    ensures Picked(m, p + [d]) && Captures(m, p + [d]) == Store(m.prog, Last(p), Captures(m, p))
  {
    hide Pick, Succ, WellFormed;
    ExtendPath(m, p, d);
    var r := p + [d];
    forall i | 0 < i < |r| ensures Pick(m, r[i - 1]) == Some(r[i]) {
    }
  }

  lemma {:induction false} StartsPicked(m: Machine, start: nat)
    requires WellFormed(m.prog) && start <= |m.text|
    ensures PickedFrom(m, start, Root(start)) && Last(Root(start)) == Config(0, start) && Root(start) == [Config(0, start)]
  {
  }

  lemma {:induction false} Determined(m: Machine, p: Path, q: Path, k: nat)
    requires WellFormed(m.prog) && Picked(m, p) && Picked(m, q) && p[0] == q[0] && k < |p| && k < |q|
    ensures p[k] == q[k]
  {
    hide Pick, Succ, WellFormed;
    if k > 0 {
      Determined(m, p, q, k - 1);
      assert Some(p[k]) == Pick(m, p[k - 1]) == Pick(m, q[k - 1]) == Some(q[k]);
    }
  }

  lemma {:induction false} PicksOn(m: Machine, p: Path, k: nat)
    requires WellFormed(m.prog) && Picked(m, p) && k + 1 < |p|
    ensures InBounds(m, p[k]) && Pick(m, p[k]).Some?
  {
    hide Pick, Succ, WellFormed;
    assert Pick(m, p[k + 1 - 1]) == Some(p[k + 1]);
  }

  /** A walk that has come to an end is the longest there is. */
  lemma {:induction false} PrefixOfHalt(m: Machine, start: nat, p: Path, end: Path)
    requires WellFormed(m.prog) && PickedFrom(m, start, p) && Halts(m, start, end)
    ensures p <= end
  {
    hide Pick, Succ, WellFormed;
    if |p| > |end| {
      Determined(m, p, end, |end| - 1);
      PicksOn(m, p, |end| - 1);
    } else {
      forall k | 0 <= k < |p| ensures p[k] == end[k] { Determined(m, p, end, k); }
    }
  }

  lemma {:induction false} Echoes(m: Machine, p: Path, i: nat, j: nat, k: nat)
    requires WellFormed(m.prog) && Picked(m, p) && i < j && j + k < |p| && p[i] == p[j]
    ensures p[i + k] == p[j + k]
  {
    hide Pick, Succ, WellFormed;
    if k > 0 {
      Echoes(m, p, i, j, k - 1);
      assert Pick(m, p[i + k - 1]) == Some(p[i + k]) && Pick(m, p[j + k - 1]) == Some(p[j + k]);
    }
  }

  lemma {:induction false} HaltedIsSimple(m: Machine, start: nat, end: Path)
    requires WellFormed(m.prog) && Halts(m, start, end)
    ensures Simple(end)
  {
    hide Pick, Succ, WellFormed;
    forall i, j | 0 <= i < j < |end| ensures end[i] != end[j] {
      if end[i] == end[j] {
        var k := |end| - 1 - j;
        Echoes(m, end, i, j, k);
        PicksOn(m, end, i + k);
      }
    }
  }

  lemma {:induction false} WalkedOn(m: Machine, start: nat, n: nat) returns (p: Path)
    requires WellFormed(m.prog) && start <= |m.text|
    ensures PickedFrom(m, start, p) && (|p| == n + 1 || Halts(m, start, p))
    decreases n
  {
    if n == 0 { return Root(start); }
    hide Pick, Succ, WellFormed;
    p := WalkedOn(m, start, n - 1);
    var d := Pick(m, Last(p));
    if d.Some? {
      PickedGrows(m, p, d.value);
      p := p + [d.value];
    }
  }

  lemma {:induction false} SimpleCounts(p: Path)
    requires Simple(p)
    ensures |Elems(p)| == |p|
    decreases |p|
  {
    if p == [] {
      assert Elems(p) == {};
    } else {
      var q := p[..|p| - 1];
      SimpleCounts(q);
      assert Elems(p) == Elems(q) + {Last(p)};
      assert Last(p) !in q;
    }
  }

  lemma {:induction false} SimpleIsShort(m: Machine, p: Path)
    requires WellFormed(m.prog) && IsPath(m, p) && Simple(p)
    ensures |p| <= |Universe(m)|
  {
    SimpleCounts(p);
    hide WellFormed, Simple, Succ;
    assert Elems(p) <= Universe(m);
    Smaller(Elems(p), Universe(m));
  }

  /** On one text: the walk ends if and only if no configuration comes back. */
  lemma {:induction false} HaltsUnlessRepeats(m: Machine, start: nat)
    requires WellFormed(m.prog) && start <= |m.text|
    ensures (exists end :: Halts(m, start, end)) <==> (forall p :: PickedFrom(m, start, p) ==> Simple(p))
  {
    hide Pick, Succ, WellFormed;
    if end :| Halts(m, start, end) {
      HaltedIsSimple(m, start, end);
      forall p | PickedFrom(m, start, p) ensures Simple(p) { PrefixOfHalt(m, start, p, end); }
    }
    if forall p :: PickedFrom(m, start, p) ==> Simple(p) {
      var p := WalkedOn(m, start, |Universe(m)|);
      SimpleIsShort(m, p);
      assert Halts(m, start, p);
    }
  }

  /** What vm_exec_onepass returns: the walk from start if it ends at MATCH. */
  ghost function WalkTo(m: Machine, start: nat): (r: Option<Path>)
    requires WellFormed(m.prog)
    ensures r.Some? ==> Accepting(m, r.value) && r.value[0] == Config(0, start) && Halts(m, start, r.value)
  {
    if end :| Halts(m, start, end) && m.prog[Last(end).pc].Match? then Some(end) else None
  }

  lemma {:induction false} WalkToIs(m: Machine, start: nat, end: Path)
    requires WellFormed(m.prog) && Halts(m, start, end)
    ensures end != [] && Last(end).pc < |m.prog|
    ensures WalkTo(m, start) == if m.prog[Last(end).pc].Match? then Some(end) else None
  {
    hide Pick, Succ, WellFormed;
    forall other | Halts(m, start, other) ensures other == end {
      PrefixOfHalt(m, start, other, end);
      PrefixOfHalt(m, start, end, other);
    }
  }

  lemma {:induction false} RankedEnds(m: Machine, rank: seq<nat>, start: nat)
    requires CanWalk(m.prog, rank) && start <= |m.text|
    ensures WellFormed(m.prog) && exists end :: Halts(m, start, end)
  {
    hide Pick, Succ, WellFormed, EpsAcyclic, Simple;
    forall p | PickedFrom(m, start, p) ensures Simple(p) { PathsAreSimple(m, rank, p); }
    HaltsUnlessRepeats(m, start);
  }

  // ---- on all texts: a check of the program alone ----

  /** All that a step depends on: the pc and the two bytes around the position. */
  datatype Spot = Spot(pc: nat, prev: Option<Byte>, next: Option<Byte>)

  function PrevByte(text: seq<Byte>, pos: nat): Option<Byte> {
    if 0 < pos <= |text| then Some(text[pos - 1]) else None
  }

  function SpotAt(m: Machine, c: Config): Spot {
    Spot(c.pc, PrevByte(m.text, c.pos), NextByte(m.text, c.pos))
  }

  predicate IsWordByte(b: Option<Byte>) {
    b.Some? && IsWord(b.value)
  }

  /** The position test of a zero-width assertion, from the bytes on both sides. */
  predicate PassesBetween(flags: Flags, i: Instr, prev: Option<Byte>, next: Option<Byte>) {
    match i
    case Bol => prev.None? || (flags.multiline && prev.value == NEWLINE)
    case Eol => next.None? || (flags.multiline && next.value == NEWLINE)
    case Bos => prev.None?
    case Eos => next.None?
    case WordBnd => IsWordByte(prev) != IsWordByte(next)
    case NWordBnd => IsWordByte(prev) == IsWordByte(next)
    case _ => false
  }

  /** The pc the walker goes to from a spot, if any. */
  ghost function Step(prog: seq<Instr>, flags: Flags, n: Spot): (r: Option<nat>)
    requires WellFormed(prog) && n.pc < |prog|
  {
    var i := prog[n.pc];
    if i.Split? then Side(prog, flags, n.pc, n.next)
    else if i.Match? then None
    else if i.Save? then Some(n.pc + 1)
    else if i.Jump? then Some(i.target)
    else if Anchor(i) then if PassesBetween(flags, i, n.prev, n.next) then Some(n.pc + 1) else None
    else if n.next.Some? && Matches(flags, i, n.next.value) then Some(n.pc + 1)
    else None
  }

  /** From spot n to spot d: a byte that is read becomes the one before, and any byte or none may come next. */
  ghost predicate Follows(prog: seq<Instr>, flags: Flags, n: Spot, d: Spot)
    requires WellFormed(prog) && n.pc < |prog|
  {
    && Step(prog, flags, n) == Some(d.pc)
    && if Consuming(prog[n.pc]) then d.prev == n.next else d.prev == n.prev && d.next == n.next
  }

  ghost predicate SpotTrace(prog: seq<Instr>, flags: Flags, t: seq<Spot>)
    requires WellFormed(prog)
  {
    && |t| > 0
    && (forall i :: 0 <= i < |t| ==> t[i].pc < |prog|)
    && (forall i, j :: 0 <= i < |t| && j == i + 1 < |t| ==> Follows(prog, flags, t[i], t[j]))
  }

  /** From i to j the trace goes round without reading. */
  ghost predicate GoesRound(prog: seq<Instr>, t: seq<Spot>, i: nat, j: nat)
    requires forall k :: 0 <= k < |t| ==> t[k].pc < |prog|
  {
    i < j < |t| && t[i] == t[j] && forall k :: i <= k < j ==> !Consuming(prog[t[k].pc])
  }

  /** A check of the program over finitely many spots: one that the start leads to lies on a cycle that reads nothing. */
  ghost predicate Loops(prog: seq<Instr>, flags: Flags)
    requires WellFormed(prog)
  {
    exists t: seq<Spot>, i: nat, j: nat :: SpotTrace(prog, flags, t) && t[0].pc == 0 && GoesRound(prog, t, i, j)
  }

  ghost predicate AlwaysHalts(prog: seq<Instr>, flags: Flags, nslots: nat)
    requires WellFormed(prog)
  {
    forall text: seq<Byte>, start: nat :: start <= |text| ==> Ends(Machine(prog, flags, nslots, text), start)
  }

  ghost predicate Ends(m: Machine, start: nat)
    requires WellFormed(m.prog)
  {
    exists end :: Halts(m, start, end)
  }

  lemma {:induction false} AnchorBetween(m: Machine, c: Config)
    requires InBounds(m, c) && Anchor(m.prog[c.pc])
    ensures AnchorOk(m.flags, m.prog[c.pc], m.text, c.pos) <==>
      PassesBetween(m.flags, m.prog[c.pc], PrevByte(m.text, c.pos), NextByte(m.text, c.pos))
  {
  }

  /** The walker's move is the step of its spot. */
  lemma {:induction false} PickIsStep(m: Machine, c: Config)
    requires WellFormed(m.prog) && InBounds(m, c)
    ensures
      var s := Step(m.prog, m.flags, SpotAt(m, c));
      Pick(m, c) == if s.None? then None else Some(Config(s.value, c.pos + if Consuming(m.prog[c.pc]) then 1 else 0))
  {
    hide Side, WellFormed, AnchorOk, PassesBetween, Matches;
    if Anchor(m.prog[c.pc]) { AnchorBetween(m, c); }
  }

  lemma {:induction false} SpotMoves(m: Machine, c: Config, d: Config)
    requires WellFormed(m.prog) && InBounds(m, c) && Pick(m, c) == Some(d)
    ensures InBounds(m, d) && Follows(m.prog, m.flags, SpotAt(m, c), SpotAt(m, d))
    ensures d.pos == c.pos + if Consuming(m.prog[c.pc]) then 1 else 0
  {
    PickIsStep(m, c);
    hide Step, Succ, WellFormed;
  }

  /** The spots of a walk are a trace. */
  lemma {:induction false} WalkSpots(m: Machine, p: Path) returns (t: seq<Spot>)
    requires WellFormed(m.prog) && Picked(m, p)
    ensures SpotTrace(m.prog, m.flags, t) && |t| == |p| && forall i :: 0 <= i < |t| ==> t[i] == SpotAt(m, p[i])
  {
    hide Pick, Follows, WellFormed, Succ;
    t := seq(|p|, i requires 0 <= i < |p| => SpotAt(m, p[i]));
    forall i, j | 0 <= i < |t| && j == i + 1 < |t| ensures Follows(m.prog, m.flags, t[i], t[j]) {
      SpotMoves(m, p[i], p[j]);
    }
  }

  lemma {:induction false} PositionsRise(m: Machine, p: Path, i: nat, j: nat)
    requires WellFormed(m.prog) && IsPath(m, p) && i <= j < |p|
    ensures p[i].pos <= p[j].pos
    decreases j - i
  {
    hide WellFormed;
    if i < j {
      assert p[j] in Succ(m, p[j - 1]);
      hide Succ;
      PositionsRise(m, p, i, j - 1);
    }
  }

  /** Where a walk comes back to a configuration, it went round without reading. */
  lemma {:induction false} RepeatGoesRound(m: Machine, p: Path, i: nat, j: nat, t: seq<Spot>)
    requires WellFormed(m.prog) && Picked(m, p) && i < j < |p| && p[i] == p[j]
    requires |t| == |p| && (forall k :: 0 <= k < |t| ==> t[k] == SpotAt(m, p[k])) && SpotTrace(m.prog, m.flags, t)
    ensures GoesRound(m.prog, t, i, j)
  {
    hide Pick, Succ, WellFormed, Follows;
    forall k | i <= k < j ensures !Consuming(m.prog[t[k].pc]) {
      assert Pick(m, p[k]) == Some(p[k + 1]);
      SpotMoves(m, p[k], p[k + 1]);
      PositionsRise(m, p, i, k);
      PositionsRise(m, p, k + 1, j);
    }
  }

  function Tail(b: Option<Byte>): (s: seq<Byte>) {
    if b.Some? then [b.value] else []
  }

  /** p walks through the spots of t, and the text goes on for one byte at most. */
  ghost predicate Realizes(m: Machine, p: Path, t: seq<Spot>)
    requires WellFormed(m.prog)
  {
    && Picked(m, p) && |p| == |t| && (forall i :: 0 <= i < |p| ==> SpotAt(m, p[i]) == t[i])
    && |m.text| == Last(p).pos + |Tail(t[|t| - 1].next)|
  }

  lemma {:induction false} RealizedOne(prog: seq<Instr>, flags: Flags, nslots: nat, n: Spot) returns (text: seq<Byte>, p: Path)
    requires WellFormed(prog) && n.pc < |prog|
    ensures Realizes(Machine(prog, flags, nslots, text), p, [n])
  {
    hide WellFormed;
    text := Tail(n.prev) + Tail(n.next);
    p := [Config(n.pc, |Tail(n.prev)|)];
  }

  /** A step within the text. */
  lemma {:induction false} RealizedSilent(m: Machine, p: Path, t: seq<Spot>, d: Spot) returns (q: Path)
    requires WellFormed(m.prog) && t != [] && SpotTrace(m.prog, m.flags, t) && Realizes(m, p, t)
    requires Follows(m.prog, m.flags, t[|t| - 1], d) && !Consuming(m.prog[t[|t| - 1].pc])
    ensures Realizes(m, q, t + [d])
  {
    hide WellFormed, Pick, Succ, Step;
    var c := Last(p);
    PickIsStep(m, c);
    var e := Config(d.pc, c.pos);
    PickedGrows(m, p, e);
    q := p + [e];
  }

  /** What lies beyond the next byte does not matter to the steps before it. */
  lemma {:induction false} SameWalk(m: Machine, f: Machine, p: Path)
    requires WellFormed(m.prog) && Picked(m, p) && m.text <= f.text && f == m.(text := f.text) && Last(p).pos < |m.text|
    ensures Picked(f, p) && forall i :: 0 <= i < |p| ==> SpotAt(f, p[i]) == SpotAt(m, p[i])
  {
    hide Pick, Succ, WellFormed, Step;
    forall i | 0 <= i < |p| ensures SpotAt(f, p[i]) == SpotAt(m, p[i]) && Pick(f, p[i]) == Pick(m, p[i]) && InBounds(f, p[i]) {
      PositionsRise(m, p, i, |p| - 1);
      PickIsStep(m, p[i]);
      PickIsStep(f, p[i]);
    }
    forall i, j | 0 <= i < |p| && j == i + 1 < |p| ensures p[j] in Succ(f, p[i]) && Pick(f, p[i]) == Some(p[j]) {
      assert Pick(f, p[i]) == Pick(m, p[i]) == Some(p[j]);
      PickIsNext(f, p[i]);
    }
  }

  lemma {:induction false} PickIsNext(m: Machine, c: Config)
    requires WellFormed(m.prog) && InBounds(m, c) && Pick(m, c).Some?
    ensures Pick(m, c).value in Succ(m, c)
  {
    hide Pick, Succ;
  }

  /** Reading the last byte of the text, with any byte or none put behind it. */
  lemma {:induction false} RealizedReads(m: Machine, p: Path, t: seq<Spot>, d: Spot) returns (text: seq<Byte>, q: Path)
    requires WellFormed(m.prog) && t != [] && SpotTrace(m.prog, m.flags, t) && Realizes(m, p, t)
    requires Follows(m.prog, m.flags, t[|t| - 1], d) && Consuming(m.prog[t[|t| - 1].pc])
    ensures Realizes(m.(text := text), q, t + [d])
  {
    var c := Last(p);
    assert t[|t| - 1].next.Some?;
    hide WellFormed, Pick, Succ, Step;
    text := m.text + Tail(d.next);
    var f := m.(text := text);
    SameWalk(m, f, p);
    PickIsStep(f, c);
    var e := Config(d.pc, c.pos + 1);
    PickedGrows(f, p, e);
    q := p + [e];
  }

  /** Every trace is walked on some text. */
  lemma {:induction false} Realized(prog: seq<Instr>, flags: Flags, nslots: nat, t: seq<Spot>) returns (text: seq<Byte>, p: Path)
    requires WellFormed(prog) && SpotTrace(prog, flags, t)
    ensures Realizes(Machine(prog, flags, nslots, text), p, t)
    decreases |t|
  {
    hide WellFormed, Follows, Realizes;
    var n := |t| - 1;
    assert t == t[..n] + [t[n]];
    if n == 0 {
      text, p := RealizedOne(prog, flags, nslots, t[0]);
    } else {
      text, p := Realized(prog, flags, nslots, t[..n]);
      var m := Machine(prog, flags, nslots, text);
      assert Follows(prog, flags, t[n - 1], t[n]) && t[..n][|t[..n]| - 1] == t[n - 1];
      if Consuming(prog[t[n - 1].pc]) {
        text, p := RealizedReads(m, p, t[..n], t[n]);
      } else {
        p := RealizedSilent(m, p, t[..n], t[n]);
      }
    }
  }

  /** Going round without reading stays at one position. */
  lemma {:induction false} RoundStays(m: Machine, p: Path, t: seq<Spot>, i: nat, k: nat)
    requires WellFormed(m.prog) && Picked(m, p) && |p| == |t| && i <= k < |p|
    requires forall x :: 0 <= x < |p| ==> SpotAt(m, p[x]) == t[x]
    requires forall x :: i <= x < k ==> !Consuming(m.prog[p[x].pc])
    ensures p[k].pos == p[i].pos
    decreases k - i
  {
    hide WellFormed, Pick, Succ;
    if i < k {
      RoundStays(m, p, t, i, k - 1);
      assert Pick(m, p[k - 1]) == Some(p[k]);
      SpotMoves(m, p[k - 1], p[k]);
    }
  }

  /** A program that loops has a text on which the walk does not end. */
  lemma {:induction false} LoopsForEver(prog: seq<Instr>, flags: Flags, nslots: nat) returns (text: seq<Byte>, start: nat)
    requires WellFormed(prog) && Loops(prog, flags)
    ensures start <= |text| && !Ends(Machine(prog, flags, nslots, text), start)
  {
    hide WellFormed, Pick, Succ, Follows;
    var t: seq<Spot>, i: nat, j: nat :| SpotTrace(prog, flags, t) && t[0].pc == 0 && GoesRound(prog, t, i, j);
    var p;
    text, p := Realized(prog, flags, nslots, t);
    var m := Machine(prog, flags, nslots, text);
    RoundStays(m, p, t, i, j);
    assert SpotAt(m, p[i]) == t[i] && SpotAt(m, p[j]) == t[j] && SpotAt(m, p[0]) == t[0];
    assert p[i] == p[j];
    start := p[0].pos;
    assert PickedFrom(m, start, p);
    HaltsUnlessRepeats(m, start);
  }

  /** Whatever the text and the start, the walk ends, if and only if the program does not loop. */
  lemma {:induction false} HaltsExactly(prog: seq<Instr>, flags: Flags, nslots: nat)
    requires WellFormed(prog)
    ensures AlwaysHalts(prog, flags, nslots) <==> !Loops(prog, flags)
  {
    hide WellFormed, Loops, Halts, PickedFrom;
    if Loops(prog, flags) {
      var text, start := LoopsForEver(prog, flags, nslots);
    }
    forall text: seq<Byte>, start: nat | start <= |text| && !Loops(prog, flags)
      ensures Ends(Machine(prog, flags, nslots, text), start)
    {
      var m := Machine(prog, flags, nslots, text);
      HaltsUnlessRepeats(m, start);
      forall p | PickedFrom(m, start, p) ensures Simple(p) { NoRepeat(m, start, p); }
    }
  }

  lemma {:induction false} NoRepeat(m: Machine, start: nat, p: Path)
    requires WellFormed(m.prog) && PickedFrom(m, start, p) && !Loops(m.prog, m.flags)
    ensures Simple(p)
  {
    hide WellFormed, Pick, Succ, Follows;
    var t := WalkSpots(m, p);
    forall i, j | 0 <= i < j < |p| ensures p[i] != p[j] {
      if p[i] == p[j] { RepeatGoesRound(m, p, i, j, t); }
    }
  }

  /** Without epsilon cycles the walk never loops. */
  lemma {:induction false} RankedNeverLoops(prog: seq<Instr>, flags: Flags, rank: seq<nat>)
    requires CanWalk(prog, rank)
    ensures WellFormed(prog) && !Loops(prog, flags)
  {
    hide Loops, EpsAcyclic, WellFormed;
    forall text: seq<Byte>, start: nat | start <= |text| ensures Ends(Machine(prog, flags, 2, text), start) {
      RankedEnds(Machine(prog, flags, 2, text), rank, start);
    }
    HaltsExactly(prog, flags, 2);
  }
}
