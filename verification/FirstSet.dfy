/** First sets by depth-first search with a shared seen array, and the one-pass classifier built on them. */
module FirstSet {
  import opened Basics
  import opened Machine

  /** Where control can go without reading a byte, every position test taken to pass. */
  function EpsSucc(prog: seq<Instr>, pc: nat): (s: seq<nat>)
    requires WellFormed(prog) && pc < |prog|
    ensures |s| <= 2 && forall q :: q in s ==> q < |prog|
  {
    var i := prog[pc];
    if i.Jump? then [i.target]
    else if i.Split? then [i.a, i.b]
    else if PassesOn(i) then [pc + 1]
    else []
  }

  predicate PassesOn(i: Instr) {
    i.Save? || i.Bol? || i.Eol? || i.Bos? || i.Eos?
  }

  lemma {:induction false} EpsTargets(prog: seq<Instr>, pc: nat)
    requires WellFormed(prog) && pc < |prog|
    ensures
      var i := prog[pc];
      if PassesOn(i) then pc + 1 < |prog| && EpsSucc(prog, pc) == [pc + 1]
      else if i.Jump? then i.target < |prog| && EpsSucc(prog, pc) == [i.target]
      else if i.Split? then i.a < |prog| && i.b < |prog| && EpsSucc(prog, pc) == [i.a, i.b]
      else EpsSucc(prog, pc) == [] && (i.Match? || IsWordTest(i) || Consuming(i))
  {
  }

  ghost predicate EpsPath(prog: seq<Instr>, p: seq<nat>)
    requires WellFormed(prog)
  {
    && |p| > 0
    && (forall i :: 0 <= i < |p| ==> p[i] < |prog|)
    && (forall i, j :: 0 <= i < |p| && j == i + 1 < |p| ==> p[j] in EpsSucc(prog, p[i]))
  }

  ghost predicate EpsReach(prog: seq<Instr>, pc: nat, q: nat)
    requires WellFormed(prog)
  {
    exists p :: EpsPath(prog, p) && p[0] == pc && p[|p| - 1] == q
  }

  /** Some byte test that takes b is reachable from pc without reading. */
  ghost predicate CanStart(prog: seq<Instr>, flags: Flags, pc: nat, b: Byte)
    requires WellFormed(prog)
  {
    exists q: nat :: q < |prog| && EpsReach(prog, pc, q) && Consuming(prog[q]) && Matches(flags, prog[q], b)
  }

  /** MATCH is reachable from pc without reading. */
  ghost predicate MatchEmpty(prog: seq<Instr>, pc: nat)
    requires WellFormed(prog)
  {
    EpsReach(prog, pc, |prog| - 1)
  }

  predicate IsWordTest(i: Instr) {
    i.WordBnd? || i.NWordBnd?
  }

  predicate NoWordTests(prog: seq<Instr>) {
    forall pc :: 0 <= pc < |prog| ==> !IsWordTest(prog[pc])
  }

  lemma {:induction false} ReachHere(prog: seq<Instr>, pc: nat)
    requires WellFormed(prog) && pc < |prog|
    ensures EpsReach(prog, pc, pc)
  {
    assert EpsPath(prog, [pc]);
  }

  lemma {:induction false} ReachFirst(prog: seq<Instr>, pc: nat, next: nat, q: nat)
    requires WellFormed(prog) && pc < |prog| && next in EpsSucc(prog, pc) && EpsReach(prog, next, q)
    ensures EpsReach(prog, pc, q)
  {
    var p :| EpsPath(prog, p) && p[0] == next && p[|p| - 1] == q;
    var r := [pc] + p;
    forall i | 0 < i < |r| ensures r[i] in EpsSucc(prog, r[i - 1]) {
      if i > 1 { assert r[i] == p[i - 1] && r[i - 1] == p[i - 2]; }
    }
    assert EpsPath(prog, r);
  }

  // ---- the search ----

  /** A first set: the bytes, whether MATCH is in reach, whether a word test is. */
  datatype First = First(bytes: set<Byte>, empty: bool, word: bool)

  function Plus(x: First, y: First): First {
    First(x.bytes + y.bytes, x.empty || y.empty, x.word || y.word)
  }

  /** What the pcs in s contribute. */
  ghost function Adds(prog: seq<Instr>, flags: Flags, s: set<nat>): First {
    First(set b: Byte, v | v in s && 0 <= b < 128 && v < |prog| && Consuming(prog[v]) && Matches(flags, prog[v], b) :: b,
          exists v :: v in s && v < |prog| && prog[v].Match?,
          exists v :: v in s && v < |prog| && IsWordTest(prog[v]))
  }

  lemma {:induction false} AddsJoin(prog: seq<Instr>, flags: Flags, s: set<nat>, t: set<nat>)
    ensures Adds(prog, flags, s + t) == Plus(Adds(prog, flags, s), Adds(prog, flags, t))
  {
  }

  lemma {:induction false} AddsOne(prog: seq<Instr>, flags: Flags, pc: nat)
    requires pc < |prog|
    ensures Adds(prog, flags, {pc}) ==
      First(if Consuming(prog[pc]) then set b: Byte | 0 <= b < 128 && Matches(flags, prog[pc], b) else {},
            prog[pc].Match?, IsWordTest(prog[pc]))
  {
  }

  /** From s0 to s1 exactly what the pcs in from reach outside s0 was added, all of it followed up. */
  ghost predicate Grows(prog: seq<Instr>, from: set<nat>, s0: set<nat>, s1: set<nat>)
    requires WellFormed(prog)
  {
    && s0 <= s1 && from <= s1
    && (forall v :: v in s1 - s0 ==> v < |prog| && exists f :: f in from && EpsReach(prog, f, v))
    && (forall v, w :: v in s1 - s0 && v < |prog| && w in EpsSucc(prog, v) ==> w in s1)
  }

  lemma {:induction false} GrowsOnly(prog: seq<Instr>, from: set<nat>, s0: set<nat>, s1: set<nat>)
    requires WellFormed(prog) && Grows(prog, from, s0, s1)
    ensures s0 <= s1 && from <= s1
  {
  }

  lemma {:induction false} GrowsSeq(prog: seq<Instr>, f1: set<nat>, f2: set<nat>, s0: set<nat>, s1: set<nat>, s2: set<nat>)
    requires WellFormed(prog) && Grows(prog, f1, s0, s1) && Grows(prog, f2, s1, s2)
    ensures Grows(prog, f1 + f2, s0, s2)
  {
    hide EpsReach;
    forall v | v in s2 - s0 ensures v < |prog| && exists f :: f in f1 + f2 && EpsReach(prog, f, v) {
      if v in s1 {
        assert v in s1 - s0;
        var f :| f in f1 && EpsReach(prog, f, v);
        assert f in f1 + f2;
      } else {
        assert v in s2 - s1;
        var f :| f in f2 && EpsReach(prog, f, v);
        assert f in f1 + f2;
      }
    }
  }

  lemma {:induction false} GrowsRoot(prog: seq<Instr>, pc: nat, from: set<nat>, s0: set<nat>, s1: set<nat>)
    requires WellFormed(prog) && pc < |prog| && from == (set w | w in EpsSucc(prog, pc))
    requires Grows(prog, from, s0 + {pc}, s1)
    ensures Grows(prog, {pc}, s0, s1)
  {
    hide EpsReach;
    ReachHere(prog, pc);
    forall v | v in s1 - s0 ensures v < |prog| && EpsReach(prog, pc, v) {
      if v != pc {
        assert v in s1 - (s0 + {pc});
        var f :| f in from && EpsReach(prog, f, v);
        ReachFirst(prog, pc, f, v);
      }
    }
  }

  lemma {:induction false} GrowsNone(prog: seq<Instr>, flags: Flags, pc: nat, s0: set<nat>)
    requires WellFormed(prog) && pc in s0
    ensures Grows(prog, {pc}, s0, s0)
    ensures Adds(prog, flags, s0 - s0) == First({}, false, false)
  {
  }

  lemma {:induction false} FollowNone(prog: seq<Instr>, flags: Flags, pc: nat, s0: set<nat>)
    requires WellFormed(prog) && pc < |prog| && pc !in s0 && EpsSucc(prog, pc) == []
    ensures Grows(prog, {pc}, s0, s0 + {pc}) && s0 + {pc} - s0 == {pc}
  {
    hide EpsReach, WellFormed;
    assert Grows(prog, {}, s0 + {pc}, s0 + {pc});
    GrowsRoot(prog, pc, {}, s0, s0 + {pc});
  }

  lemma {:induction false} FollowOne(prog: seq<Instr>, flags: Flags, pc: nat, next: nat, s0: set<nat>, s2: set<nat>)
    requires WellFormed(prog) && pc < |prog| && pc !in s0 && EpsSucc(prog, pc) == [next]
    requires Grows(prog, {next}, s0 + {pc}, s2)
    ensures Grows(prog, {pc}, s0, s2)
    ensures Adds(prog, flags, s2 - s0) == Plus(Adds(prog, flags, {pc}), Adds(prog, flags, s2 - (s0 + {pc})))
  {
    assert s0 + {pc} <= s2;
    hide Grows, Adds, WellFormed, EpsSucc;
    assert (set w | w in EpsSucc(prog, pc)) == {next};
    GrowsRoot(prog, pc, {next}, s0, s2);
    AddsJoin(prog, flags, {pc}, s2 - (s0 + {pc}));
    assert s2 - s0 == {pc} + (s2 - (s0 + {pc}));
  }

  lemma {:induction false} FollowTwo(prog: seq<Instr>, flags: Flags, pc: nat, a: nat, b: nat, s0: set<nat>, s2: set<nat>, s3: set<nat>)
    requires WellFormed(prog) && pc < |prog| && pc !in s0 && EpsSucc(prog, pc) == [a, b]
    requires Grows(prog, {a}, s0 + {pc}, s2) && Grows(prog, {b}, s2, s3)
    ensures Grows(prog, {pc}, s0, s3)
    ensures Adds(prog, flags, s3 - s0) ==
      Plus(Plus(Adds(prog, flags, {pc}), Adds(prog, flags, s2 - (s0 + {pc}))), Adds(prog, flags, s3 - s2))
  {
    assert s0 + {pc} <= s2 <= s3;
    hide Grows, Adds, WellFormed, EpsSucc;
    assert (set w | w in EpsSucc(prog, pc)) == {a} + {b};
    GrowsSeq(prog, {a}, {b}, s0 + {pc}, s2, s3);
    GrowsRoot(prog, pc, {a} + {b}, s0, s3);
    var x, y := s2 - (s0 + {pc}), s3 - s2;
    AddsJoin(prog, flags, {pc}, x);
    AddsJoin(prog, flags, {pc} + x, y);
    assert s3 - s0 == {pc} + x + y;
  }

  lemma {:induction false} GrownPath(prog: seq<Instr>, s1: set<nat>, pc: nat, p: seq<nat>)
    requires WellFormed(prog) && Grows(prog, {pc}, {}, s1) && EpsPath(prog, p) && p[0] in s1
    ensures p[|p| - 1] in s1
    decreases |p|
  {
    if |p| > 1 {
      assert p[1] in EpsSucc(prog, p[0]);
      assert EpsPath(prog, p[1..]);
      GrownPath(prog, s1, pc, p[1..]);
    }
  }

  /** Grown from nothing, the set is exactly what is reachable. */
  lemma {:induction false} GrownIsReach(prog: seq<Instr>, pc: nat, s1: set<nat>)
    requires WellFormed(prog) && pc < |prog| && Grows(prog, {pc}, {}, s1)
    ensures forall q: nat :: q in s1 <==> EpsReach(prog, pc, q)
  {
    forall q: nat | EpsReach(prog, pc, q) ensures q in s1 {
      var p :| EpsPath(prog, p) && p[0] == pc && p[|p| - 1] == q;
      GrownPath(prog, s1, pc, p);
    }
    forall q: nat | q in s1 ensures EpsReach(prog, pc, q) {
      assert q in s1 - {};
    }
  }

  ghost function Pcs(prog: seq<Instr>): set<nat> {
    set pc | 0 <= pc < |prog| && IsPc(prog, pc)
  }

  ghost predicate IsPc(prog: seq<Instr>, pc: nat) {
    pc < |prog|
  }

  /** re_consuming_first_bytes: the byte test tried on every byte. */
  method ConsumingFirstBytes(flags: Flags, i: Instr) returns (out: set<Byte>)
    ensures out == set b: Byte | 0 <= b < 128 && Matches(flags, i, b)
  {
    out := {};
    var ch: int := 0;
    while ch < 128
      invariant 0 <= ch <= 128
      invariant out == set b: Byte | 0 <= b < ch && Matches(flags, i, b)
    {
      if Matches(flags, i, ch) {
        out := out + {ch};
      }
      ch := ch + 1;
    }
  }

  /** A first set being collected. */
  class Collector {
    const seen: array<bool>
    var bytes: set<Byte>
    var canMatchEmpty: bool
    var unsupported: bool

    constructor (n: nat)
      ensures fresh(seen) && seen.Length == n && Seen() == {}
      ensures Value() == First({}, false, false)
    {
      seen := new bool[n](_ => false);
      bytes := {};
      canMatchEmpty := false;
      unsupported := false;
    }

    ghost function Seen(): set<nat>
      reads seen
    {
      set i | 0 <= i < seen.Length && seen[i]
    }

    function Value(): First
      reads this
    {
      First(bytes, canMatchEmpty, unsupported)
    }

    /** re_first_set: what the call newly sees is reachable, followed up, and accounted for. */
    method Collect(prog: seq<Instr>, flags: Flags, pc: nat)
      requires WellFormed(prog) && pc < |prog| == seen.Length
      modifies this, seen
      ensures Grows(prog, {pc}, old(Seen()), Seen())
      ensures Value() == Plus(old(Value()), Adds(prog, flags, Seen() - old(Seen())))
      decreases Pcs(prog) - Seen()
    {
      hide WellFormed, Matches, EpsReach, EpsSucc, Grows, Adds;
      ghost var s0, v0 := Seen(), Value();
      if seen[pc] {
        GrowsNone(prog, flags, pc, s0);
        return;
      }
      seen[pc] := true;
      ghost var s1 := s0 + {pc};
      assert Seen() == s1;
      assert IsPc(prog, pc);
      var i := prog[pc];
      AddsOne(prog, flags, pc);
      EpsTargets(prog, pc);
      if PassesOn(i) {
        Collect(prog, flags, pc + 1);
        FollowOne(prog, flags, pc, pc + 1, s0, Seen());
      } else if i.Jump? {
        Collect(prog, flags, i.target);
        FollowOne(prog, flags, pc, i.target, s0, Seen());
      } else if i.Split? {
        Collect(prog, flags, i.a);
        ghost var s2 := Seen();
        GrowsOnly(prog, {i.a}, s1, s2);
        Collect(prog, flags, i.b);
        FollowTwo(prog, flags, pc, i.a, i.b, s0, s2, Seen());
      } else {
        if i.Match? {
          canMatchEmpty := true;
        } else if IsWordTest(i) {
          unsupported := true;
        } else {
          var out := ConsumingFirstBytes(flags, i);
          bytes := bytes + out;
        }
        FollowNone(prog, flags, pc, s0);
      }
    }
  }

  /** The first set of pc, by what it means. */
  ghost predicate IsFirstSet(prog: seq<Instr>, flags: Flags, pc: nat, f: First)
    requires WellFormed(prog)
  {
    && (forall b: Byte :: b in f.bytes <==> CanStart(prog, flags, pc, b))
    && (f.empty <==> MatchEmpty(prog, pc))
    && (f.word <==> exists q: nat :: q < |prog| && EpsReach(prog, pc, q) && IsWordTest(prog[q]))
  }

  /** re_first_set from a fresh seen array is exact, loops and joins included. */
  method ComputeFirst(prog: seq<Instr>, flags: Flags, pc: nat) returns (f: First)
    requires WellFormed(prog) && pc < |prog|
    ensures IsFirstSet(prog, flags, pc, f)
  {
    var c := new Collector(|prog|);
    c.Collect(prog, flags, pc);
    f := c.Value();
    assert c.Seen() - {} == c.Seen();
    FirstSetIsExact(prog, flags, pc, c.Seen(), f);
  }

  lemma {:induction false} FirstSetIsExact(prog: seq<Instr>, flags: Flags, pc: nat, s: set<nat>, f: First)
    requires WellFormed(prog) && pc < |prog| && Grows(prog, {pc}, {}, s)
    requires f == Plus(First({}, false, false), Adds(prog, flags, s))
    ensures IsFirstSet(prog, flags, pc, f)
  {
    hide Matches, Grows, EpsReach;
    GrownIsReach(prog, pc, s);
    ReachInRange(prog, pc);
  }

  lemma {:induction false} ReachInRange(prog: seq<Instr>, pc: nat)
    requires WellFormed(prog)
    ensures forall q: nat :: EpsReach(prog, pc, q) ==> q < |prog|
  {
  }

  // ---- the classifier ----

  ghost predicate Branchy(prog: seq<Instr>, flags: Flags, pc: nat)
    requires WellFormed(prog)
  {
    (exists b: Byte :: CanStart(prog, flags, pc, b)) && MatchEmpty(prog, pc)
  }

  /** The two branches share no first byte, and neither can both read on and stop. */
  ghost predicate CleanSplit(prog: seq<Instr>, flags: Flags, pc: nat)
    requires WellFormed(prog) && pc < |prog| && prog[pc].Split?
  {
    var a, b := prog[pc].a, prog[pc].b;
    && (forall c: Byte :: !(CanStart(prog, flags, a, c) && CanStart(prog, flags, b, c)))
    && !Branchy(prog, flags, a) && !Branchy(prog, flags, b)
  }

  ghost predicate OnePass(prog: seq<Instr>, flags: Flags)
    requires WellFormed(prog)
  {
    && NoWordTests(prog)
    && (forall pc :: 0 <= pc < |prog| && prog[pc].Split? ==> CleanSplit(prog, flags, pc))
  }

  /** Both first sets of a SPLIT, as vm_exec_onepass looks them up. */
  datatype SplitInfo = NoSplit | Info(a: First, b: First)

  ghost predicate TableOk(prog: seq<Instr>, flags: Flags, table: seq<SplitInfo>)
    requires WellFormed(prog)
  {
    && |table| == |prog|
    && forall pc :: 0 <= pc < |prog| && prog[pc].Split? ==>
         table[pc].Info?
         && IsFirstSet(prog, flags, prog[pc].a, table[pc].a) && IsFirstSet(prog, flags, prog[pc].b, table[pc].b)
  }

  lemma {:induction false} NoWordNoUnsupported(prog: seq<Instr>, flags: Flags, pc: nat, f: First)
    requires WellFormed(prog) && IsFirstSet(prog, flags, pc, f)
    requires forall k :: 0 <= k < |prog| ==> !IsWordTest(prog[k])
    ensures !f.word
  {
  }

  lemma {:induction false} CleanByTable(prog: seq<Instr>, flags: Flags, pc: nat, a: First, b: First)
    requires WellFormed(prog) && pc < |prog| && prog[pc].Split?
    requires IsFirstSet(prog, flags, prog[pc].a, a) && IsFirstSet(prog, flags, prog[pc].b, b)
    ensures CleanSplit(prog, flags, pc) <==>
      a.bytes * b.bytes == {} && !(a.bytes != {} && a.empty) && !(b.bytes != {} && b.empty)
  {
    hide CanStart, MatchEmpty, EpsReach, WellFormed;
    if a.bytes * b.bytes != {} {
      var c :| c in a.bytes * b.bytes;
    }
    if a.bytes != {} {
      var c :| c in a.bytes;
    }
    if b.bytes != {} {
      var c :| c in b.bytes;
    }
    if a.bytes * b.bytes == {} {
      forall c: Byte ensures !(CanStart(prog, flags, prog[pc].a, c) && CanStart(prog, flags, prog[pc].b, c)) {
        assert c in a.bytes && c in b.bytes ==> c in a.bytes * b.bytes;
      }
    }
  }

  lemma {:induction false} OnePassIs(prog: seq<Instr>, flags: Flags)
    requires WellFormed(prog)
    ensures OnePass(prog, flags) <==>
      && (forall pc :: 0 <= pc < |prog| ==> !prog[pc].WordBnd? && !prog[pc].NWordBnd?)
      && forall pc :: 0 <= pc < |prog| && prog[pc].Split? ==>
           var a, b := prog[pc].a, prog[pc].b;
           && (forall c: Byte :: !(CanStart(prog, flags, a, c) && CanStart(prog, flags, b, c)))
           && (forall c: Byte :: !(CanStart(prog, flags, a, c) && MatchEmpty(prog, a)))
           && (forall c: Byte :: !(CanStart(prog, flags, b, c) && MatchEmpty(prog, b)))
  {
    hide CanStart, MatchEmpty, WellFormed;
    forall pc | 0 <= pc < |prog| && prog[pc].Split?
      ensures CleanSplit(prog, flags, pc) <==>
        var a, b := prog[pc].a, prog[pc].b;
        && (forall c: Byte :: !(CanStart(prog, flags, a, c) && CanStart(prog, flags, b, c)))
        && (forall c: Byte :: !(CanStart(prog, flags, a, c) && MatchEmpty(prog, a)))
        && (forall c: Byte :: !(CanStart(prog, flags, b, c) && MatchEmpty(prog, b)))
    {
    }
    hide CleanSplit;
  }

  /** re_is_onepass. */
  method IsOnePass(prog: seq<Instr>, flags: Flags) returns (yes: bool)
    requires WellFormed(prog)
    ensures yes <==> OnePass(prog, flags)
    ensures yes <==>
      && (forall pc :: 0 <= pc < |prog| ==> !prog[pc].WordBnd? && !prog[pc].NWordBnd?)
      && forall pc :: 0 <= pc < |prog| && prog[pc].Split? ==>
           var a, b := prog[pc].a, prog[pc].b;
           && (forall c: Byte :: !(CanStart(prog, flags, a, c) && CanStart(prog, flags, b, c)))
           && (forall c: Byte :: !(CanStart(prog, flags, a, c) && MatchEmpty(prog, a)))
           && (forall c: Byte :: !(CanStart(prog, flags, b, c) && MatchEmpty(prog, b)))
  {
    hide CleanSplit, IsFirstSet, CanStart, MatchEmpty, Branchy;
    OnePassIs(prog, flags);
    var i := 0;
    while i < |prog|
      invariant 0 <= i <= |prog| && forall k :: 0 <= k < i ==> !IsWordTest(prog[k])
    {
      if IsWordTest(prog[i]) {
        return false;
      }
      i := i + 1;
    }
    var pc := 0;
    while pc < |prog|
      invariant 0 <= pc <= |prog|
      invariant forall k :: 0 <= k < pc && prog[k].Split? ==> CleanSplit(prog, flags, k)
    {
      if prog[pc].Split? {
        var ra := ComputeFirst(prog, flags, prog[pc].a);
        var rb := ComputeFirst(prog, flags, prog[pc].b);
        NoWordNoUnsupported(prog, flags, prog[pc].a, ra);
        NoWordNoUnsupported(prog, flags, prog[pc].b, rb);
        CleanByTable(prog, flags, pc, ra, rb);
        if ra.bytes * rb.bytes != {} || (ra.bytes != {} && ra.empty) || (rb.bytes != {} && rb.empty) {
          return false;
        }
      }
      pc := pc + 1;
    }
    return true;
  }

  /** re_build_onepass_tables. */
  method BuildTables(prog: seq<Instr>, flags: Flags) returns (table: seq<SplitInfo>)
    requires WellFormed(prog)
    ensures TableOk(prog, flags, table)
  {
    hide IsFirstSet;
    table := seq(|prog|, _ => NoSplit);
    var pc := 0;
    while pc < |prog|
      invariant 0 <= pc <= |prog| && |table| == |prog|
      invariant forall k :: 0 <= k < pc && prog[k].Split? ==>
         table[k].Info?
         && IsFirstSet(prog, flags, prog[k].a, table[k].a) && IsFirstSet(prog, flags, prog[k].b, table[k].b)
    {
      if prog[pc].Split? {
        var ra := ComputeFirst(prog, flags, prog[pc].a);
        var rb := ComputeFirst(prog, flags, prog[pc].b);
        table := table[pc := Info(ra, rb)];
      }
      pc := pc + 1;
    }
  }
}
