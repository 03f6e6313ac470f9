/** Start-position search: what the literal, first-byte and anchor tiers may skip, and the naive search they stand in for. */
module Search {
  import opened Basics
  import opened Machine
  import opened Backtracking
  import opened OnePassWalk
  import opened HaltingWalk
  import Pike
  import StrFind

  const MAX_LIT := 64

  // ---- the naive search ----

  datatype Engine = Reference | Vm | Walker

  /** One candidate start position. */
  ghost function Attempt(m: Machine, e: Engine, s: nat): (r: Option<Path>)
    requires Framed(m) && s <= |m.text|
    ensures r.Some? ==> Accepting(m, r.value) && r.value[0] == Config(0, s)
  {
    match e
    case Reference => FirstMatch(m, s)
    case Vm => Pike.ExecSound(m, s); Pike.Exec(m, s)
    case Walker => WalkTo(m, s)
  }

  /** Every start position in order, until one succeeds. */
  ghost function FirstHit(m: Machine, e: Engine, s: nat): (r: Option<Path>)
    requires Framed(m)
    ensures r.Some? ==> Accepting(m, r.value) && r.value[0].pc == 0 && s <= r.value[0].pos <= |m.text|
    decreases |m.text| + 1 - s
  {
    if s > |m.text| then None
    else if Attempt(m, e, s).Some? then Attempt(m, e, s)
    else FirstHit(m, e, s + 1)
  }

  lemma {:induction false} SearchesAgree(m: Machine, e: Engine, f: Engine, s: nat)
    requires Framed(m)
    requires forall k: nat :: s <= k <= |m.text| ==> Attempt(m, e, k) == Attempt(m, f, k)
    ensures FirstHit(m, e, s) == FirstHit(m, f, s)
    decreases |m.text| + 1 - s
  {
    hide Attempt, Framed;
    if s <= |m.text| { SearchesAgree(m, e, f, s + 1); }
  }

  /** The naive search is leftmost: it answers whenever any run from a later start accepts, and no later than that. */
  lemma {:induction false} SearchIsLeftmost(m: Machine, s: nat, q: Path)
    requires Framed(m) && Accepting(m, q) && q[0].pc == 0 && s <= q[0].pos
    ensures FirstHit(m, Reference, s).Some?
    ensures FirstHit(m, Reference, s).value[0].pos <= q[0].pos
    decreases |m.text| + 1 - s
  {
    if s == q[0].pos {
      FirstMatchSpec(m, s, q);
    } else {
      SearchIsLeftmost(m, s + 1, q);
    }
  }

  /** No run from s accepts. */
  ghost predicate Dead(m: Machine, s: nat)
    requires WellFormed(m.prog)
  {
    forall p :: Accepting(m, p) ==> p[0] != Config(0, s)
  }

  ghost predicate DeadRange(m: Machine, from: nat, to: nat)
    requires WellFormed(m.prog)
  {
    forall s: nat :: from <= s < to && s <= |m.text| ==> Dead(m, s)
  }

  /** Start positions no run accepts from may be skipped, whichever engine is used. */
  lemma {:induction false} SkipDead(m: Machine, e: Engine, from: nat, to: nat)
    requires Framed(m) && from <= to && DeadRange(m, from, to)
    ensures FirstHit(m, e, from) == FirstHit(m, e, to)
    decreases |m.text| + 1 - from
  {
    hide Attempt;
    if from < to && from <= |m.text| {
      assert Dead(m, from);
      assert Attempt(m, e, from).None?;
      SkipDead(m, e, from + 1, to);
    }
  }

  // ---- the prefilter ----

  /** What every match must start with: a literal, the whole of it perhaps, or else a byte set. */
  datatype Prefilter = Prefilter(lit: seq<Byte>, whole: bool, first: Option<set<Byte>>)

  /** prog[1..1 + n] are the byte tests of lit[..n]. */
  ghost predicate Spelled(prog: seq<Instr>, lit: seq<Byte>) {
    |lit| + 1 < |prog| && forall i :: 0 <= i < |lit| ==> prog[1 + i] == Char(lit[i])
  }

  ghost predicate PrefilterOk(prog: seq<Instr>, flags: Flags, f: Prefilter) {
    if flags.ignoreCase then f == Prefilter([], false, None)
    else
      && Spelled(prog, f.lit) && |f.lit| <= MAX_LIT && (|f.lit| == MAX_LIT || !prog[1 + |f.lit|].Char?)
      && (f.whole <==> |f.lit| > 0 && |prog| == |f.lit| + 3)
      && f.first == if f.lit == [] && prog[1].Class? then Some(prog[1].members) else None
  }

  /** re_build_prefilter. */
  method BuildPrefilter(prog: seq<Instr>, flags: Flags) returns (f: Prefilter)
    requires Framed(Machine(prog, flags, 2, []))
    ensures PrefilterOk(prog, flags, f)
    ensures flags.ignoreCase ==> f == Prefilter([], false, None)
    ensures !flags.ignoreCase ==>
      && |f.lit| <= 64 && |f.lit| + 1 < |prog| && (forall i :: 0 <= i < |f.lit| ==> prog[1 + i] == Char(f.lit[i]))
      && (|f.lit| == 64 || !prog[1 + |f.lit|].Char?)
      && (f.whole <==> |f.lit| > 0 && |prog| == |f.lit| + 3)
      && f.first == if f.lit == [] && prog[1].Class? then Some(prog[1].members) else None
  {
    var lit: seq<Byte> := [];
    if flags.ignoreCase {
      return Prefilter([], false, None);
    }
    var pc := 0;
    if pc < |prog| && prog[pc] == Save(0) {
      pc := pc + 1;
    }
    while pc < |prog| && prog[pc].Char? && |lit| < MAX_LIT
      invariant pc == |lit| + 1 < |prog| && |lit| <= MAX_LIT && Spelled(prog, lit)
      decreases |prog| - pc
    {
      lit := lit + [prog[pc].c];
      pc := pc + 1;
    }
    if |lit| > 0 {
      var whole := pc + 1 < |prog| && prog[pc] == Save(1) && prog[pc + 1].Match?;
      return Prefilter(lit, whole, None);
    }
    if prog[pc].Class? {
      return Prefilter(lit, false, Some(prog[pc].members));
    }
    return Prefilter(lit, false, None);
  }

  /** Where control reaches a literal byte, an accepting run reads it and goes on. */
  lemma {:induction false} CharTaken(m: Machine, p: Path, k: nat, c: Byte)
    requires WellFormed(m.prog) && !m.flags.ignoreCase && Accepting(m, p) && k < |p| && p[k].pc < |m.prog| && m.prog[p[k].pc] == Char(c)
    ensures k + 1 < |p| && p[k + 1] == Config(p[k].pc + 1, p[k].pos + 1) && p[k].pos < |m.text| && m.text[p[k].pos] == c
  {
    if k + 1 < |p| { assert p[k + 1] in Succ(m, p[k + 1 - 1]); }
  }

  lemma {:induction false} OpeningTaken(m: Machine, p: Path)
    requires Framed(m) && Accepting(m, p) && p[0].pc == 0
    ensures |p| > 1 && p[1] == Config(1, p[0].pos) && p[0].pos <= |m.text|
  {
    assert |p| > 1 && p[1] in Succ(m, p[0]);
  }

  lemma {:induction false} SpelledAt(m: Machine, lit: seq<Byte>, i: nat)
    requires Framed(m) && Spelled(m.prog, lit) && 0 < i <= |lit|
    ensures WellFormed(m.prog) && i < |m.prog| && m.prog[i] == Char(lit[i - 1])
  {
    assert m.prog[1 + (i - 1)] == Char(lit[i - 1]);
  }

  lemma {:induction false} SpellsOn(text: seq<Byte>, lit: seq<Byte>, s: nat, i: nat)
    requires 0 < i <= |lit| && s + i <= |text| && text[s..s + i - 1] == lit[..i - 1] && text[s + i - 1] == lit[i - 1]
    ensures text[s..s + i] == lit[..i]
  {
    assert text[s..s + i] == text[s..s + i - 1] + [text[s + i - 1]];
    assert lit[..i] == lit[..i - 1] + [lit[i - 1]];
  }

  /** Every run reads the literal before anything else. */
  lemma {:induction false} LitRun(m: Machine, lit: seq<Byte>, p: Path, i: nat)
    requires Framed(m) && !m.flags.ignoreCase && Spelled(m.prog, lit) && i <= |lit|
    requires Accepting(m, p) && p[0].pc == 0
    ensures i + 1 < |p| && p[i + 1] == Config(i + 1, p[0].pos + i) && p[0].pos + i <= |m.text|
    ensures m.text[p[0].pos..p[0].pos + i] == lit[..i]
  {
    hide *;
    if i == 0 {
      OpeningTaken(m, p);
    } else {
      LitRun(m, lit, p, i - 1);
      SpelledAt(m, lit, i);
      CharTaken(m, p, i, lit[i - 1]);
      SpellsOn(m.text, lit, p[0].pos, i);
    }
  }

  /** Every accepting run gets past the instruction after the opening SAVE. */
  lemma {:induction false} Opens(m: Machine, p: Path)
    requires Framed(m) && Accepting(m, p) && p[0].pc == 0
    ensures |p| > 2 && p[1] == Config(1, p[0].pos) && p[2] in Succ(m, p[1])
  {
    assert |p| > 1 && p[1] in Succ(m, p[0]);
    assert |p| > 2 && p[2] in Succ(m, p[1]);
  }

  lemma {:induction false} NoLitDead(m: Machine, f: Prefilter, s: nat)
    requires Framed(m) && PrefilterOk(m.prog, m.flags, f) && !StrFind.Occurs(m.text, f.lit, s)
    ensures Dead(m, s)
  {
    forall p | Accepting(m, p) ensures p[0] != Config(0, s) {
      if p[0] == Config(0, s) { LitRun(m, f.lit, p, |f.lit|); }
    }
  }

  lemma {:induction false} LitDeadRange(m: Machine, f: Prefilter, from: nat, at: int)
    requires Framed(m) && PrefilterOk(m.prog, m.flags, f) && StrFind.Finds(m.text, f.lit, from, at)
    ensures at >= -1 && DeadRange(m, from, if at == -1 then |m.text| + 1 else at)
  {
    var to := if at == -1 then |m.text| + 1 else at;
    assert WellFormed(m.prog);
    hide Framed, WellFormed, PrefilterOk, Dead, StrFind.Occurs;
    forall s: nat | from <= s < to && s <= |m.text| ensures Dead(m, s) {
      NoLitDead(m, f, s);
    }
  }

  lemma {:induction false} NoFirstDead(m: Machine, f: Prefilter, s: nat)
    requires Framed(m) && PrefilterOk(m.prog, m.flags, f) && f.first.Some?
    requires s < |m.text| && m.text[s] !in f.first.value
    ensures Dead(m, s)
  {
    forall p | Accepting(m, p) ensures p[0] != Config(0, s) {
      if p[0] == Config(0, s) {
        Opens(m, p);
      }
    }
  }

  // ---- the anchor ----

  /** re_detect_anchor: 1 for the start of the text only, 2 for line starts, 0 for anywhere. */
  method DetectAnchor(prog: seq<Instr>, flags: Flags) returns (mode: int)
    requires Framed(Machine(prog, flags, 2, []))
    ensures mode == AnchorMode(prog, flags)
    ensures mode == 1 <==> prog[1].Bos? || (prog[1].Bol? && !flags.multiline)
    ensures mode == 2 <==> prog[1].Bol? && flags.multiline
    ensures mode == 0 || mode == 1 || mode == 2
  {
    if |prog| < 2 || prog[0] != Save(0) {
      return 0;
    }
    if prog[1].Bos? {
      return 1;
    } else if prog[1].Bol? {
      return if flags.multiline then 2 else 1;
    }
    return 0;
  }

  function AnchorMode(prog: seq<Instr>, flags: Flags): int
    requires |prog| > 1
  {
    if prog[1].Bos? || (prog[1].Bol? && !flags.multiline) then 1
    else if prog[1].Bol? then 2
    else 0
  }

  predicate LineStart(text: seq<Byte>, s: nat) {
    s == 0 || (s <= |text| && text[s - 1] == NEWLINE)
  }

  /** Not a start position the anchor tier tries. */
  predicate CannotOpen(m: Machine, s: nat)
    requires |m.prog| > 1
  {
    (AnchorMode(m.prog, m.flags) == 1 && s > 0) || (AnchorMode(m.prog, m.flags) == 2 && !LineStart(m.text, s))
  }

  /** An anchored program accepts only from the start of the text, or only from line starts. */
  lemma {:induction false} AnchoredDead(m: Machine, s: nat)
    requires Framed(m) && s <= |m.text|
    requires CannotOpen(m, s)
    ensures Dead(m, s)
  {
    forall p | Accepting(m, p) ensures p[0] != Config(0, s) {
      if p[0] == Config(0, s) {
        Opens(m, p);
      }
    }
  }

  lemma {:induction false} AnchoredDeadRange(m: Machine, from: nat, to: nat)
    requires Framed(m)
    requires forall s: nat :: from <= s < to && s <= |m.text| ==> CannotOpen(m, s)
    ensures DeadRange(m, from, to)
  {
    assert WellFormed(m.prog);
    hide Framed, WellFormed, Dead;
    forall s: nat | from <= s < to && s <= |m.text| ensures Dead(m, s) {
      AnchoredDead(m, s);
    }
  }

  /** The next start position the literal or the first-byte tier leaves, or -1 when the literal rules them all out. */
  method NextStart(m: Machine, f: Prefilter, from: nat) returns (at: int)
    requires Framed(m) && PrefilterOk(m.prog, m.flags, f) && from <= |m.text|
    ensures at == -1 ==> DeadRange(m, from, |m.text| + 1)
    ensures at != -1 ==> from <= at <= |m.text| && DeadRange(m, from, at)
    ensures |f.lit| > 0 ==> StrFind.Finds(m.text, f.lit, from, at)
    ensures |f.lit| == 0 && f.first.Some? ==>
      at >= from && (at < |m.text| ==> m.text[at] in f.first.value) && forall k :: from <= k < at ==> m.text[k] !in f.first.value
    ensures |f.lit| == 0 && f.first.None? ==> at == from
  {
    assert WellFormed(m.prog);
    hide Framed, WellFormed, PrefilterOk, Dead, StrFind.Occurs;
    at := from;
    if |f.lit| > 0 {
      var found := StrFind.Find(m.text, f.lit, from);
      at := found.at;
      LitDeadRange(m, f, from, at);
      FoundInside(m.text, f.lit, from, at);
    } else if f.first.Some? {
      while at < |m.text| && m.text[at] !in f.first.value
        invariant from <= at <= |m.text| && DeadRange(m, from, at) && forall k :: from <= k < at ==> m.text[k] !in f.first.value
      {
        NoFirstDead(m, f, at);
        at := at + 1;
      }
    }
  }

  lemma {:induction false} FoundInside(hay: seq<Byte>, needle: seq<Byte>, from: nat, at: int)
    requires StrFind.Finds(hay, needle, from, at)
    ensures at != -1 ==> from <= at <= |hay|
  {
  }

  // ---- the whole-literal tier ----

  ghost function LitSlots(n: nat, s: nat, e: nat): seq<int>
    requires n >= 2
  {
    Unset(n)[0 := s][1 := e]
  }

  lemma {:induction false} LitCaptures(m: Machine, lit: seq<Byte>, p: Path, i: nat)
    requires Framed(m) && !m.flags.ignoreCase && Spelled(m.prog, lit) && i <= |lit|
    requires Accepting(m, p) && p[0].pc == 0
    ensures i + 2 <= |p| && Captures(m, p[..i + 2]) == Unset(m.nslots)[0 := p[0].pos]
  {
    LitRun(m, lit, p, i);
    var q := p[..i + 2];
    if i == 0 {
      assert q[..1] == [p[0]];
    } else {
      LitCaptures(m, lit, p, i - 1);
      LitRun(m, lit, p, i - 1);
      assert q[..i + 1] == p[..i - 1 + 2];
      assert m.prog[1 + (i - 1)] == Char(lit[i - 1]);
    }
  }

  /** A whole-literal program sets group 0 to the literal and nothing else. */
  lemma {:induction false} WholeCaptures(m: Machine, lit: seq<Byte>, p: Path)
    requires Framed(m) && !m.flags.ignoreCase && Spelled(m.prog, lit) && |m.prog| == |lit| + 3
    requires Accepting(m, p) && p[0].pc == 0
    ensures Captures(m, p) == LitSlots(m.nslots, p[0].pos, p[0].pos + |lit|)
  {
    hide *;
    WholeLength(m, lit, p);
    LitCaptures(m, lit, p, |lit|);
    LastSlot(m, lit, p);
  }

  lemma {:induction false} LastSlot(m: Machine, lit: seq<Byte>, p: Path)
    requires Framed(m) && |m.prog| == |lit| + 3 && Spelled(m.prog, lit) && Accepting(m, p) && |p| == |lit| + 3
    requires p[|lit| + 1] == Config(|lit| + 1, p[0].pos + |lit|) && Captures(m, p[..|lit| + 2]) == Unset(m.nslots)[0 := p[0].pos]
    ensures Captures(m, p) == LitSlots(m.nslots, p[0].pos, p[0].pos + |lit|)
  {
    assert p[..|p| - 1] == p[..|lit| + 2] && m.prog[|lit| + 1] == Save(1);
  }

  lemma {:induction false} MovesOn(m: Machine, p: Path, k: nat)
    requires WellFormed(m.prog) && IsPath(m, p) && k + 1 < |p|
    ensures !m.prog[p[k].pc].Match?
  {
    assert p[k + 1] in Succ(m, p[k + 1 - 1]);
  }

  lemma {:induction false} WholeLength(m: Machine, lit: seq<Byte>, p: Path)
    requires Framed(m) && !m.flags.ignoreCase && Spelled(m.prog, lit) && |m.prog| == |lit| + 3
    requires Accepting(m, p) && p[0].pc == 0
    ensures |p| == |lit| + 3 && p[|lit| + 1] == Config(|lit| + 1, p[0].pos + |lit|)
  {
    var n := |lit|;
    LitRun(m, lit, p, n);
    assert p[n + 2] in Succ(m, p[n + 1]);
    if |p| > n + 3 { MovesOn(m, p, n + 2); }
  }

  /** An occurrence of the literal is an accepting run. */
  lemma {:induction false} OccurrenceRuns(m: Machine, lit: seq<Byte>, s: nat, i: nat) returns (p: Path)
    requires Framed(m) && !m.flags.ignoreCase && Spelled(m.prog, lit) && StrFind.Occurs(m.text, lit, s) && i <= |lit|
    ensures IsPath(m, p) && p[0] == Config(0, s) && Last(p) == Config(i + 1, s + i)
  {
    if i == 0 {
      ExtendPath(m, Root(s), Config(1, s));
      return Root(s) + [Config(1, s)];
    }
    var q := OccurrenceRuns(m, lit, s, i - 1);
    assert m.prog[1 + (i - 1)] == Char(lit[i - 1]);
    assert m.text[s + i - 1] == m.text[s..s + |lit|][i - 1] == lit[i - 1];
    ExtendPath(m, q, Config(i + 1, s + i));
    p := q + [Config(i + 1, s + i)];
  }

  lemma {:induction false} OccurrenceAccepts(m: Machine, lit: seq<Byte>, s: nat) returns (q: Path)
    requires Framed(m) && !m.flags.ignoreCase && Spelled(m.prog, lit) && |m.prog| == |lit| + 3
    requires StrFind.Occurs(m.text, lit, s)
    ensures Accepting(m, q) && q[0] == Config(0, s)
  {
    var n := |lit|;
    var p := OccurrenceRuns(m, lit, s, n);
    var d := Config(n + 2, s + n);
    assert Succ(m, Last(p)) == [d];
    ExtendPath(m, p, d);
    q := p + [d];
  }

  lemma {:induction false} WholeMatches(m: Machine, lit: seq<Byte>, s: nat)
    requires Framed(m) && !m.flags.ignoreCase && Spelled(m.prog, lit) && |m.prog| == |lit| + 3
    requires s <= |m.text| && StrFind.Occurs(m.text, lit, s)
    ensures FirstMatch(m, s).Some?
    ensures Captures(m, FirstMatch(m, s).value) == LitSlots(m.nslots, s, s + |lit|)
  {
    var q := OccurrenceAccepts(m, lit, s);
    FirstMatchSpec(m, s, q);
    hide Captures, IsPath, Spelled, StrFind.Occurs, FirstMatch, LitSlots;
    WholeCaptures(m, lit, FirstMatch(m, s).value);
  }

  /** The substring search alone answers a whole-literal pattern. */
  lemma {:induction false} WholeSearch(m: Machine, f: Prefilter, start: nat, at: int)
    requires Framed(m) && PrefilterOk(m.prog, m.flags, f) && f.whole && start <= |m.text|
    requires StrFind.Finds(m.text, f.lit, start, at)
    ensures at == -1 ==> FirstHit(m, Reference, start).None?
    ensures at != -1 ==>
      && FirstHit(m, Reference, start).Some? && at >= 0
      && Captures(m, FirstHit(m, Reference, start).value) == LitSlots(m.nslots, at, at + |f.lit|)
  {
    hide *;
    FoundInside(m.text, f.lit, start, at);
    LitDeadRange(m, f, start, at);
    if at == -1 {
      SkipDead(m, Reference, start, |m.text| + 1);
      SearchEnds(m, Reference, |m.text| + 1);
    } else {
      SkipDead(m, Reference, start, at);
      FoundHere(m, f, start, at);
      WholeMatches(m, f.lit, at);
      SearchEnds(m, Reference, at);
    }
  }

  lemma {:induction false} FoundHere(m: Machine, f: Prefilter, start: nat, at: int)
    requires PrefilterOk(m.prog, m.flags, f) && f.whole && StrFind.Finds(m.text, f.lit, start, at) && at != -1
    ensures StrFind.Occurs(m.text, f.lit, at) && !m.flags.ignoreCase && Spelled(m.prog, f.lit) && |m.prog| == |f.lit| + 3
  {
  }

  lemma {:induction false} SearchEnds(m: Machine, e: Engine, s: nat)
    requires Framed(m)
    ensures s > |m.text| ==> FirstHit(m, e, s).None?
    ensures s <= |m.text| && Attempt(m, e, s).Some? ==> FirstHit(m, e, s) == Attempt(m, e, s)
    ensures e.Reference? && s <= |m.text| ==> Attempt(m, e, s) == FirstMatch(m, s)
  {
    hide FirstMatch, WalkTo, Pike.Exec;
  }
}
