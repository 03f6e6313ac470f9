/** What compiled patterns find, read off the text: one test, a word, repetition, alternatives, groups. */
module Spans {
  import opened Basics
  import opened Machine
  import opened Regex
  import opened Limits
  import opened ParseTree
  import opened Backtracking
  import opened PatternMeaning
  import opened LoopRank
  import opened ByteTests

  /** The answer at s: no match, or the captures of the run found. */
  ghost function Found(m: Machine, s: nat): (r: Option<seq<int>>)
    requires WellFormed(m.prog) && s <= |m.text|
  {
    var p := FirstMatch(m, s);
    if p.Some? then
      assert forall i :: 0 <= i < |p.value| ==> InBounds(m, p.value[i]);
      Some(Captures(m, p.value))
    else None
  }

  /** Group 0 alone, from s to e. */
  ghost predicate Covers(r: Option<seq<int>>, s: nat, e: nat) {
    && r.Some? && |r.value| >= 2 && r.value[0] == s && r.value[1] == e
    && forall k :: 2 <= k < |r.value| ==> r.value[k] == -1
  }

  lemma {:induction false} CompiledIsWell(m: Machine, e: Regex)
    requires CompiledFrom(m, e)
    ensures WellFormed(m.prog) && Parsed(e)
  {
    hide Program;
    ProgramIsWell(e);
  }

  /** The tree behind the answer: a parse that is preferred to every other. */
  lemma {:induction false} FoundTree(m: Machine, e: Regex, s: nat) returns (tree: Tree, t: State)
    requires CompiledFrom(m, e) && LoopsRead(e) && s <= |m.text| && WellFormed(m.prog) && Found(m, s).Some?
    ensures IsParse(m, e, s, tree, t) && Foremost(m, e, s, tree) && Found(m, s).value == Outcome(t)
  {
    hide CompiledFrom, LoopsRead, Means, IsParse, Foremost, PathOf, Captures, WellFormed, FirstMatch, BestParse;
    var r := FirstMatch(m, s);
    FirstMatchIsBest(m, e, s);
    AnswerIsForemost(m, e, s, r);
    tree, t :| BestRun(m, e, s, r.value, tree, t) && IsParse(m, e, s, tree, t) && Foremost(m, e, s, tree);
  }

  lemma {:induction false} FoundSome(m: Machine, e: Regex, s: nat, tree: Tree, t: State)
    requires CompiledFrom(m, e) && LoopsRead(e) && s <= |m.text| && WellFormed(m.prog) && IsParse(m, e, s, tree, t)
    ensures Found(m, s).Some?
  {
    hide CompiledFrom, LoopsRead, Means, IsParse, Foremost, PathOf, Captures, WellFormed, FirstMatch, BestParse;
    FirstMatchIsBest(m, e, s);
    AnswerIsForemost(m, e, s, FirstMatch(m, s));
  }

  /** A parse preferred to all others is the one behind the answer. */
  lemma {:induction false} FoundIs(m: Machine, e: Regex, s: nat, tree: Tree, t: State)
    requires CompiledFrom(m, e) && LoopsRead(e) && s <= |m.text| && WellFormed(m.prog)
    requires IsParse(m, e, s, tree, t) && Foremost(m, e, s, tree)
    ensures Found(m, s) == Some(Outcome(t))
  {
    hide CompiledFrom, LoopsRead, Yield, WellFormed, Found, Prefers, Outcome, Opened;
    FoundSome(m, e, s, tree, t);
    var tree', t' := FoundTree(m, e, s);
    if tree' != tree {
      assert Prefers(e, tree, tree') && Prefers(e, tree', tree);
      PreferenceIsStrict(e, tree, tree');
    }
  }

  lemma {:induction false} OpenedIs(m: Machine, s: nat, e: nat)
    requires m.nslots >= 2
    ensures Opened(m, s) == State(s, Unset(m.nslots)[0 := s])
    ensures Covers(Some(Outcome(State(e, Unset(m.nslots)[0 := s]))), s, e)
  {
  }

  // ---- one test ----

  /** A one-byte pattern takes the byte at s, or finds nothing. */
  lemma {:induction false} OneByte(m: Machine, i: Instr, s: nat)
    requires CompiledFrom(m, Op(i)) && Consuming(i) && s <= |m.text|
    ensures WellFormed(m.prog)
    ensures Found(m, s).Some? <==> s < |m.text| && Matches(m.flags, i, m.text[s])
    ensures Found(m, s).Some? ==> Covers(Found(m, s), s, s + 1)
  {
    var e := Op(i);
    CompiledIsWell(m, e);
    OpenedIs(m, s, s + 1);
    hide Found, Program, WellFormed, Opened, Covers, Outcome, Matches;
    if Found(m, s).Some? {
      var tree, t := FoundTree(m, e, s);
    }
    if s < |m.text| && Matches(m.flags, i, m.text[s]) {
      FoundSome(m, e, s, Leaf, State(s + 1, Opened(m, s).saved));
    }
  }

  /** \d finds one digit, whatever the flags; and so on for the other sets. */
  lemma {:induction false} SetsFound(m: Machine, i: Instr, s: nat)
    requires CompiledFrom(m, Op(i)) && s <= |m.text| && (i.Digit? || i.NDigit? || i.Word? || i.NWord? || i.Space? || i.NSpace? || i.Any?)
    ensures WellFormed(m.prog) && (Found(m, s).Some? ==> s < |m.text| && Covers(Found(m, s), s, s + 1))
    ensures i.Digit? ==> (Found(m, s).Some? <==> s < |m.text| && m.text[s] as char in "0123456789")
    ensures i.NDigit? ==> (Found(m, s).Some? <==> s < |m.text| && m.text[s] as char !in "0123456789")
    ensures i.Word? ==> (Found(m, s).Some? <==> WordChar(m.text, s))
    ensures i.NWord? ==> (Found(m, s).Some? <==> s < |m.text| && !WordChar(m.text, s))
    ensures i.Space? ==> (Found(m, s).Some? <==> s < |m.text| && m.text[s] as char in " \t\n\U{0B}\U{0C}\r")
    ensures i.NSpace? ==> (Found(m, s).Some? <==> s < |m.text| && m.text[s] as char !in " \t\n\U{0B}\U{0C}\r")
    ensures i.Any? ==> (Found(m, s).Some? <==> s < |m.text| && (m.text[s] as char != '\n' || m.flags.dotAll))
  {
    hide CompiledFrom, Found, Matches, WellFormed, Covers;
    OneByte(m, i, s);
    if s < |m.text| { SetsTaken(m.flags, m.text[s]); }
  }

  /** An anchor finds nothing or the empty span, where it holds. */
  lemma {:induction false} AnchorFound(m: Machine, i: Instr, s: nat)
    requires CompiledFrom(m, Op(i)) && Anchor(i) && s <= |m.text|
    ensures WellFormed(m.prog)
    ensures Found(m, s).Some? <==> AnchorOk(m.flags, i, m.text, s)
    ensures Found(m, s).Some? ==> Covers(Found(m, s), s, s)
  {
    var e := Op(i);
    CompiledIsWell(m, e);
    OpenedIs(m, s, s);
    hide Found, Program, WellFormed, Opened, Covers, Outcome, AnchorOk;
    if Found(m, s).Some? {
      var tree, t := FoundTree(m, e, s);
    }
    if AnchorOk(m.flags, i, m.text, s) {
      FoundSome(m, e, s, Leaf, Opened(m, s));
    }
  }

  // ---- a word ----

  function Chars(w: seq<Byte>): (e: Regex)
    ensures Parsed(e) && LoopsRead(e)
  {
    if w == [] then Empty else Cat(Op(Char(w[0])), Chars(w[1..]))
  }

  function CharsTree(w: seq<Byte>): Tree {
    if w == [] then Leaf else Both(Leaf, CharsTree(w[1..]))
  }

  lemma {:induction false} CharsYield(flags: Flags, text: seq<Byte>, w: seq<Byte>, s: State, tree: Tree)
    requires !flags.ignoreCase && s.pos <= |text|
    ensures Yield(flags, text, Chars(w), s, tree).Some? <==> s.pos + |w| <= |text| && text[s.pos..s.pos + |w|] == w && tree == CharsTree(w)
    ensures Yield(flags, text, Chars(w), s, tree).Some? ==> Yield(flags, text, Chars(w), s, tree).value == State(s.pos + |w|, s.saved)
    decreases |w|
  {
    if w != [] {
      var v := w[1..];
      if s.pos < |text| && text[s.pos] == w[0] {
        if tree.Both? { CharsYield(flags, text, v, State(s.pos + 1, s.saved), tree.r); }
        if s.pos + |w| <= |text| {
          assert text[s.pos..s.pos + |w|] == [text[s.pos]] + text[s.pos + 1..s.pos + 1 + |v|];
          assert w == [w[0]] + v;
          assert text[s.pos..s.pos + |w|][1..] == text[s.pos + 1..s.pos + 1 + |v|];
        }
      } else if s.pos + |w| <= |text| {
        assert text[s.pos..s.pos + |w|][0] == text[s.pos];
      }
    }
  }

  /** Characters in a row find exactly that word. */
  lemma {:induction false} CharsFound(m: Machine, w: seq<Byte>, s: nat)
    requires CompiledFrom(m, Chars(w)) && !m.flags.ignoreCase && s <= |m.text|
    ensures WellFormed(m.prog)
    ensures Found(m, s).Some? <==> s + |w| <= |m.text| && m.text[s..s + |w|] == w
    ensures Found(m, s).Some? ==> Covers(Found(m, s), s, s + |w|)
  {
    var e := Chars(w);
    CompiledIsWell(m, e);
    OpenedIs(m, s, s + |w|);
    CharsYield(m.flags, m.text, w, Opened(m, s), CharsTree(w));
    hide Found, Program, WellFormed, Opened, Covers, Outcome, Yield, Chars;
    if Found(m, s).Some? {
      var tree, t := FoundTree(m, e, s);
      CharsYield(m.flags, m.text, w, Opened(m, s), tree);
    }
    if s + |w| <= |m.text| && m.text[s..s + |w|] == w {
      FoundSome(m, e, s, CharsTree(w), State(s + |w|, Opened(m, s).saved));
    }
  }

  // ---- repetition of one test ----

  /** From s on, k bytes pass the test and no more: the text ends there or the next byte fails it. */
  ghost predicate RunOf(m: Machine, i: Instr, s: nat, k: nat) {
    && s + k <= |m.text| && (forall j :: s <= j < s + k ==> Matches(m.flags, i, m.text[j]))
    && (s + k < |m.text| ==> !Matches(m.flags, i, m.text[s + k]))
  }

  function Turns(n: nat): Tree {
    if n == 0 then Done else More(Leaf, Turns(n - 1))
  }

  lemma {:induction false} TurnsYield(m: Machine, i: Instr, s: State, k: nat, n: nat)
    requires Consuming(i) && RunOf(m, i, s.pos, k) && n <= k
    ensures YieldChain(m.flags, m.text, Op(i), s, Turns(n)) == Some(State(s.pos + n, s.saved))
    decreases n
  {
    hide Matches;
    if n > 0 { TurnsYield(m, i, State(s.pos + 1, s.saved), k - 1, n - 1); }
  }

  lemma {:induction false} OnlyTurns(m: Machine, i: Instr, s: State, k: nat, tree: Tree) returns (n: nat)
    requires Consuming(i) && RunOf(m, i, s.pos, k) && YieldChain(m.flags, m.text, Op(i), s, tree).Some?
    ensures n <= k && tree == Turns(n)
    decreases tree
  {
    hide Matches;
    if tree.Done? { return 0; }
    n := OnlyTurns(m, i, State(s.pos + 1, s.saved), k - 1, tree.tail);
    n := n + 1;
  }

  lemma {:induction false} TurnsPrefer(i: Instr, lazy: bool, a: nat, b: nat)
    ensures PrefersChain(Op(i), lazy, Turns(a), Turns(b)) <==> if lazy then a < b else a > b
    decreases a
  {
    if a > 0 && b > 0 { TurnsPrefer(i, lazy, a - 1, b - 1); }
  }

  lemma {:induction false} LeafYields(m: Machine, i: Instr, s: State, tree: Tree)
    requires Consuming(i) && Yield(m.flags, m.text, Op(i), s, tree).Some?
    ensures tree == Leaf && s.pos < |m.text| && Matches(m.flags, i, m.text[s.pos])
    ensures Yield(m.flags, m.text, Op(i), s, tree).value == State(s.pos + 1, s.saved)
  {
    hide Matches;
  }

  /** i* takes all of the run, i*? nothing. */
  lemma {:induction false} StarFound(m: Machine, i: Instr, lazy: bool, s: nat, k: nat)
    requires CompiledFrom(m, Star(Op(i), lazy)) && Consuming(i) && RunOf(m, i, s, k)
    ensures WellFormed(m.prog) && Covers(Found(m, s), s, if lazy then s else s + k)
  {
    var e := Star(Op(i), lazy);
    var n := if lazy then 0 else k;
    CompiledIsWell(m, e);
    OpenedIs(m, s, s + n);
    TurnsYield(m, i, Opened(m, s), k, n);
    assert LoopsRead(e);
    hide Found, CompiledFrom, LoopsRead, WellFormed, Opened, Covers, Outcome, RunOf, YieldChain, PrefersChain;
    forall u, t | IsParse(m, e, s, u, t) ensures u == Turns(n) || Prefers(e, Turns(n), u) {
      var x := OnlyTurns(m, i, Opened(m, s), k, u);
      TurnsPrefer(i, lazy, n, x);
    }
    FoundIs(m, e, s, Turns(n), State(s + n, Opened(m, s).saved));
  }

  /** i+ needs a byte, then takes all of the run, i+? just that one. */
  lemma {:induction false} PlusFound(m: Machine, i: Instr, lazy: bool, s: nat, k: nat)
    requires CompiledFrom(m, Plus(Op(i), lazy)) && Consuming(i) && RunOf(m, i, s, k)
    ensures WellFormed(m.prog) && (k == 0 ==> Found(m, s).None?)
    ensures k > 0 ==> Covers(Found(m, s), s, if lazy then s + 1 else s + k)
  {
    var e := Plus(Op(i), lazy);
    var n := if lazy then 1 else k;
    CompiledIsWell(m, e);
    OpenedIs(m, s, s + n);
    assert LoopsRead(e) && s <= |m.text| && Opened(m, s).pos == s;
    hide Found, CompiledFrom, LoopsRead, WellFormed, Opened, Covers, Outcome, RunOf, YieldChain, PrefersChain;
    if k > 0 {
      TurnsYield(m, i, Opened(m, s), k, n);
      forall u, t | IsParse(m, e, s, u, t) ensures u == Turns(n) || Prefers(e, Turns(n), u) {
        var x := OnlyTurns(m, i, Opened(m, s), k, u);
        TurnsPrefer(i, lazy, n, x);
      }
      FoundIs(m, e, s, Turns(n), State(s + n, Opened(m, s).saved));
    } else if Found(m, s).Some? {
      var u, t := FoundTree(m, e, s);
      var x := OnlyTurns(m, i, Opened(m, s), k, u);
    }
  }

  /** i? takes a byte if it can, i?? takes none. */
  lemma {:induction false} OptFound(m: Machine, i: Instr, lazy: bool, s: nat)
    requires CompiledFrom(m, Opt(Op(i), lazy)) && Consuming(i) && s <= |m.text|
    ensures WellFormed(m.prog)
    ensures Covers(Found(m, s), s, if !lazy && s < |m.text| && Matches(m.flags, i, m.text[s]) then s + 1 else s)
  {
    var e := Opt(Op(i), lazy);
    var takes := !lazy && s < |m.text| && Matches(m.flags, i, m.text[s]);
    var n := if takes then 1 else 0;
    var top := if takes then Take(Leaf) else Skip;
    CompiledIsWell(m, e);
    OpenedIs(m, s, s + n);
    assert LoopsRead(e) && s <= |m.text| && Opened(m, s).pos == s;
    hide Found, CompiledFrom, WellFormed, Opened, Covers, Outcome, Matches;
    forall u, t | IsParse(m, e, s, u, t) ensures u == top || Prefers(e, top, u) {
      assert YieldOpt(m.flags, m.text, Op(i), Opened(m, s), u).Some?;
      if u.Take? { LeafYields(m, i, Opened(m, s), u.t); }
    }
    FoundIs(m, e, s, top, State(s + n, Opened(m, s).saved));
  }

  // ---- counted repetition of one test ----

  /** Of x optional turns the first n taken. */
  function Optional(n: nat, x: nat): Tree {
    if x == 0 then Done else More(if n > 0 then Take(Leaf) else Skip, Optional(if n > 0 then n - 1 else 0, x - 1))
  }

  /** The mandatory turns, and then rest. */
  function Fixed(min: nat, rest: Tree): Tree {
    if min == 0 then rest else More(Leaf, Fixed(min - 1, rest))
  }

  lemma {:induction false} OptionalYield(m: Machine, i: Instr, s: State, k: nat, n: nat, x: nat)
    requires Consuming(i) && RunOf(m, i, s.pos, k) && n <= k && n <= x
    ensures YieldCount(m.flags, m.text, Op(i), 0, Some(x), s, Optional(n, x)) == Some(State(s.pos + n, s.saved))
    decreases x
  {
    hide Matches;
    if n > 0 {
      assert YieldOpt(m.flags, m.text, Op(i), s, Take(Leaf)) == Some(State(s.pos + 1, s.saved));
      OptionalYield(m, i, State(s.pos + 1, s.saved), k - 1, n - 1, x - 1);
    } else if x > 0 {
      OptionalYield(m, i, s, k, 0, x - 1);
    }
  }

  /** Greedy: as many turns as the run and the bound allow come first. Lazy: none. */
  lemma {:induction false} OptionalTop(m: Machine, i: Instr, lazy: bool, s: State, k: nat, x: nat, u: Tree)
    requires Consuming(i) && RunOf(m, i, s.pos, k) && YieldCount(m.flags, m.text, Op(i), 0, Some(x), s, u).Some?
    ensures
      var top := Optional(if lazy then 0 else if k < x then k else x, x);
      u == top || PrefersCount(Op(i), 0, Some(x), lazy, top, u)
    decreases x
  {
    if x > 0 {
      var v := YieldOpt(m.flags, m.text, Op(i), s, u.head);
      assert u.More? && v.Some? && YieldCount(m.flags, m.text, Op(i), 0, Some(x - 1), v.value, u.tail).Some?;
      if u.head.Take? {
        LeafYields(m, i, s, u.head.t);
        assert k > 0 && v.value == State(s.pos + 1, s.saved);
        OptionalTop(m, i, lazy, v.value, k - 1, x - 1, u.tail);
      } else {
        OptionalTop(m, i, lazy, s, k, x - 1, u.tail);
      }
    }
  }

  lemma {:induction false} FixedYield(m: Machine, i: Instr, s: State, k: nat, min: nat, extra: Option<nat>, rest: Tree)
    requires Consuming(i) && RunOf(m, i, s.pos, k) && min <= k
    ensures RunOf(m, i, s.pos + min, k - min)
    ensures YieldCount(m.flags, m.text, Op(i), min, extra, s, Fixed(min, rest)) ==
      YieldCount(m.flags, m.text, Op(i), 0, extra, State(s.pos + min, s.saved), rest)
    decreases min
  {
    hide Matches;
    if min > 0 { FixedYield(m, i, State(s.pos + 1, s.saved), k - 1, min - 1, extra, rest); }
  }

  lemma {:induction false} OnlyFixed(m: Machine, i: Instr, s: State, k: nat, min: nat, extra: Option<nat>, u: Tree) returns (rest: Tree)
    requires Consuming(i) && RunOf(m, i, s.pos, k) && YieldCount(m.flags, m.text, Op(i), min, extra, s, u).Some?
    ensures min <= k && u == Fixed(min, rest)
    decreases min
  {
    hide Matches;
    if min == 0 { return u; }
    assert u.More? && u.head == Leaf && YieldOp(m.flags, m.text, i, s) == Some(State(s.pos + 1, s.saved));
    rest := OnlyFixed(m, i, State(s.pos + 1, s.saved), k - 1, min - 1, extra, u.tail);
  }

  lemma {:induction false} FixedPrefers(i: Instr, lazy: bool, min: nat, extra: Option<nat>, a: Tree, b: Tree)
    ensures PrefersCount(Op(i), min, extra, lazy, Fixed(min, a), Fixed(min, b)) <==> PrefersCount(Op(i), 0, extra, lazy, a, b)
    ensures Fixed(min, a) == Fixed(min, b) <==> a == b
    decreases min
  {
    if min > 0 { FixedPrefers(i, lazy, min - 1, extra, a, b); }
  }

  /** How many turns i{min,min+extra}, or i{min,}, takes of a run of k. */
  function Taken(min: nat, extra: Option<nat>, lazy: bool, k: nat): nat
    requires min <= k
  {
    if lazy then min else if extra.Some? && min + extra.value < k then min + extra.value else k
  }

  ghost function Best(min: nat, extra: Option<nat>, lazy: bool, k: nat): Tree
    requires min <= k
  {
    var n := Taken(min, extra, lazy, k) - min;
    Fixed(min, if extra.Some? then Optional(n, extra.value) else Turns(n))
  }

  lemma {:induction false} BestYields(m: Machine, i: Instr, s: State, k: nat, min: nat, extra: Option<nat>, lazy: bool)
    requires Consuming(i) && RunOf(m, i, s.pos, k) && min <= k
    ensures YieldCount(m.flags, m.text, Op(i), min, extra, s, Best(min, extra, lazy, k)) ==
      Some(State(s.pos + Taken(min, extra, lazy, k), s.saved))
  {
    hide Matches, RunOf, YieldChain;
    var n := Taken(min, extra, lazy, k) - min;
    FixedYield(m, i, s, k, min, extra, if extra.Some? then Optional(n, extra.value) else Turns(n));
    if extra.Some? {
      OptionalYield(m, i, State(s.pos + min, s.saved), k - min, n, extra.value);
    } else {
      TurnsYield(m, i, State(s.pos + min, s.saved), k - min, n);
    }
  }

  lemma {:induction false} BestIsTop(m: Machine, i: Instr, s: State, k: nat, min: nat, extra: Option<nat>, lazy: bool, u: Tree)
    requires Consuming(i) && RunOf(m, i, s.pos, k) && YieldCount(m.flags, m.text, Op(i), min, extra, s, u).Some?
    ensures min <= k
    ensures u == Best(min, extra, lazy, k) || PrefersCount(Op(i), min, extra, lazy, Best(min, extra, lazy, k), u)
  {
    var rest := OnlyFixed(m, i, s, k, min, extra, u);
    var n := Taken(min, extra, lazy, k) - min;
    var top := if extra.Some? then Optional(n, extra.value) else Turns(n);
    FixedYield(m, i, s, k, min, extra, rest);
    var s' := State(s.pos + min, s.saved);
    assert YieldCount(m.flags, m.text, Op(i), 0, extra, s', rest).Some?;
    hide Matches, RunOf, YieldChain;
    if extra.Some? {
      OptionalTop(m, i, lazy, s', k - min, extra.value, rest);
    } else {
      var x := OnlyTurns(m, i, s', k - min, rest);
      TurnsPrefer(i, lazy, n, x);
      assert PrefersCount(Op(i), 0, extra, lazy, top, rest) == PrefersChain(Op(i), lazy, top, rest);
    }
    FixedPrefers(i, lazy, min, extra, top, rest);
  }

  /** i{min,max} needs a run of min, then takes what it can up to max, i{min,max}? no more than min. */
  lemma {:induction false} CountFound(m: Machine, i: Instr, min: nat, extra: Option<nat>, lazy: bool, s: nat, k: nat)
    requires CompiledFrom(m, Count(Op(i), min, extra, lazy)) && Consuming(i) && RunOf(m, i, s, k)
    ensures WellFormed(m.prog) && (k < min ==> Found(m, s).None?)
    ensures k >= min && lazy ==> Covers(Found(m, s), s, s + min)
    ensures k >= min && !lazy && (extra.None? || k <= min + extra.value) ==> Covers(Found(m, s), s, s + k)
    ensures k >= min && !lazy && extra.Some? && k >= min + extra.value ==> Covers(Found(m, s), s, s + min + extra.value)
  {
    var e := Count(Op(i), min, extra, lazy);
    CompiledIsWell(m, e);
    assert s <= |m.text|;
    hide CompiledFrom, WellFormed, Covers, RunOf, Found;
    if k >= min {
      CountTakes(m, i, min, extra, lazy, s, k);
    } else if Found(m, s).Some? {
      CountNeeds(m, i, min, extra, lazy, s, k);
    }
  }

  lemma {:induction false} CountTakes(m: Machine, i: Instr, min: nat, extra: Option<nat>, lazy: bool, s: nat, k: nat)
    requires CompiledFrom(m, Count(Op(i), min, extra, lazy)) && WellFormed(m.prog) && Consuming(i) && RunOf(m, i, s, k) && k >= min
    ensures Covers(Found(m, s), s, s + Taken(min, extra, lazy, k))
  {
    var e := Count(Op(i), min, extra, lazy);
    assert LoopsRead(e) && s <= |m.text|;
    var n := Taken(min, extra, lazy, k);
    OpenedIs(m, s, s + n);
    var o := Opened(m, s);
    hide Found, CompiledFrom, LoopsRead, WellFormed, Opened, Covers, Outcome, RunOf, YieldCount, PrefersCount, Best, Taken;
    BestYields(m, i, o, k, min, extra, lazy);
    forall u, t | IsParse(m, e, s, u, t) ensures u == Best(min, extra, lazy, k) || Prefers(e, Best(min, extra, lazy, k), u) {
      BestIsTop(m, i, o, k, min, extra, lazy, u);
    }
    FoundIs(m, e, s, Best(min, extra, lazy, k), State(s + n, o.saved));
  }

  lemma {:induction false} CountNeeds(m: Machine, i: Instr, min: nat, extra: Option<nat>, lazy: bool, s: nat, k: nat)
    requires CompiledFrom(m, Count(Op(i), min, extra, lazy)) && WellFormed(m.prog) && Consuming(i) && RunOf(m, i, s, k)
    requires s <= |m.text| && Found(m, s).Some?
    ensures k >= min
  {
    var e := Count(Op(i), min, extra, lazy);
    assert LoopsRead(e);
    OpenedIs(m, s, s);
    hide Found, CompiledFrom, LoopsRead, WellFormed, Opened, Covers, Outcome, RunOf, YieldCount, PrefersCount, Best;
    var u, t := FoundTree(m, e, s);
    BestIsTop(m, i, Opened(m, s), k, min, extra, lazy, u);
  }

  // ---- alternatives ----

  /** The other machine runs the code of e on the same text. */
  ghost predicate Sibling(m: Machine, f: Machine, e: Regex) {
    CompiledFrom(f, e) && f == m.(prog := f.prog)
  }

  /** a|b finds what a finds, and what b finds only where a finds nothing. */
  lemma {:induction false} AltFound(m: Machine, a: Regex, b: Regex, ma: Machine, mb: Machine, s: nat)
    requires CompiledFrom(m, Alt(a, b)) && LoopsRead(Alt(a, b)) && s <= |m.text| && Sibling(m, ma, a) && Sibling(m, mb, b)
    ensures WellFormed(m.prog) && WellFormed(ma.prog) && WellFormed(mb.prog)
    ensures Found(m, s) == if Found(ma, s).Some? then Found(ma, s) else Found(mb, s)
  {
    var e := Alt(a, b);
    CompiledIsWell(m, e);
    CompiledIsWell(ma, a);
    CompiledIsWell(mb, b);
    assert LoopsRead(a) && LoopsRead(b);
    assert Opened(ma, s) == Opened(m, s) == Opened(mb, s);
    hide Found, CompiledFrom, LoopsRead, WellFormed, Opened, Outcome;
    if Found(ma, s).Some? {
      var x, t := FoundTree(ma, a, s);
      hide Foremost;
      AltLeft(m, ma, a, b, s, x, t);
    } else if Found(mb, s).Some? {
      var x, t := FoundTree(mb, b, s);
      hide Foremost;
      AltRight(m, ma, mb, a, b, s, x, t);
    } else if Found(m, s).Some? {
      var u, t := FoundTree(m, e, s);
      if u.right { FoundSome(mb, b, s, u.t, t); } else { FoundSome(ma, a, s, u.t, t); }
    }
  }

  lemma {:induction false} AltLeft(m: Machine, ma: Machine, a: Regex, b: Regex, s: nat, x: Tree, t: State)
    requires CompiledFrom(m, Alt(a, b)) && LoopsRead(Alt(a, b)) && s <= |m.text| && WellFormed(m.prog) && ma.flags == m.flags && ma.text == m.text
    requires Opened(ma, s) == Opened(m, s) && IsParse(ma, a, s, x, t) && Foremost(ma, a, s, x)
    ensures Found(m, s) == Some(Outcome(t))
  {
    var e := Alt(a, b);
    hide Found, CompiledFrom, LoopsRead, WellFormed, Opened, Outcome;
    forall u, t' | IsParse(m, e, s, u, t') ensures u == Pick(false, x) || Prefers(e, Pick(false, x), u) {
      if !u.right { assert IsParse(ma, a, s, u.t, t'); }
    }
    FoundIs(m, e, s, Pick(false, x), t);
  }

  lemma {:induction false} AltRight(m: Machine, ma: Machine, mb: Machine, a: Regex, b: Regex, s: nat, x: Tree, t: State)
    requires CompiledFrom(m, Alt(a, b)) && LoopsRead(Alt(a, b)) && s <= |m.text| && WellFormed(m.prog)
    requires Sibling(m, ma, a) && Sibling(m, mb, b) && LoopsRead(a)
    requires WellFormed(ma.prog) && Found(ma, s).None?
    requires Opened(ma, s) == Opened(m, s) == Opened(mb, s) && IsParse(mb, b, s, x, t) && Foremost(mb, b, s, x)
    ensures Found(m, s) == Some(Outcome(t))
  {
    var e := Alt(a, b);
    hide Found, CompiledFrom, LoopsRead, WellFormed, Opened, Outcome;
    forall u, t' | IsParse(m, e, s, u, t') ensures u == Pick(true, x) || Prefers(e, Pick(true, x), u) {
      if u.right {
        assert IsParse(mb, b, s, u.t, t');
      } else {
        FoundSome(ma, a, s, u.t, t');
      }
    }
    FoundIs(m, e, s, Pick(true, x), t);
  }

  // ---- groups ----

  /** A parse leaves the slots of groups it does not contain alone. */
  ghost predicate Untouched(s: State, t: State, slot: nat) {
    |t.saved| == |s.saved| && (slot < |s.saved| ==> t.saved[slot] == s.saved[slot])
  }

  lemma {:induction false} OthersStay(flags: Flags, text: seq<Byte>, e: Regex, s: State, tree: Tree, slot: nat)
    requires Yield(flags, text, e, s, tree).Some? && slot / 2 !in Numbers(e)
    ensures Untouched(s, Yield(flags, text, e, s, tree).value, slot)
    decreases tree, 2
  {
    match e
    case Empty =>
    case Op(_) =>
    case Group(id, f) => OthersStay(flags, text, f, Put(s, 2 * id), tree.t, slot);
    case Cat(a, b) =>
      OthersStay(flags, text, a, s, tree.l, slot);
      OthersStay(flags, text, b, Yield(flags, text, a, s, tree.l).value, tree.r, slot);
    case Alt(a, b) => OthersStay(flags, text, if tree.right then b else a, s, tree.t, slot);
    case Opt(f, _) => if tree.Take? { OthersStay(flags, text, f, s, tree.t, slot); }
    case Star(f, _) => ChainStays(flags, text, f, s, tree, slot);
    case Plus(f, _) => ChainStays(flags, text, f, s, tree, slot);
    case Count(f, min, extra, _) => CountStays(flags, text, f, min, extra, s, tree, slot);
  }

  lemma {:induction false} ChainStays(flags: Flags, text: seq<Byte>, e: Regex, s: State, tree: Tree, slot: nat)
    requires YieldChain(flags, text, e, s, tree).Some? && slot / 2 !in Numbers(e)
    ensures Untouched(s, YieldChain(flags, text, e, s, tree).value, slot)
    decreases tree, 0
  {
    hide Yield;
    if tree.More? {
      OthersStay(flags, text, e, s, tree.head, slot);
      ChainStays(flags, text, e, Yield(flags, text, e, s, tree.head).value, tree.tail, slot);
    }
  }

  lemma {:induction false} CountStays(flags: Flags, text: seq<Byte>, e: Regex, min: nat, extra: Option<nat>, s: State, tree: Tree, slot: nat)
    requires YieldCount(flags, text, e, min, extra, s, tree).Some? && slot / 2 !in Numbers(e)
    ensures Untouched(s, YieldCount(flags, text, e, min, extra, s, tree).value, slot)
    decreases tree, 1
  {
    hide Yield;
    if min > 0 {
      OthersStay(flags, text, e, s, tree.head, slot);
      CountStays(flags, text, e, min - 1, extra, Yield(flags, text, e, s, tree.head).value, tree.tail, slot);
    } else if extra.None? {
      ChainStays(flags, text, e, s, tree, slot);
    } else if extra.value > 0 {
      if tree.head.Take? { OthersStay(flags, text, e, s, tree.head.t, slot); }
      CountStays(flags, text, e, 0, Some(extra.value - 1), YieldOpt(flags, text, e, s, tree.head).value, tree.tail, slot);
    }
  }

  lemma {:induction false} FoundParse(m: Machine, e: Regex, s: nat) returns (tree: Tree, t: State)
    requires CompiledFrom(m, e) && s <= |m.text| && WellFormed(m.prog) && Found(m, s).Some?
    ensures IsParse(m, e, s, tree, t) && Found(m, s).value == Outcome(t)
  {
    hide CompiledFrom, Means, IsParse, PathOf, Captures, WellFormed, FirstMatch, BestParse;
    var r := FirstMatch(m, s);
    FirstMatchIsBest(m, e, s);
    tree, t :| BestRun(m, e, s, r.value, tree, t);
    hide BestRun;
    BestRunIs(m, e, s, r.value, tree, t);
  }

  lemma {:induction false} BestRunIs(m: Machine, e: Regex, s: nat, p: Path, tree: Tree, t: State)
    requires BestRun(m, e, s, p, tree, t)
    ensures IsParse(m, e, s, tree, t) && (forall i :: 0 <= i < |p| ==> p[i].pc < |m.prog|) && Captures(m, p) == Outcome(t)
  {
    hide IsParse, PathOf, Captures, Simple;
  }

  /** A group around the whole pattern captures what the whole pattern captures: start in its even slot, end in its odd one. */
  lemma {:induction false} GroupFound(m: Machine, id: nat, f: Regex, s: nat)
    requires CompiledFrom(m, Group(id, f)) && s <= |m.text| && id > 0 && id !in Numbers(f) && m.nslots > 2 * id + 1
    requires 0 !in Numbers(f)
    ensures WellFormed(m.prog)
    ensures Found(m, s).Some? ==>
      var c := Found(m, s).value;
      |c| == m.nslots && c[0] == s && c[2 * id] == s && c[2 * id + 1] == c[1] && s <= c[1] <= |m.text|
  {
    var e := Group(id, f);
    CompiledIsWell(m, e);
    if Found(m, s).Some? {
      hide Found, CompiledFrom, WellFormed;
      var tree, t := FoundParse(m, e, s);
      var o := Put(Opened(m, s), 2 * id);
      assert Yield(m.flags, m.text, f, o, tree.t).Some?;
      OthersStay(m.flags, m.text, f, o, tree.t, 2 * id);
      OthersStay(m.flags, m.text, f, o, tree.t, 0);
      ParseEnds(m, e, s, tree, t);
    }
  }

  /** A parse ends no earlier than it starts, and inside the text. */
  lemma {:induction false} ParseEnds(m: Machine, e: Regex, s: nat, tree: Tree, t: State)
    requires CompiledFrom(m, e) && s <= |m.text| && IsParse(m, e, s, tree, t)
    ensures s <= t.pos <= |m.text|
  {
    hide CompiledFrom, IsParse, Captures, WellFormed, Succ;
    PatternMatchRuns(m, e, s, tree, t);
    RunEnds(m, PathOf(m, e, s, tree, t), |PathOf(m, e, s, tree, t)| - 1);
  }

  lemma {:induction false} RunEnds(m: Machine, p: Path, k: nat)
    requires WellFormed(m.prog) && IsPath(m, p) && k < |p|
    ensures p[0].pos <= p[k].pos <= |m.text|
  {
    hide Succ, WellFormed;
    if k > 0 {
      RunEnds(m, p, k - 1);
      assert p[k] in Succ(m, p[k - 1]);
    }
  }

  /** Two groups in a row: the second starts where the first ends, and together they are the whole match. */
  lemma {:induction false} RowFound(m: Machine, i: nat, f: Regex, j: nat, g: Regex, s: nat)
    requires CompiledFrom(m, Cat(Group(i, f), Group(j, g))) && s <= |m.text| && i > 0 && j > 0 && i != j && m.nslots > 2 * i + 1 && m.nslots > 2 * j + 1
    requires i !in Numbers(f) && i !in Numbers(g) && j !in Numbers(f) && j !in Numbers(g) && 0 !in Numbers(f) && 0 !in Numbers(g)
    ensures WellFormed(m.prog)
    ensures Found(m, s).Some? ==>
      var c := Found(m, s).value;
      |c| == m.nslots && c[0] == s && c[2 * i] == s && c[2 * i + 1] == c[2 * j] && c[2 * j + 1] == c[1]
  {
    var e := Cat(Group(i, f), Group(j, g));
    CompiledIsWell(m, e);
    if Found(m, s).Some? {
      hide Found, CompiledFrom, WellFormed;
      var tree, t := FoundParse(m, e, s);
      var o := Opened(m, s);
      assert tree.Both?;
      RowStates(m.flags, m.text, i, f, j, g, o, tree);
      hide IsParse;
    }
  }

  lemma {:induction false} RowStates(flags: Flags, text: seq<Byte>, i: nat, f: Regex, j: nat, g: Regex, s: State, tree: Tree)
    requires Yield(flags, text, Cat(Group(i, f), Group(j, g)), s, tree).Some? && i > 0 && j > 0 && i != j
    requires |s.saved| > 2 * i + 1 && |s.saved| > 2 * j + 1
    requires i !in Numbers(f) && i !in Numbers(g) && j !in Numbers(f) && j !in Numbers(g) && 0 !in Numbers(f) && 0 !in Numbers(g)
    ensures
      var t := Yield(flags, text, Cat(Group(i, f), Group(j, g)), s, tree).value;
      && |t.saved| == |s.saved| && t.saved[0] == s.saved[0] && t.saved[2 * i] == s.pos && t.saved[2 * i + 1] == t.saved[2 * j]
      && t.saved[2 * j + 1] == t.pos
  {
    var a, b := Group(i, f), Group(j, g);
    var u := Yield(flags, text, a, s, tree.l).value;
    assert tree.Both? && Yield(flags, text, b, u, tree.r).Some?;
    assert Numbers(a) == {i} + Numbers(f) && Numbers(b) == {j} + Numbers(g);
    assert Yield(flags, text, Cat(a, b), s, tree) == Yield(flags, text, b, u, tree.r);
    hide Yield, Numbers;
    RowSlots(flags, text, i, f, s, tree.l);
    RowSlots(flags, text, j, g, u, tree.r);
    OthersStay(flags, text, b, u, tree.r, 2 * i);
    OthersStay(flags, text, b, u, tree.r, 2 * i + 1);
    OthersStay(flags, text, b, u, tree.r, 0);
    OthersStay(flags, text, a, s, tree.l, 0);
  }

  lemma {:induction false} RowSlots(flags: Flags, text: seq<Byte>, id: nat, f: Regex, s: State, tree: Tree)
    requires Yield(flags, text, Group(id, f), s, tree).Some? && id !in Numbers(f) && |s.saved| > 2 * id + 1
    ensures
      var t := Yield(flags, text, Group(id, f), s, tree).value;
      |t.saved| == |s.saved| && t.saved[2 * id] == s.pos && t.saved[2 * id + 1] == t.pos
  {
    OthersStay(flags, text, f, Put(s, 2 * id), tree.t, 2 * id);
  }
}
