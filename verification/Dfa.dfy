/** The lazy DFA: a (pc, byte) table that memoises the one-pass walk, and exactly when it stands in for it. */
module Dfa {
  import opened Basics
  import opened Machine
  import opened Backtracking
  import opened FirstSet
  import opened OnePassWalk
  import opened OnePassVm

  const MAX_PROG := 160
  const UNFILLED := -2
  const DEAD := -1
  const ACCEPT := -3
  const ROW := 256

  /** Table size limit, no multiline, and ^ or \A nowhere but right after the opening SAVE. */
  ghost predicate Eligible(prog: seq<Instr>, flags: Flags)
    requires WellFormed(prog)
  {
    OnePass(prog, flags) && !flags.multiline && |prog| <= MAX_PROG && FrontOnly(prog)
  }

  /** re_dfa_check_eligible. */
  method CheckEligible(prog: seq<Instr>, flags: Flags, onepass: bool) returns (yes: bool)
    requires WellFormed(prog) && (onepass <==> OnePass(prog, flags))
    ensures yes <==> Eligible(prog, flags)
    ensures yes <==> onepass && !flags.multiline && |prog| <= 160 && forall i :: 2 <= i < |prog| || (i == 0 < |prog|) ==> !prog[i].Bol? && !prog[i].Bos?
  {
    if !onepass || flags.multiline || |prog| > MAX_PROG {
      return false;
    }
    var pc := 0;
    while pc < |prog|
      invariant 0 <= pc <= |prog| && forall i :: 0 <= i < pc && LooksBack(prog[i]) ==> i == 1
    {
      if LooksBack(prog[pc]) && pc != 1 {
        return false;
      }
      pc := pc + 1;
    }
    return true;
  }

  // ---- resolving: from pc to pc without reading ----

  /** Where control goes next without reading, in front of this byte or none; ^ and \A are taken to pass. */
  ghost function Glide(prog: seq<Instr>, flags: Flags, pc: nat, next: Option<Byte>): (r: Option<nat>)
    requires WellFormed(prog) && pc < |prog|
    ensures r.Some? ==> r.value < |prog|
  {
    var i := prog[pc];
    EpsTargets(prog, pc);
    if i.Split? then Side(prog, flags, pc, next)
    else if i.Match? || Consuming(i) || IsWordTest(i) then None
    else if PassesBefore(flags, i, next) then Some(EpsSucc(prog, pc)[0])
    else None
  }

  ghost predicate Glided(prog: seq<Instr>, flags: Flags, next: Option<Byte>, e: seq<nat>)
    requires WellFormed(prog)
  {
    && |e| > 0 && (forall i :: 0 <= i < |e| ==> e[i] < |prog|)
    && forall i, j :: 0 <= i < |e| && j == i + 1 < |e| ==> Glide(prog, flags, e[i], next) == Some(e[j])
  }

  /** The whole way from pc to where control can go no further without reading. */
  ghost predicate Rests(prog: seq<Instr>, flags: Flags, pc: nat, next: Option<Byte>, e: seq<nat>)
    requires WellFormed(prog)
  {
    Glided(prog, flags, next, e) && e[0] == pc && Glide(prog, flags, e[|e| - 1], next).None?
  }

  /** Resolving from here comes to an end. */
  ghost predicate Settles(prog: seq<Instr>, flags: Flags, pc: nat, next: Option<Byte>)
    requires WellFormed(prog)
  {
    exists e :: Rests(prog, flags, pc, next, e)
  }

  function RestsAt(i: Instr, pc: nat): (r: int) {
    if i.Match? then ACCEPT else if Consuming(i) then pc else DEAD
  }

  /** The byte test reached from pc without reading, or that there is none, or that MATCH comes first. */
  ghost function Settle(prog: seq<Instr>, flags: Flags, pc: nat, next: Option<Byte>): (r: int)
    requires WellFormed(prog)
    ensures r == DEAD || r == ACCEPT || (0 <= r < |prog| && Consuming(prog[r]))
  {
    if e :| Rests(prog, flags, pc, next, e) then RestsAt(prog[e[|e| - 1]], e[|e| - 1]) else DEAD
  }

  /** There is one way to glide. */
  lemma {:induction false} OneGlide(prog: seq<Instr>, flags: Flags, next: Option<Byte>, d: seq<nat>, e: seq<nat>, k: nat)
    requires WellFormed(prog) && Glided(prog, flags, next, d) && Glided(prog, flags, next, e) && d[0] == e[0] && k < |d| && k < |e|
    ensures d[k] == e[k]
  {
    hide WellFormed, Glide;
    if k > 0 {
      OneGlide(prog, flags, next, d, e, k - 1);
      assert Some(d[k]) == Glide(prog, flags, d[k - 1], next) == Some(e[k]);
    }
  }

  lemma {:induction false} GlidesOn(prog: seq<Instr>, flags: Flags, next: Option<Byte>, e: seq<nat>, k: nat)
    requires WellFormed(prog) && Glided(prog, flags, next, e) && k + 1 < |e|
    ensures Glide(prog, flags, e[k], next) == Some(e[k + 1])
  {
    hide WellFormed, Glide;
  }

  lemma {:induction false} OneRest(prog: seq<Instr>, flags: Flags, pc: nat, next: Option<Byte>, d: seq<nat>, e: seq<nat>)
    requires WellFormed(prog) && Rests(prog, flags, pc, next, d) && Rests(prog, flags, pc, next, e)
    ensures |d| > 0 && |e| > 0 && d[|d| - 1] == e[|e| - 1]
  {
    hide WellFormed, Glide;
    NotShorter(prog, flags, pc, next, d, e);
    NotShorter(prog, flags, pc, next, e, d);
    OneGlide(prog, flags, next, d, e, |d| - 1);
  }

  lemma {:induction false} NotShorter(prog: seq<Instr>, flags: Flags, pc: nat, next: Option<Byte>, d: seq<nat>, e: seq<nat>)
    requires WellFormed(prog) && Rests(prog, flags, pc, next, d) && Rests(prog, flags, pc, next, e)
    ensures |d| >= |e|
  {
    hide WellFormed, Glide;
    if |d| < |e| {
      OneGlide(prog, flags, next, d, e, |d| - 1);
      GlidesOn(prog, flags, next, e, |d| - 1);
    }
  }

  lemma {:induction false} SettleIs(prog: seq<Instr>, flags: Flags, pc: nat, next: Option<Byte>, e: seq<nat>)
    requires WellFormed(prog) && Rests(prog, flags, pc, next, e)
    ensures |e| > 0 && e[|e| - 1] < |prog| && Settle(prog, flags, pc, next) == RestsAt(prog[e[|e| - 1]], e[|e| - 1])
  {
    var d :| Rests(prog, flags, pc, next, d) && Settle(prog, flags, pc, next) == RestsAt(prog[d[|d| - 1]], d[|d| - 1]);
    hide WellFormed, Settle, Glide;
    OneRest(prog, flags, pc, next, d, e);
  }

  /** The uncached transition of a (state, next byte). */
  ghost function StepOf(prog: seq<Instr>, flags: Flags, state: nat, next: Option<Byte>): (r: int)
    requires WellFormed(prog)
    ensures r == DEAD || r == ACCEPT || (0 <= r < |prog| && next.Some?)
  {
    var c := Settle(prog, flags, state, next);
    if c == ACCEPT then ACCEPT
    else if c == DEAD || next.None? || !Matches(flags, prog[c], next.value) then DEAD
    else c + 1
  }

  /** Where reading from a state ends, on transitions alone. */
  ghost function Reads(m: Machine, state: nat, pos: nat): (r: Option<nat>)
    requires WellFormed(m.prog) && pos <= |m.text|
    ensures r.Some? ==> pos <= r.value <= |m.text|
    decreases |m.text| - pos
  {
    var r := StepOf(m.prog, m.flags, state, NextByte(m.text, pos));
    if r == ACCEPT then Some(pos)
    else if r == DEAD then None
    else Reads(m, r, pos + 1)
  }

  ghost function EndOf(w: Option<Path>): Option<nat>
    requires w.Some? ==> |w.value| > 0
  {
    if w.Some? then Some(Last(w.value).pos) else None
  }

  // ---- the nodes the table comes to ----

  /** On some text the table resolves from this node. */
  ghost predicate Met(prog: seq<Instr>, flags: Flags, n: Node)
    requires WellFormed(prog)
  {
    exists t: seq<Node> :: Trace(prog, flags, t) && t[0].pc == 0 && t[|t| - 1] == n
  }

  /** Resolving comes to an end at every node the table can come to. */
  ghost predicate TableHalts(prog: seq<Instr>, flags: Flags)
    requires WellFormed(prog)
  {
    forall n: Node :: Met(prog, flags, n) ==> Settles(prog, flags, n.pc, n.next)
  }

  lemma {:induction false} GlideMoves(prog: seq<Instr>, flags: Flags, n: Node, d: Node)
    requires WellFormed(prog) && n.pc < |prog| && !Consuming(prog[n.pc])
    ensures Moves(prog, flags, n, d) <==> Glide(prog, flags, n.pc, n.next) == Some(d.pc) && d.next == n.next
  {
    EpsTargets(prog, n.pc);
    hide Side, PassesBefore, EpsSucc;
  }

  lemma {:induction false} GlideIsSilent(prog: seq<Instr>, flags: Flags, pc: nat, next: Option<Byte>)
    requires WellFormed(prog) && pc < |prog| && Glide(prog, flags, pc, next).Some?
    ensures !Consuming(prog[pc]) && !prog[pc].Match? && Glide(prog, flags, pc, next).value < |prog|
  {
  }

  lemma {:induction false} MetOn(prog: seq<Instr>, flags: Flags, n: Node, d: Node)
    requires WellFormed(prog) && Met(prog, flags, n) && n.pc < |prog| && d.pc < |prog| && Moves(prog, flags, n, d)
    ensures Met(prog, flags, d)
  {
    hide WellFormed, Moves;
    var t: seq<Node> :| Trace(prog, flags, t) && t[0].pc == 0 && t[|t| - 1] == n;
    var r := t + [d];
    assert Trace(prog, flags, r) && r[0].pc == 0 && r[|r| - 1] == d;
  }

  lemma {:induction false} MetInRange(prog: seq<Instr>, flags: Flags, n: Node)
    requires WellFormed(prog) && Met(prog, flags, n)
    ensures n.pc < |prog|
  {
  }

  /** Gliding stays among the nodes the table comes to. */
  lemma {:induction false} GlidedMet(prog: seq<Instr>, flags: Flags, n: Node, e: seq<nat>, k: nat)
    requires WellFormed(prog) && Met(prog, flags, n) && Glided(prog, flags, n.next, e) && e[0] == n.pc && k < |e|
    ensures Met(prog, flags, Node(e[k], n.next))
  {
    hide WellFormed, Met, Glide, Moves;
    if k > 0 {
      GlidedMet(prog, flags, n, e, k - 1);
      GlidesOn(prog, flags, n.next, e, k - 1);
      GlideIsSilent(prog, flags, e[k - 1], n.next);
      GlideMoves(prog, flags, Node(e[k - 1], n.next), Node(e[k], n.next));
      MetOn(prog, flags, Node(e[k - 1], n.next), Node(e[k], n.next));
    } else {
      assert n == Node(e[0], n.next);
    }
  }

  /** After a transition that reads, the table is at a node it can come to, whatever comes next. */
  lemma {:induction false} StepMet(prog: seq<Instr>, flags: Flags, n: Node, next: Option<Byte>)
    requires WellFormed(prog) && Met(prog, flags, n) && Settles(prog, flags, n.pc, n.next)
    ensures StepOf(prog, flags, n.pc, n.next) >= 0 ==> Met(prog, flags, Node(StepOf(prog, flags, n.pc, n.next), next))
  {
    hide WellFormed, Met, Glide, Matches;
    var e :| Rests(prog, flags, n.pc, n.next, e);
    SettleIs(prog, flags, n.pc, n.next, e);
    var c := e[|e| - 1];
    var r := StepOf(prog, flags, n.pc, n.next);
    if r >= 0 {
      GlidedMet(prog, flags, n, e, |e| - 1);
      assert Moves(prog, flags, Node(c, n.next), Node(r, next));
      MetOn(prog, flags, Node(c, n.next), Node(r, next));
    }
  }

  // ---- the table ----

  function Cell(state: nat, b: Byte): (c: nat)
    ensures c == state * ROW + b
  {
    state * ROW + b
  }

  /** What the table says of (state, b) is nothing, or the uncached transition. */
  ghost predicate CellOk(prog: seq<Instr>, flags: Flags, trans: seq<int>, state: nat, b: Byte)
    requires WellFormed(prog) && state < |prog| && |trans| == |prog| * ROW
  {
    CellsApart(state, b, |prog|);
    trans[Cell(state, b)] == UNFILLED || trans[Cell(state, b)] == StepOf(prog, flags, state, Some(b))
  }

  ghost predicate TableSound(prog: seq<Instr>, flags: Flags, trans: seq<int>) {
    && WellFormed(prog) && |trans| == |prog| * ROW
    && forall state: nat, b: Byte :: state < |prog| ==> CellOk(prog, flags, trans, state, b)
  }

  lemma {:induction false} CellsApart(state: nat, b: Byte, n: nat)
    requires state < n
    ensures Cell(state, b) < n * ROW
    ensures forall s: nat, c: Byte :: Cell(s, c) == Cell(state, b) ==> s == state && c == b
  {
    assert (state + 1) * ROW <= n * ROW;
  }

  /** Filling one cell with its transition keeps the table sound. */
  lemma {:induction false} FillKeeps(prog: seq<Instr>, flags: Flags, trans: seq<int>, state: nat, b: Byte)
    requires TableSound(prog, flags, trans) && state < |prog|
    ensures Cell(state, b) < |trans|
    ensures TableSound(prog, flags, trans[Cell(state, b) := StepOf(prog, flags, state, Some(b))])
  {
    hide WellFormed, StepOf, Cell;
    CellsApart(state, b, |prog|);
    var after := trans[Cell(state, b) := StepOf(prog, flags, state, Some(b))];
    forall s: nat, c: Byte | s < |prog| ensures CellOk(prog, flags, after, s, c) {
      CellsApart(s, c, |prog|);
      assert CellOk(prog, flags, trans, s, c);
    }
  }

  lemma {:induction false} LookUp(prog: seq<Instr>, flags: Flags, trans: seq<int>, state: nat, b: Byte)
    requires TableSound(prog, flags, trans) && state < |prog|
    ensures Cell(state, b) < |trans| && CellOk(prog, flags, trans, state, b)
  {
    CellsApart(state, b, |prog|);
  }

  /** Where control goes without reading, instruction by instruction. */
  lemma {:induction false} GlideCases(prog: seq<Instr>, flags: Flags, pc: nat, next: Option<Byte>)
    requires WellFormed(prog) && NoWordTests(prog) && pc < |prog|
    ensures
      var i, r := prog[pc], Glide(prog, flags, pc, next);
      if i.Save? || LooksBack(i) then r == Some(pc + 1)
      else if i.Jump? then r == Some(i.target)
      else if i.Split? then r == Side(prog, flags, pc, next)
      else if i.Eol? || i.Eos? then r == if PassesBefore(flags, i, next) then Some(pc + 1) else None
      else r.None? && RestsAt(i, pc) == if i.Match? then ACCEPT else pc
  {
    hide Side;
  }

  lemma {:induction false} RestingPlace(prog: seq<Instr>, flags: Flags, pc: nat, next: Option<Byte>, e: seq<nat>, k: nat)
    requires WellFormed(prog) && Rests(prog, flags, pc, next, e) && k < |e|
    ensures e[k] < |prog| && (Glide(prog, flags, e[k], next).None? <==> k == |e| - 1)
    ensures Glide(prog, flags, e[k], next).Some? ==> e[k + 1] == Glide(prog, flags, e[k], next).value
    ensures Glide(prog, flags, e[k], next).None? ==> Settle(prog, flags, pc, next) == RestsAt(prog[e[k]], e[k])
  {
    hide WellFormed, Glide, Settle;
    SettleIs(prog, flags, pc, next, e);
    if k < |e| - 1 { GlidesOn(prog, flags, next, e, k); }
  }

  /** re_dfa_resolve, from where resolving comes to an end. */
  method Resolve(prog: seq<Instr>, flags: Flags, table: seq<SplitInfo>, from: nat, next: Option<Byte>) returns (r: int)
    requires WellFormed(prog) && NoWordTests(prog) && !flags.multiline && TableOk(prog, flags, table) && from < |prog|
    requires Settles(prog, flags, from, next)
    ensures r == Settle(prog, flags, from, next)
  {
    ghost var e :| Rests(prog, flags, from, next, e);
    assert |e| > 0 && e[0] == from;
    hide WellFormed, NoWordTests, TableOk, Settle, Side, Choose, Glide, Rests;
    var pc: nat := from;
    ghost var k: nat := 0;
    while true
      invariant pc < |prog| && k < |e| && pc == e[k]
      decreases |e| - k
    {
      var i := prog[pc];
      GlideCases(prog, flags, pc, next);
      RestingPlace(prog, flags, from, next, e, k);
      if i.Save? {
        pc := pc + 1;
      } else if i.Jump? {
        pc := i.target;
      } else if i.Split? {
        ChooseIsSide(prog, flags, table, pc, next);
        var chosen := Choose(i, table[pc], next);
        if chosen.None? {
          return DEAD;
        }
        pc := chosen.value;
      } else if i.Eol? || i.Eos? {
        if next.Some? {
          return DEAD;
        }
        pc := pc + 1;
      } else if i.Bol? || i.Bos? {
        pc := pc + 1;
      } else if i.Match? {
        return ACCEPT;
      } else {
        return pc;
      }
      k := k + 1;
    }
  }

  /** re_dfa_step: the answer is the uncached transition whether or not the cell was filled, and fills the cell. */
  method Step(m: Machine, table: seq<SplitInfo>, trans: array<int>, state: nat, pos: nat)
    returns (r: int)
    requires TableSound(m.prog, m.flags, trans[..]) && TableOk(m.prog, m.flags, table) && !m.flags.multiline && NoWordTests(m.prog)
    requires state < |m.prog| && pos <= |m.text| && Settles(m.prog, m.flags, state, NextByte(m.text, pos))
    modifies trans
    ensures TableSound(m.prog, m.flags, trans[..])
    ensures r == StepOf(m.prog, m.flags, state, NextByte(m.text, pos))
    ensures pos < |m.text| ==> state * 256 + m.text[pos] < trans.Length && trans[state * 256 + m.text[pos]] == r
    ensures forall k :: 0 <= k < trans.Length && (pos == |m.text| || k != state * 256 + m.text[pos]) ==> trans[k] == old(trans[k])
  {
    assert WellFormed(m.prog);
    hide WellFormed, NoWordTests, TableSound, TableOk, Settle, Settles, Cell;
    if pos >= |m.text| {
      var e := Resolve(m.prog, m.flags, table, state, None);
      return if e == ACCEPT then ACCEPT else DEAD;
    }
    var b := m.text[pos];
    LookUp(m.prog, m.flags, trans[..], state, b);
    assert Cell(state, b) == state * 256 + b;
    if trans[Cell(state, b)] != UNFILLED {
      return trans[Cell(state, b)];
    }
    var cpc := Resolve(m.prog, m.flags, table, state, Some(b));
    if cpc == DEAD {
      r := DEAD;
    } else if cpc == ACCEPT {
      r := ACCEPT;
    } else if !Matches(m.flags, m.prog[cpc], b) {
      r := DEAD;
    } else {
      r := cpc + 1;
    }
    FillKeeps(m.prog, m.flags, trans[..], state, b);
    ghost var filled := trans[..][Cell(state, b) := r];
    trans[Cell(state, b)] := r;
    assert trans[..] == filled;
  }

  lemma {:induction false} ReadsOn(m: Machine, state: nat, pos: nat)
    requires WellFormed(m.prog) && pos <= |m.text|
    ensures
      var r := StepOf(m.prog, m.flags, state, NextByte(m.text, pos));
      if r == ACCEPT then Reads(m, state, pos) == Some(pos)
      else if r == DEAD then Reads(m, state, pos) == None
      else 0 <= r < |m.prog| && pos < |m.text| && Reads(m, state, pos) == Reads(m, r, pos + 1)
  {
  }

  lemma {:induction false} StartMet(prog: seq<Instr>, flags: Flags, next: Option<Byte>)
    requires WellFormed(prog)
    ensures Met(prog, flags, Node(0, next))
  {
    assert Trace(prog, flags, [Node(0, next)]);
  }

  /** vm_exec_dfa, on any program where resolving always comes to an end. */
  method ExecDfa(m: Machine, table: seq<SplitInfo>, trans: array<int>, start: nat)
    returns (ok: bool, outStart: int, outEnd: int)
    requires TableSound(m.prog, m.flags, trans[..]) && TableOk(m.prog, m.flags, table) && !m.flags.multiline && NoWordTests(m.prog)
    requires TableHalts(m.prog, m.flags) && start <= |m.text|
    modifies trans
    ensures TableSound(m.prog, m.flags, trans[..])
    ensures ok == Reads(m, 0, start).Some?
    ensures ok ==> outStart == start && outEnd == Reads(m, 0, start).value
  {
    assert WellFormed(m.prog) && |m.prog| > 0;
    hide WellFormed, NoWordTests, TableSound, TableOk, StepOf, Reads, Met, Settles;
    var state: nat, pos := 0, start;
    StartMet(m.prog, m.flags, NextByte(m.text, start));
    while true
      invariant state < |m.prog| && start <= pos <= |m.text|
      invariant TableSound(m.prog, m.flags, trans[..])
      invariant Met(m.prog, m.flags, Node(state, NextByte(m.text, pos)))
      invariant Reads(m, state, pos) == Reads(m, 0, start)
      decreases |m.text| - pos
    {
      ReadsOn(m, state, pos);
      var r := Step(m, table, trans, state, pos);
      if r == DEAD {
        return false, 0, 0;
      }
      if r == ACCEPT {
        return true, start, pos;
      }
      StepMet(m.prog, m.flags, Node(state, NextByte(m.text, pos)), NextByte(m.text, pos + 1));
      state := r;
      pos := pos + 1;
    }
  }

  // ---- when resolving always ends ----

  /** The table comes to a node, and from there resolving goes round. */
  ghost predicate Circles(prog: seq<Instr>, flags: Flags, n: Node, e: seq<nat>)
    requires WellFormed(prog)
  {
    Met(prog, flags, n) && Glided(prog, flags, n.next, e) && e[0] == n.pc && |e| > 1 && e[|e| - 1] == n.pc
  }

  /** Round and round: a glide that comes back never rests. */
  lemma {:induction false} CircleGoesOn(prog: seq<Instr>, flags: Flags, next: Option<Byte>, c: seq<nat>, e: seq<nat>, k: nat)
    requires WellFormed(prog) && Glided(prog, flags, next, c) && |c| > 1 && c[|c| - 1] == c[0]
    requires Glided(prog, flags, next, e) && e[0] == c[0] && k < |e|
    ensures exists j :: 0 <= j < |c| - 1 && e[k] == c[j]
  {
    hide WellFormed, Glide;
    if k > 0 {
      CircleGoesOn(prog, flags, next, c, e, k - 1);
      var j :| 0 <= j < |c| - 1 && e[k - 1] == c[j];
      GlidesOn(prog, flags, next, c, j);
      GlidesOn(prog, flags, next, e, k - 1);
      assert e[k] == c[j + 1];
      if j + 1 == |c| - 1 { assert e[k] == c[0]; }
    }
  }

  lemma {:induction false} CirclesNeverSettle(prog: seq<Instr>, flags: Flags, n: Node, c: seq<nat>)
    requires WellFormed(prog) && Circles(prog, flags, n, c)
    ensures !Settles(prog, flags, n.pc, n.next)
  {
    hide WellFormed, Glide, Met;
    if e :| Rests(prog, flags, n.pc, n.next, e) {
      CircleGoesOn(prog, flags, n.next, c, e, |e| - 1);
      var j :| 0 <= j < |c| - 1 && e[|e| - 1] == c[j];
      GlidesOn(prog, flags, n.next, c, j);
    }
  }

  /** Gliding for n steps, or until it rests. */
  lemma {:induction false} GlideFor(prog: seq<Instr>, flags: Flags, pc: nat, next: Option<Byte>, n: nat) returns (e: seq<nat>)
    requires WellFormed(prog) && pc < |prog|
    ensures Glided(prog, flags, next, e) && e[0] == pc && (Rests(prog, flags, pc, next, e) || |e| == n + 1)
  {
    hide WellFormed, Glide;
    e := [pc];
    if n > 0 {
      e := GlideFor(prog, flags, pc, next, n - 1);
      var q := Glide(prog, flags, e[|e| - 1], next);
      if q.Some? { e := e + [q.value]; }
    }
  }

  /** At most n different numbers lie below n. */
  lemma {:induction false} AllDifferent(e: seq<nat>, n: nat)
    requires forall k :: 0 <= k < |e| ==> e[k] < n
    requires forall i, j :: 0 <= i < j < |e| ==> e[i] != e[j]
    ensures |e| <= n
    decreases n
  {
    if |e| > 0 {
      assert e[0] < n;
      if k :| 0 <= k < |e| && e[k] == n - 1 {
        AllDifferent(e[..k] + e[k + 1..], n - 1);
      } else {
        AllDifferent(e, n - 1);
      }
    }
  }

  /** Resolving always comes to an end exactly when no node the table comes to goes round without reading. */
  lemma {:induction false} TableHaltsExactly(prog: seq<Instr>, flags: Flags)
    requires WellFormed(prog)
    ensures TableHalts(prog, flags) <==> forall n: Node, e: seq<nat> :: !Circles(prog, flags, n, e)
  {
    hide WellFormed, Met, Circles, Settles, Glide;
    if TableHalts(prog, flags) {
      forall n: Node, e: seq<nat> ensures !Circles(prog, flags, n, e) {
        if Circles(prog, flags, n, e) {
          CirclesNeverSettle(prog, flags, n, e);
          CircleIsMet(prog, flags, n, e);
        }
      }
    }
    if forall n: Node, e: seq<nat> :: !Circles(prog, flags, n, e) {
      forall n: Node | Met(prog, flags, n) ensures Settles(prog, flags, n.pc, n.next) {
        if !Settles(prog, flags, n.pc, n.next) { var d, c := CircleFound(prog, flags, n); }
      }
    }
  }

  lemma {:induction false} CircleIsMet(prog: seq<Instr>, flags: Flags, n: Node, e: seq<nat>)
    requires WellFormed(prog) && Circles(prog, flags, n, e)
    ensures Met(prog, flags, n)
  {
  }

  lemma {:induction false} CircleFound(prog: seq<Instr>, flags: Flags, n: Node) returns (d: Node, c: seq<nat>)
    requires WellFormed(prog) && Met(prog, flags, n) && !Settles(prog, flags, n.pc, n.next)
    ensures Circles(prog, flags, d, c)
  {
    hide WellFormed, Met, Glided, Settles;
    MetInRange(prog, flags, n);
    var e := LongGlide(prog, flags, n.pc, n.next);
    if forall i, j :: 0 <= i < j < |e| ==> e[i] != e[j] { AllDifferent(e, |prog|); }
    var i, j :| 0 <= i < j < |e| && e[i] == e[j];
    d, c := Node(e[i], n.next), e[i..j + 1];
    GlidedMet(prog, flags, n, e, i);
    GlidedPart(prog, flags, n.next, e, i, j + 1);
  }

  lemma {:induction false} LongGlide(prog: seq<Instr>, flags: Flags, pc: nat, next: Option<Byte>) returns (e: seq<nat>)
    requires WellFormed(prog) && pc < |prog| && !Settles(prog, flags, pc, next)
    ensures Glided(prog, flags, next, e) && |e| == |prog| + 1 && e[0] == pc && forall i :: 0 <= i < |e| ==> e[i] < |prog|
  {
    hide WellFormed, Glide;
    e := GlideFor(prog, flags, pc, next, |prog|);
  }

  lemma {:induction false} GlidedPart(prog: seq<Instr>, flags: Flags, next: Option<Byte>, e: seq<nat>, i: nat, j: nat)
    requires WellFormed(prog) && Glided(prog, flags, next, e) && i < j <= |e|
    ensures Glided(prog, flags, next, e[i..j])
  {
    hide WellFormed, Glide;
  }

  /** Without epsilon cycles resolving always comes to an end. */
  lemma {:induction false} RankedSettles(prog: seq<Instr>, flags: Flags, rank: seq<nat>, pc: nat, next: Option<Byte>) returns (e: seq<nat>)
    requires WellFormed(prog) && NoWordTests(prog) && EpsAcyclic(prog, rank) && pc < |prog|
    ensures Rests(prog, flags, pc, next, e)
    decreases rank[pc]
  {
    var q := Glide(prog, flags, pc, next);
    if q.None? { return [pc]; }
    GlideIsEps(prog, flags, pc, next);
    hide WellFormed, Glide, EpsSucc;
    var r := RankedSettles(prog, flags, rank, q.value, next);
    e := [pc] + r;
    forall i, j | 0 <= i < |e| && j == i + 1 < |e| ensures Glide(prog, flags, e[i], next) == Some(e[j]) {
      if i > 0 { GlidesOn(prog, flags, next, r, i - 1); }
    }
  }

  lemma {:induction false} GlideIsEps(prog: seq<Instr>, flags: Flags, pc: nat, next: Option<Byte>)
    requires WellFormed(prog) && pc < |prog| && Glide(prog, flags, pc, next).Some?
    ensures Glide(prog, flags, pc, next).value in EpsSucc(prog, pc)
  {
    hide CanStart, MatchEmpty;
  }

  lemma {:induction false} RankedTableHalts(prog: seq<Instr>, flags: Flags, rank: seq<nat>)
    requires CanWalk(prog, rank)
    ensures WellFormed(prog) && TableHalts(prog, flags)
  {
    hide WellFormed, NoWordTests, EpsAcyclic, Met, Rests;
    forall n: Node | Met(prog, flags, n) ensures Settles(prog, flags, n.pc, n.next) {
      MetInRange(prog, flags, n);
      var e := RankedSettles(prog, flags, rank, n.pc, n.next);
    }
  }
}
