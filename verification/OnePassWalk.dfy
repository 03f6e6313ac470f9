/** The one-pass walker: its only move, the run it makes where reading nothing ends, and the traces of its nodes. */
module OnePassWalk {
  import opened Basics
  import opened Machine
  import opened Backtracking
  import opened FirstSet

  /** Reading nothing always comes to an end: rank falls along every epsilon edge. */
  ghost predicate EpsAcyclic(prog: seq<Instr>, rank: seq<nat>)
    requires WellFormed(prog)
  {
    && |rank| == |prog|
    && forall pc, q :: 0 <= pc < |prog| && q in EpsSucc(prog, pc) ==> rank[q] < rank[pc]
  }

  /** The byte about to be read. */
  function NextByte(text: seq<Byte>, pos: nat): Option<Byte> {
    if pos < |text| then Some(text[pos]) else None
  }

  /** Which side of a SPLIT the walker takes on the next byte, if any. */
  ghost function Side(prog: seq<Instr>, flags: Flags, pc: nat, next: Option<Byte>): Option<nat>
    requires WellFormed(prog) && pc < |prog| && prog[pc].Split?
  {
    var a, b := prog[pc].a, prog[pc].b;
    if next.Some? && CanStart(prog, flags, a, next.value) then Some(a)
    else if next.Some? && CanStart(prog, flags, b, next.value) then Some(b)
    else if MatchEmpty(prog, a) then Some(a)
    else if MatchEmpty(prog, b) then Some(b)
    else None
  }

  /** The walker's only move. */
  ghost function Pick(m: Machine, c: Config): (r: Option<Config>)
    requires WellFormed(m.prog) && InBounds(m, c)
    ensures r.Some? ==> r.value in Succ(m, c)
  {
    if m.prog[c.pc].Split? then
      var s := Side(m.prog, m.flags, c.pc, NextByte(m.text, c.pos));
      if s.Some? then Some(Config(s.value, c.pos)) else None
    else
      var s := Succ(m, c);
      if |s| > 0 then Some(s[0]) else None
  }

  ghost predicate CanWalk(prog: seq<Instr>, rank: seq<nat>) {
    WellFormed(prog) && EpsAcyclic(prog, rank) && NoWordTests(prog)
  }

  /** Every step either reads a byte or goes down in rank. */
  lemma {:induction false} StepDescends(m: Machine, rank: seq<nat>, c: Config, d: Config)
    requires CanWalk(m.prog, rank) && InBounds(m, c) && d in Succ(m, c)
    ensures d.pos > c.pos || (d.pos == c.pos && d.pc in EpsSucc(m.prog, c.pc) && rank[d.pc] < rank[c.pc])
    ensures d.pos <= |m.text|
  {
  }

  /** Without epsilon cycles a run never meets a configuration twice. */
  lemma {:induction false} PathsDescend(m: Machine, rank: seq<nat>, p: Path, i: nat, j: nat)
    requires CanWalk(m.prog, rank) && IsPath(m, p) && i < j < |p|
    ensures p[j].pos > p[i].pos || (p[j].pos == p[i].pos && rank[p[j].pc] < rank[p[i].pc])
    decreases j - i
  {
    hide WellFormed, Succ, EpsSucc;
    assert p[j] in Succ(m, p[j - 1]);
    StepDescends(m, rank, p[j - 1], p[j]);
    if i < j - 1 { PathsDescend(m, rank, p, i, j - 1); }
  }

  lemma {:induction false} PathsAreSimple(m: Machine, rank: seq<nat>, p: Path)
    requires CanWalk(m.prog, rank) && IsPath(m, p)
    ensures Simple(p)
  {
    forall i, j | 0 <= i < j < |p| ensures p[i] != p[j] {
      PathsDescend(m, rank, p, i, j);
    }
  }

  /** Whether a position test passes in front of this next byte; BOL and \\A are taken to pass. */
  predicate PassesBefore(flags: Flags, i: Instr, next: Option<Byte>) {
    match i
    case Eol => next.None? || (flags.multiline && next.value == NEWLINE)
    case Eos => next.None?
    case _ => true
  }

  // ---- the walker on programs alone: a node is a pc and the byte about to be read ----

  datatype Node = Node(pc: nat, next: Option<Byte>)

  ghost predicate Moves(prog: seq<Instr>, flags: Flags, n: Node, d: Node)
    requires WellFormed(prog) && n.pc < |prog|
  {
    var i := prog[n.pc];
    if i.Split? then Side(prog, flags, n.pc, n.next) == Some(d.pc) && d.next == n.next
    else if i.Match? || IsWordTest(i) then false
    else if Consuming(i) then n.next.Some? && Matches(flags, i, n.next.value) && d.pc == n.pc + 1
    else PassesBefore(flags, i, n.next) && d.pc == EpsSucc(prog, n.pc)[0] && d.next == n.next
  }

  ghost predicate Trace(prog: seq<Instr>, flags: Flags, t: seq<Node>)
    requires WellFormed(prog)
  {
    && |t| > 0
    && (forall i :: 0 <= i < |t| ==> t[i].pc < |prog|)
    && (forall i, j :: 0 <= i < |t| && j == i + 1 < |t| ==> Moves(prog, flags, t[i], t[j]))
  }

  predicate LooksBack(i: Instr) {
    i.Bol? || i.Bos?
  }

  ghost predicate NoFront(prog: seq<Instr>) {
    forall i :: 0 <= i < |prog| ==> !LooksBack(prog[i])
  }

  ghost predicate FrontOnly(prog: seq<Instr>) {
    forall i :: 0 <= i < |prog| && LooksBack(prog[i]) ==> i == 1
  }

  /** ^ and \A only as the first instruction of the pattern, and nothing branches back to it. */
  ghost predicate FrontAnchors(prog: seq<Instr>) {
    && |prog| >= 3 && FrontOnly(prog)
    && (LooksBack(prog[1]) ==>
         && (forall i :: 0 <= i < |prog| && prog[i].Split? ==> prog[i].a >= 2 && prog[i].b >= 2)
         && (forall i :: 0 <= i < |prog| && prog[i].Jump? ==> prog[i].target >= 2))
  }

  ghost function NodeAt(m: Machine, c: Config): Node {
    Node(c.pc, NextByte(m.text, c.pos))
  }

  /** Past the front a position test passes exactly when the next byte says so. */
  lemma {:induction false} AnchorByNext(m: Machine, c: Config)
    requires WellFormed(m.prog) && InBounds(m, c) && Anchor(m.prog[c.pc]) && !IsWordTest(m.prog[c.pc])
    ensures AnchorOk(m.flags, m.prog[c.pc], m.text, c.pos) ==> PassesBefore(m.flags, m.prog[c.pc], NextByte(m.text, c.pos))
    ensures !LooksBack(m.prog[c.pc]) ==>
      (AnchorOk(m.flags, m.prog[c.pc], m.text, c.pos) <==> PassesBefore(m.flags, m.prog[c.pc], NextByte(m.text, c.pos)))
  {
  }

  lemma {:induction false} PickMoves(m: Machine, c: Config)
    requires WellFormed(m.prog) && NoWordTests(m.prog) && InBounds(m, c) && Pick(m, c).Some?
    ensures Moves(m.prog, m.flags, NodeAt(m, c), NodeAt(m, Pick(m, c).value))
  {
    hide Matches, CanStart, MatchEmpty;
    if Anchor(m.prog[c.pc]) { AnchorByNext(m, c); }
  }

  /** Every step of p is the walker's. */
  ghost predicate Picked(m: Machine, p: Path)
    requires WellFormed(m.prog)
  {
    IsPath(m, p) && forall i, j :: 0 <= i < |p| && j == i + 1 < |p| ==> Pick(m, p[i]) == Some(p[j])
  }

  /** p is how the walker got where it is. */
  ghost predicate Walked(m: Machine, p: Path)
    requires WellFormed(m.prog)
  {
    Picked(m, p) && p[0].pc == 0
  }

  /** The nodes the walker goes through. */
  lemma {:induction false} WalkedTrace(m: Machine, p: Path) returns (t: seq<Node>)
    requires WellFormed(m.prog) && NoWordTests(m.prog) && Walked(m, p)
    ensures Trace(m.prog, m.flags, t) && |t| == |p| && forall i :: 0 <= i < |p| ==> t[i] == NodeAt(m, p[i])
  {
    hide WellFormed, Pick, Moves, Succ;
    t := seq(|p|, i requires 0 <= i < |p| => NodeAt(m, p[i]));
    forall i | 0 < i < |t| ensures Moves(m.prog, m.flags, t[i - 1], t[i]) {
      assert Pick(m, p[i - 1]) == Some(p[i]);
      PickMoves(m, p[i - 1]);
    }
  }

  // ---- a text on which the walker follows a trace ----

  /** The bytes a trace reads. */
  ghost function Read(prog: seq<Instr>, t: seq<Node>): seq<Byte>
    requires forall i :: 0 <= i < |t| ==> t[i].pc < |prog|
  {
    if |t| <= 1 then []
    else
      var n := t[|t| - 2];
      Read(prog, t[..|t| - 1]) + if Consuming(prog[n.pc]) && n.next.Some? then [n.next.value] else []
  }

  /** The text that makes the walker follow a trace. */
  ghost function TextOf(prog: seq<Instr>, t: seq<Node>): seq<Byte>
    requires |t| > 0 && forall i :: 0 <= i < |t| ==> t[i].pc < |prog|
  {
    Read(prog, t) + if t[|t| - 1].next.Some? then [t[|t| - 1].next.value] else []
  }

  /** A text that starts with what t reads and goes on with the byte t waits for. */
  ghost predicate Spells(prog: seq<Instr>, t: seq<Node>, text: seq<Byte>)
    requires |t| > 0 && forall i :: 0 <= i < |t| ==> t[i].pc < |prog|
  {
    Read(prog, t) <= text && NextByte(text, |Read(prog, t)|) == t[|t| - 1].next
  }

  lemma {:induction false} FollowMove(m: Machine, p: Path, d: Node)
    requires WellFormed(m.prog) && NoWordTests(m.prog) && NoFront(m.prog) && IsPath(m, p)
    requires Moves(m.prog, m.flags, NodeAt(m, Last(p)), d)
    ensures
      var c := Last(p);
      Pick(m, c) == Some(Config(d.pc, if Consuming(m.prog[c.pc]) then c.pos + 1 else c.pos))
  {
    var c := Last(p);
    if Anchor(m.prog[c.pc]) { AnchorByNext(m, c); }
  }

  lemma {:induction false} SpellsPrefix(prog: seq<Instr>, flags: Flags, t: seq<Node>, text: seq<Byte>)
    requires WellFormed(prog) && Trace(prog, flags, t) && |t| > 1 && Spells(prog, t, text)
    ensures Spells(prog, t[..|t| - 1], text)
    ensures var n := t[|t| - 2];
      |Read(prog, t)| == |Read(prog, t[..|t| - 1])| + if Consuming(prog[n.pc]) then 1 else 0
  {
    assert Moves(prog, flags, t[|t| - 1 - 1], t[|t| - 1]);
  }

  /** On a text that spells the trace the walker does follow it. */
  lemma {:induction false} Realize(m: Machine, t: seq<Node>) returns (p: Path)
    requires WellFormed(m.prog) && NoWordTests(m.prog) && NoFront(m.prog)
    requires Trace(m.prog, m.flags, t) && t[0].pc == 0 && Spells(m.prog, t, m.text)
    ensures Walked(m, p) && p[0] == Config(0, 0) && |p| == |t|
    ensures Last(p).pos == |Read(m.prog, t)|
    ensures forall i :: 0 <= i < |t| ==> NodeAt(m, p[i]) == t[i]
    decreases |t|
  {
    hide NoFront, NoWordTests, WellFormed, Moves, Succ, Pick;
    if |t| == 1 { return Root(0); }
    var n := |t| - 1;
    SpellsPrefix(m.prog, m.flags, t, m.text);
    assert Trace(m.prog, m.flags, t[..n]);
    var q := Realize(m, t[..n]);
    assert Moves(m.prog, m.flags, t[n - 1], t[n]);
    assert NodeAt(m, q[n - 1]) == t[n - 1];
    FollowMove(m, q, t[n]);
    var d := Pick(m, Last(q)).value;
    p := WalkedGrows(m, q, d);
    assert NodeAt(m, d) == t[n];
  }

  lemma {:induction false} WalkedGrows(m: Machine, q: Path, d: Config) returns (p: Path)
    requires WellFormed(m.prog) && Walked(m, q) && Pick(m, Last(q)) == Some(d)
    ensures Walked(m, p) && p == q + [d]
  {
    hide Succ, Pick;
    p := q + [d];
    ExtendPath(m, q, d);
  }

  lemma {:induction false} TextSpells(prog: seq<Instr>, t: seq<Node>)
    requires |t| > 0 && forall i :: 0 <= i < |t| ==> t[i].pc < |prog|
    ensures Spells(prog, t, TextOf(prog, t))
  {
  }
}
