/** The bytecode, what one instruction does, and runs of the bytecode as paths of configurations. */
module Machine {
  /** Pattern and text bytes. A class is a 16-byte bitmap tested without a guard, so bytes stop at 127. */
  type Byte = b: int | 0 <= b < 128

  const NEWLINE: Byte := 10

  const MAX_INSTRS: nat := 2048

  /** Group 0 and sixteen numbered ones. */
  const MAX_GROUPS: nat := 17

  datatype Flags = Flags(ignoreCase: bool, multiline: bool, dotAll: bool)

  datatype Instr =
    | Char(c: Byte)
    | Any
    | Class(members: set<Byte>)
    | NClass(members: set<Byte>)
    | Digit | NDigit | Word | NWord | Space | NSpace
    | Bol | Eol | Bos | Eos
    | WordBnd | NWordBnd
    | Save(slot: nat)
    | Split(a: nat, b: nat)
    | Jump(target: nat)
    | Match

  /** A compiled program together with the text it is run on. */
  datatype Machine = Machine(prog: seq<Instr>, flags: Flags, nslots: nat, text: seq<Byte>)

  datatype Config = Config(pc: nat, pos: nat)

  type Path = seq<Config>

  predicate Consuming(i: Instr) {
    i.Char? || i.Any? || i.Class? || i.NClass? || i.Digit? || i.NDigit? ||
    i.Word? || i.NWord? || i.Space? || i.NSpace?
  }

  predicate Anchor(i: Instr) {
    i.Bol? || i.Eol? || i.Bos? || i.Eos? || i.WordBnd? || i.NWordBnd?
  }

  function ToLower(b: Byte): Byte {
    if 65 <= b <= 90 then b + 32 else b
  }

  predicate IsDigit(b: Byte) { 48 <= b <= 57 }

  predicate IsWord(b: Byte) {
    IsDigit(b) || 65 <= b <= 90 || 97 <= b <= 122 || b == 95
  }

  predicate IsSpace(b: Byte) { b == 32 || 9 <= b <= 13 }

  /** The byte test of a consuming instruction. */
  predicate Matches(flags: Flags, i: Instr, b: Byte) {
    match i
    case Char(c) => if flags.ignoreCase then ToLower(b) == ToLower(c) else b == c
    case Any => b != NEWLINE || flags.dotAll
    case Class(members) => (if flags.ignoreCase then ToLower(b) else b) in members
    case NClass(members) => (if flags.ignoreCase then ToLower(b) else b) !in members
    case Digit => IsDigit(b)
    case NDigit => !IsDigit(b)
    case Word => IsWord(b)
    case NWord => !IsWord(b)
    case Space => IsSpace(b)
    case NSpace => !IsSpace(b)
    case _ => false
  }

  predicate WordAt(text: seq<Byte>, pos: int) {
    0 <= pos < |text| && IsWord(text[pos])
  }

  /** The position test of a zero-width assertion. */
  predicate AnchorOk(flags: Flags, i: Instr, text: seq<Byte>, pos: nat)
    requires pos <= |text|
  {
    match i
    case Bol => pos == 0 || (flags.multiline && text[pos - 1] == NEWLINE)
    case Eol => pos == |text| || (flags.multiline && text[pos] == NEWLINE)
    case Bos => pos == 0
    case Eos => pos == |text|
    case WordBnd => WordAt(text, pos - 1) != WordAt(text, pos)
    case NWordBnd => WordAt(text, pos - 1) == WordAt(text, pos)
    case _ => false
  }

  /** Every jump lands inside the program and control never runs off its end. */
  predicate WellFormed(prog: seq<Instr>) {
    && |prog| > 0
    && prog[|prog| - 1].Match?
    && (forall i :: 0 <= i < |prog| && prog[i].Split? ==> prog[i].a < |prog| && prog[i].b < |prog|)
    && (forall i :: 0 <= i < |prog| && prog[i].Jump? ==> prog[i].target < |prog|)
    && (forall i :: 0 <= i < |prog| && prog[i].Match? ==> i == |prog| - 1)
  }

  predicate InBounds(m: Machine, c: Config) {
    c.pc < |m.prog| && c.pos <= |m.text|
  }

  /** The configurations one step away, preferred first. */
  function Succ(m: Machine, c: Config): (s: seq<Config>)
    requires WellFormed(m.prog) && InBounds(m, c)
    ensures |s| <= 2
    ensures forall x :: x in s ==> InBounds(m, x) && c.pos <= x.pos
  {
    var i := m.prog[c.pc];
    if i.Save? then [Config(c.pc + 1, c.pos)]
    else if i.Jump? then [Config(i.target, c.pos)]
    else if i.Split? then [Config(i.a, c.pos), Config(i.b, c.pos)]
    else if i.Match? then []
    else if Anchor(i) then
      if AnchorOk(m.flags, i, m.text, c.pos) then [Config(c.pc + 1, c.pos)] else []
    else
      if c.pos < |m.text| && Matches(m.flags, i, m.text[c.pos]) then [Config(c.pc + 1, c.pos + 1)] else []
  }

  function Last(p: Path): Config
    requires |p| > 0
  {
    p[|p| - 1]
  }

  ghost predicate IsPath(m: Machine, p: Path)
    requires WellFormed(m.prog)
  {
    && |p| > 0
    && (forall i :: 0 <= i < |p| ==> InBounds(m, p[i]))
    && (forall i, j :: 0 <= i < |p| && j == i + 1 < |p| ==> p[j] in Succ(m, p[i]))
  }

  ghost predicate Simple(p: Path) {
    forall i, j :: 0 <= i < j < |p| ==> p[i] != p[j]
  }

  ghost predicate Accepting(m: Machine, p: Path)
    requires WellFormed(m.prog)
  {
    IsPath(m, p) && m.prog[Last(p).pc].Match?
  }

  function Unset(n: nat): (s: seq<int>)
    ensures |s| == n && forall i :: 0 <= i < n ==> s[i] == -1
  {
    seq(n, _ => -1)
  }

  function Store(prog: seq<Instr>, c: Config, saved: seq<int>): (s: seq<int>)
    requires c.pc < |prog|
    ensures |s| == |saved|
  {
    if prog[c.pc].Save? && prog[c.pc].slot < |saved| then saved[prog[c.pc].slot := c.pos] else saved
  }

  /** The capture slots once control has reached the last configuration of p. */
  ghost function Captures(m: Machine, p: Path): (s: seq<int>)
    requires forall i :: 0 <= i < |p| ==> p[i].pc < |m.prog|
    ensures |s| == m.nslots
  {
    if |p| <= 1 then Unset(m.nslots)
    else Store(m.prog, p[|p| - 2], Captures(m, p[..|p| - 1]))
  }

  /** p and q part at index k, where p takes the preferred branch and q the other one. */
  ghost predicate Parts(m: Machine, p: Path, q: Path, k: nat)
    requires WellFormed(m.prog)
  {
    && 0 < k < |p| && k < |q|
    && (forall i :: 0 <= i < k ==> p[i] == q[i])
    && InBounds(m, p[k - 1])
    && p[k] != q[k]
    && Succ(m, p[k - 1]) == [p[k], q[k]]
  }

  /** Leftmost-first priority: at the first branch where they differ, p took the preferred side. */
  ghost predicate Before(m: Machine, p: Path, q: Path)
    requires WellFormed(m.prog)
  {
    exists k: nat :: Parts(m, p, q, k)
  }

  lemma {:induction false} ExtendPath(m: Machine, p: Path, c: Config)
    requires WellFormed(m.prog) && IsPath(m, p) && c in Succ(m, Last(p))
    ensures IsPath(m, p + [c])
    ensures Captures(m, p + [c]) == Store(m.prog, Last(p), Captures(m, p))
  {
    assert (p + [c])[..|p|] == p;
  }

  lemma {:induction false} SubPath(m: Machine, p: Path, i: nat, j: nat)
    requires WellFormed(m.prog) && IsPath(m, p) && i < j <= |p|
    ensures IsPath(m, p[i..j])
  {
  }

  lemma {:induction false} JoinPaths(m: Machine, p: Path, q: Path)
    requires WellFormed(m.prog) && IsPath(m, p) && IsPath(m, q) && Last(p) == q[0]
    ensures IsPath(m, p + q[1..])
  {
    var r := p + q[1..];
    forall x | 0 < x < |r| ensures r[x] in Succ(m, r[x - 1]) {
      if x >= |p| {
        assert r[x] == q[x - |p| + 1] && r[x - 1] == q[x - |p|];
      }
    }
  }

  lemma {:induction false} BeforeExtends(m: Machine, p: Path, q: Path, s: Path)
    requires WellFormed(m.prog) && Before(m, p, q)
    ensures Before(m, p + s, q)
  {
    var k: nat :| Parts(m, p, q, k);
    assert Parts(m, p + s, q, k);
  }

  /** The frame every compiled program has: slot 0 on entry, slot 1 just before MATCH, no jump past it. */
  ghost predicate Framed(m: Machine) {
    && WellFormed(m.prog)
    && |m.prog| >= 3 && m.nslots >= 2
    && m.prog[0] == Save(0) && m.prog[|m.prog| - 2] == Save(1)
    && (forall i :: 0 <= i < |m.prog| && m.prog[i].Split? ==> m.prog[i].a < |m.prog| - 1 && m.prog[i].b < |m.prog| - 1)
    && (forall i :: 0 <= i < |m.prog| && m.prog[i].Jump? ==> m.prog[i].target < |m.prog| - 1)
  }

  lemma {:induction false} FrameOpens(m: Machine, p: Path)
    requires Framed(m) && IsPath(m, p) && p[0].pc == 0 && |p| > 1
    ensures Captures(m, p)[0] >= 0
  {
    var q := p[..|p| - 1];
    assert IsPath(m, q);
    if |q| > 1 { FrameOpens(m, q); }
  }

  /** Every match sets both ends of group 0. */
  lemma {:induction false} FrameCloses(m: Machine, p: Path)
    requires Framed(m) && Accepting(m, p) && p[0].pc == 0
    ensures Captures(m, p)[0] >= 0 && Captures(m, p)[1] == Last(p).pos
  {
    assert |p| > 1;
    FrameOpens(m, p);
    assert p[|p| - 1] in Succ(m, p[|p| - 2]);
    assert p[|p| - 2].pc == |m.prog| - 2;
  }

  /** Every SAVE writes inside the slot vector. */
  ghost predicate SlotsFit(prog: seq<Instr>, nslots: nat) {
    forall i :: 0 <= i < |prog| && prog[i].Save? ==> prog[i].slot < nslots
  }

  /** Slot 0 is saved to by the first instruction only, and nothing branches back to it. */
  ghost predicate OneOpening(prog: seq<Instr>) {
    && (forall i :: 0 <= i < |prog| && prog[i].Save? && prog[i].slot == 0 ==> i == 0)
    && (forall i :: 0 <= i < |prog| && prog[i].Split? ==> prog[i].a >= 1 && prog[i].b >= 1)
    && (forall i :: 0 <= i < |prog| && prog[i].Jump? ==> prog[i].target >= 1)
  }

  /** Group 0 starts where the run started. */
  lemma {:induction false} GroupZeroStarts(m: Machine, p: Path)
    requires Framed(m) && OneOpening(m.prog) && IsPath(m, p) && p[0].pc == 0 && |p| > 1
    ensures Last(p).pc != 0 && Captures(m, p)[0] == p[0].pos
    decreases |p|
  {
    var q := p[..|p| - 1];
    assert IsPath(m, q);
    assert p[|p| - 1] in Succ(m, p[|p| - 2]);
    if |q| > 1 { GroupZeroStarts(m, q); }
  }
}
