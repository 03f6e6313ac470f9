/** The one-pass executor as a loop over one pc and one position. */
module OnePassVm {
  import opened Basics
  import opened Machine
  import opened Backtracking
  import opened FirstSet
  import opened OnePassWalk
  import opened HaltingWalk

  /** The branch read off the two first sets of a SPLIT. */
  function Choose(i: Instr, info: SplitInfo, next: Option<Byte>): Option<nat>
    requires i.Split? && info.Info?
  {
    if next.Some? && next.value in info.a.bytes then Some(i.a)
    else if next.Some? && next.value in info.b.bytes then Some(i.b)
    else if info.a.empty then Some(i.a)
    else if info.b.empty then Some(i.b)
    else None
  }

  /** The precomputed tables choose by what the rest of the program can do. */
  lemma {:induction false} ChooseIsSide(prog: seq<Instr>, flags: Flags, table: seq<SplitInfo>, pc: nat, next: Option<Byte>)
    requires WellFormed(prog) && TableOk(prog, flags, table) && pc < |prog| && prog[pc].Split?
    ensures pc < |table| && table[pc].Info? && Choose(prog[pc], table[pc], next) == Side(prog, flags, pc, next)
  {
    hide WellFormed, CanStart, MatchEmpty;
  }

  /** Where the walk goes from here, instruction by instruction. */
  lemma {:induction false} PickCases(m: Machine, c: Config)
    requires WellFormed(m.prog) && NoWordTests(m.prog) && InBounds(m, c)
    ensures
      var i, r := m.prog[c.pc], Pick(m, c);
      if i.Save? then r == Some(Config(c.pc + 1, c.pos))
      else if i.Jump? then r == Some(Config(i.target, c.pos))
      else if i.Split? then
        var s := Side(m.prog, m.flags, c.pc, NextByte(m.text, c.pos));
        r == if s.Some? then Some(Config(s.value, c.pos)) else None
      else if i.Match? then r.None?
      else if Anchor(i) then
        !IsWordTest(i) && r == if AnchorOk(m.flags, i, m.text, c.pos) then Some(Config(c.pc + 1, c.pos)) else None
      else
        Consuming(i) &&
        r == if c.pos < |m.text| && Matches(m.flags, i, m.text[c.pos]) then Some(Config(c.pc + 1, c.pos + 1)) else None
  {
    hide Side;
  }

  lemma {:induction false} HaltGround(m: Machine, start: nat, end: Path)
    requires WellFormed(m.prog) && Halts(m, start, end)
    ensures |m.prog| > 0 && start <= |m.text| && end != [] && Last(end).pc < |m.prog| && IsPath(m, end) && end[0] == Config(0, start)
    ensures PickedFrom(m, start, Root(start)) && Captures(m, Root(start)) == Unset(m.nslots)
  {
  }

  /** Part way through a walk that ends: what is left, and where the next step leads. */
  lemma {:induction false} WalkPart(m: Machine, start: nat, p: Path, end: Path)
    requires WellFormed(m.prog) && PickedFrom(m, start, p) && Halts(m, start, end)
    ensures |p| > 0 && InBounds(m, Last(p)) && |p| <= |end|
    ensures forall j :: 0 <= j < |p| ==> p[j].pc < |m.prog|
    ensures Pick(m, Last(p)).None? ==> p == end
  {
    hide Succ, WellFormed, Pick;
    PrefixOfHalt(m, start, p, end);
    if |p| < |end| { PicksOn(m, end, |p| - 1); }
  }

  /** And one step on from there. */
  lemma {:induction false} WalkStep(m: Machine, start: nat, p: Path, end: Path, d: Config)
    requires WellFormed(m.prog) && PickedFrom(m, start, p) && Halts(m, start, end) && Pick(m, Last(p)) == Some(d)
    ensures var q := p + [d];
      && PickedFrom(m, start, q) && |q| <= |end| && d.pc < |m.prog| && d.pos <= |m.text|
      && Captures(m, q) == Store(m.prog, Last(p), Captures(m, p)) && Last(q) == d
  {
    hide Succ, WellFormed, Pick;
    PickedGrows(m, p, d);
    PrefixOfHalt(m, start, p + [d], end);
  }

  /** vm_exec_onepass, on any program and text where the walk comes to an end; MATCH there is a genuine accepting run. */
  method ExecOnePass(m: Machine, table: seq<SplitInfo>, ghost end: Path, start: nat, matchSaved: array<int>)
    returns (ok: bool)
    requires WellFormed(m.prog) && NoWordTests(m.prog) && TableOk(m.prog, m.flags, table) && SlotsFit(m.prog, m.nslots)
    requires Halts(m, start, end) && matchSaved.Length == m.nslots
    modifies matchSaved
    ensures |end| > 0 && Last(end).pc < |m.prog| && (ok <==> m.prog[Last(end).pc].Match?)
    ensures ok ==> Accepting(m, end) && end[0] == Config(0, start) && matchSaved[..] == Captures(m, end)
  {
    hide WellFormed, TableOk, Choose, Side, Pick, PickedFrom, Halts, Captures, IsPath, Matches, AnchorOk, NoWordTests;
    HaltGround(m, start, end);
    var k := 0;
    while k < matchSaved.Length
      invariant 0 <= k <= matchSaved.Length && forall j :: 0 <= j < k ==> matchSaved[j] == -1
    {
      matchSaved[k] := -1;
      k := k + 1;
    }
    ghost var p := Root(start);
    var pc: nat, pos: nat := 0, start;
    while true
      invariant PickedFrom(m, start, p) && |p| <= |end|
      invariant |p| > 0 && forall j :: 0 <= j < |p| ==> p[j].pc < |m.prog|
      invariant Last(p) == Config(pc, pos) && pc < |m.prog| && pos <= |m.text|
      invariant matchSaved[..] == Captures(m, p)
      decreases |end| - |p|
    {
      var i := m.prog[pc];
      ghost var c := Config(pc, pos);
      PickCases(m, c);
      WalkPart(m, start, p, end);
      if i.Save? {
        matchSaved[i.slot] := pos;
        pc := pc + 1;
      } else if i.Jump? {
        pc := i.target;
      } else if i.Split? {
        ChooseIsSide(m.prog, m.flags, table, pc, NextByte(m.text, pos));
        var chosen := Choose(i, table[pc], NextByte(m.text, pos));
        if chosen.None? {
          return false;
        }
        pc := chosen.value;
      } else if Anchor(i) {
        if !AnchorOk(m.flags, i, m.text, pos) {
          return false;
        }
        pc := pc + 1;
      } else if i.Match? {
        return true;
      } else {
        if pos >= |m.text| || !Matches(m.flags, i, m.text[pos]) {
          return false;
        }
        pc, pos := pc + 1, pos + 1;
      }
      WalkStep(m, start, p, end, Config(pc, pos));
      p := p + [Config(pc, pos)];
    }
  }
}
