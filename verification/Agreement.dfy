/** Exactly which classified programs the one-pass walker may stand in for the Pike VM on. */
module Agreement {
  import opened Basics
  import opened Machine
  import opened Backtracking
  import opened FirstSet
  import opened OnePassWalk
  import opened HaltingWalk

  // ---- leaving without reading ----

  /** Where control can go from pc without reading, with these bytes on both sides. */
  function SilentSucc(prog: seq<Instr>, flags: Flags, pc: nat, prev: Option<Byte>, next: Option<Byte>): (s: seq<nat>)
    requires WellFormed(prog) && pc < |prog|
    ensures forall q :: q in s ==> q < |prog|
  {
    var i := prog[pc];
    if i.Save? then [pc + 1]
    else if i.Jump? then [i.target]
    else if i.Split? then [i.a, i.b]
    else if Anchor(i) && PassesBetween(flags, i, prev, next) then [pc + 1]
    else []
  }

  lemma {:induction false} SuccIsSilent(m: Machine, c: Config, d: Config)
    requires WellFormed(m.prog) && InBounds(m, c) && !Consuming(m.prog[c.pc])
    ensures d in Succ(m, c) <==> d.pos == c.pos && d.pc in SilentSucc(m.prog, m.flags, c.pc, PrevByte(m.text, c.pos), NextByte(m.text, c.pos))
  {
    hide AnchorOk, PassesBetween;
    if Anchor(m.prog[c.pc]) { AnchorBetween(m, c); }
  }

  /** A way through the program that reads nothing, at the position of spot n. */
  ghost predicate Live(prog: seq<Instr>, flags: Flags, n: Spot, e: seq<nat>)
    requires WellFormed(prog)
  {
    && |e| > 0 && (forall i :: 0 <= i < |e| ==> e[i] < |prog|)
    && forall i, j :: 0 <= i < |e| && j == i + 1 < |e| ==> e[j] in SilentSucc(prog, flags, e[i], n.prev, n.next)
  }

  /** MATCH can be reached from y at this spot, without reading and without a pc in seen. */
  ghost predicate FreshExit(prog: seq<Instr>, flags: Flags, n: Spot, seen: set<nat>, y: nat)
    requires WellFormed(prog)
  {
    exists e :: Live(prog, flags, n, e) && e[0] == y && prog[e[|e| - 1]].Match? && forall k :: 0 <= k < |e| ==> e[k] !in seen
  }

  /** The walker gives up at this spot. */
  ghost predicate GivesUp(prog: seq<Instr>, flags: Flags, n: Spot)
    requires WellFormed(prog) && n.pc < |prog|
  {
    Step(prog, flags, n).None? && !prog[n.pc].Match?
  }

  /** On some text the walker gets from n to a spot where it gives up. */
  ghost predicate DeadEnd(prog: seq<Instr>, flags: Flags, n: Spot)
    requires WellFormed(prog)
  {
    exists u: seq<Spot> :: SpotTrace(prog, flags, u) && u[0] == n && GivesUp(prog, flags, u[|u| - 1])
  }

  /** The pcs a trace has been at since it last read. */
  ghost function Passed(prog: seq<Instr>, t: seq<Spot>): set<nat>
    requires forall i :: 0 <= i < |t| ==> t[i].pc < |prog|
  {
    if t == [] then {}
    else
      var n := |t| - 1;
      (if n == 0 || Consuming(prog[t[n - 1].pc]) then {} else Passed(prog, t[..n])) + {t[n].pc}
  }

  /** At this SPLIT the side not taken could not have given the preferred match. */
  ghost predicate SafeSplit(prog: seq<Instr>, flags: Flags, n: Spot, seen: set<nat>)
    requires WellFormed(prog) && n.pc < |prog| && prog[n.pc].Split?
  {
    var x, y := prog[n.pc].a, prog[n.pc].b;
    if n.next.Some? && CanStart(prog, flags, x, n.next.value) then
      FreshExit(prog, flags, n, seen, y) ==> !DeadEnd(prog, flags, Spot(x, n.prev, n.next))
    else if n.next.Some? && CanStart(prog, flags, y, n.next.value) then
      !FreshExit(prog, flags, n, seen, x)
    else
      MatchEmpty(prog, x) && !FreshExit(prog, flags, n, seen, x) ==> !FreshExit(prog, flags, n, seen, y)
  }

  ghost predicate Opens(prog: seq<Instr>, flags: Flags, t: seq<Spot>)
    requires WellFormed(prog)
  {
    SpotTrace(prog, flags, t) && t[0].pc == 0
  }

  /** A check of the program alone, at every SPLIT the walker can come to with what it has passed since it last read. */
  ghost predicate Safe(prog: seq<Instr>, flags: Flags)
    requires WellFormed(prog)
  {
    forall t: seq<Spot> :: Opens(prog, flags, t) && prog[t[|t| - 1].pc].Split? ==>
      SafeSplit(prog, flags, t[|t| - 1], Passed(prog, t))
  }

  // ---- what an accepting run says about its pcs ----

  function PcsFrom(q: Path, i: nat): (e: seq<nat>)
    requires i <= |q|
    ensures |e| == |q| - i && forall k :: 0 <= k < |e| ==> e[k] == q[i + k].pc
    decreases |q| - i
  {
    if i == |q| then [] else [q[i].pc] + PcsFrom(q, i + 1)
  }

  /** From configuration i on nothing is read. */
  ghost predicate Stays(q: Path, i: nat)
    requires i < |q|
  {
    forall k :: i <= k < |q| ==> q[k].pos == q[i].pos
  }

  lemma {:induction false} SilentIsEps(prog: seq<Instr>, flags: Flags, pc: nat, prev: Option<Byte>, next: Option<Byte>, q: nat)
    requires WellFormed(prog) && pc < |prog| && !IsWordTest(prog[pc]) && q in SilentSucc(prog, flags, pc, prev, next)
    ensures q in EpsSucc(prog, pc)
  {
  }

  lemma {:induction false} LiveFirst(prog: seq<Instr>, flags: Flags, n: Spot, pc: nat, e: seq<nat>)
    requires WellFormed(prog) && pc < |prog| && Live(prog, flags, n, e) && e[0] in SilentSucc(prog, flags, pc, n.prev, n.next)
    ensures Live(prog, flags, n, [pc] + e)
  {
    hide SilentSucc, WellFormed;
    var r := [pc] + e;
    forall i, j | 0 <= i < |r| && j == i + 1 < |r| ensures r[j] in SilentSucc(prog, flags, r[i], n.prev, n.next) {
      if i > 0 { assert e[j - 1] in SilentSucc(prog, flags, e[i - 1], n.prev, n.next); }
    }
  }

  /** An accepting run reads the next byte from here, or goes to MATCH here without reading. */
  lemma {:induction false} AcceptingGoesOn(m: Machine, q: Path, i: nat)
    requires WellFormed(m.prog) && NoWordTests(m.prog) && Accepting(m, q) && i < |q|
    ensures InBounds(m, q[i])
    ensures
      || (q[i].pos < |m.text| && CanStart(m.prog, m.flags, q[i].pc, m.text[q[i].pos]))
      || (Stays(q, i) && Live(m.prog, m.flags, SpotAt(m, q[i]), PcsFrom(q, i)))
    decreases |q| - i
  {
    hide WellFormed, Succ, SilentSucc, CanStart, Matches, Live;
    if i == |q| - 1 {
      LiveHere(m.prog, m.flags, SpotAt(m, q[i]), q[i].pc);
      assert PcsFrom(q, i) == [q[i].pc];
    } else {
      var c, d := q[i], q[i + 1];
      assert d in Succ(m, c);
      AcceptingGoesOn(m, q, i + 1);
      if Consuming(m.prog[c.pc]) {
        StartsHere(m, c, d);
      } else {
        SuccIsSilent(m, c, d);
        SilentIsEps(m.prog, m.flags, c.pc, PrevByte(m.text, c.pos), NextByte(m.text, c.pos), d.pc);
        if Stays(q, i + 1) && Live(m.prog, m.flags, SpotAt(m, d), PcsFrom(q, i + 1)) {
          LiveSame(m.prog, m.flags, SpotAt(m, d), SpotAt(m, c), PcsFrom(q, i + 1));
          LiveFirst(m.prog, m.flags, SpotAt(m, c), c.pc, PcsFrom(q, i + 1));
          assert PcsFrom(q, i) == [c.pc] + PcsFrom(q, i + 1);
        } else {
          StartFirst(m.prog, m.flags, c.pc, d.pc, m.text[d.pos]);
        }
      }
    }
  }

  lemma {:induction false} LiveHere(prog: seq<Instr>, flags: Flags, n: Spot, pc: nat)
    requires WellFormed(prog) && pc < |prog|
    ensures Live(prog, flags, n, [pc])
  {
  }

  lemma {:induction false} LiveSame(prog: seq<Instr>, flags: Flags, n: Spot, d: Spot, e: seq<nat>)
    requires WellFormed(prog) && Live(prog, flags, n, e) && n.prev == d.prev && n.next == d.next
    ensures Live(prog, flags, d, e)
  {
  }

  lemma {:induction false} StartsHere(m: Machine, c: Config, d: Config)
    requires WellFormed(m.prog) && InBounds(m, c) && Consuming(m.prog[c.pc]) && d in Succ(m, c)
    ensures c.pos < |m.text| && CanStart(m.prog, m.flags, c.pc, m.text[c.pos])
  {
    hide Matches;
    ReachHere(m.prog, c.pc);
  }

  lemma {:induction false} StartFirst(prog: seq<Instr>, flags: Flags, pc: nat, d: nat, b: Byte)
    requires WellFormed(prog) && pc < |prog| && d in EpsSucc(prog, pc) && CanStart(prog, flags, d, b)
    ensures CanStart(prog, flags, pc, b)
  {
    hide Matches, EpsReach, EpsSucc, WellFormed;
    var w: nat :| w < |prog| && EpsReach(prog, d, w) && Consuming(prog[w]) && Matches(flags, prog[w], b);
    ReachFirst(prog, pc, d, w);
  }

  /** Leaving without reading means MATCH is in reach. */
  lemma {:induction false} ExitIsEmpty(prog: seq<Instr>, flags: Flags, n: Spot, seen: set<nat>, y: nat)
    requires WellFormed(prog) && NoWordTests(prog) && FreshExit(prog, flags, n, seen, y)
    ensures y < |prog| && MatchEmpty(prog, y)
  {
    hide SilentSucc;
    var e :| Live(prog, flags, n, e) && e[0] == y && prog[e[|e| - 1]].Match? && forall k :: 0 <= k < |e| ==> e[k] !in seen;
    forall i, j | 0 <= i < |e| && j == i + 1 < |e| ensures e[j] in EpsSucc(prog, e[i]) {
      SilentIsEps(prog, flags, e[i], n.prev, n.next, e[j]);
    }
    assert EpsPath(prog, e);
  }

  /** The pcs a walk has been at since it last read are those of its configurations at this position. */
  lemma {:induction false} PassedPath(m: Machine, p: Path, t: seq<Spot>, pc: nat)
    requires WellFormed(m.prog) && Picked(m, p) && |t| == |p| && forall i :: 0 <= i < |p| ==> SpotAt(m, p[i]) == t[i]
    ensures forall i :: 0 <= i < |t| ==> t[i].pc < |m.prog|
    ensures pc in Passed(m.prog, t) <==> Config(pc, Last(p).pos) in p
    decreases |p|
  {
    hide Succ, Pick, WellFormed;
    var n := |p| - 1;
    if n > 0 {
      var q := p[..n];
      assert IsPath(m, q) && Picked(m, q) by { SubPath(m, p, 0, n); assert p[0..n] == q; }
      PassedPath(m, q, t[..n], pc);
      assert Pick(m, p[n - 1]) == Some(p[n]);
      SpotMoves(m, p[n - 1], p[n]);
      assert p == q + [p[n]] && t[..n][n - 1] == t[n - 1];
      if Consuming(m.prog[p[n - 1].pc]) {
        forall i | 0 <= i < n ensures p[i].pos < p[n].pos { PositionsRise(m, p, i, n - 1); }
      }
    }
  }

  // ---- safe programs: the walk is the first match ----

  /** What backtracking makes of one branch, never entering a configuration twice. */
  ghost function Try(m: Machine, p: Path, d: Config): (r: Option<Path>)
    requires WellFormed(m.prog) && CanExtend(m, p) && d in Succ(m, Last(p))
    ensures r.Some? ==> p + [d] <= r.value && Accepting(m, r.value) && Simple(r.value)
  {
    if d in p then None else Grow(m, p, d); Backtrack(m, p + [d])
  }

  lemma {:induction false} BacktrackTries(m: Machine, p: Path)
    requires WellFormed(m.prog) && CanExtend(m, p)
    ensures m.prog[Last(p).pc].Match? ==> Backtrack(m, p) == Some(p)
    ensures
      var s := Succ(m, Last(p));
      !m.prog[Last(p).pc].Match? ==>
        Backtrack(m, p) ==
        if |s| > 0 && Try(m, p, s[0]).Some? then Try(m, p, s[0]) else if |s| > 1 then Try(m, p, s[1]) else None
  {
    hide Succ, WellFormed, IsPath, Simple;
  }

  ghost predicate Spotted(m: Machine, p: Path, t: seq<Spot>) {
    |t| == |p| && forall i :: 0 <= i < |p| ==> t[i] == SpotAt(m, p[i])
  }

  /** The side the walker does not take cannot accept when it matters. */
  lemma {:induction false} OtherSideFails(m: Machine, p: Path, t: seq<Spot>, y: nat)
    requires WellFormed(m.prog) && NoWordTests(m.prog) && Picked(m, p) && CanExtend(m, p) && Spotted(m, p, t)
    requires m.prog[Last(p).pc].Split? && (y == m.prog[Last(p).pc].a || y == m.prog[Last(p).pc].b)
    requires Last(p).pos < |m.text| ==> !CanStart(m.prog, m.flags, y, m.text[Last(p).pos])
    requires forall i :: 0 <= i < |t| ==> t[i].pc < |m.prog|
    requires !FreshExit(m.prog, m.flags, t[|t| - 1], Passed(m.prog, t), y)
    ensures Config(y, Last(p).pos) in Succ(m, Last(p)) && Try(m, p, Config(y, Last(p).pos)).None?
  {
    var d := Config(y, Last(p).pos);
    hide CanStart, FreshExit, Pick, Passed;
    assert d in Succ(m, Last(p));
    var r := Try(m, p, d);
    if r.Some? { TriedGoesOn(m, p, t, d, r.value); }
  }

  /** An accepting run through a branch of the SPLIT reads the next byte or leaves afresh. */
  lemma {:induction false} TriedGoesOn(m: Machine, p: Path, t: seq<Spot>, d: Config, q: Path)
    requires WellFormed(m.prog) && NoWordTests(m.prog) && Picked(m, p) && Spotted(m, p, t) && d.pos == Last(p).pos
    requires p + [d] <= q && Accepting(m, q) && Simple(q)
    ensures forall i :: 0 <= i < |t| ==> t[i].pc < |m.prog|
    ensures
      || (d.pos < |m.text| && CanStart(m.prog, m.flags, d.pc, m.text[d.pos]))
      || FreshExit(m.prog, m.flags, t[|t| - 1], Passed(m.prog, t), d.pc)
  {
    hide WellFormed, Succ, SilentSucc, CanStart, Pick, Live, Passed;
    var n := |p|;
    assert q[n] == (p + [d])[n] == d && q[n - 1] == (p + [d])[n - 1] == p[n - 1];
    AcceptingGoesOn(m, q, n);
    PassedPath(m, p, t, 0);
    if Stays(q, n) && Live(m.prog, m.flags, SpotAt(m, q[n]), PcsFrom(q, n)) {
      var e := PcsFrom(q, n);
      LiveSame(m.prog, m.flags, SpotAt(m, d), t[n - 1], e);
      forall k | 0 <= k < |e| ensures e[k] !in Passed(m.prog, t) {
        PassedPath(m, p, t, e[k]);
        if Config(e[k], Last(p).pos) in p { SeenTwice(p, q, n + k); }
      }
    }
  }

  lemma {:induction false} SeenTwice(p: Path, q: Path, j: nat)
    requires p <= q && |p| <= j < |q| && q[j] in p
    ensures !Simple(q)
  {
    var i :| 0 <= i < |p| && p[i] == q[j];
    assert q[i] == q[j];
  }

  /** A walk that fails from some configuration on is a dead end of the program. */
  lemma {:induction false} FailsFrom(m: Machine, start: nat, end: Path, n: nat)
    requires WellFormed(m.prog) && Halts(m, start, end) && n < |end| && !m.prog[Last(end).pc].Match?
    ensures DeadEnd(m.prog, m.flags, SpotAt(m, end[n]))
  {
    hide WellFormed, Pick, Succ, Follows, Step;
    var t := WalkSpots(m, end);
    var u := t[n..];
    assert SpotTrace(m.prog, m.flags, u);
    assert u[|u| - 1] == SpotAt(m, Last(end));
    PickIsStep(m, Last(end));
  }

  /** How the two branches of the SPLIT at the end of p stand, seen from its trace. */
  ghost predicate AtSplit(m: Machine, p: Path, t: seq<Spot>)
    requires WellFormed(m.prog)
  {
    && Picked(m, p) && CanExtend(m, p) && Spotted(m, p, t) && Opens(m.prog, m.flags, t)
    && m.prog[Last(p).pc].Split? && NoWordTests(m.prog) && CleanSplit(m.prog, m.flags, Last(p).pc)
    && SafeSplit(m.prog, m.flags, t[|t| - 1], Passed(m.prog, t))
  }

  lemma {:induction false} SplitTries(m: Machine, p: Path)
    requires WellFormed(m.prog) && CanExtend(m, p) && m.prog[Last(p).pc].Split?
    ensures
      var c := Last(p);
      var da, db := Config(m.prog[c.pc].a, c.pos), Config(m.prog[c.pc].b, c.pos);
      && da in Succ(m, c) && db in Succ(m, c)
      && Backtrack(m, p) == if Try(m, p, da).Some? then Try(m, p, da) else Try(m, p, db)
  {
    hide WellFormed, IsPath, Simple;
    BacktrackTries(m, p);
  }

  lemma {:induction false} PickIsSide(m: Machine, c: Config)
    requires WellFormed(m.prog) && InBounds(m, c) && m.prog[c.pc].Split?
    ensures
      var s := Side(m.prog, m.flags, c.pc, NextByte(m.text, c.pos));
      Pick(m, c) == if s.Some? then Some(Config(s.value, c.pos)) else None
  {
    hide Side;
  }

  /** At a SPLIT where the walker gives up, backtracking fails. */
  lemma {:induction false} NoSideFails(m: Machine, p: Path, t: seq<Spot>)
    requires WellFormed(m.prog) && AtSplit(m, p, t) && Pick(m, Last(p)).None?
    ensures Backtrack(m, p).None?
  {
    var c := Last(p);
    var a, b := m.prog[c.pc].a, m.prog[c.pc].b;
    SplitTries(m, p);
    PickIsSide(m, c);
    assert forall i :: 0 <= i < |t| ==> t[i].pc < |m.prog|;
    assert t[|t| - 1] == SpotAt(m, c);
    hide WellFormed, Pick, Succ, CanStart, MatchEmpty, FreshExit, CleanSplit, SafeSplit, Passed, Simple, IsPath, Try, Backtrack, SpotTrace;
    NoExits(m, p, t, a);
    NoExits(m, p, t, b);
    OtherSideFails(m, p, t, a);
    OtherSideFails(m, p, t, b);
  }

  lemma {:induction false} NoExits(m: Machine, p: Path, t: seq<Spot>, y: nat)
    requires WellFormed(m.prog) && AtSplit(m, p, t) && y < |m.prog| && !MatchEmpty(m.prog, y)
    ensures |t| > 0 && forall i :: 0 <= i < |t| ==> t[i].pc < |m.prog|
    ensures !FreshExit(m.prog, m.flags, t[|t| - 1], Passed(m.prog, t), y)
  {
    hide WellFormed, Pick, Succ, CanStart, MatchEmpty, FreshExit, CleanSplit, SafeSplit, Passed, Simple, Follows;
    if FreshExit(m.prog, m.flags, t[|t| - 1], Passed(m.prog, t), y) {
      ExitIsEmpty(m.prog, m.flags, t[|t| - 1], Passed(m.prog, t), y);
    }
  }

  lemma {:induction false} FreshTried(m: Machine, p: Path, d: Config)
    requires WellFormed(m.prog) && CanExtend(m, p) && d in Succ(m, Last(p)) && d !in p
    ensures CanExtend(m, p + [d]) && Try(m, p, d) == Backtrack(m, p + [d])
  {
    hide Succ, WellFormed, IsPath, Simple;
    Grow(m, p, d);
  }

  /** At a SPLIT where it goes on, backtracking gives what the walk gives. */
  lemma {:induction false} SideDecides(m: Machine, p: Path, t: seq<Spot>, d: Config, r: Option<Path>)
    requires WellFormed(m.prog) && AtSplit(m, p, t) && Pick(m, Last(p)) == Some(d) && d in Succ(m, Last(p))
    requires Try(m, p, d) == r && (r.None? ==> DeadEnd(m.prog, m.flags, SpotAt(m, d)))
    ensures Backtrack(m, p) == r
  {
    var c := Last(p);
    var a, b := m.prog[c.pc].a, m.prog[c.pc].b;
    SplitTries(m, p);
    PickIsSide(m, c);
    assert (forall i :: 0 <= i < |t| ==> t[i].pc < |m.prog|) && t[|t| - 1] == SpotAt(m, c);
    assert NextByte(m.text, c.pos).Some? ==> !(CanStart(m.prog, m.flags, a, m.text[c.pos]) && CanStart(m.prog, m.flags, b, m.text[c.pos]));
    assert a < |m.prog| && b < |m.prog|;
    hide WellFormed, Pick, Succ, CanStart, MatchEmpty, FreshExit, CleanSplit, Passed, Simple, IsPath, Try, Backtrack, SpotTrace, DeadEnd;
    if c.pos < |m.text| && CanStart(m.prog, m.flags, a, m.text[c.pos]) {
      if r.None? { OtherSideFails(m, p, t, b); }
    } else if c.pos < |m.text| && CanStart(m.prog, m.flags, b, m.text[c.pos]) {
      OtherSideFails(m, p, t, a);
    } else if MatchEmpty(m.prog, a) {
      if !FreshExit(m.prog, m.flags, t[|t| - 1], Passed(m.prog, t), a) {
        OtherSideFails(m, p, t, a);
        OtherSideFails(m, p, t, b);
      } else {
        ExitTried(m, p, t, a);
      }
    } else {
      NoExits(m, p, t, a);
      OtherSideFails(m, p, t, a);
    }
  }

  // ---- an exit is a way to accept ----

  /** The configurations of a silent way at one position. */
  function Standing(e: seq<nat>, pos: nat): (q: Path)
    ensures |q| == |e| && forall k :: 0 <= k < |q| ==> q[k] == Config(e[k], pos)
  {
    if e == [] then [] else [Config(e[0], pos)] + Standing(e[1..], pos)
  }

  ghost predicate Distinct(e: seq<nat>) {
    forall i, j :: 0 <= i < j < |e| ==> e[i] != e[j]
  }

  lemma {:induction false} CutOnce(prog: seq<Instr>, flags: Flags, n: Spot, e: seq<nat>, i: nat, j: nat)
    requires WellFormed(prog) && Live(prog, flags, n, e) && i < j < |e| && e[i] == e[j]
    ensures var r := e[..i] + e[j..];
      Live(prog, flags, n, r) && |r| < |e| && r[0] == e[0] && r[|r| - 1] == e[|e| - 1] && forall k :: 0 <= k < |r| ==> r[k] in e
  {
    hide SilentSucc, WellFormed;
    var r := e[..i] + e[j..];
    forall x, y | 0 <= x < |r| && y == x + 1 < |r| ensures r[y] in SilentSucc(prog, flags, r[x], n.prev, n.next) {
      if y < i {
        assert r[y] == e[y] && r[x] == e[x];
      } else if y == i {
        assert r[y] == e[j] == e[i] && r[x] == e[i - 1];
      } else {
        assert r[y] == e[y - i + j] && r[x] == e[x - i + j];
      }
    }
  }

  /** Cutting the loops out of a silent way. */
  lemma {:induction false} CutSilent(prog: seq<Instr>, flags: Flags, n: Spot, e: seq<nat>) returns (d: seq<nat>)
    requires WellFormed(prog) && Live(prog, flags, n, e)
    ensures Live(prog, flags, n, d) && |d| > 0 && Distinct(d) && |e| > 0 && d[0] == e[0] && d[|d| - 1] == e[|e| - 1]
    ensures forall k :: 0 <= k < |d| ==> d[k] in e
    decreases |e|
  {
    if Distinct(e) { return e; }
    var i, j :| 0 <= i < j < |e| && e[i] == e[j];
    hide SilentSucc, WellFormed, Distinct;
    CutOnce(prog, flags, n, e, i, j);
    hide Live;
    d := CutSilent(prog, flags, n, e[..i] + e[j..]);
  }

  /** From a branch of the SPLIT at the end of p a live way to MATCH makes an accepting run, and a simple one if it is fresh. */
  lemma {:induction false} ExitAccepts(m: Machine, p: Path, e: seq<nat>)
    requires WellFormed(m.prog) && IsPath(m, p) && m.prog[Last(p).pc].Split?
    requires Live(m.prog, m.flags, SpotAt(m, Last(p)), e) && m.prog[e[|e| - 1]].Match?
    requires e[0] == m.prog[Last(p).pc].a || e[0] == m.prog[Last(p).pc].b
    ensures var q := p + Standing(e, Last(p).pos); Accepting(m, q) && q[0] == p[0]
  {
    hide WellFormed, SilentSucc, Succ;
    var c := Last(p);
    var s := Standing(e, c.pos);
    var q := p + s;
    SplitSucc(m, c);
    forall i, j | 0 <= i < |q| && j == i + 1 < |q| ensures q[j] in Succ(m, q[i]) {
      if i >= |p| {
        var k := i - |p|;
        assert q[i] == s[k] && q[j] == s[k + 1];
        LiveStep(m, c, e, k);
      } else if i == |p| - 1 {
        assert q[j] == s[0];
      }
    }
  }

  lemma {:induction false} SplitSucc(m: Machine, c: Config)
    requires WellFormed(m.prog) && InBounds(m, c) && m.prog[c.pc].Split?
    ensures Config(m.prog[c.pc].a, c.pos) in Succ(m, c) && Config(m.prog[c.pc].b, c.pos) in Succ(m, c)
  {
  }

  lemma {:induction false} LiveStep(m: Machine, c: Config, e: seq<nat>, k: nat)
    requires WellFormed(m.prog) && InBounds(m, c) && Live(m.prog, m.flags, SpotAt(m, c), e) && k + 1 < |e|
    ensures Config(e[k + 1], c.pos) in Succ(m, Config(e[k], c.pos))
  {
    var d := Config(e[k], c.pos);
    assert e[k + 1] in SilentSucc(m.prog, m.flags, e[k], SpotAt(m, c).prev, SpotAt(m, c).next);
    SilentReads(m.prog, m.flags, e[k], SpotAt(m, c).prev, SpotAt(m, c).next);
    hide SilentSucc, WellFormed;
    SuccIsSilent(m, d, Config(e[k + 1], c.pos));
  }

  lemma {:induction false} SilentReads(prog: seq<Instr>, flags: Flags, pc: nat, prev: Option<Byte>, next: Option<Byte>)
    requires WellFormed(prog) && pc < |prog|
    ensures SilentSucc(prog, flags, pc, prev, next) != [] ==> !Consuming(prog[pc])
  {
  }

  lemma {:induction false} ExitIsSimple(p: Path, e: seq<nat>, pos: nat)
    requires Simple(p) && Distinct(e) && forall k :: 0 <= k < |e| ==> Config(e[k], pos) !in p
    ensures Simple(p + Standing(e, pos))
  {
    var q := p + Standing(e, pos);
    forall i, j | 0 <= i < j < |q| ensures q[i] != q[j] {
      if i < |p| <= j { assert q[j] == Config(e[j - |p|], pos) && q[i] in p; }
      else if |p| <= i { assert q[i] == Config(e[i - |p|], pos) && q[j] == Config(e[j - |p|], pos); }
    }
  }

  /** A fresh exit of a branch is a simple accepting run through it. */
  lemma {:induction false} FreshAccepts(m: Machine, p: Path, t: seq<Spot>, y: nat) returns (q: Path)
    requires WellFormed(m.prog) && Picked(m, p) && Simple(p) && Spotted(m, p, t) && m.prog[Last(p).pc].Split?
    requires y == m.prog[Last(p).pc].a || y == m.prog[Last(p).pc].b
    requires forall i :: 0 <= i < |t| ==> t[i].pc < |m.prog|
    requires FreshExit(m.prog, m.flags, t[|t| - 1], Passed(m.prog, t), y)
    ensures Accepting(m, q) && Simple(q) && p + [Config(y, Last(p).pos)] <= q && q[0] == p[0]
  {
    var c := Last(p);
    assert t[|t| - 1] == SpotAt(m, c);
    var e :| Live(m.prog, m.flags, SpotAt(m, c), e) && e[0] == y && m.prog[e[|e| - 1]].Match?
      && forall k :: 0 <= k < |e| ==> e[k] !in Passed(m.prog, t);
    hide WellFormed, Pick, Succ, SilentSucc, Passed;
    var d := CutSilent(m.prog, m.flags, SpotAt(m, c), e);
    forall k | 0 <= k < |d| ensures Config(d[k], c.pos) !in p {
      PassedPath(m, p, t, d[k]);
    }
    ExitIsSimple(p, d, c.pos);
    ExitAccepts(m, p, d);
    q := p + Standing(d, c.pos);
    assert q[..|p|] == p && q[|p|] == Config(y, c.pos);
    assert q[..|p| + 1] == p + [Config(y, c.pos)];
  }

  lemma {:induction false} ExitTried(m: Machine, p: Path, t: seq<Spot>, y: nat)
    requires WellFormed(m.prog) && AtSplit(m, p, t) && (y == m.prog[Last(p).pc].a || y == m.prog[Last(p).pc].b)
    requires forall i :: 0 <= i < |t| ==> t[i].pc < |m.prog|
    requires FreshExit(m.prog, m.flags, t[|t| - 1], Passed(m.prog, t), y)
    ensures Config(y, Last(p).pos) in Succ(m, Last(p)) && Try(m, p, Config(y, Last(p).pos)).Some?
  {
    SplitSucc(m, Last(p));
    var d := Config(y, Last(p).pos);
    hide WellFormed, Pick, Succ, CanStart, FreshExit, CleanSplit, SafeSplit, Passed, SpotTrace, Try;
    var q := FreshAccepts(m, p, t, y);
    NotTwice(p, d, q);
    FreshTried(m, p, d);
    BacktrackIsFirst(m, p + [d], q);
  }

  lemma {:induction false} NotTwice(p: Path, d: Config, q: Path)
    requires p + [d] <= q && Simple(q)
    ensures d !in p
  {
    assert q[|p|] == (p + [d])[|p|] == d;
    forall i | 0 <= i < |p| ensures p[i] != d { assert q[i] == (p + [d])[i] == p[i] && q[i] != q[|p|]; }
  }

  // ---- agreement ----

  ghost predicate Classified(m: Machine) {
    WellFormed(m.prog) && OnePass(m.prog, m.flags)
  }

  lemma {:induction false} WalkIsBacktrack(m: Machine, start: nat, p: Path, end: Path)
    requires Classified(m) && Safe(m.prog, m.flags)
    requires PickedFrom(m, start, p) && Halts(m, start, end)
    ensures CanExtend(m, p) && |end| > 0 && Last(end).pc < |m.prog|
    ensures Backtrack(m, p) == if m.prog[Last(end).pc].Match? then Some(end) else None
    decreases |end| - |p|
  {
    hide WellFormed, Safe, OnePass, Pick, Succ, Simple, Backtrack;
    PrefixOfHalt(m, start, p, end);
    HaltedIsSimple(m, start, end);
    PrefixIsSimple(p, end);
    BacktrackTries(m, p);
    var c := Last(p);
    if |p| == |end| {
      assert p == end;
      WalkHere(m, start, p);
    } else {
      PicksOn(m, end, |p| - 1);
      var d := Pick(m, c).value;
      PickIsNext(m, c);
      PickedGrows(m, p, d);
      WalkIsBacktrack(m, start, p + [d], end);
      PrefixOfHalt(m, start, p + [d], end);
      PrefixIsSimple(p + [d], end);
      NotTwice(p, d, p + [d]);
      FreshTried(m, p, d);
      assert end[|p|] == (p + [d])[|p|] == d;
      if m.prog[Last(end).pc].Match? {} else { FailsFrom(m, start, end, |p|); }
      WalkGoes(m, start, p, d, if m.prog[Last(end).pc].Match? then Some(end) else None);
    }
  }

  lemma {:induction false} PrefixIsSimple(p: Path, q: Path)
    requires p <= q && Simple(q)
    ensures Simple(p)
  {
  }

  /** The trace of a walk that stands at a SPLIT. */
  lemma {:induction false} SplitTrace(m: Machine, start: nat, p: Path) returns (t: seq<Spot>)
    requires Classified(m) && Safe(m.prog, m.flags)
    requires PickedFrom(m, start, p) && CanExtend(m, p) && m.prog[Last(p).pc].Split?
    ensures AtSplit(m, p, t)
  {
    hide WellFormed, Pick, Succ, Simple, CleanSplit, SafeSplit, Passed, Follows;
    t := WalkSpots(m, p);
    assert t[0].pc == 0 && t[|t| - 1] == SpotAt(m, Last(p));
    assert Opens(m.prog, m.flags, t);
  }

  /** Where the walk ends, backtracking ends too. */
  lemma {:induction false} WalkHere(m: Machine, start: nat, p: Path)
    requires Classified(m) && Safe(m.prog, m.flags) && Halts(m, start, p) && CanExtend(m, p)
    ensures |p| > 0 && Last(p).pc < |m.prog|
    ensures Backtrack(m, p) == if m.prog[Last(p).pc].Match? then Some(p) else None
  {
    hide WellFormed, Safe, OnePass, Succ, Simple, Backtrack, Side;
    BacktrackTries(m, p);
    var c := Last(p);
    if m.prog[c.pc].Split? {
      hide Pick;
      var t := SplitTrace(m, start, p);
      NoSideFails(m, p, t);
    }
  }

  /** Where it goes on, backtracking gives what comes of going on. */
  lemma {:induction false} WalkGoes(m: Machine, start: nat, p: Path, d: Config, r: Option<Path>)
    requires Classified(m) && Safe(m.prog, m.flags) && PickedFrom(m, start, p) && CanExtend(m, p)
    requires Pick(m, Last(p)) == Some(d) && d in Succ(m, Last(p)) && Try(m, p, d) == r
    requires r.None? ==> DeadEnd(m.prog, m.flags, SpotAt(m, d))
    ensures Backtrack(m, p) == r
  {
    hide WellFormed, Safe, OnePass, Simple, Backtrack, DeadEnd, Try;
    BacktrackTries(m, p);
    if m.prog[Last(p).pc].Split? {
      hide Succ, Pick;
      var t := SplitTrace(m, start, p);
      SideDecides(m, p, t, d, r);
    } else {
      hide IsPath;
      OnlyOne(m, Last(p), d);
    }
  }

  lemma {:induction false} OnlyOne(m: Machine, c: Config, d: Config)
    requires WellFormed(m.prog) && InBounds(m, c) && !m.prog[c.pc].Split? && Pick(m, c) == Some(d)
    ensures Succ(m, c) == [d] && !m.prog[c.pc].Match?
  {
  }

  /** A safe program's walk, where it ends, is the first match. */
  lemma {:induction false} SafeAgrees(m: Machine, start: nat)
    requires Classified(m) && Safe(m.prog, m.flags) && start <= |m.text| && Ends(m, start)
    ensures WalkTo(m, start) == FirstMatch(m, start)
  {
    hide Safe, OnePass, WellFormed, Backtrack, WalkTo;
    var end :| Halts(m, start, end);
    hide Halts;
    StartsPicked(m, start);
    WalkIsBacktrack(m, start, Root(start), end);
    WalkToIs(m, start, end);
  }

  // ---- unsafe programs: a text on which the walk is not the first match ----

  lemma {:induction false} TraceGoesOn(prog: seq<Instr>, flags: Flags, t: seq<Spot>, u: seq<Spot>)
    requires WellFormed(prog) && SpotTrace(prog, flags, t) && SpotTrace(prog, flags, u) && Follows(prog, flags, t[|t| - 1], u[0])
    ensures SpotTrace(prog, flags, t + u)
  {
    hide Follows, WellFormed;
    var r := t + u;
    forall i, j | 0 <= i < |r| && j == i + 1 < |r| ensures Follows(prog, flags, r[i], r[j]) {
      if j < |t| { assert r[i] == t[i] && r[j] == t[j]; }
      else if i >= |t| { assert r[i] == u[i - |t|] && r[j] == u[j - |t|]; }
    }
  }

  lemma {:induction false} RealizedPart(m: Machine, p: Path, t: seq<Spot>, n: nat)
    requires WellFormed(m.prog) && Realizes(m, p, t) && 0 < n <= |p|
    ensures Picked(m, p[..n]) && Spotted(m, p[..n], t[..n])
  {
    hide Pick, WellFormed, Succ;
    SubPath(m, p, 0, n);
    assert p[0..n] == p[..n];
  }

  lemma {:induction false} RealizedAll(m: Machine, p: Path, t: seq<Spot>)
    requires WellFormed(m.prog) && Realizes(m, p, t)
    ensures |p| > 0 && p[0].pos <= |m.text| && PickedFrom(m, p[0].pos, [p[0]]) == (p[0].pc == 0)
    ensures Picked(m, p) && Spotted(m, p, t) && (p[0].pc == 0 ==> PickedFrom(m, p[0].pos, p)) && |t| == |p| && t[0].pc == p[0].pc
    ensures t[|t| - 1] == SpotAt(m, Last(p)) && InBounds(m, Last(p))
  {
    hide Pick, WellFormed, Succ;
  }

  lemma {:induction false} GivesUpHalts(m: Machine, start: nat, p: Path)
    requires WellFormed(m.prog) && PickedFrom(m, start, p) && InBounds(m, Last(p)) && GivesUp(m.prog, m.flags, SpotAt(m, Last(p)))
    ensures Halts(m, start, p) && WalkTo(m, start).None?
  {
    hide WellFormed, Pick, Succ, Step, WalkTo;
    PickIsStep(m, Last(p));
    WalkToIs(m, start, p);
  }

  lemma {:induction false} AcceptsSome(m: Machine, start: nat, q: Path)
    requires WellFormed(m.prog) && start <= |m.text| && Accepting(m, q) && q[0] == Config(0, start)
    ensures FirstMatch(m, start).Some? && (Simple(q) ==> !Before(m, q, FirstMatch(m, start).value))
  {
    hide WellFormed, Accepting, Simple, Before, FirstMatch;
    FirstMatchSpec(m, start, q);
  }

  /** Case one: committed to a by the byte, and then stuck, where b could stop. */
  lemma {:induction false} StuckDisagrees(prog: seq<Instr>, flags: Flags, nslots: nat, t: seq<Spot>) returns (text: seq<Byte>, start: nat)
    requires WellFormed(prog) && Opens(prog, flags, t) && prog[t[|t| - 1].pc].Split?
    requires
      var n := t[|t| - 1];
      && n.next.Some? && CanStart(prog, flags, prog[n.pc].a, n.next.value)
      && DeadEnd(prog, flags, Spot(prog[n.pc].a, n.prev, n.next))
      && FreshExit(prog, flags, n, Passed(prog, t), prog[n.pc].b)
    ensures start <= |text| && WalkTo(Machine(prog, flags, nslots, text), start) != FirstMatch(Machine(prog, flags, nslots, text), start)
  {
    var n := t[|t| - 1];
    var u: seq<Spot> :| SpotTrace(prog, flags, u) && u[0] == Spot(prog[n.pc].a, n.prev, n.next) && GivesUp(prog, flags, u[|u| - 1]);
    assert Follows(prog, flags, n, u[0]);
    hide WellFormed, Follows, GivesUp, CanStart, FreshExit, Passed, DeadEnd, Realizes, WalkTo, FirstMatch;
    TraceGoesOn(prog, flags, t, u);
    var p;
    text, p := Realized(prog, flags, nslots, t + u);
    var m := Machine(prog, flags, nslots, text);
    RealizedAll(m, p, t + u);
    start := p[0].pos;
    assert (t + u)[|t + u| - 1] == u[|u| - 1] && (t + u)[0] == t[0];
    GivesUpHalts(m, start, p);
    HaltedIsSimple(m, start, p);
    RealizedPart(m, p, t + u, |t|);
    assert (t + u)[..|t|] == t;
    PrefixIsSimple(p[..|t|], p);
    LastSpot(m, p[..|t|], t);
    var q := FreshAccepts(m, p[..|t|], t, prog[n.pc].b);
    AcceptsSome(m, start, q);
  }

  lemma {:induction false} LastSpot(m: Machine, p: Path, t: seq<Spot>)
    requires Spotted(m, p, t) && |p| > 0
    ensures t[|t| - 1].pc == Last(p).pc && t[|t| - 1] == SpotAt(m, Last(p)) && t[0].pc == p[0].pc
  {
  }

  /** Where the walk goes on from a SPLIT in the middle. */
  lemma {:induction false} WalkPasses(m: Machine, start: nat, p: Path, w: Path, y: nat)
    requires WellFormed(m.prog) && PickedFrom(m, start, p) && Halts(m, start, w) && m.prog[Last(p).pc].Split?
    requires Side(m.prog, m.flags, Last(p).pc, NextByte(m.text, Last(p).pos)) == Some(y)
    ensures p + [Config(y, Last(p).pos)] <= w && Simple(w)
  {
    hide WellFormed, Pick, Succ, Side;
    PickIsSide(m, Last(p));
    PickedGrows(m, p, Config(y, Last(p).pos));
    PrefixOfHalt(m, start, p + [Config(y, Last(p).pos)], w);
    HaltedIsSimple(m, start, w);
  }

  lemma {:induction false} SidesPart(m: Machine, p: Path, q: Path, w: Path)
    requires WellFormed(m.prog) && IsPath(m, p) && m.prog[Last(p).pc].Split?
    requires m.prog[Last(p).pc].a != m.prog[Last(p).pc].b
    requires p + [Config(m.prog[Last(p).pc].a, Last(p).pos)] <= q
    requires p + [Config(m.prog[Last(p).pc].b, Last(p).pos)] <= w
    ensures Before(m, q, w)
  {
    var x, y := Config(m.prog[Last(p).pc].a, Last(p).pos), Config(m.prog[Last(p).pc].b, Last(p).pos);
    assert Succ(m, Last(p)) == [x, y];
    assert forall i :: 0 <= i < |p| ==> (p + [x])[i] == p[i] && (p + [y])[i] == p[i];
    assert q[|p|] == (p + [x])[|p|] && w[|p|] == (p + [y])[|p|];
    assert Parts(m, q, w, |p|);
  }

  /** The walk of a trace, on a text made for it. */
  lemma {:induction false} TraceWalked(prog: seq<Instr>, flags: Flags, nslots: nat, t: seq<Spot>) returns (text: seq<Byte>, p: Path)
    requires WellFormed(prog) && !Loops(prog, flags) && Opens(prog, flags, t)
    ensures
      var m := Machine(prog, flags, nslots, text);
      && |p| > 0 && p[0].pos <= |text| && PickedFrom(m, p[0].pos, p) && Simple(p) && Spotted(m, p, t)
      && t[|t| - 1] == SpotAt(m, Last(p)) && InBounds(m, Last(p)) && p[0] == Config(0, p[0].pos)
  {
    hide WellFormed, Follows, Realizes, Loops, Pick, Succ;
    text, p := Realized(prog, flags, nslots, t);
    var m := Machine(prog, flags, nslots, text);
    RealizedAll(m, p, t);
    NoRepeat(m, p[0].pos, p);
  }

  /** Case two: took b for the byte although a, preferred, could stop here. */
  lemma {:induction false} ExitLost(prog: seq<Instr>, flags: Flags, nslots: nat, t: seq<Spot>) returns (text: seq<Byte>, start: nat)
    requires WellFormed(prog) && !Loops(prog, flags) && Opens(prog, flags, t) && prog[t[|t| - 1].pc].Split?
    requires
      var n := t[|t| - 1];
      && Side(prog, flags, n.pc, n.next) == Some(prog[n.pc].b) && prog[n.pc].a != prog[n.pc].b
      && FreshExit(prog, flags, n, Passed(prog, t), prog[n.pc].a)
    ensures start <= |text| && WalkTo(Machine(prog, flags, nslots, text), start) != FirstMatch(Machine(prog, flags, nslots, text), start)
  {
    hide WellFormed, Follows, FreshExit, Passed, WalkTo, FirstMatch, Side, Loops, Pick, Succ, Simple, Before, Spotted;
    var p;
    text, p := TraceWalked(prog, flags, nslots, t);
    var m := Machine(prog, flags, nslots, text);
    start := p[0].pos;
    var q := FreshAccepts(m, p, t, prog[Last(p).pc].a);
    AcceptsSome(m, start, q);
    var r := WalkTo(m, start);
    if r.Some? {
      WalkPasses(m, start, p, r.value, prog[Last(p).pc].b);
      SidesPart(m, p, q, r.value);
    }
  }

  /** Case three: nothing reads here, a is taken to stop but cannot afresh, and b could. */
  lemma {:induction false} WrongExit(prog: seq<Instr>, flags: Flags, nslots: nat, t: seq<Spot>) returns (text: seq<Byte>, start: nat)
    requires WellFormed(prog) && NoWordTests(prog) && !Loops(prog, flags) && Opens(prog, flags, t) && prog[t[|t| - 1].pc].Split?
    requires
      var n := t[|t| - 1];
      && Side(prog, flags, n.pc, n.next) == Some(prog[n.pc].a)
      && (n.next.Some? ==> !CanStart(prog, flags, prog[n.pc].a, n.next.value))
      && !FreshExit(prog, flags, n, Passed(prog, t), prog[n.pc].a) && FreshExit(prog, flags, n, Passed(prog, t), prog[n.pc].b)
    ensures start <= |text| && WalkTo(Machine(prog, flags, nslots, text), start) != FirstMatch(Machine(prog, flags, nslots, text), start)
  {
    hide WellFormed, Follows, FreshExit, Passed, WalkTo, FirstMatch, Side, Loops, Pick, Succ, Simple, Spotted, CanStart;
    var p;
    text, p := TraceWalked(prog, flags, nslots, t);
    var m := Machine(prog, flags, nslots, text);
    start := p[0].pos;
    var q := FreshAccepts(m, p, t, prog[Last(p).pc].b);
    AcceptsSome(m, start, q);
    var r := WalkTo(m, start);
    if r.Some? {
      WalkPasses(m, start, p, r.value, prog[Last(p).pc].a);
      TriedGoesOn(m, p, t, Config(prog[Last(p).pc].a, Last(p).pos), r.value);
    }
  }

  /** Every unsafe program has a text and a start on which the walk is not the first match. */
  lemma {:induction false} UnsafeDisagrees(prog: seq<Instr>, flags: Flags, nslots: nat) returns (text: seq<Byte>, start: nat)
    requires WellFormed(prog) && OnePass(prog, flags) && !Loops(prog, flags) && !Safe(prog, flags)
    ensures start <= |text| && WalkTo(Machine(prog, flags, nslots, text), start) != FirstMatch(Machine(prog, flags, nslots, text), start)
  {
    hide WellFormed, Follows, FreshExit, Passed, WalkTo, FirstMatch, Loops, CanStart, MatchEmpty, DeadEnd, CleanSplit;
    var t: seq<Spot> :| Opens(prog, flags, t) && prog[t[|t| - 1].pc].Split? && !SafeSplit(prog, flags, t[|t| - 1], Passed(prog, t));
    var n := t[|t| - 1];
    var a, b := prog[n.pc].a, prog[n.pc].b;
    if n.next.Some? && CanStart(prog, flags, a, n.next.value) {
      text, start := StuckDisagrees(prog, flags, nslots, t);
    } else if n.next.Some? && CanStart(prog, flags, b, n.next.value) {
      text, start := ExitLost(prog, flags, nslots, t);
    } else {
      text, start := WrongExit(prog, flags, nslots, t);
    }
  }

  /** On this text the walk and the first match are the same, from every start. */
  ghost predicate AgreesOn(m: Machine)
    requires WellFormed(m.prog)
  {
    forall start: nat :: start <= |m.text| ==> WalkTo(m, start) == FirstMatch(m, start)
  }

  /** The walker stands in for the Pike VM on every text exactly when the program is Safe. */
  lemma {:induction false} AgreementIsSafety(prog: seq<Instr>, flags: Flags, nslots: nat)
    requires WellFormed(prog) && OnePass(prog, flags) && !Loops(prog, flags)
    ensures (forall text: seq<Byte> :: AgreesOn(Machine(prog, flags, nslots, text))) <==> Safe(prog, flags)
  {
    hide WellFormed, OnePass, Loops, Safe, WalkTo, FirstMatch;
    if Safe(prog, flags) {
      forall text: seq<Byte> ensures AgreesOn(Machine(prog, flags, nslots, text)) {
        SafeEverywhere(Machine(prog, flags, nslots, text));
      }
    } else {
      var text, start := UnsafeDisagrees(prog, flags, nslots);
      assert !AgreesOn(Machine(prog, flags, nslots, text));
    }
  }

  lemma {:induction false} SafeEverywhere(m: Machine)
    requires Classified(m) && !Loops(m.prog, m.flags) && Safe(m.prog, m.flags)
    ensures AgreesOn(m)
  {
    hide OnePass, Loops, Safe, WalkTo, FirstMatch, Ends;
    HaltsExactly(m.prog, m.flags, m.nslots);
    assert m == Machine(m.prog, m.flags, m.nslots, m.text);
    forall start: nat | start <= |m.text| ensures WalkTo(m, start) == FirstMatch(m, start) {
      SafeAgrees(m, start);
    }
  }

  // ---- a simple way to be safe ----

  /** The test passes at the end of the text only. */
  predicate AtTextEnd(flags: Flags, i: Instr) {
    i.Eos? || (i.Eol? && !flags.multiline)
  }

  /** Whatever a SPLIT chooses, MATCH cannot be reached without reading except at the end of the text. */
  ghost predicate EndsGuarded(prog: seq<Instr>, flags: Flags)
    requires WellFormed(prog)
  {
    forall pc, p :: 0 <= pc < |prog| && prog[pc].Split? && EpsPath(prog, p) && (p[0] == prog[pc].a || p[0] == prog[pc].b) && prog[p[|p| - 1]].Match?
      ==> exists k :: 0 <= k < |p| - 1 && AtTextEnd(flags, prog[p[k]])
  }

  lemma {:induction false} LiveIsEps(prog: seq<Instr>, flags: Flags, n: Spot, e: seq<nat>)
    requires WellFormed(prog) && NoWordTests(prog) && Live(prog, flags, n, e)
    ensures EpsPath(prog, e)
  {
    hide SilentSucc;
    forall i, j | 0 <= i < |e| && j == i + 1 < |e| ensures e[j] in EpsSucc(prog, e[i]) {
      SilentIsEps(prog, flags, e[i], n.prev, n.next, e[j]);
    }
  }

  lemma {:induction false} EndStops(prog: seq<Instr>, flags: Flags, pc: nat, prev: Option<Byte>, next: Option<Byte>)
    requires WellFormed(prog) && pc < |prog| && AtTextEnd(flags, prog[pc]) && next.Some?
    ensures SilentSucc(prog, flags, pc, prev, next) == []
  {
  }

  lemma {:induction false} NoExit(prog: seq<Instr>, flags: Flags, n: Spot, seen: set<nat>, pc: nat, y: nat)
    requires WellFormed(prog) && NoWordTests(prog) && EndsGuarded(prog, flags) && n.next.Some?
    requires pc < |prog| && prog[pc].Split? && (y == prog[pc].a || y == prog[pc].b)
    ensures !FreshExit(prog, flags, n, seen, y)
  {
    hide WellFormed, SilentSucc, EpsSucc;
    if e :| Live(prog, flags, n, e) && e[0] == y && prog[e[|e| - 1]].Match? && forall k :: 0 <= k < |e| ==> e[k] !in seen {
      LiveIsEps(prog, flags, n, e);
      var k :| 0 <= k < |e| - 1 && AtTextEnd(flags, prog[e[k]]);
      LiveNext(prog, flags, n, e, k);
      EndStops(prog, flags, e[k], n.prev, n.next);
    }
  }

  lemma {:induction false} LiveNext(prog: seq<Instr>, flags: Flags, n: Spot, e: seq<nat>, k: nat)
    requires WellFormed(prog) && Live(prog, flags, n, e) && k + 1 < |e|
    ensures e[k] < |prog| && SilentSucc(prog, flags, e[k], n.prev, n.next) != []
  {
    hide SilentSucc, WellFormed;
    assert e[k + 1] in SilentSucc(prog, flags, e[k], n.prev, n.next);
  }

  /** Neither here nor further on is there an anchor that looks back. */
  predicate PastFront(prog: seq<Instr>, pc: nat) {
    |prog| > 1 && pc < |prog| && !LooksBack(prog[pc]) && (LooksBack(prog[1]) ==> pc >= 2)
  }

  /** At the end of the text the walker goes on towards MATCH for as long as there is a way. */
  lemma {:induction false} EndStep(prog: seq<Instr>, flags: Flags, n: Spot)
    requires WellFormed(prog) && NoWordTests(prog) && FrontAnchors(prog) && PastFront(prog, n.pc) && n.next.None?
    requires MatchEmpty(prog, n.pc) && !prog[n.pc].Match?
    ensures !Consuming(prog[n.pc]) && Step(prog, flags, n).Some?
    ensures var q := Step(prog, flags, n).value; q < |prog| && MatchEmpty(prog, q) && PastFront(prog, q)
  {
    var q := EmptyNext(prog, n.pc);
    hide MatchEmpty;
  }

  lemma {:induction false} EmptyNext(prog: seq<Instr>, pc: nat) returns (q: nat)
    requires WellFormed(prog) && pc < |prog| && MatchEmpty(prog, pc) && !prog[pc].Match?
    ensures q in EpsSucc(prog, pc) && q < |prog| && MatchEmpty(prog, q)
  {
    hide EpsSucc;
    var e :| EpsPath(prog, e) && e[0] == pc && e[|e| - 1] == |prog| - 1;
    q := e[1];
    assert e[1] in EpsSucc(prog, e[0]);
    assert EpsPath(prog, e[1..]);
  }

  lemma {:induction false} EndWalk(m: Machine, start: nat, end: Path, k: nat)
    requires WellFormed(m.prog) && NoWordTests(m.prog) && FrontAnchors(m.prog) && Halts(m, start, end) && k < |end|
    requires end[k].pos == |m.text| && PastFront(m.prog, end[k].pc) && MatchEmpty(m.prog, end[k].pc)
    ensures Last(end).pc < |m.prog| && m.prog[Last(end).pc].Match?
    decreases |end| - k
  {
    hide WellFormed, FrontAnchors, PastFront, MatchEmpty, Pick, Succ, Step;
    PickIsStep(m, end[k]);
    if k < |end| - 1 {
      PicksOn(m, end, k);
      assert Pick(m, end[k]) == Some(end[k + 1]);
      MatchStays(m, end[k]);
      EndStep(m.prog, m.flags, SpotAt(m, end[k]));
      EndWalk(m, start, end, k + 1);
    } else if !m.prog[end[k].pc].Match? {
      EndStep(m.prog, m.flags, SpotAt(m, end[k]));
    }
  }

  lemma {:induction false} MatchStays(m: Machine, c: Config)
    requires WellFormed(m.prog) && InBounds(m, c) && Pick(m, c).Some?
    ensures !m.prog[c.pc].Match?
  {
  }

  /** At the end of the text the preferred side leaves afresh if it can leave at all. */
  lemma {:induction false} EmptyExits(prog: seq<Instr>, flags: Flags, t: seq<Spot>)
    requires WellFormed(prog) && NoWordTests(prog) && !Loops(prog, flags) && FrontAnchors(prog) && Opens(prog, flags, t)
    requires var n := t[|t| - 1]; n.next.None? && prog[n.pc].Split? && MatchEmpty(prog, prog[n.pc].a)
    ensures FreshExit(prog, flags, t[|t| - 1], Passed(prog, t), prog[t[|t| - 1].pc].a)
  {
    var a := prog[t[|t| - 1].pc].a;
    assert PastFront(prog, a);
    hide WellFormed, Follows, FreshExit, Passed, Loops, Pick, Succ, Simple, Spotted, CanStart, MatchEmpty, PastFront, FrontAnchors, Halts, PickedFrom;
    var text, p := TraceWalked(prog, flags, 2, t);
    var m := Machine(prog, flags, 2, text);
    var start := p[0].pos;
    HaltsExactly(prog, flags, 2);
    assert Ends(m, start);
    var end :| Halts(m, start, end);
    SideAtEnd(prog, flags, t[|t| - 1]);
    WalkPasses(m, start, p, end, a);
    var d := Config(a, Last(p).pos);
    assert end[|p|] == (p + [d])[|p|] == d;
    EndWalk(m, start, end, |p|);
    HaltAccepts(m, start, end);
    PickedOnly(m, start, p);
    TriedGoesOn(m, p, t, d, end);
  }

  lemma {:induction false} PickedOnly(m: Machine, start: nat, p: Path)
    requires WellFormed(m.prog) && PickedFrom(m, start, p)
    ensures Picked(m, p)
  {
  }

  lemma {:induction false} HaltAccepts(m: Machine, start: nat, end: Path)
    requires WellFormed(m.prog) && Halts(m, start, end) && Last(end).pc < |m.prog| && m.prog[Last(end).pc].Match?
    ensures Accepting(m, end)
  {
    hide WellFormed, Pick, Succ;
  }

  lemma {:induction false} SideAtEnd(prog: seq<Instr>, flags: Flags, n: Spot)
    requires WellFormed(prog) && n.pc < |prog| && prog[n.pc].Split? && n.next.None? && MatchEmpty(prog, prog[n.pc].a)
    ensures Side(prog, flags, n.pc, n.next) == Some(prog[n.pc].a)
  {
  }

  /** Where the walk ends and anchors that look back are in front only: every way to end going through $ or \Z is enough. */
  lemma {:induction false} GuardedIsSafe(prog: seq<Instr>, flags: Flags)
    requires WellFormed(prog) && NoWordTests(prog) && !Loops(prog, flags) && FrontAnchors(prog) && EndsGuarded(prog, flags)
    ensures Safe(prog, flags)
  {
    forall t: seq<Spot> | Opens(prog, flags, t) && prog[t[|t| - 1].pc].Split?
      ensures SafeSplit(prog, flags, t[|t| - 1], Passed(prog, t))
    {
      GuardedSplit(prog, flags, t);
    }
  }

  lemma {:induction false} GuardedSplit(prog: seq<Instr>, flags: Flags, t: seq<Spot>)
    requires WellFormed(prog) && NoWordTests(prog) && !Loops(prog, flags) && FrontAnchors(prog) && EndsGuarded(prog, flags)
    requires Opens(prog, flags, t) && prog[t[|t| - 1].pc].Split?
    ensures SafeSplit(prog, flags, t[|t| - 1], Passed(prog, t))
  {
    hide WellFormed, FreshExit, DeadEnd, CanStart, MatchEmpty, EndsGuarded, FrontAnchors, Follows, Passed, Loops;
    var n, seen := t[|t| - 1], Passed(prog, t);
    if n.next.Some? {
      NoExit(prog, flags, n, seen, n.pc, prog[n.pc].a);
      NoExit(prog, flags, n, seen, n.pc, prog[n.pc].b);
    } else if MatchEmpty(prog, prog[n.pc].a) {
      EmptyExits(prog, flags, t);
    }
  }
}
