/** The function profiler: a bounded stack of open frames and a stats table, and the time they conserve. */
module Profiler {
  import opened Probing

  const FRAME_MAX := 512
  const INIT_CAP := 128

  /** A function name by address; two addresses may spell the same name. */
  type Name = nat

  datatype Stats = Stats(total: int, self: int, calls: nat)

  datatype Frame = Frame(fn: Name, enter: int, child: int)

  // ---- summing a table ----

  datatype Sums = Sums(total: int, self: int, calls: int)

  ghost function Plus(a: Sums, b: Sums): Sums {
    Sums(a.total + b.total, a.self + b.self, a.calls + b.calls)
  }

  ghost function Minus(a: Sums, b: Sums): Sums {
    Sums(a.total - b.total, a.self - b.self, a.calls - b.calls)
  }

  ghost function Of(s: Stats): Sums {
    Sums(s.total, s.self, s.calls)
  }

  /** All totals, self times and call counts of a table. */
  ghost function Sum(view: map<Name, Stats>): Sums {
    if view == map[] then Sums(0, 0, 0)
    else var k :| k in view; Plus(Of(view[k]), Sum(view - {k}))
  }

  ghost function SelfSum(view: map<Name, Stats>): int {
    Sum(view).self
  }

  lemma {:induction false} SumWithout(view: map<Name, Stats>, k: Name)
    requires k in view
    ensures Sum(view) == Plus(Of(view[k]), Sum(view - {k}))
    decreases |view|
  {
    var j :| j in view && Sum(view) == Plus(Of(view[j]), Sum(view - {j}));
    hide Sum;
    if j != k {
      SumWithout(view - {j}, k);
      SumWithout(view - {k}, j);
      assert view - {j} - {k} == view - {k} - {j};
      var rest := Sum(view - {j} - {k});
      assert Sum(view) == Plus(Of(view[j]), Plus(Of(view[k]), rest)) && Sum(view - {k}) == Plus(Of(view[j]), rest);
    }
  }

  lemma {:induction false} SumUpdate(view: map<Name, Stats>, k: Name, s: Stats)
    ensures Sum(view[k := s]) == Minus(Plus(Sum(view), Of(s)), if k in view then Of(view[k]) else Sums(0, 0, 0))
  {
    hide Sum;
    var now := view[k := s];
    SumWithout(now, k);
    assert now - {k} == view - {k};
    if k in view {
      SumWithout(view, k);
    } else {
      assert now - {k} == view;
    }
  }

  /** The entries of a table whose names are spelled w. */
  ghost function Spelled(view: map<Name, Stats>, spelling: Name -> string, w: string): map<Name, Stats> {
    map k | k in view && spelling(k) == w :: view[k]
  }

  /** Adding to one entry adds to the sums of its spelling and to no others. */
  lemma {:induction false} SpelledUpdate(view: map<Name, Stats>, spelling: Name -> string, k: Name, s: Stats, w: string)
    ensures
      var was := if k in view then Of(view[k]) else Sums(0, 0, 0);
      Sum(Spelled(view[k := s], spelling, w)) ==
      if spelling(k) == w then Minus(Plus(Sum(Spelled(view, spelling, w)), Of(s)), was) else Sum(Spelled(view, spelling, w))
  {
    var part := Spelled(view, spelling, w);
    if spelling(k) == w {
      SumUpdate(part, k, s);
      assert Spelled(view[k := s], spelling, w) == part[k := s];
    } else {
      assert Spelled(view[k := s], spelling, w) == part;
    }
  }

  // ---- the calls that are over ----

  /** A call between two clock readings, that many frames under it, entered when since calls were over. */
  datatype Call = Call(fn: Name, enter: int, leave: int, level: nat, since: nat)

  /** The time of the calls over from since on that were called directly from level - 1. */
  ghost function Inside(done: seq<Call>, since: nat, level: nat): int {
    if |done| <= since then 0
    else
      var c := done[|done| - 1];
      Inside(done[..|done| - 1], since, level) + if c.level == level then c.leave - c.enter else 0
  }

  lemma {:induction false} InsideMore(done: seq<Call>, c: Call, since: nat, level: nat)
    requires since <= |done|
    ensures Inside(done + [c], since, level) == Inside(done, since, level) + if c.level == level then c.leave - c.enter else 0
  {
    assert (done + [c])[..|done|] == done;
  }

  /** What one call spent, before it others being over: in all, by itself, and the call itself. */
  ghost function Bill(before: seq<Call>, c: Call): Sums {
    Sums(c.leave - c.enter, c.leave - c.enter - Inside(before, c.since, c.level + 1), 1)
  }

  /** The bills of the calls to functions spelled w. */
  ghost function Spent(done: seq<Call>, spelling: Name -> string, w: string): Sums {
    if done == [] then Sums(0, 0, 0)
    else
      var n := |done| - 1;
      Plus(Spent(done[..n], spelling, w), if spelling(done[n].fn) == w then Bill(done[..n], done[n]) else Sums(0, 0, 0))
  }

  /** The time the calls that are over spent in calls of their own. */
  ghost function Delegated(done: seq<Call>): int {
    if done == [] then 0
    else
      var n := |done| - 1;
      Delegated(done[..n]) + Inside(done[..n], done[n].since, done[n].level + 1)
  }

  /** Every spelling's entries hold what its calls spent, and the table as a whole the difference between total and self time. */
  ghost predicate Booked(view: map<Name, Stats>, spelling: Name -> string, done: seq<Call>) {
    && (forall w: string :: Sum(Spelled(view, spelling, w)) == Spent(done, spelling, w))
    && Sum(view).total - Sum(view).self == Delegated(done)
  }

  lemma {:induction false} NothingBooked(spelling: Name -> string)
    ensures Booked(map[], spelling, [])
  {
    forall w: string ensures Sum(Spelled(map[], spelling, w)) == Spent([], spelling, w) {
      assert Spelled(map[], spelling, w) == map[];
    }
  }

  lemma {:induction false} TalliedSums(was: map<Name, Stats>, now: map<Name, Stats>, spelling: Name -> string, k: Name, elapsed: int, self: int)
    requires Tallied(was, now, k, elapsed, self)
    ensures Sum(now) == Plus(Sum(was), Sums(elapsed, self, 1))
    ensures forall w: string ::
      Sum(Spelled(now, spelling, w)) ==
      (if spelling(k) == w then Plus(Sum(Spelled(was, spelling, w)), Sums(elapsed, self, 1)) else Sum(Spelled(was, spelling, w)))
  {
    hide Sum, Spelled;
    SumUpdate(was, k, now[k]);
    forall w: string ensures Sum(Spelled(now, spelling, w)) ==
      if spelling(k) == w then Plus(Sum(Spelled(was, spelling, w)), Sums(elapsed, self, 1)) else Sum(Spelled(was, spelling, w))
    {
      SpelledUpdate(was, spelling, k, now[k], w);
    }
  }

  lemma {:induction false} SpentMore(done: seq<Call>, c: Call, spelling: Name -> string, w: string)
    ensures Spent(done + [c], spelling, w) == if spelling(c.fn) == w then Plus(Spent(done, spelling, w), Bill(done, c)) else Spent(done, spelling, w)
    ensures Delegated(done + [c]) == Delegated(done) + Inside(done, c.since, c.level + 1)
  {
    assert (done + [c])[..|done|] == done;
    hide Inside;
  }

  /** One more call over, and one more call in the table. */
  lemma {:induction false} BookedMore(was: map<Name, Stats>, now: map<Name, Stats>, spelling: Name -> string, done: seq<Call>, c: Call, k: Name)
    requires Booked(was, spelling, done) && spelling(k) == spelling(c.fn)
    requires Tallied(was, now, k, c.leave - c.enter, c.leave - c.enter - Inside(done, c.since, c.level + 1))
    ensures Booked(now, spelling, done + [c])
  {
    hide Sum, Spelled, Spent, Delegated, Inside, Tallied;
    TalliedSums(was, now, spelling, k, c.leave - c.enter, c.leave - c.enter - Inside(done, c.since, c.level + 1));
    SpentMore(done, c, spelling, "");
    forall w: string ensures Sum(Spelled(now, spelling, w)) == Spent(done + [c], spelling, w) {
      SpentMore(done, c, spelling, w);
      assert Sum(Spelled(was, spelling, w)) == Spent(done, spelling, w);
    }
  }

  /** The frames and when each was entered, counted in calls over: what its callees took is what they took in the log. */
  ghost predicate Logged(frames: seq<Frame>, since: seq<nat>, done: seq<Call>) {
    |since| == |frames| && forall i :: 0 <= i < |frames| ==> since[i] <= |done| && frames[i].child == Inside(done, since[i], i + 1)
  }

  lemma {:induction false} LoggedEnter(frames: seq<Frame>, since: seq<nat>, done: seq<Call>, fn: Name, now: int)
    requires Logged(frames, since, done)
    ensures Logged(frames + [Frame(fn, now, 0)], since + [|done|], done)
  {
  }

  lemma {:induction false} LoggedLeave(frames: seq<Frame>, since: seq<nat>, done: seq<Call>, now: int)
    requires Logged(frames, since, done) && |frames| > 0
    ensures
      var n := |frames| - 1;
      Logged(Charged(frames, now - frames[n].enter), since[..n], done + [Call(frames[n].fn, frames[n].enter, now, n, since[n])])
  {
    var n := |frames| - 1;
    var c := Call(frames[n].fn, frames[n].enter, now, n, since[n]);
    assert (done + [c])[..|done|] == done;
  }

  ghost function ChildSum(frames: seq<Frame>): int {
    if frames == [] then 0 else ChildSum(frames[..|frames| - 1]) + frames[|frames| - 1].child
  }

  /** Each open frame and the time its callees took end before the next frame opened. */
  ghost predicate Nested(frames: seq<Frame>, clock: int) {
    && (forall i :: 0 <= i < |frames| ==> frames[i].child >= 0)
    && (forall i, j :: 0 <= i < |frames| && j == i + 1 < |frames| ==> frames[i].enter + frames[i].child <= frames[j].enter)
    && (|frames| > 0 ==> frames[|frames| - 1].enter + frames[|frames| - 1].child <= clock)
  }

  /** The frames left when the innermost one closes after that much time, which its caller holds as callee time. */
  ghost function Charged(frames: seq<Frame>, elapsed: int): seq<Frame>
    requires |frames| > 0
  {
    var n := |frames| - 1;
    if n == 0 then [] else frames[..n][n - 1 := frames[n - 1].(child := frames[n - 1].child + elapsed)]
  }

  /** One more finished call on k's entry, made first if there was none, and no other entry touched. */
  ghost predicate Tallied(was: map<Name, Stats>, now: map<Name, Stats>, k: Name, elapsed: int, self: int) {
    var s := if k in was then was[k] else Stats(0, 0, 0);
    now == was[k := Stats(s.total + elapsed, s.self + self, s.calls + 1)]
  }

  class Profiler {
    ghost var view: map<Name, Stats>
    ghost var done: seq<Call>
    ghost var since: seq<nat>
    ghost var rootElapsed: int
    ghost var clock: int
    const hash: Name -> nat
    const spelling: Name -> string
    const frames: array<Frame>
    var top: nat
    var table: array<Slot<Name, Stats>>
    var count: nat

    /** The frames that are recorded. */
    ghost function Open(): seq<Frame>
      requires frames.Length == FRAME_MAX
      reads this, frames
    {
      frames[..if top < FRAME_MAX then top else FRAME_MAX]
    }

    /** Time is conserved: self times add up to finished root calls plus what open frames hold for their callees. */
    ghost predicate Valid()
      reads this, frames, table
    {
      && frames.Length == FRAME_MAX && frames as object != table as object && Nested(Open(), clock) && TableValid()
      && SelfSum(view) == rootElapsed + ChildSum(Open()) && Booked(view, spelling, done) && Logged(Open(), since, done)
      && rootElapsed == Inside(done, 0, 0)
    }

    ghost predicate TableValid()
      reads `table, `view, `count, table
    {
      && Probing.Holds(table[..], hash, view) && count == |view|
      && count * 2 <= table.Length && table.Length % 2 == 0
    }

    constructor (hash: Name -> nat, spelling: Name -> string)
      ensures Valid() && view == map[] && done == [] && since == [] && rootElapsed == 0 && top == 0
      ensures this.spelling == spelling && fresh(frames) && fresh(table)
    {
      this.hash := hash;
      this.spelling := spelling;
      frames := new Frame[FRAME_MAX](_ => Frame(0, 0, 0));
      table := new Slot<Name, Stats>[0](_ => Empty);
      view, rootElapsed, clock, top, count := map[], 0, 0, 0, 0;
      done, since := [], [];
      NothingBooked(spelling);
    }

    /** ls_prof_enter, at clock reading now. */
    method Enter(fn: Name, now: int)
      requires Valid() && now >= clock
      modifies this, frames
      ensures Valid() && clock == now && top == old(top) + 1 && view == old(view) && rootElapsed == old(rootElapsed)
      ensures table == old(table) && done == old(done)
      ensures since == if old(top) < 512 then old(since) + [|done|] else old(since)
      ensures Open() == if old(top) < 512 then old(Open()) + [Frame(fn, now, 0)] else old(Open())
    {
      hide Nested, ChildSum, TableValid, SelfSum, Booked, Logged, Inside;
      ghost var were := Open();
      EnterKeeps(were, clock, fn, now);
      if top < FRAME_MAX {
        LoggedEnter(were, since, done, fn, now);
        since := since + [|done|];
        frames[top] := Frame(fn, now, 0);
        assert frames[..top + 1] == were + [Frame(fn, now, 0)];
      }
      clock := now;
      top := top + 1;
    }

    /** prof_find_or_insert: an entry whose name spells the same, the caller's own address if it is new. */
    method FindOrInsert(fn: Name) returns (i: nat)
      requires TableValid()
      modifies this`table, this`view, this`count, table
      ensures TableValid() && i < table.Length && table[i].Full? && spelling(table[i].key) == spelling(fn)
      ensures table == old(table) || fresh(table)
      ensures table.Length == if old(count) * 2 < old(table.Length) then old(table.Length)
                              else if old(table.Length) == 0 then 128 else 2 * old(table.Length)
      ensures SelfSum(view) == SelfSum(old(view))
      ensures
        || (view == old(view) && table[i].key in view)
        || (table[i].key == fn && fn !in old(view) && view == old(view)[fn := Stats(0, 0, 0)])
    {
      hide Probing.Holds, SelfSum;
      if count * 2 >= table.Length {
        table := Probing.Rehash<Name, Stats>(table, hash, view, if table.Length == 0 then INIT_CAP else table.Length * 2);
      }
      i := ProbeName(fn);
      if table[i].Empty? {
        AddEntry(fn, i);
      } else {
        Probing.EntryInView(table[..], hash, view, i);
      }
    }

    method AddEntry(fn: Name, i: nat)
      requires TableValid() && Probing.EndsAt(table[..], hash, fn, i) && table[i].Empty? && count * 2 < table.Length
      modifies this`view, this`count, table
      ensures TableValid() && table[i] == Full(fn, Stats(0, 0, 0)) && fn !in old(view) && view == old(view)[fn := Stats(0, 0, 0)]
      ensures SelfSum(view) == SelfSum(old(view))
    {
      hide Probing.Holds, Sum;
      var zero := Stats(0, 0, 0);
      Probing.EndDecides(table[..], hash, view, fn, i);
      Probing.WriteUpdates(table[..], hash, view, fn, zero, i);
      SumUpdate(view, fn, zero);
      ghost var after := table[..][i := Full(fn, zero)];
      table[i] := Full(fn, zero);
      assert table[..] == after;
      view := view[fn := zero];
      count := count + 1;
    }

    /** The probe loop, which also stops at another address with the same spelling. */
    method ProbeName(fn: Name) returns (i: nat)
      requires Probing.Holds(table[..], hash, view) && |view| < table.Length
      ensures i < table.Length && (table[i].Full? ==> spelling(table[i].key) == spelling(fn))
      ensures table[i].Empty? ==> Probing.EndsAt(table[..], hash, fn, i)
    {
      hide Probing.Holds;
      Probing.RoomLeft(table[..], hash, view);
      ghost var gap :| 0 <= gap < table.Length && table[..][gap].Empty?;
      ghost var home := Probing.Home(hash, fn, table.Length);
      i := Probing.Home(hash, fn, table.Length);
      ghost var d := 0;
      while table[i].Full? && table[i].key != fn
        invariant d < table.Length && i == Probing.At(home, d, table.Length) && Probing.Passed(table[..], hash, fn, d)
        invariant d <= Probing.Dist(home, gap, table.Length)
        decreases table.Length - d
      {
        if spelling(table[i].key) == spelling(fn) {
          return i;
        }
        assert i != gap;
        i := if i + 1 == table.Length then 0 else i + 1;
        d := d + 1;
      }
      assert Probing.Dist(home, i, table.Length) == d;
    }

    /** Add one finished call to an entry. */
    method Record(i: nat, elapsed: int, self: int)
      requires TableValid() && i < table.Length && table[i].Full?
      modifies this`view, table
      ensures TableValid() && SelfSum(view) == SelfSum(old(view)) + self
      ensures table[i].Full? && table[i].key == old(table[i].key) && table[i].key in old(view)
      ensures
        var k, s := old(table[i].key), old(table[i].value);
        view == old(view)[k := Stats(s.total + elapsed, s.self + self, s.calls + 1)] && s == old(view)[k]
    {
      hide Probing.Holds, Sum;
      var k, s := table[i].key, table[i].value;
      var t := Stats(s.total + elapsed, s.self + self, s.calls + 1);
      Probing.EntryInView(table[..], hash, view, i);
      Probing.WriteUpdates(table[..], hash, view, k, t, i);
      SumUpdate(view, k, t);
      ghost var after := table[..][i := Full(k, t)];
      table[i] := Full(k, t);
      assert table[..] == after;
      view := view[k := t];
    }

    /** ls_prof_leave, at clock reading now: neither clamp fires, and time is conserved. */
    method Leave(now: int)
      requires Valid() && now >= clock
      modifies this, frames, table
      ensures Valid() && (table == old(table) || fresh(table))
      ensures old(top) == 0 ==> top == 0 && view == old(view) && rootElapsed == old(rootElapsed) && done == old(done) && since == old(since)
      ensures old(top) > 0 ==> top == old(top) - 1 && clock == now
      ensures old(top) == 0 ==> clock == old(clock)
      ensures old(top) > 512 ==>
        view == old(view) && rootElapsed == old(rootElapsed) && Open() == old(Open()) && done == old(done) && since == old(since)
      ensures 0 < old(top) <= 512 ==>
        var f := old(frames[top - 1]);
        && 0 <= f.child <= now - f.enter && |old(since)| == old(top)
        && done == old(done) + [Call(f.fn, f.enter, now, top, old(since)[top])] && since == old(since)[..top]
        && (forall w: string :: w != spelling(f.fn) ==> Sum(Spelled(view, spelling, w)) == Sum(Spelled(old(view), spelling, w)))
        && (var was, got := Sum(Spelled(old(view), spelling, spelling(f.fn))), Sum(Spelled(view, spelling, spelling(f.fn)));
            got.total == was.total + (now - f.enter) && got.self == was.self + (now - f.enter - f.child) && got.calls == was.calls + 1)
        && SelfSum(view) == SelfSum(old(view)) + (now - f.enter) - f.child
        && (exists k :: spelling(k) == spelling(f.fn) && Tallied(old(view), view, k, now - f.enter, now - f.enter - f.child))
        && Open() == Charged(old(Open()), now - f.enter)
        && rootElapsed == old(rootElapsed) + (if top == 0 then now - f.enter else 0)
    {
      if top == 0 {
        return;
      }
      hide Nested, ChildSum, TableValid, SelfSum, Booked, Logged, Sum, Inside, Spelled;
      if top > FRAME_MAX {
        NestedLater(Open(), clock, now);
        top := top - 1;
        clock := now;
        return;
      }
      CloseFrame(now);
    }

    method CloseFrame(now: int)
      requires Valid() && now >= clock && 0 < top <= FRAME_MAX
      modifies this, frames, table
      ensures Valid() && (table == old(table) || fresh(table)) && top == old(top) - 1 && clock == now
      ensures
        var f := old(frames[top - 1]);
        && 0 <= f.child <= now - f.enter && |old(since)| == old(top)
        && done == old(done) + [Call(f.fn, f.enter, now, top, old(since)[top])] && since == old(since)[..top]
        && (forall w: string :: w != spelling(f.fn) ==> Sum(Spelled(view, spelling, w)) == Sum(Spelled(old(view), spelling, w)))
        && (var was, got := Sum(Spelled(old(view), spelling, spelling(f.fn))), Sum(Spelled(view, spelling, spelling(f.fn)));
            got.total == was.total + (now - f.enter) && got.self == was.self + (now - f.enter - f.child) && got.calls == was.calls + 1)
        && SelfSum(view) == SelfSum(old(view)) + (now - f.enter) - f.child
        && (exists k :: spelling(k) == spelling(f.fn) && Tallied(old(view), view, k, now - f.enter, now - f.enter - f.child))
        && Open() == Charged(old(Open()), now - f.enter)
        && rootElapsed == old(rootElapsed) + (if top == 0 then now - f.enter else 0)
    {
      hide Nested, ChildSum, TableValid, SelfSum, Booked, Logged, Sum, Tallied, Inside, Spelled;
      ghost var were := Open();
      NestedLater(were, clock, now);
      LeaveKeeps(were, clock, now);
      LoggedLeave(were, since, done, now);
      LoggedTop(were, since, done);
      InsideMore(done, Call(were[top - 1].fn, were[top - 1].enter, now, top - 1, since[top - 1]), 0, 0);
      top := top - 1;
      var f := frames[top];
      assert f == were[|were| - 1];
      var elapsed := now - f.enter;
      if elapsed < 0 { elapsed := 0; }
      var self := elapsed - f.child;
      if self < 0 { self := 0; }
      clock := now;
      ghost var was := view;
      ghost var k := Tally(f.fn, elapsed, self);
      ghost var c := Call(f.fn, f.enter, now, top, since[top]);
      BookedMore(was, view, spelling, done, c, k);
      TalliedSums(was, view, spelling, k, elapsed, self);
      done, since := done + [c], since[..top];
      PassUp(elapsed, were);
    }

    /** Add one finished call to the stats of its function. */
    method Tally(fn: Name, elapsed: int, self: int) returns (ghost k: Name)
      requires TableValid()
      modifies this`table, this`view, this`count, table
      ensures TableValid() && SelfSum(view) == SelfSum(old(view)) + self
      ensures table == old(table) || fresh(table)
      ensures spelling(k) == spelling(fn) && Tallied(old(view), view, k, elapsed, self)
    {
      hide TableValid, SelfSum;
      var i := FindOrInsert(fn);
      Record(i, elapsed, self);
      k := table[i].key;
    }

    /** The elapsed time goes to the caller's frame, or counts as a finished root call. */
    method PassUp(elapsed: int, ghost were: seq<Frame>)
      requires frames.Length == FRAME_MAX && top < FRAME_MAX && |were| == top + 1 && frames[..top + 1] == were
      modifies frames, this`rootElapsed
      ensures Open() == Charged(were, elapsed)
      ensures rootElapsed == old(rootElapsed) + if top == 0 then elapsed else 0
    {
      assert frames[..top] == were[..top];
      if top > 0 {
        ghost var after := were[..top][top - 1 := were[top - 1].(child := were[top - 1].child + elapsed)];
        frames[top - 1] := frames[top - 1].(child := frames[top - 1].child + elapsed);
        assert frames[..top] == after;
      } else {
        rootElapsed := rootElapsed + elapsed;
      }
    }
  }

  lemma {:induction false} LoggedTop(frames: seq<Frame>, since: seq<nat>, done: seq<Call>)
    requires Logged(frames, since, done)
    ensures |since| == |frames|
    ensures |frames| > 0 ==> frames[|frames| - 1].child == Inside(done, since[|frames| - 1], |frames|)
  {
  }

  lemma {:induction false} NestedLater(were: seq<Frame>, clock: int, now: int)
    requires Nested(were, clock) && now >= clock
    ensures Nested(were, now)
    ensures Nested([], now) && ChildSum([]) == 0
  {
  }

  lemma {:induction false} EnterKeeps(were: seq<Frame>, clock: int, fn: Name, now: int)
    requires Nested(were, clock) && now >= clock
    ensures Nested(were, now) && Nested(were + [Frame(fn, now, 0)], now)
    ensures ChildSum(were + [Frame(fn, now, 0)]) == ChildSum(were)
  {
    assert (were + [Frame(fn, now, 0)])[..|were|] == were;
  }

  /** Closing the innermost frame: its time moves to its caller. */
  lemma {:induction false} LeaveKeeps(were: seq<Frame>, clock: int, now: int)
    requires |were| > 0 && Nested(were, clock) && now >= clock
    ensures
      var n := |were| - 1;
      var f := were[n];
      && 0 <= f.child <= now - f.enter
      && (n == 0 ==> ChildSum(were) == f.child)
      && (n > 0 ==>
            var p := were[n - 1];
            var after := were[..n][n - 1 := p.(child := p.child + (now - f.enter))];
            |after| == n && Nested(after, now) && ChildSum(after) == ChildSum(were) - f.child + (now - f.enter))
  {
    var n := |were| - 1;
    if n == 0 {
      assert were[..0] == [];
    } else {
      var p := were[n - 1];
      var after := were[..n][n - 1 := p.(child := p.child + (now - were[n].enter))];
      assert after[..n - 1] == were[..n][..n - 1];
    }
  }

  // ---- any run ----

  datatype Event = Enters(fn: Name, at: int) | Leaves(at: int)

  /** A call that is not over, and how many calls were over when it was entered. */
  datatype Opening = Opening(fn: Name, enter: int, since: nat)

  datatype Log = Log(open: seq<Opening>, done: seq<Call>)

  /** Each leave closes the innermost open call, and the call is over; calls with 512 or more open under them are not kept. */
  ghost function Step(was: Log, e: Event): Log {
    match e
    case Enters(fn, at) => Log(was.open + [Opening(fn, at, |was.done|)], was.done)
    case Leaves(at) =>
      if was.open == [] then was
      else
        var n := |was.open| - 1;
        var o := was.open[n];
        Log(was.open[..n], if n < 512 then was.done + [Call(o.fn, o.enter, at, n, o.since)] else was.done)
  }

  ghost function After(events: seq<Event>): Log {
    if events == [] then Log([], []) else Step(After(events[..|events| - 1]), events[|events| - 1])
  }

  ghost predicate InOrder(events: seq<Event>) {
    forall i, j :: 0 <= i < j < |events| ==> events[i].at <= events[j].at
  }

  /** The profiler's frames are the open calls of the log, as far as there are frames. */
  ghost predicate Follows(frames: seq<Frame>, since: seq<nat>, top: nat, done: seq<Call>, log: Log) {
    && done == log.done && top == |log.open| && |since| == |frames| == (if top < 512 then top else 512)
    && forall i :: 0 <= i < |frames| ==> Opening(frames[i].fn, frames[i].enter, since[i]) == log.open[i]
  }

  lemma {:induction false} NoneNested(clock: int)
    ensures Nested([], clock)
  {
  }

  /** One event. */
  method Play(p: Profiler, e: Event, ghost log: Log)
    requires p.Valid() && e.at >= p.clock && Follows(p.Open(), p.since, p.top, p.done, log)
    modifies p, p.frames, p.table
    ensures p.Valid() && p.clock <= e.at && (p.table == old(p.table) || fresh(p.table))
    ensures Follows(p.Open(), p.since, p.top, p.done, Step(log, e))
  {
    hide Inside, Sum, Spelled, Spent, Delegated, Nested, ChildSum, Logged, Bill, Booked, SelfSum, Tallied;
    match e {
      case Enters(fn, at) => p.Enter(fn, at);
      case Leaves(at) => p.Leave(at);
    }
  }

  /** Over any run of enters and leaves: the entries of every spelling hold the totals, the self times and the number of its calls that are over. */
  method Replay(hash: Name -> nat, spelling: Name -> string, events: seq<Event>) returns (p: Profiler)
    requires InOrder(events)
    ensures p.Valid() && p.spelling == spelling && p.done == After(events).done && p.top == |After(events).open|
    ensures forall w: string :: Sum(Spelled(p.view, spelling, w)) == Spent(After(events).done, spelling, w)
    ensures Sum(p.view).total - Sum(p.view).self == Delegated(After(events).done)
    ensures Sum(p.view).self == Inside(After(events).done, 0, 0) + ChildSum(p.Open())
  {
    hide Inside, Sum, Spelled, Spent, Delegated, Nested, ChildSum, Logged, Bill, Step;
    p := new Profiler(hash, spelling);
    p.clock := if events == [] then 0 else events[0].at;
    NoneNested(p.clock);
    assert events[..0] == [];
    var k := 0;
    while k < |events|
      invariant 0 <= k <= |events| && fresh(p) && fresh(p.frames) && fresh(p.table) && p.Valid() && p.spelling == spelling
      invariant k < |events| ==> p.clock <= events[k].at
      invariant Follows(p.Open(), p.since, p.top, p.done, After(events[..k]))
    {
      assert events[..k + 1][..k] == events[..k];
      Play(p, events[k], After(events[..k]));
      k := k + 1;
    }
    assert events[..k] == events;
  }

  lemma {:induction false} AfterMore(events: seq<Event>, e: Event)
    ensures After(events + [e]) == Step(After(events), e)
  {
    assert (events + [e])[..|events|] == events;
  }

  lemma {:induction false} MainCallsLog(main: Name, f: Name)
    ensures After([Enters(main, 0), Enters(f, 2), Leaves(7), Leaves(10)]).done == [Call(f, 2, 7, 1, 0), Call(main, 0, 10, 0, 0)]
  {
    var e1 := [Enters(main, 0)];
    var e2, e3 := e1 + [Enters(f, 2)], e1 + [Enters(f, 2)] + [Leaves(7)];
    AfterMore([], Enters(main, 0));
    AfterMore(e1, Enters(f, 2));
    AfterMore(e2, Leaves(7));
    AfterMore(e3, Leaves(10));
    assert [] + [Enters(main, 0)] == e1 && e3 + [Leaves(10)] == [Enters(main, 0), Enters(f, 2), Leaves(7), Leaves(10)];
    assert After([]) == Log([], []);
    hide After;
    var o, g := Opening(main, 0, 0), Opening(f, 2, 0);
    assert After(e1) == Log([o], []) && After(e2) == Log([o, g], []);
    assert [o, g][..1] == [o] && After(e3) == Log([o], [Call(f, 2, 7, 1, 0)]);
  }

  /** main from 0 to 10 with f from 2 to 7 inside it: ten in all for main, five of them by itself, and five for f. */
  lemma {:induction false} MainCallsF(main: Name, f: Name, spelling: Name -> string)
    requires spelling(main) != spelling(f)
    ensures
      var done := After([Enters(main, 0), Enters(f, 2), Leaves(7), Leaves(10)]).done;
      && Spent(done, spelling, spelling(main)) == Sums(10, 5, 1) && Spent(done, spelling, spelling(f)) == Sums(5, 5, 1)
      && Delegated(done) == 5
  {
    hide After, Inside, Spent, Delegated;
    MainCallsLog(main, f);
    var cf, cm := Call(f, 2, 7, 1, 0), Call(main, 0, 10, 0, 0);
    NothingSpent(spelling, spelling(f), 0, 2);
    NothingSpent(spelling, spelling(main), 0, 1);
    InsideMore([], cf, 0, 1);
    assert [] + [cf] == [cf] && [cf] + [cm] == [cf, cm];
    SpentMore([], cf, spelling, spelling(f));
    SpentMore([cf], cm, spelling, spelling(f));
    SpentMore([], cf, spelling, spelling(main));
    SpentMore([cf], cm, spelling, spelling(main));
  }

  lemma {:induction false} NothingSpent(spelling: Name -> string, w: string, since: nat, level: nat)
    ensures Spent([], spelling, w) == Sums(0, 0, 0) && Delegated([]) == 0 && Inside([], since, level) == 0
  {
  }
}
