/** The reference semantics: a naive backtracking matcher, and the accepting path it picks. */
module Backtracking {
  import opened Basics
  import opened Machine

  ghost function Universe(m: Machine): set<Config> {
    set pc, pos | 0 <= pc < |m.prog| && 0 <= pos <= |m.text| :: Config(pc, pos)
  }

  ghost function Elems(p: Path): set<Config> {
    set c | c in p
  }

  ghost predicate CanExtend(m: Machine, p: Path)
    requires WellFormed(m.prog)
  {
    IsPath(m, p) && Simple(p)
  }

  lemma {:induction false} Grow(m: Machine, p: Path, c: Config)
    requires WellFormed(m.prog) && CanExtend(m, p) && c in Succ(m, Last(p)) && c !in p
    ensures CanExtend(m, p + [c])
    ensures Universe(m) - Elems(p + [c]) < Universe(m) - Elems(p)
  {
    ExtendPath(m, p, c);
    assert c in Universe(m) - Elems(p);
    assert c in p + [c];
  }

  /** Try the preferred branch first, then the other, never re-entering a configuration of the current path. */
  ghost function Backtrack(m: Machine, p: Path): (r: Option<Path>)
    requires WellFormed(m.prog) && CanExtend(m, p)
    ensures r.Some? ==> p <= r.value && Accepting(m, r.value) && Simple(r.value)
    decreases Universe(m) - Elems(p)
  {
    var c := Last(p);
    var s := Succ(m, c);
    if m.prog[c.pc].Match? then Some(p)
    else
      var first := if |s| > 0 && s[0] !in p then (Grow(m, p, s[0]); Backtrack(m, p + [s[0]])) else None;
      if first.Some? then first
      else if |s| > 1 && s[1] !in p then (Grow(m, p, s[1]); Backtrack(m, p + [s[1]]))
      else None
  }

  /** The matcher finds a match whenever there is one, and no match precedes the one it finds. */
  lemma {:induction false} BacktrackIsFirst(m: Machine, p: Path, q: Path)
    requires WellFormed(m.prog) && CanExtend(m, p)
    requires p <= q && Accepting(m, q) && Simple(q)
    ensures Backtrack(m, p).Some?
    ensures !Before(m, q, Backtrack(m, p).value)
    decreases Universe(m) - Elems(p)
  {
    var c := Last(p);
    var s := Succ(m, c);
    if m.prog[c.pc].Match? {
    } else {
      assert |q| > |p|;
      var n := |p|;
      var d := q[n];
      assert d in Succ(m, q[n - 1]) && q[n - 1] == c;
      assert q[..n] == p && q[..n + 1] == p + [d];
      if d == s[0] {
        Grow(m, p, d);
        BacktrackIsFirst(m, p + [d], q);
      } else {
        assert s[0] != s[1] && d == s[1];
        Grow(m, p, d);
        BacktrackIsFirst(m, p + [d], q);
        var r := Backtrack(m, p).value;
        if s[0] !in p && (Grow(m, p, s[0]); Backtrack(m, p + [s[0]])).Some? {
          assert r[n] == s[0] && r[..n] == p;
          NotBefore(m, q, r, n);
        }
      }
    }
  }

  /** Parting the wrong way round at n rules out parting anywhere. */
  lemma {:induction false} NotBefore(m: Machine, q: Path, r: Path, n: nat)
    requires WellFormed(m.prog) && Parts(m, r, q, n)
    ensures !Before(m, q, r)
  {
    forall k: nat ensures !Parts(m, q, r, k) {
    }
  }

  /** Cutting the loops out of an accepting path leaves an accepting simple path. */
  lemma {:induction false} CutLoops(m: Machine, q: Path) returns (s: Path)
    requires WellFormed(m.prog) && Accepting(m, q)
    ensures Accepting(m, s) && Simple(s) && s[0] == q[0]
    decreases |q|
  {
    hide WellFormed, Succ;
    if Simple(q) { return q; }
    var i, j :| 0 <= i < j < |q| && q[i] == q[j];
    SubPath(m, q, 0, i + 1);
    SubPath(m, q, j, |q|);
    JoinPaths(m, q[0..i + 1], q[j..]);
    var r := q[0..i + 1] + q[j..][1..];
    assert |r| < |q| && (j + 1 < |q| ==> Last(r) == Last(q)) && (j + 1 == |q| ==> Last(r) == q[i]);
    s := CutLoops(m, r);
  }

  ghost function Root(start: nat): Path {
    [Config(0, start)]
  }

  /** What matching from one start position must answer. */
  ghost function FirstMatch(m: Machine, start: nat): (r: Option<Path>)
    requires WellFormed(m.prog) && start <= |m.text|
    ensures r.Some? ==> Accepting(m, r.value) && Simple(r.value) && r.value[0] == Config(0, start)
  {
    Backtrack(m, Root(start))
  }

  /** The reference is complete for all runs, loops included, and picks the first in priority order. */
  lemma {:induction false} FirstMatchSpec(m: Machine, start: nat, q: Path)
    requires WellFormed(m.prog) && start <= |m.text|
    requires Accepting(m, q) && q[0] == Config(0, start)
    ensures FirstMatch(m, start).Some?
    ensures Simple(q) ==> !Before(m, q, FirstMatch(m, start).value)
  {
    var s := CutLoops(m, q);
    assert Root(start) <= s;
    BacktrackIsFirst(m, Root(start), s);
    if Simple(q) {
      assert Root(start) <= q;
      BacktrackIsFirst(m, Root(start), q);
    }
  }

  /** Priority is total: two accepting runs from one root are equal or one precedes the other. */
  lemma {:induction false} PriorityIsTotal(m: Machine, p: Path, q: Path)
    requires WellFormed(m.prog) && Accepting(m, p) && Accepting(m, q) && p[0] == q[0]
    ensures p == q || Before(m, p, q) || Before(m, q, p)
  {
    var k := 1;
    while k < |p| && k < |q| && p[k] == q[k]
      invariant 1 <= k <= |p| && k <= |q| && forall i :: 0 <= i < k ==> p[i] == q[i]
    {
      k := k + 1;
    }
    if k < |p| { assert p[k] in Succ(m, p[k - 1]); }
    if k < |q| { assert q[k] in Succ(m, q[k - 1]); }
    if k < |p| && k < |q| {
      assert Parts(m, p, q, k) || Parts(m, q, p, k);
    } else {
      assert p == q;
    }
  }
}
