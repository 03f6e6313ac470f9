/** The Pike VM on values: threads are the paths that lead to them, in falling priority. */
module Pike {
  import opened Basics
  import opened Machine
  import opened Backtracking

  const MAX_THREADS := 512

  /** What one closure adds: the threads it enqueues, the match it reaches, the pcs now visited. */
  datatype Closed = Closed(leaves: seq<Path>, hit: Option<Path>, vis: set<nat>)

  ghost function Pcs(m: Machine): set<nat> {
    set pc | 0 <= pc < |m.prog| && InBounds(m, Config(pc, 0))
  }

  ghost predicate Settled(m: Machine, threads: seq<Path>) {
    forall i :: 0 <= i < |threads| ==> |threads[i]| > 0 && InBounds(m, Last(threads[i]))
  }

  /** The epsilon closure of one thread; room is what is left of the thread list. */
  ghost function Closure(m: Machine, p: Path, vis: set<nat>, room: nat): (r: Closed)
    requires WellFormed(m.prog) && |p| > 0 && InBounds(m, Last(p))
    ensures vis <= r.vis && |r.leaves| <= room
    ensures Settled(m, r.leaves)
    decreases Pcs(m) - vis
  {
    var c := Last(p);
    if c.pc in vis then Closed([], None, vis)
    else
      assert c.pc in Pcs(m) - vis;
      var i := m.prog[c.pc];
      var seen := vis + {c.pc};
      if i.Match? then Closed([], Some(p), seen)
      else if Consuming(i) then Closed(if room > 0 then [p] else [], None, seen)
      else
        var s := Succ(m, c);
        if |s| == 0 then Closed([], None, seen)
        else
          var ra := Closure(m, p + [s[0]], seen, room);
          if |s| == 1 || ra.hit.Some? then ra
          else
            var rb := Closure(m, p + [s[1]], ra.vis, room - |ra.leaves|);
            Closed(ra.leaves + rb.leaves, rb.hit, rb.vis)
  }

  /** One text position: every thread that can take the byte is advanced, until one of them matches. */
  ghost function Advance(m: Machine, threads: seq<Path>, vis: set<nat>, room: nat): (r: Closed)
    requires WellFormed(m.prog)
    requires Settled(m, threads)
    ensures vis <= r.vis && |r.leaves| <= room
    ensures Settled(m, r.leaves)
  {
    if threads == [] then Closed([], None, vis)
    else
      var p := threads[0];
      var s := Succ(m, Last(p));
      if |s| == 0 then Advance(m, threads[1..], vis, room)
      else
        var first := Closure(m, p + [s[0]], vis, room);
        if first.hit.Some? then first
        else
          var rest := Advance(m, threads[1..], first.vis, room - |first.leaves|);
          Closed(first.leaves + rest.leaves, rest.hit, rest.vis)
  }

  /** A thread waits at position pos for a byte, by a run that entered no configuration twice. */
  ghost predicate Waiting(m: Machine, root: Config, pos: nat, p: Path)
    requires WellFormed(m.prog)
  {
    && IsPath(m, p) && Simple(p) && p[0] == root
    && Last(p).pos == pos && Consuming(m.prog[Last(p).pc])
    && forall i :: 0 <= i < |p| ==> p[i].pos <= pos
  }

  ghost predicate AllWaiting(m: Machine, root: Config, pos: nat, threads: seq<Path>)
    requires WellFormed(m.prog)
  {
    forall i :: 0 <= i < |threads| ==> Waiting(m, root, pos, threads[i])
  }

  /** A run that may be extended: what it passed through at its last position is marked visited. */
  ghost predicate Live(m: Machine, root: Config, p: Path, vis: set<nat>)
    requires WellFormed(m.prog)
  {
    && IsPath(m, p) && p[0] == root
    && Simple(p[..|p| - 1])
    && forall i :: 0 <= i < |p| - 1 ==>
        p[i].pos <= Last(p).pos && (p[i].pos == Last(p).pos ==> p[i].pc in vis)
  }

  ghost predicate GoodHit(m: Machine, root: Config, hit: Option<Path>)
    requires WellFormed(m.prog)
  {
    hit.Some? ==> Accepting(m, hit.value) && Simple(hit.value) && hit.value[0] == root
  }

  lemma {:induction false} LiveSettles(m: Machine, root: Config, p: Path, vis: set<nat>)
    requires WellFormed(m.prog) && Live(m, root, p, vis) && Last(p).pc !in vis
    ensures IsPath(m, p) && Simple(p) && p[0] == root
    ensures Consuming(m.prog[Last(p).pc]) ==> Waiting(m, root, Last(p).pos, p)
    ensures m.prog[Last(p).pc].Match? ==> GoodHit(m, root, Some(p))
  {
    var q := p[..|p| - 1];
    forall i, j | 0 <= i < j < |p| ensures p[i] != p[j] {
      if j < |q| { assert q[i] != q[j]; }
    }
  }

  lemma {:induction false} LiveGrows(m: Machine, root: Config, p: Path, vis: set<nat>, c: Config, vis': set<nat>)
    requires WellFormed(m.prog) && Live(m, root, p, vis) && Last(p).pc !in vis
    requires c in Succ(m, Last(p))
    requires c.pos == Last(p).pos ==> vis + {Last(p).pc} <= vis'
    ensures Live(m, root, p + [c], vis')
  {
    LiveSettles(m, root, p, vis);
    ExtendPath(m, p, c);
    assert (p + [c])[..|p|] == p;
  }

  /** An epsilon step does not move. */
  lemma {:induction false} EpsilonStays(m: Machine, c: Config)
    requires WellFormed(m.prog) && InBounds(m, c) && !Consuming(m.prog[c.pc])
    ensures forall x :: x in Succ(m, c) ==> x.pos == c.pos
  {
  }

  lemma {:induction false} WaitingTakes(m: Machine, root: Config, pos: nat, p: Path, c: Config, vis: set<nat>)
    requires WellFormed(m.prog) && Waiting(m, root, pos, p) && c in Succ(m, Last(p))
    ensures Live(m, root, p + [c], vis) && c.pos == pos + 1 && Succ(m, Last(p)) == [c]
  {
    ExtendPath(m, p, c);
    assert (p + [c])[..|p|] == p;
  }

  lemma {:induction false} InPcs(m: Machine, c: Config)
    requires InBounds(m, c)
    ensures c.pc in Pcs(m)
  {
  }

  lemma {:induction false} ClosureUnfolds(m: Machine, p: Path, vis: set<nat>, room: nat)
    requires WellFormed(m.prog) && |p| > 0 && InBounds(m, Last(p)) && Last(p).pc !in vis
    ensures
      var c := Last(p);
      var i := m.prog[c.pc];
      var seen := vis + {c.pc};
      var s := Succ(m, c);
      var r := Closure(m, p, vis, room);
      if i.Match? then r == Closed([], Some(p), seen)
      else if Consuming(i) then r == Closed(if room > 0 then [p] else [], None, seen)
      else if |s| == 0 then r == Closed([], None, seen)
      else
        var ra := Closure(m, p + [s[0]], seen, room);
        if |s| == 1 || ra.hit.Some? then r == ra
        else
          var rb := Closure(m, p + [s[1]], ra.vis, room - |ra.leaves|);
          r == Closed(ra.leaves + rb.leaves, rb.hit, rb.vis)
  {
    hide Settled, Succ, WellFormed;
    InPcs(m, Last(p));
  }

  lemma {:induction false} ClosureSound(m: Machine, root: Config, p: Path, vis: set<nat>, room: nat)
    requires WellFormed(m.prog) && |p| > 0 && InBounds(m, Last(p)) && Live(m, root, p, vis)
    ensures var r := Closure(m, p, vis, room);
      AllWaiting(m, root, Last(p).pos, r.leaves) && GoodHit(m, root, r.hit)
    decreases Pcs(m) - vis
  {
    hide Settled, Pcs, WellFormed, Live, IsPath, Simple, Waiting, Succ, Before, Closure;
    var c := Last(p);
    if c.pc in vis {
      ClosureSeen(m, p, vis, room);
    } else {
      ClosureUnfolds(m, p, vis, room);
      LiveSettles(m, root, p, vis);
      InPcs(m, c);
      var seen := vis + {c.pc};
      var s := Succ(m, c);
      if !m.prog[c.pc].Match? && !Consuming(m.prog[c.pc]) && |s| > 0 {
        EpsilonStays(m, c);
        LiveGrows(m, root, p, vis, s[0], seen);
        ClosureSound(m, root, p + [s[0]], seen, room);
        var ra := Closure(m, p + [s[0]], seen, room);
        if |s| > 1 && ra.hit.None? {
          LiveGrows(m, root, p, vis, s[1], ra.vis);
          ClosureSound(m, root, p + [s[1]], ra.vis, room - |ra.leaves|);
        }
      }
    }
  }

  lemma {:induction false} AdvanceUnfolds(m: Machine, threads: seq<Path>, vis: set<nat>, room: nat)
    requires WellFormed(m.prog) && threads != []
    requires Settled(m, threads)
    ensures
      Settled(m, threads[1..]) &&
      |threads[0]| > 0 && InBounds(m, Last(threads[0])) &&
      var s := Succ(m, Last(threads[0]));
      var r := Advance(m, threads, vis, room);
      if |s| == 0 then r == Advance(m, threads[1..], vis, room)
      else
        var first := Closure(m, threads[0] + [s[0]], vis, room);
        if first.hit.Some? then r == first
        else
          var rest := Advance(m, threads[1..], first.vis, room - |first.leaves|);
          r == Closed(first.leaves + rest.leaves, rest.hit, rest.vis)
  {
    hide Closure, Succ, WellFormed;
  }

  lemma {:induction false} AdvanceSound(m: Machine, root: Config, pos: nat, threads: seq<Path>, vis: set<nat>, room: nat)
    requires WellFormed(m.prog) && AllWaiting(m, root, pos, threads) && Settled(m, threads)
    ensures var r := Advance(m, threads, vis, room);
      AllWaiting(m, root, pos + 1, r.leaves) && GoodHit(m, root, r.hit)
  {
    hide WellFormed, Live, IsPath, Simple, Waiting, Settled, Closure, Succ;
    if threads != [] {
      AdvanceUnfolds(m, threads, vis, room);
      var p := threads[0];
      var s := Succ(m, Last(p));
      if |s| == 0 {
        AdvanceSound(m, root, pos, threads[1..], vis, room);
      } else {
        WaitingTakes(m, root, pos, p, s[0], vis);
        ClosureSound(m, root, p + [s[0]], vis, room);
        var first := Closure(m, p + [s[0]], vis, room);
        if first.hit.None? {
          AdvanceSound(m, root, pos, threads[1..], first.vis, room - |first.leaves|);
        }
      }
    }
  }

  // ---- nothing is dropped while the list has room for every consuming instruction ----

  ghost function Consumers(m: Machine): set<nat> {
    set pc | 0 <= pc < |m.prog| && Consuming(m.prog[pc])
  }

  lemma {:induction false} VisitCounts(m: Machine, c: Config, vis: set<nat>)
    requires InBounds(m, c) && c.pc !in vis
    ensures |Consumers(m) - vis| ==
      |Consumers(m) - (vis + {c.pc})| + if Consuming(m.prog[c.pc]) then 1 else 0
  {
    if Consuming(m.prog[c.pc]) {
      assert Consumers(m) - vis == Consumers(m) - (vis + {c.pc}) + {c.pc};
    } else {
      assert Consumers(m) - vis == Consumers(m) - (vis + {c.pc});
    }
  }

  lemma {:induction false} ClosureSeen(m: Machine, p: Path, vis: set<nat>, room: nat)
    requires WellFormed(m.prog) && |p| > 0 && InBounds(m, Last(p)) && Last(p).pc in vis
    ensures Closure(m, p, vis, room) == Closed([], None, vis)
  {
  }

  lemma {:induction false} ClosureRoom(m: Machine, p: Path, vis: set<nat>, room: nat)
    requires WellFormed(m.prog) && |p| > 0 && InBounds(m, Last(p))
    ensures var r := Closure(m, p, vis, room);
      |r.leaves| + |Consumers(m) - r.vis| <= |Consumers(m) - vis|
    decreases Pcs(m) - vis
  {
    hide Settled, Pcs, Succ, WellFormed, Consumers, Consuming, Closure;
    var c := Last(p);
    if c.pc in vis {
      ClosureSeen(m, p, vis, room);
    } else {
      ClosureUnfolds(m, p, vis, room);
      InPcs(m, c);
      VisitCounts(m, c, vis);
      var s := Succ(m, c);
      var seen := vis + {c.pc};
      if !Consuming(m.prog[c.pc]) && !m.prog[c.pc].Match? && |s| > 0 {
        ClosureRoom(m, p + [s[0]], seen, room);
        var ra := Closure(m, p + [s[0]], seen, room);
        if |s| > 1 && ra.hit.None? {
          ClosureRoom(m, p + [s[1]], ra.vis, room - |ra.leaves|);
        }
      }
    }
  }

  // ---- the first accepting run is never lost ----

  /** star is the run the reference picks. */
  ghost predicate IsFirst(m: Machine, root: Config, star: Path)
    requires WellFormed(m.prog)
  {
    && Accepting(m, star) && Simple(star) && star[0] == root
    && forall q :: Accepting(m, q) && Simple(q) && q[0] == root ==> !Before(m, q, star)
  }

  ghost predicate AllBefore(m: Machine, star: Path, threads: seq<Path>)
    requires WellFormed(m.prog)
  {
    forall i :: 0 <= i < |threads| ==> Before(m, threads[i], star)
  }

  /** Some thread is a prefix of star and every thread above it precedes star. */
  ghost predicate OnTrack(m: Machine, star: Path, threads: seq<Path>)
    requires WellFormed(m.prog)
  {
    && threads != []
    && (threads[0] <= star || (Before(m, threads[0], star) && OnTrack(m, star, threads[1..])))
  }

  ghost predicate Keeps(m: Machine, star: Path, threads: seq<Path>, hit: Option<Path>)
    requires WellFormed(m.prog)
  {
    (hit == Some(star) && AllBefore(m, star, threads)) || OnTrack(m, star, threads)
  }

  /** g reached c without loops, ahead of star or along its first n configurations. */
  ghost predicate Claims(m: Machine, root: Config, star: Path, n: nat, c: Config, g: Path)
    requires WellFormed(m.prog)
  {
    && IsPath(m, g) && Simple(g) && g[0] == root && Last(g) == c
    && (Before(m, g, star) || (g <= star && |g| <= n))
  }

  ghost predicate AllClaimed(m: Machine, root: Config, star: Path, n: nat, pos: nat, vis: set<nat>)
    requires WellFormed(m.prog)
  {
    forall v :: v in vis ==> exists g :: Claims(m, root, star, n, Config(v, pos), g)
  }

  /** g up to where it last meets star, then star to its end. */
  lemma {:induction false} Splice(m: Machine, g: Path, i: nat, star: Path, j: nat, k: nat) returns (q: Path)
    requires WellFormed(m.prog) && IsPath(m, g) && Simple(g) && Accepting(m, star) && Simple(star)
    requires i < |g| && j < |star| && g[i] == star[j]
    requires forall x :: j < x < |star| ==> star[x] !in g
    requires k <= i && Parts(m, g, star, k)
    ensures Accepting(m, q) && Simple(q) && q[0] == g[0] && Before(m, q, star)
  {
    SubPath(m, g, 0, i + 1);
    SubPath(m, star, j, |star|);
    JoinPaths(m, g[0..i + 1], star[j..]);
    q := g[0..i + 1] + star[j..][1..];
    assert Parts(m, q, star, k);
    hide Settled, IsPath, Parts;
    assert Simple(q) by {
      forall x, y | 0 <= x < y < |q| ensures q[x] != q[y] {
        if y > i { assert q[y] == star[y - i + j]; }
        if x > i { assert q[x] == star[x - i + j]; }
        if x <= i { assert q[x] == g[x]; }
        if y <= i { assert q[y] == g[y]; }
      }
    }
    assert Last(q) == Last(star);
  }

  /** A run ahead of star that meets star again yields a match ahead of star. */
  lemma {:induction false} Shortcut(m: Machine, star: Path, n: nat, g: Path) returns (q: Path)
    requires WellFormed(m.prog) && Accepting(m, star) && Simple(star) && n < |star|
    requires IsPath(m, g) && Simple(g) && Last(g) == star[n] && Before(m, g, star)
    ensures Accepting(m, q) && Simple(q) && q[0] == g[0] && Before(m, q, star)
  {
    assert |g| > 0;
    hide Settled, IsPath, Succ, WellFormed;
    var k: nat :| Parts(m, g, star, k);
    var j := |star| - 1;
    while star[j] !in g
      invariant n <= j < |star| && forall x :: j < x < |star| ==> star[x] !in g
      decreases j
    {
      j := j - 1;
    }
    var i: nat :| i < |g| && g[i] == star[j];
    assert k <= n;
    q := Splice(m, g, i, star, j, k);
  }

  /** The next configuration of star is always reached for the first time. */
  lemma {:induction false} FreshOnStar(m: Machine, root: Config, star: Path, p: Path, vis: set<nat>)
    requires WellFormed(m.prog) && IsFirst(m, root, star) && |p| > 0 && p <= star
    requires AllClaimed(m, root, star, |p| - 1, Last(p).pos, vis)
    ensures Last(p).pc !in vis
  {
    hide Settled, Succ, WellFormed, Before;
    var n := |p| - 1;
    assert Last(p) == star[n];
    if star[n].pc in vis {
      var g :| Claims(m, root, star, n, Config(star[n].pc, star[n].pos), g);
      if Before(m, g, star) {
        var q := Shortcut(m, star, n, g);
      }
    }
  }

  lemma {:induction false} Claim(m: Machine, root: Config, star: Path, n: nat, vis: set<nat>, p: Path)
    requires WellFormed(m.prog) && |p| > 0 && AllClaimed(m, root, star, n, Last(p).pos, vis)
    requires IsPath(m, p) && Simple(p) && p[0] == root
    requires Before(m, p, star) || (p <= star && |p| <= n)
    ensures AllClaimed(m, root, star, n, Last(p).pos, vis + {Last(p).pc})
  {
    hide Settled, IsPath, Simple, WellFormed, Before;
    assert Claims(m, root, star, n, Last(p), p);
  }

  lemma {:induction false} ClaimLonger(m: Machine, root: Config, star: Path, n: nat, n': nat, pos: nat, vis: set<nat>)
    requires WellFormed(m.prog) && AllClaimed(m, root, star, n, pos, vis) && n <= n'
    ensures AllClaimed(m, root, star, n', pos, vis)
  {
    hide Settled, IsPath, Simple, WellFormed, Before;
    forall v | v in vis ensures exists g :: Claims(m, root, star, n', Config(v, pos), g) {
      var g :| Claims(m, root, star, n, Config(v, pos), g);
      assert Claims(m, root, star, n', Config(v, pos), g);
    }
  }

  /** A prefix of an accepting run either is that run or goes on along it. */
  lemma {:induction false} NextOnStar(m: Machine, star: Path, p: Path)
    requires WellFormed(m.prog) && Accepting(m, star) && |p| > 0 && p <= star && InBounds(m, Last(p))
    ensures m.prog[Last(p).pc].Match? ==> p == star
    ensures !m.prog[Last(p).pc].Match? ==>
      |p| < |star| && star[|p|] in Succ(m, Last(p)) && p + [star[|p|]] <= star
  {
    if |p| < |star| {
      assert star[|p|] in Succ(m, star[|p| - 1]);
    }
  }

  lemma {:induction false} OtherBranch(m: Machine, star: Path, p: Path)
    requires WellFormed(m.prog) && Accepting(m, star) && 0 < |p| < |star| && p <= star
    requires |Succ(m, Last(p))| > 0 && star[|p|] != Succ(m, Last(p))[0]
    ensures |Succ(m, Last(p))| == 2 && star[|p|] == Succ(m, Last(p))[1]
    ensures Before(m, p + [Succ(m, Last(p))[0]], star)
  {
    NextOnStar(m, star, p);
    assert Parts(m, p + [Succ(m, Last(p))[0]], star, |p|);
  }

  /** A closure started ahead of star stays ahead of it: it matches nothing. */
  lemma {:induction false} ClosureAhead(m: Machine, root: Config, star: Path, n: nat, p: Path, vis: set<nat>, room: nat)
    requires WellFormed(m.prog) && |p| > 0 && InBounds(m, Last(p)) && Live(m, root, p, vis)
    requires IsFirst(m, root, star)
    requires Before(m, p, star) && AllClaimed(m, root, star, n, Last(p).pos, vis)
    ensures var r := Closure(m, p, vis, room);
      r.hit.None? && AllBefore(m, star, r.leaves) && AllClaimed(m, root, star, n, Last(p).pos, r.vis)
    decreases Pcs(m) - vis
  {
    hide Settled, Pcs, WellFormed, Live, IsPath, Simple, Waiting, Succ, Before, AllClaimed, Closure;
    var c := Last(p);
    if c.pc in vis {
      ClosureSeen(m, p, vis, room);
    } else {
      ClosureUnfolds(m, p, vis, room);
      LiveSettles(m, root, p, vis);
      InPcs(m, c);
      Claim(m, root, star, n, vis, p);
      var seen := vis + {c.pc};
      var s := Succ(m, c);
      if !m.prog[c.pc].Match? && !Consuming(m.prog[c.pc]) && |s| > 0 {
        EpsilonStays(m, c);
        LiveGrows(m, root, p, vis, s[0], seen);
        BeforeExtends(m, p, star, [s[0]]);
        ClosureAhead(m, root, star, n, p + [s[0]], seen, room);
        var ra := Closure(m, p + [s[0]], seen, room);
        if |s| > 1 {
          LiveGrows(m, root, p, vis, s[1], ra.vis);
          BeforeExtends(m, p, star, [s[1]]);
          ClosureAhead(m, root, star, n, p + [s[1]], ra.vis, room - |ra.leaves|);
        }
      }
    }
  }

  lemma {:induction false} OnTrackAppends(m: Machine, star: Path, above: seq<Path>, below: seq<Path>)
    requires WellFormed(m.prog)
    requires OnTrack(m, star, above) || (AllBefore(m, star, above) && OnTrack(m, star, below))
    ensures OnTrack(m, star, above + below)
  {
    if above == [] {
      assert above + below == below;
    } else {
      assert (above + below)[1..] == above[1..] + below;
      if !(above[0] <= star) {
        OnTrackAppends(m, star, above[1..], below);
      }
    }
  }

  /** Threads known to precede star may be put above a list that keeps it. */
  lemma {:induction false} KeepsBelow(m: Machine, star: Path, above: seq<Path>, below: seq<Path>, hit: Option<Path>)
    requires WellFormed(m.prog) && AllBefore(m, star, above) && Keeps(m, star, below, hit)
    ensures Keeps(m, star, above + below, hit)
  {
    if OnTrack(m, star, below) {
      OnTrackAppends(m, star, above, below);
    }
  }

  /** Anything may be put below a list that keeps star and did not match. */
  lemma {:induction false} KeepsAbove(m: Machine, star: Path, above: seq<Path>, below: seq<Path>, hit: Option<Path>)
    requires WellFormed(m.prog) && Keeps(m, star, above, None)
    ensures Keeps(m, star, above + below, hit)
  {
    OnTrackAppends(m, star, above, below);
  }

  lemma {:induction false} KeepsHere(m: Machine, star: Path, p: Path)
    requires WellFormed(m.prog) && p <= star
    ensures Keeps(m, star, [p], None)
    ensures Keeps(m, star, [], Some(star))
  {
    assert [p][0] == p;
  }

  /** A closure started on star matches star itself or leaves a thread on it. */
  lemma {:induction false} ClosureOnTrack(m: Machine, root: Config, star: Path, p: Path, vis: set<nat>, room: nat)
    requires WellFormed(m.prog) && |p| > 0 && InBounds(m, Last(p)) && Live(m, root, p, vis)
    requires IsFirst(m, root, star)
    requires p <= star && AllClaimed(m, root, star, |p| - 1, Last(p).pos, vis)
    requires |Consumers(m) - vis| <= room
    ensures var r := Closure(m, p, vis, room);
      Keeps(m, star, r.leaves, r.hit)
    decreases Pcs(m) - vis
  {
    hide Settled, Pcs, Consumers, Succ, WellFormed, Live, IsPath, Simple, Waiting, Before, AllClaimed, OnTrack, AllBefore, Keeps, Accepting, Consuming, Closure;
    var c := Last(p);
    var n := |p|;
    FreshOnStar(m, root, star, p, vis);
    if c.pc !in vis {
      LiveSettles(m, root, p, vis);
      InPcs(m, c);
      var seen := vis + {c.pc};
      NextOnStar(m, star, p);
      VisitCounts(m, c, vis);
      ClosureUnfolds(m, p, vis, room);
      KeepsHere(m, star, p);
      if !m.prog[c.pc].Match? && !Consuming(m.prog[c.pc]) {
        ClaimLonger(m, root, star, n - 1, n, c.pos, vis);
        Claim(m, root, star, n, vis, p);
        var s := Succ(m, c);
        EpsilonStays(m, c);
        var ra := Closure(m, p + [s[0]], seen, room);
        LiveGrows(m, root, p, vis, s[0], seen);
        if star[n] == s[0] {
          ClosureOnTrack(m, root, star, p + [s[0]], seen, room);
          if |s| > 1 && ra.hit.None? {
            var rb := Closure(m, p + [s[1]], ra.vis, room - |ra.leaves|);
            KeepsAbove(m, star, ra.leaves, rb.leaves, rb.hit);
          }
        } else {
          OtherBranch(m, star, p);
          ClosureAhead(m, root, star, n, p + [s[0]], seen, room);
          ClosureRoom(m, p + [s[0]], seen, room);
          LiveGrows(m, root, p, vis, s[1], ra.vis);
          ClosureOnTrack(m, root, star, p + [s[1]], ra.vis, room - |ra.leaves|);
          var rb := Closure(m, p + [s[1]], ra.vis, room - |ra.leaves|);
          KeepsBelow(m, star, ra.leaves, rb.leaves, rb.hit);
        }
      }
    }
  }

  lemma {:induction false} AdvanceAhead(m: Machine, root: Config, star: Path, pos: nat, threads: seq<Path>, vis: set<nat>, room: nat)
    requires WellFormed(m.prog) && AllWaiting(m, root, pos, threads) && Settled(m, threads)
    requires IsFirst(m, root, star)
    requires AllBefore(m, star, threads) && AllClaimed(m, root, star, 0, pos + 1, vis)
    ensures var r := Advance(m, threads, vis, room);
      r.hit.None? && AllBefore(m, star, r.leaves)
  {
    hide Settled, WellFormed, Live, IsPath, Simple, Before, AllClaimed, IsFirst, Closure, Succ;
    if threads != [] {
      AdvanceUnfolds(m, threads, vis, room);
      var p := threads[0];
      var s := Succ(m, Last(p));
      if |s| == 0 {
        AdvanceAhead(m, root, star, pos, threads[1..], vis, room);
      } else {
        WaitingTakes(m, root, pos, p, s[0], vis);
        BeforeExtends(m, p, star, [s[0]]);
        ClosureAhead(m, root, star, 0, p + [s[0]], vis, room);
        var first := Closure(m, p + [s[0]], vis, room);
        AdvanceAhead(m, root, star, pos, threads[1..], first.vis, room - |first.leaves|);
      }
    }
  }

  lemma {:induction false} AdvanceOnTrack(m: Machine, root: Config, star: Path, pos: nat, threads: seq<Path>, vis: set<nat>, room: nat)
    requires WellFormed(m.prog) && AllWaiting(m, root, pos, threads) && Settled(m, threads)
    requires IsFirst(m, root, star)
    requires OnTrack(m, star, threads) && AllClaimed(m, root, star, 0, pos + 1, vis)
    requires |Consumers(m) - vis| <= room
    ensures var r := Advance(m, threads, vis, room);
      Keeps(m, star, r.leaves, r.hit)
  {
    hide Settled, WellFormed, Live, IsPath, Simple, Before, AllClaimed, Keeps, Closure, Consumers, Succ;
    AdvanceUnfolds(m, threads, vis, room);
    var p := threads[0];
    var s := Succ(m, Last(p));
    if |s| == 0 {
      if p <= star { NextOnStar(m, star, p); }
      else { AdvanceOnTrack(m, root, star, pos, threads[1..], vis, room); }
    } else {
      var first := Closure(m, p + [s[0]], vis, room);
      WaitingTakes(m, root, pos, p, s[0], vis);
      if p <= star {
        NextOnStar(m, star, p);
        ClaimLonger(m, root, star, 0, |p|, pos + 1, vis);
        ClosureOnTrack(m, root, star, p + [s[0]], vis, room);
        if first.hit.None? {
          var rest := Advance(m, threads[1..], first.vis, room - |first.leaves|);
          KeepsAbove(m, star, first.leaves, rest.leaves, rest.hit);
        }
      } else {
        BeforeExtends(m, p, star, [s[0]]);
        ClosureAhead(m, root, star, 0, p + [s[0]], vis, room);
        ClosureRoom(m, p + [s[0]], vis, room);
        AdvanceOnTrack(m, root, star, pos, threads[1..], first.vis, room - |first.leaves|);
        var rest := Advance(m, threads[1..], first.vis, room - |first.leaves|);
        KeepsBelow(m, star, first.leaves, rest.leaves, rest.hit);
      }
    }
  }

  /** The position loop of vm_exec_range: best is the match recorded so far. */
  ghost function Run(m: Machine, threads: seq<Path>, best: Option<Path>, pos: nat): (r: Option<Path>)
    requires WellFormed(m.prog)
    requires Settled(m, threads)
    decreases |m.text| - pos
  {
    if threads == [] || pos >= |m.text| then best
    else
      var r := Advance(m, threads, {}, MAX_THREADS);
      Run(m, r.leaves, if r.hit.Some? then r.hit else best, pos + 1)
  }

  /** vm_exec_range from pc 0. */
  ghost function Exec(m: Machine, start: nat): (r: Option<Path>)
    requires WellFormed(m.prog) && start <= |m.text|
  {
    var r := Closure(m, Root(start), {}, MAX_THREADS);
    Run(m, r.leaves, r.hit, start)
  }

  lemma {:induction false} RunSound(m: Machine, root: Config, threads: seq<Path>, best: Option<Path>, pos: nat)
    requires WellFormed(m.prog) && AllWaiting(m, root, pos, threads) && Settled(m, threads)
    requires GoodHit(m, root, best)
    ensures GoodHit(m, root, Run(m, threads, best, pos))
    decreases |m.text| - pos
  {
    hide WellFormed, Waiting, Settled, GoodHit, Advance;
    if threads != [] && pos < |m.text| {
      AdvanceSound(m, root, pos, threads, {}, MAX_THREADS);
      var r := Advance(m, threads, {}, MAX_THREADS);
      RunSound(m, root, r.leaves, if r.hit.Some? then r.hit else best, pos + 1);
    }
  }

  lemma {:induction false} RunFinds(m: Machine, root: Config, star: Path, threads: seq<Path>, best: Option<Path>, pos: nat)
    requires WellFormed(m.prog) && AllWaiting(m, root, pos, threads) && Settled(m, threads)
    requires IsFirst(m, root, star) && Keeps(m, star, threads, best)
    requires |Consumers(m)| <= MAX_THREADS && pos <= |m.text|
    ensures Run(m, threads, best, pos) == Some(star)
    decreases |m.text| - pos
  {
    hide WellFormed, Waiting, Settled, Advance, Consumers, IsFirst, AllClaimed, Before;
    if pos == |m.text| {
      NotAtEnd(m, root, star, threads, pos);
    } else if threads != [] {
      AdvanceSound(m, root, pos, threads, {}, MAX_THREADS);
      assert Consumers(m) - {} == Consumers(m);
      NoClaims(m, root, star, pos + 1);
      var r := Advance(m, threads, {}, MAX_THREADS);
      if OnTrack(m, star, threads) {
        AdvanceOnTrack(m, root, star, pos, threads, {}, MAX_THREADS);
      } else {
        AdvanceAhead(m, root, star, pos, threads, {}, MAX_THREADS);
      }
      RunFinds(m, root, star, r.leaves, if r.hit.Some? then r.hit else best, pos + 1);
    }
  }

  lemma {:induction false} NoClaims(m: Machine, root: Config, star: Path, pos: nat)
    requires WellFormed(m.prog)
    ensures AllClaimed(m, root, star, 0, pos, {})
  {
  }

  /** At the end of the text no waiting thread is on star. */
  lemma {:induction false} NotAtEnd(m: Machine, root: Config, star: Path, threads: seq<Path>, pos: nat)
    requires WellFormed(m.prog) && AllWaiting(m, root, pos, threads) && pos == |m.text|
    requires IsFirst(m, root, star)
    ensures !OnTrack(m, star, threads)
  {
    if threads != [] {
      assert Waiting(m, root, pos, threads[0]);
      if threads[0] <= star { NextOnStar(m, star, threads[0]); }
      NotAtEnd(m, root, star, threads[1..], pos);
    }
  }

  /** What the VM answers is always a real match, whatever the size of the program. */
  lemma {:induction false} ExecSound(m: Machine, start: nat)
    requires WellFormed(m.prog) && start <= |m.text|
    ensures GoodHit(m, Config(0, start), Exec(m, start))
  {
    var root := Config(0, start);
    ClosureSound(m, root, Root(start), {}, MAX_THREADS);
    var r := Closure(m, Root(start), {}, MAX_THREADS);
    RunSound(m, root, r.leaves, r.hit, start);
  }

  /** The breadth-first VM, shared visited set and all, answers exactly what naive backtracking answers. */
  lemma {:induction false} ExecIsFirstMatch(m: Machine, start: nat)
    requires WellFormed(m.prog) && start <= |m.text| && |Consumers(m)| <= 512
    ensures Exec(m, start) == FirstMatch(m, start)
  {
    ExecSound(m, start);
    hide WellFormed, Exec, Accepting, Simple, Before, IsFirst, Consumers;
    if FirstMatch(m, start).Some? {
      FirstIsFirst(m, start);
      ExecFinds(m, start, FirstMatch(m, start).value);
    } else if Exec(m, start).Some? {
      FirstMatchSpec(m, start, Exec(m, start).value);
    }
  }

  lemma {:induction false} FirstIsFirst(m: Machine, start: nat)
    requires WellFormed(m.prog) && start <= |m.text| && FirstMatch(m, start).Some?
    ensures IsFirst(m, Config(0, start), FirstMatch(m, start).value)
  {
    hide WellFormed, FirstMatch, Before, Succ;
    var star := FirstMatch(m, start).value;
    forall q | Accepting(m, q) && Simple(q) && q[0] == Config(0, start) ensures !Before(m, q, star) {
      FirstMatchSpec(m, start, q);
    }
  }

  lemma {:induction false} ExecFinds(m: Machine, start: nat, star: Path)
    requires WellFormed(m.prog) && start <= |m.text| && |Consumers(m)| <= MAX_THREADS && IsFirst(m, Config(0, start), star)
    ensures Exec(m, start) == Some(star)
  {
    var root := Config(0, start);
    NoClaims(m, root, star, start);
    RootWaits(m, start);
    RootOnStar(m, start, star);
    hide WellFormed, Closure, IsFirst, AllWaiting, Settled, Run, Consumers, AllClaimed, Live;
    assert Consumers(m) - {} == Consumers(m);
    ClosureOnTrack(m, root, star, Root(start), {}, MAX_THREADS);
    var r := Closure(m, Root(start), {}, MAX_THREADS);
    RunFinds(m, root, star, r.leaves, r.hit, start);
  }

  lemma {:induction false} RootOnStar(m: Machine, start: nat, star: Path)
    requires WellFormed(m.prog) && start <= |m.text| && IsFirst(m, Config(0, start), star)
    ensures |Root(start)| == 1 && InBounds(m, Last(Root(start))) && Last(Root(start)).pos == start
    ensures Root(start) <= star && Live(m, Config(0, start), Root(start), {})
  {
  }

  // ---- one thread per pc ----

  /** No two threads wait at the same pc, and all of them wait at pcs that are marked visited now and were not before. */
  ghost predicate Spread(threads: seq<Path>, was: set<nat>, now: set<nat>) {
    && (forall i :: 0 <= i < |threads| ==> |threads[i]| > 0 && Last(threads[i]).pc in now && Last(threads[i]).pc !in was)
    && (forall i, j :: 0 <= i < j < |threads| ==> Last(threads[i]).pc != Last(threads[j]).pc)
  }

  lemma {:induction false} SpreadJoins(a: seq<Path>, b: seq<Path>, was: set<nat>, mid: set<nat>, now: set<nat>)
    requires Spread(a, was, mid) && Spread(b, mid, now) && was <= mid <= now
    ensures Spread(a + b, was, now)
  {
  }

  lemma {:induction false} SpreadWider(a: seq<Path>, was: set<nat>, mid: set<nat>, now: set<nat>)
    requires Spread(a, mid, now) && was <= mid
    ensures Spread(a, was, now)
  {
  }

  lemma {:induction false} ClosureSpreads(m: Machine, p: Path, vis: set<nat>, room: nat)
    requires WellFormed(m.prog) && |p| > 0 && InBounds(m, Last(p))
    ensures Spread(Closure(m, p, vis, room).leaves, vis, Closure(m, p, vis, room).vis)
    decreases Pcs(m) - vis
  {
    hide Pcs, WellFormed, Succ, Spread, Closure;
    var c := Last(p);
    if c.pc in vis {
      ClosureSeen(m, p, vis, room);
      SpreadNone(vis);
    } else {
      ClosureUnfolds(m, p, vis, room);
      InPcs(m, c);
      var seen := vis + {c.pc};
      var s := Succ(m, c);
      SpreadNone(vis);
      SpreadOne(p, vis);
      if !m.prog[c.pc].Match? && !Consuming(m.prog[c.pc]) && |s| > 0 {
        var ra := Closure(m, p + [s[0]], seen, room);
        ClosureSpreads(m, p + [s[0]], seen, room);
        SpreadWider(ra.leaves, vis, seen, ra.vis);
        if |s| > 1 && ra.hit.None? {
          var rb := Closure(m, p + [s[1]], ra.vis, room - |ra.leaves|);
          ClosureSpreads(m, p + [s[1]], ra.vis, room - |ra.leaves|);
          SpreadJoins(ra.leaves, rb.leaves, vis, ra.vis, rb.vis);
        }
      }
    }
  }

  lemma {:induction false} SpreadNone(vis: set<nat>)
    ensures forall now :: Spread([], vis, now)
  {
  }

  lemma {:induction false} SpreadOne(p: Path, vis: set<nat>)
    requires |p| > 0 && Last(p).pc !in vis
    ensures Spread([p], vis, vis + {Last(p).pc})
  {
  }

  lemma {:induction false} AdvanceSpreads(m: Machine, threads: seq<Path>, vis: set<nat>, room: nat)
    requires WellFormed(m.prog) && Settled(m, threads)
    ensures Spread(Advance(m, threads, vis, room).leaves, vis, Advance(m, threads, vis, room).vis)
  {
    hide WellFormed, Succ, Spread, Closure;
    SpreadNone(vis);
    if threads != [] {
      AdvanceUnfolds(m, threads, vis, room);
      hide Advance;
      var p := threads[0];
      var s := Succ(m, Last(p));
      if |s| == 0 {
        AdvanceSpreads(m, threads[1..], vis, room);
      } else {
        var first := Closure(m, p + [s[0]], vis, room);
        ClosureSpreads(m, p + [s[0]], vis, room);
        if first.hit.None? {
          var rest := Advance(m, threads[1..], first.vis, room - |first.leaves|);
          AdvanceSpreads(m, threads[1..], first.vis, room - |first.leaves|);
          SpreadJoins(first.leaves, rest.leaves, vis, first.vis, rest.vis);
        }
      }
    }
  }

  /** The threads of vm_exec_range k positions after the start. */
  ghost function ThreadsAt(m: Machine, start: nat, k: nat): (threads: seq<Path>)
    requires WellFormed(m.prog) && start <= |m.text|
    ensures Settled(m, threads)
  {
    if k == 0 then Closure(m, Root(start), {}, MAX_THREADS).leaves
    else Advance(m, ThreadsAt(m, start, k - 1), {}, MAX_THREADS).leaves
  }

  /** At every position the threads wait there for a byte, each at a pc of its own. */
  lemma {:induction false} ThreadsApart(m: Machine, start: nat, k: nat)
    requires WellFormed(m.prog) && start <= |m.text|
    ensures AllWaiting(m, Config(0, start), start + k, ThreadsAt(m, start, k))
    ensures exists now :: Spread(ThreadsAt(m, start, k), {}, now)
    decreases k
  {
    hide WellFormed, Waiting, Settled, Spread, Closure, Advance;
    if k == 0 {
      RootWaits(m, start);
      ClosureSpreads(m, Root(start), {}, MAX_THREADS);
    } else {
      ThreadsApart(m, start, k - 1);
      AdvanceSound(m, Config(0, start), start + k - 1, ThreadsAt(m, start, k - 1), {}, MAX_THREADS);
      AdvanceSpreads(m, ThreadsAt(m, start, k - 1), {}, MAX_THREADS);
    }
  }

  lemma {:induction false} RootWaits(m: Machine, start: nat)
    requires WellFormed(m.prog) && start <= |m.text|
    ensures |Root(start)| > 0 && InBounds(m, Last(Root(start)))
    ensures AllWaiting(m, Config(0, start), start, Closure(m, Root(start), {}, MAX_THREADS).leaves)
  {
    ClosureSound(m, Config(0, start), Root(start), {}, MAX_THREADS);
  }

  /** A saved offset is unset or no further than the run has got. */
  lemma {:induction false} SlotsBehind(m: Machine, p: Path, k: nat)
    requires WellFormed(m.prog) && IsPath(m, p) && k < m.nslots
    ensures Captures(m, p)[k] == -1 || 0 <= Captures(m, p)[k] <= Last(p).pos
    decreases |p|
  {
    if |p| > 1 {
      var q := p[..|p| - 1];
      assert p[|p| - 1] in Succ(m, p[|p| - 2]);
      assert IsPath(m, q);
      hide Succ, WellFormed, IsPath;
      SlotsBehind(m, q, k);
    }
  }
}
