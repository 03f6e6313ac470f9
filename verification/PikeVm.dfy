/** The Pike VM as it runs: thread lists and visited marks in arrays, priority kept by array order. */
module PikeVm {
  import opened Basics
  import opened Machine
  import opened Backtracking
  import opened Pike

  const UINT_MAX: nat := 0xFFFF_FFFF

  /** What one thread carries. */
  datatype Thread = Thread(pc: nat, saved: seq<int>)

  ghost function Reverse<T>(s: seq<T>): (r: seq<T>)
    ensures |r| == |s|
  {
    if s == [] then [] else Reverse(s[1..]) + [s[0]]
  }

  lemma {:induction false} ReverseAppend<T>(s: seq<T>, t: seq<T>)
    ensures Reverse(s + t) == Reverse(t) + Reverse(s)
  {
    if s == [] {
      assert s + t == t;
    } else {
      assert (s + t)[1..] == s[1..] + t;
      ReverseAppend(s[1..], t);
    }
  }

  /** Marks by generation: clearing is one increment, and a wrap of the counter resets the marks. */
  class Visited {
    const gen: array<nat>
    var current: nat

    ghost predicate Valid(n: nat)
      reads this, gen
    {
      && n <= gen.Length
      && current <= UINT_MAX
      && forall pc :: 0 <= pc < n ==> gen[pc] <= current
    }

    ghost function Marked(n: nat): set<nat>
      requires n <= gen.Length
      reads this, gen
    {
      set pc | 0 <= pc < n && gen[pc] == current
    }

    constructor (n: nat)
      requires n <= MAX_INSTRS
      ensures Valid(n) && fresh(gen)
    {
      gen := new nat[MAX_INSTRS];
      current := 0;
      new;
      var i := 0;
      while i < n
        invariant 0 <= i <= n && current == 0 && forall pc :: 0 <= pc < i ==> gen[pc] == 0
      {
        gen[i] := 0;
        i := i + 1;
      }
    }

    method Clear(n: nat)
      requires Valid(n)
      modifies this, gen
      ensures Valid(n) && Marked(n) == {}
      ensures current == if old(current) == 0xFFFF_FFFF then 1 else old(current) + 1
    {
      current := if current == UINT_MAX then 0 else current + 1;
      if current == 0 {
        var i := 0;
        while i < n
          invariant 0 <= i <= n && current == 0 && forall pc :: 0 <= pc < i ==> gen[pc] == 0
        {
          gen[i] := 0;
          i := i + 1;
        }
        current := 1;
      }
      assert forall pc :: 0 <= pc < n ==> gen[pc] < current;
    }

    predicate Test(n: nat, pc: nat)
      requires pc < n <= gen.Length
      reads this, gen
      ensures Test(n, pc) <==> pc in Marked(n)
    {
      gen[pc] == current
    }

    method Set(n: nat, pc: nat)
      requires Valid(n) && pc < n
      modifies gen
      ensures Valid(n) && Marked(n) == old(Marked(n)) + {pc}
    {
      gen[pc] := current;
    }
  }

  /** Threads in rising priority: the last one in use comes first. */
  class ThreadList {
    const threads: array<Thread>
    var count: nat

    ghost predicate Valid()
      reads this
    {
      threads.Length == MAX_THREADS && count <= MAX_THREADS
    }

    ghost function Contents(): seq<Thread>
      requires Valid()
      reads this, threads
    {
      threads[..count]
    }

    constructor ()
      ensures Valid() && count == 0 && fresh(threads)
    {
      threads := new Thread[MAX_THREADS](_ => Thread(0, []));
      count := 0;
    }
  }

  /** now is was with positions lo..hi-1 in the opposite order. */
  ghost predicate Flipped<T>(was: seq<T>, now: seq<T>, lo: int, hi: int) {
    && |now| == |was| && 0 <= lo && hi <= |was|
    && (forall k :: 0 <= k < |was| && (k < lo || hi <= k) ==> now[k] == was[k])
    && (forall k :: lo <= k < hi ==> now[k] == was[lo + hi - 1 - k])
  }

  /** now is was with the lenA positions from lo and the lenB after them exchanged. */
  ghost predicate Exchanged<T>(was: seq<T>, now: seq<T>, lo: nat, lenA: nat, lenB: nat) {
    && |now| == |was| && lo + lenA + lenB <= |was|
    && (forall k :: 0 <= k < |was| && (k < lo || lo + lenA + lenB <= k) ==> now[k] == was[k])
    && (forall k :: lo <= k < lo + lenB ==> now[k] == was[k + lenA])
    && (forall k :: lo + lenB <= k < lo + lenB + lenA ==> now[k] == was[k - lenB])
  }

  /** Flipping two neighbouring blocks as one and then each alone exchanges them. */
  lemma {:induction false} ThreeFlips<T>(s0: seq<T>, s1: seq<T>, s2: seq<T>, s3: seq<T>, lo: nat, lenA: nat, lenB: nat)
    requires Flipped(s0, s1, lo, lo + lenA + lenB)
    requires Flipped(s1, s2, lo, lo + lenB)
    requires Flipped(s2, s3, lo + lenB, lo + lenB + lenA)
    ensures Exchanged(s0, s3, lo, lenA, lenB)
  {
    forall k | lo <= k < lo + lenB ensures s3[k] == s0[k + lenA] {
      assert s3[k] == s1[lo + lo + lenB - 1 - k];
    }
    forall k | lo + lenB <= k < lo + lenB + lenA ensures s3[k] == s0[k - lenB] {
      assert s3[k] == s1[lo + lenB + lo + lenB + lenA - 1 - k];
    }
  }

  lemma {:induction false} ExchangedParts<T>(was: seq<T>, now: seq<T>, c: seq<T>, x: seq<T>, y: seq<T>, z: seq<T>)
    requires was == c + x + y + z && Exchanged(was, now, |c|, |x|, |y|)
    ensures now == c + y + x + z
  {
  }

  /** reverse_thread_range. */
  method ReverseRange<T>(a: array<T>, lo0: nat, hi0: int)
    requires lo0 <= hi0 + 1 <= a.Length
    modifies a
    ensures Flipped(old(a[..]), a[..], lo0, hi0 + 1)
  {
    ghost var was := a[..];
    var lo, hi: int := lo0, hi0;
    while lo < hi
      invariant lo0 <= lo <= hi + 2 && lo + hi == lo0 + hi0
      invariant forall k :: 0 <= k < a.Length && (k < lo0 || lo <= k <= hi || hi0 < k) ==> a[k] == was[k]
      invariant forall k :: lo0 <= k <= hi0 && (k < lo || hi < k) ==> a[k] == was[lo0 + hi0 - k]
      decreases hi - lo
    {
      var tmp := a[lo];
      a[lo] := a[hi];
      a[hi] := tmp;
      lo := lo + 1;
      hi := hi - 1;
    }
  }

  ghost function Rep(m: Machine, p: Path): Thread
    requires WellFormed(m.prog) && IsPath(m, p)
  {
    Thread(Last(p).pc, Captures(m, p))
  }

  ghost predicate AllPaths(m: Machine, paths: seq<Path>)
    requires WellFormed(m.prog)
  {
    forall i :: 0 <= i < |paths| ==> IsPath(m, paths[i])
  }

  ghost function Reps(m: Machine, paths: seq<Path>): (s: seq<Thread>)
    requires WellFormed(m.prog) && AllPaths(m, paths)
    ensures |s| == |paths|
  {
    seq(|paths|, i requires 0 <= i < |paths| => Rep(m, paths[i]))
  }

  /** The array order: lowest priority first. */
  ghost function Stored(m: Machine, paths: seq<Path>): (s: seq<Thread>)
    requires WellFormed(m.prog) && AllPaths(m, paths)
    ensures |s| == |paths|
  {
    Reverse(Reps(m, paths))
  }

  lemma {:induction false} StoredAppend(m: Machine, above: seq<Path>, below: seq<Path>)
    requires WellFormed(m.prog) && AllPaths(m, above) && AllPaths(m, below)
    ensures AllPaths(m, above + below)
    ensures Stored(m, above + below) == Stored(m, below) + Stored(m, above)
  {
    assert Reps(m, above + below) == Reps(m, above) + Reps(m, below);
    ReverseAppend(Reps(m, above), Reps(m, below));
  }

  lemma {:induction false} StoredOne(m: Machine, p: Path)
    requires WellFormed(m.prog) && IsPath(m, p)
    ensures AllPaths(m, [p]) && Stored(m, [p]) == [Rep(m, p)]
  {
    assert Reps(m, [p]) == [Rep(m, p)];
  }

  ghost predicate HitPath(m: Machine, hit: Option<Path>)
    requires WellFormed(m.prog)
  {
    hit.Some? ==> IsPath(m, hit.value)
  }

  lemma {:induction false} ClosurePaths(m: Machine, p: Path, vis: set<nat>, room: nat)
    requires WellFormed(m.prog) && |p| > 0 && InBounds(m, Last(p)) && IsPath(m, p)
    ensures var r := Closure(m, p, vis, room);
      AllPaths(m, r.leaves) && HitPath(m, r.hit)
    decreases Pcs(m) - vis
  {
    hide IsPath, Closure, Succ, WellFormed, Settled;
    if Last(p).pc !in vis {
      ClosureUnfolds(m, p, vis, room);
      InPcs(m, Last(p));
      var s := Succ(m, Last(p));
      var seen := vis + {Last(p).pc};
      if !m.prog[Last(p).pc].Match? && !Consuming(m.prog[Last(p).pc]) && |s| > 0 {
        ExtendPath(m, p, s[0]);
        ClosurePaths(m, p + [s[0]], seen, room);
        var ra := Closure(m, p + [s[0]], seen, room);
        if |s| > 1 && ra.hit.None? {
          ExtendPath(m, p, s[1]);
          ClosurePaths(m, p + [s[1]], ra.vis, room - |ra.leaves|);
        }
      }
    } else {
      ClosureSeen(m, p, vis, room);
    }
  }

  /** Exchanges two neighbouring blocks in place: the last three calls of the SPLIT case. */
  method SwapBlocks<T>(a: array<T>, base: nat, lenA: nat, lenB: nat, ghost c: seq<T>, ghost x: seq<T>, ghost y: seq<T>, ghost z: seq<T>)
    requires base == |c| && lenA == |x| && lenB == |y| && a[..] == c + x + y + z
    modifies a
    ensures a[..] == c + y + x + z
  {
    hide Exchanged;
    ghost var was := a[..];
    Exchange(a, base, lenA, lenB);
    ExchangedParts(was, a[..], c, x, y, z);
  }

  method Exchange<T>(a: array<T>, lo: nat, lenA: nat, lenB: nat)
    requires lo + lenA + lenB <= a.Length
    modifies a
    ensures Exchanged(old(a[..]), a[..], lo, lenA, lenB)
  {
    hide *;
    ghost var s0 := a[..];
    ReverseRange(a, lo, lo + lenA + lenB - 1);
    ghost var s1 := a[..];
    assert Flipped(s0, s1, lo, lo + lenA + lenB);
    ReverseRange(a, lo, lo + lenB - 1);
    ghost var s2 := a[..];
    assert Flipped(s1, s2, lo, lo + lenB);
    ReverseRange(a, lo + lenB, lo + lenA + lenB - 1);
    assert Flipped(s2, a[..], lo + lenB, lo + lenB + lenA);
    ThreeFlips(s0, s1, s2, a[..], lo, lenA, lenB);
  }

  /** Both sides of a SPLIT, preferred side first, and only that side once it has matched. */
  ghost function SplitClosure(m: Machine, q: Path, seen: set<nat>, room: nat): (r: Closed)
    requires WellFormed(m.prog) && |q| > 0 && InBounds(m, Last(q)) && m.prog[Last(q).pc].Split?
    ensures |r.leaves| <= room
  {
    var s := Succ(m, Last(q));
    var ra := Closure(m, q + [s[0]], seen, room);
    if ra.hit.Some? then ra
    else
      var rb := Closure(m, q + [s[1]], ra.vis, room - |ra.leaves|);
      Closed(ra.leaves + rb.leaves, rb.hit, rb.vis)
  }

  /** The SPLIT case of add_thread: the branch tried second must still end up below the first. */
  method AddSplit(m: Machine, next: ThreadList, vis: Visited, t: Thread, a: nat, b: nat, pos: nat, saved0: seq<int>, ghost q: Path)
    returns (found: bool, saved: seq<int>)
    requires WellFormed(m.prog) && IsPath(m, q) && |q| > 0 && InBounds(m, Last(q))
    requires Last(q).pos == pos && t == Rep(m, q) && m.prog[t.pc] == Split(a, b)
    requires next.Valid() && vis.Valid(|m.prog|)
    modifies next, next.threads, vis, vis.gen
    ensures next.Valid() && vis.Valid(|m.prog|)
    ensures var r := SplitClosure(m, q, old(vis.Marked(|m.prog|)), MAX_THREADS - old(next.count));
      && AllPaths(m, r.leaves) && HitPath(m, r.hit)
      && next.Contents() == old(next.Contents()) + Stored(m, r.leaves)
      && vis.Marked(|m.prog|) == r.vis
      && found == r.hit.Some?
      && saved == if found then Captures(m, r.hit.value) else saved0
    decreases Pcs(m) - vis.Marked(|m.prog|), 1
  {
    hide IsPath, Settled, Captures, Closure, Stored;
    ghost var seen := vis.Marked(|m.prog|);
    ghost var was := next.Contents();
    ghost var pa, pb := q + [Config(a, pos)], q + [Config(b, pos)];
    var base := next.count;
    ExtendPath(m, q, Config(a, pos));
    ExtendPath(m, q, Config(b, pos));
    ghost var ra := Closure(m, pa, seen, MAX_THREADS - base);
    found, saved := AddThread(m, next, vis, t.(pc := a), pos, saved0, pa);
    if !found {
      var lenA := next.count - base;
      ghost var rb := Closure(m, pb, ra.vis, MAX_THREADS - base - lenA);
      found, saved := AddThread(m, next, vis, t.(pc := b), pos, saved0, pb);
      var lenB := next.count - base - lenA;
      StoredAppend(m, ra.leaves, rb.leaves);
      if lenA > 0 && lenB > 0 {
        ghost var rest := next.threads[next.count..];
        SwapBlocks(next.threads, base, lenA, lenB, was, Stored(m, ra.leaves), Stored(m, rb.leaves), rest);
        assert next.Contents() == was + Stored(m, rb.leaves) + Stored(m, ra.leaves);
      }
    }
  }

  /** add_thread: follow epsilon transitions from one thread, enqueue what waits for a byte. */
  method AddThread(m: Machine, next: ThreadList, vis: Visited, t0: Thread, pos: nat, saved0: seq<int>, ghost p: Path)
    returns (found: bool, saved: seq<int>)
    requires WellFormed(m.prog) && IsPath(m, p) && |p| > 0 && InBounds(m, Last(p))
    requires Last(p).pos == pos && t0 == Rep(m, p)
    requires next.Valid() && vis.Valid(|m.prog|)
    modifies next, next.threads, vis, vis.gen
    ensures next.Valid() && vis.Valid(|m.prog|)
    ensures var r := Closure(m, p, old(vis.Marked(|m.prog|)), MAX_THREADS - old(next.count));
      && AllPaths(m, r.leaves) && HitPath(m, r.hit)
      && next.Contents() == old(next.Contents()) + Stored(m, r.leaves)
      && vis.Marked(|m.prog|) == r.vis
      && found == r.hit.Some?
      && saved == if found then Captures(m, r.hit.value) else saved0
    decreases Pcs(m) - vis.Marked(|m.prog|), 0
  {
    hide IsPath, Settled, Captures, Closure;
    ghost var vis0 := vis.Marked(|m.prog|);
    ghost var room := MAX_THREADS - next.count;
    ghost var q := p;
    var t := t0;
    ClosurePaths(m, p, vis0, room);
    while true
      invariant IsPath(m, q) && |q| > 0 && InBounds(m, Last(q)) && Last(q).pos == pos && t == Rep(m, q)
      invariant next.Valid() && vis.Valid(|m.prog|)
      invariant next.count == old(next.count) && next.Contents() == old(next.Contents())
      invariant vis0 <= vis.Marked(|m.prog|)
      invariant Closure(m, p, vis0, room) == Closure(m, q, vis.Marked(|m.prog|), room)
      decreases Pcs(m) - vis.Marked(|m.prog|)
    {
      ghost var seen := vis.Marked(|m.prog|);
      if vis.Test(|m.prog|, t.pc) {
        ClosureSeen(m, q, seen, room);
        return false, saved0;
      }
      vis.Set(|m.prog|, t.pc);
      ClosureUnfolds(m, q, seen, room);
      InPcs(m, Last(q));
      var i := m.prog[t.pc];
      if i.Save? {
        ExtendPath(m, q, Config(t.pc + 1, pos));
        t := Thread(t.pc + 1, if i.slot < |t.saved| then t.saved[i.slot := pos] else t.saved);
        q := q + [Config(t.pc, pos)];
      } else if i.Jump? {
        ExtendPath(m, q, Config(i.target, pos));
        t := t.(pc := i.target);
        q := q + [Config(t.pc, pos)];
      } else if i.Split? {
        found, saved := AddSplit(m, next, vis, t, i.a, i.b, pos, saved0, q);
        return;
      } else if i.Match? {
        return true, t.saved;
      } else if Anchor(i) {
        if AnchorOk(m.flags, i, m.text, pos) {
          ExtendPath(m, q, Config(t.pc + 1, pos));
          t := t.(pc := t.pc + 1);
          q := q + [Config(t.pc, pos)];
        } else {
          return false, saved0;
        }
      } else {
        if next.count < MAX_THREADS {
          StoredOne(m, q);
          next.threads[next.count] := t;
          next.count := next.count + 1;
        }
        return false, saved0;
      }
    }
  }

  ghost function Flat(blocks: seq<seq<Path>>): seq<Path> {
    if blocks == [] then [] else Flat(blocks[..|blocks| - 1]) + blocks[|blocks| - 1]
  }

  /** Where each thread's contribution starts in nxt and how long it is. */
  datatype Block = Block(start: nat, len: nat)

  ghost predicate Tile(m: Machine, blocks: seq<Block>, parts: seq<seq<Path>>, contents: seq<Thread>, i: nat)
    requires WellFormed(m.prog) && |blocks| == |parts| && i < |blocks|
  {
    var b := blocks[i];
    && AllPaths(m, parts[i]) && |parts[i]| == b.len > 0
    && (i == 0 ==> b.start == 0)
    && b.start + b.len == (if i + 1 < |blocks| then blocks[i + 1].start else |contents|)
    && b.start + b.len <= |contents|
    && contents[b.start..b.start + b.len] == Stored(m, parts[i])
  }

  /** The bookkeeping of one position: blocks tile the array, each holding one thread's closure. */
  ghost predicate Tiled(m: Machine, blocks: seq<Block>, parts: seq<seq<Path>>, contents: seq<Thread>)
    requires WellFormed(m.prog)
  {
    && |blocks| == |parts| && (|blocks| == 0 ==> |contents| == 0)
    && forall i :: 0 <= i < |blocks| ==> Tile(m, blocks, parts, contents, i)
  }

  lemma {:induction false} FlatPaths(m: Machine, parts: seq<seq<Path>>)
    requires WellFormed(m.prog) && forall i :: 0 <= i < |parts| ==> AllPaths(m, parts[i])
    ensures AllPaths(m, Flat(parts))
  {
    hide IsPath;
    if parts != [] {
      FlatPaths(m, parts[..|parts| - 1]);
    }
  }

  lemma {:induction false} FlatGrows(m: Machine, parts: seq<seq<Path>>, b: nat)
    requires WellFormed(m.prog) && b < |parts| && AllPaths(m, Flat(parts[..b])) && AllPaths(m, parts[b])
    ensures AllPaths(m, Flat(parts[..b + 1]))
    ensures Stored(m, Flat(parts[..b + 1])) == Stored(m, parts[b]) + Stored(m, Flat(parts[..b]))
  {
    hide Stored;
    assert parts[..b + 1][..b] == parts[..b];
    StoredAppend(m, Flat(parts[..b]), parts[b]);
  }

  /** s starts like c read backwards. */
  ghost predicate Mirrors<T>(c: seq<T>, s: seq<T>, upto: int) {
    && upto <= |c| <= |s|
    && forall k :: 0 <= k < upto ==> s[k] == c[|c| - 1 - k]
  }

  lemma {:induction false} FlippedWhole<T>(c: seq<T>, s0: seq<T>, s1: seq<T>)
    requires |c| <= |s0| && c == s0[..|c|] && Flipped(s0, s1, 0, |c|)
    ensures Mirrors(c, s1, |c|)
  {
  }

  /** Flipping one block of a mirrored array brings back that block of the array before. */
  lemma {:induction false} FlippedBack<T>(c: seq<T>, s0: seq<T>, s1: seq<T>, start: nat, len: nat)
    requires start + len <= |c| && Mirrors(c, s0, |c| - start)
    requires Flipped(s0, s1, |c| - start - len, |c| - start)
    ensures Mirrors(c, s1, |c| - (start + len)) && |s1| == |s0|
    ensures s1[|c| - (start + len)..|c|] == c[start..start + len] + s0[|c| - start..|c|]
  {
    var lo := |c| - (start + len);
    forall k | 0 <= k < lo ensures s1[k] == c[|c| - 1 - k] {
      assert s1[k] == s0[k];
    }
    forall k | lo <= k < lo + len ensures s1[k] == c[start + k - lo] {
      assert s1[k] == s0[lo + lo + len - 1 - k];
    }
    var whole := c[start..start + len] + s0[|c| - start..|c|];
    forall k | lo <= k < |c| ensures s1[k] == whole[k - lo] {
      if k >= lo + len { assert s1[k] == s0[k]; }
    }
    assert s1[lo..|c|] == whole;
  }

  lemma {:induction false} TiledAt(m: Machine, blocks: seq<Block>, parts: seq<seq<Path>>, c: seq<Thread>, b: nat)
    requires WellFormed(m.prog) && Tiled(m, blocks, parts, c) && b < |blocks|
    ensures |parts| == |blocks| && AllPaths(m, parts[b])
    ensures blocks[b].start + blocks[b].len == (if b + 1 < |blocks| then blocks[b + 1].start else |c|)
    ensures blocks[b].start + blocks[b].len <= |c|
    ensures c[blocks[b].start..blocks[b].start + blocks[b].len] == Stored(m, parts[b])
    ensures b == 0 ==> blocks[b].start == 0
  {
    assert Tile(m, blocks, parts, c, b);
  }

  /** After b blocks: those are in their final place, the rest of the array is still mirrored. */
  ghost predicate Restoring(m: Machine, blocks: seq<Block>, parts: seq<seq<Path>>, c: seq<Thread>, s: seq<Thread>, b: nat)
    requires WellFormed(m.prog) && Tiled(m, blocks, parts, c) && b <= |blocks|
  {
    var done := if b < |blocks| then blocks[b].start else |c|;
    && done <= |c| <= |s|
    && AllPaths(m, Flat(parts[..b]))
    && s[|c| - done..|c|] == Stored(m, Flat(parts[..b]))
    && Mirrors(c, s, |c| - done)
  }

  lemma {:induction false} RestoringStarts(m: Machine, blocks: seq<Block>, parts: seq<seq<Path>>, c: seq<Thread>, s0: seq<Thread>, s1: seq<Thread>)
    requires WellFormed(m.prog) && Tiled(m, blocks, parts, c) && |blocks| > 0
    requires |c| <= |s0| && c == s0[..|c|] && Flipped(s0, s1, 0, |c|)
    ensures Restoring(m, blocks, parts, c, s1, 0)
  {
    TiledAt(m, blocks, parts, c, 0);
    hide Tiled, Stored, AllPaths, Flat;
    FlippedWhole(c, s0, s1);
    StoredNone(m, parts);
  }

  lemma {:induction false} RestoringStep(m: Machine, blocks: seq<Block>, parts: seq<seq<Path>>, c: seq<Thread>, s0: seq<Thread>, s1: seq<Thread>, b: nat)
    requires WellFormed(m.prog) && Tiled(m, blocks, parts, c) && b < |blocks|
    requires Restoring(m, blocks, parts, c, s0, b)
    requires Flipped(s0, s1, |c| - blocks[b].start - blocks[b].len, |c| - blocks[b].start)
    ensures Restoring(m, blocks, parts, c, s1, b + 1)
  {
    hide WellFormed, Tile, Tiled, Stored, AllPaths, Flat, Flipped, Mirrors;
    TiledAt(m, blocks, parts, c, b);
    FlippedBack(c, s0, s1, blocks[b].start, blocks[b].len);
    FlatGrows(m, parts, b);
    assert b + 1 < |blocks| ==> blocks[b + 1].start == blocks[b].start + blocks[b].len;
  }

  lemma {:induction false} RestoringEnds(m: Machine, blocks: seq<Block>, parts: seq<seq<Path>>, c: seq<Thread>, s: seq<Thread>)
    requires WellFormed(m.prog) && Tiled(m, blocks, parts, c) && Restoring(m, blocks, parts, c, s, |blocks|)
    ensures AllPaths(m, Flat(parts)) && s[..|c|] == Stored(m, Flat(parts))
  {
    hide Stored, AllPaths, Flat;
    assert parts[..|blocks|] == parts;
    assert s[0..|c|] == s[..|c|];
  }

  /** The reversal of the whole array and then of each block. */
  method RestoreOrder(m: Machine, nxt: ThreadList, blocks: seq<Block>, ghost parts: seq<seq<Path>>)
    requires WellFormed(m.prog) && nxt.Valid() && Tiled(m, blocks, parts, nxt.Contents())
    modifies nxt.threads
    ensures AllPaths(m, Flat(parts)) && nxt.Contents() == Stored(m, Flat(parts))
  {
    hide WellFormed, AllPaths, Stored, Flipped, Tiled, Flat, Restoring;
    ghost var c := nxt.Contents();
    var total := nxt.count;
    var a := nxt.threads;
    if |blocks| > 1 {
      ghost var s0 := a[..];
      ReverseRange(a, 0, total - 1);
      RestoringStarts(m, blocks, parts, c, s0, a[..]);
      var b := 0;
      while b < |blocks|
        invariant 0 <= b <= |blocks|
        invariant Restoring(m, blocks, parts, c, a[..], b)
      {
        s0 := a[..];
        TiledAt(m, blocks, parts, c, b);
        ReverseRange(a, total - (blocks[b].start + blocks[b].len), total - blocks[b].start - 1);
        RestoringStep(m, blocks, parts, c, s0, a[..], b);
        b := b + 1;
      }
      RestoringEnds(m, blocks, parts, c, a[..]);
    } else {
      OneBlock(m, blocks, parts, c);
    }
  }

  lemma {:induction false} StoredNone(m: Machine, parts: seq<seq<Path>>)
    requires WellFormed(m.prog)
    ensures Flat(parts[..0]) == [] && AllPaths(m, []) && Stored(m, []) == []
  {
  }

  lemma {:induction false} OneBlock(m: Machine, blocks: seq<Block>, parts: seq<seq<Path>>, c: seq<Thread>)
    requires WellFormed(m.prog) && Tiled(m, blocks, parts, c) && |blocks| <= 1
    ensures AllPaths(m, Flat(parts)) && c == Stored(m, Flat(parts))
  {
    hide IsPath;
    if |parts| == 1 {
      assert Flat(parts[..0]) == [];
      assert Flat(parts) == parts[0];
      TiledAt(m, blocks, parts, c, 0);
      assert c[0..|c|] == c;
    }
  }

  lemma {:induction false} StoredAt(m: Machine, threads: seq<Path>, k: nat)
    requires WellFormed(m.prog) && AllPaths(m, threads) && k < |threads|
    ensures IsPath(m, threads[k])
    ensures Stored(m, threads)[|threads| - 1 - k] == Rep(m, threads[k])
  {
    hide IsPath;
    ReverseAt(Reps(m, threads), |threads| - 1 - k);
  }

  lemma {:induction false} ReverseAt<T>(s: seq<T>, k: nat)
    requires k < |s|
    ensures Reverse(s)[k] == s[|s| - 1 - k]
  {
    if k < |s| - 1 { ReverseAt(s[1..], k); }
  }

  /** Contributing a block of threads on top of the array keeps the tiling. */
  lemma {:induction false} TiledGrows(m: Machine, blocks: seq<Block>, parts: seq<seq<Path>>, c: seq<Thread>, part: seq<Path>)
    requires WellFormed(m.prog) && Tiled(m, blocks, parts, c)
    requires AllPaths(m, part) && |part| > 0
    ensures Tiled(m, blocks + [Block(|c|, |part|)], parts + [part], c + Stored(m, part))
  {
    hide WellFormed, AllPaths, Stored;
    var b', p', c' := blocks + [Block(|c|, |part|)], parts + [part], c + Stored(m, part);
    forall i | 0 <= i < |b'| ensures Tile(m, b', p', c', i) {
      if i < |blocks| {
        assert Tile(m, blocks, parts, c, i);
        assert c'[b'[i].start..b'[i].start + b'[i].len] == c[blocks[i].start..blocks[i].start + blocks[i].len];
      } else if i > 0 {
        assert Tile(m, blocks, parts, c, i - 1);
      }
    }
  }

  /** The first k threads have left these leaves and marks; the rest of the position is still to do. */
  ghost predicate Remaining(m: Machine, threads: seq<Path>, k: nat, leaves: seq<Path>, vis: set<nat>)
    requires WellFormed(m.prog) && Settled(m, threads) && k <= |threads|
  {
    && |leaves| <= MAX_THREADS && Settled(m, threads[k..])
    && var rest := Advance(m, threads[k..], vis, MAX_THREADS - |leaves|);
       Advance(m, threads, {}, MAX_THREADS) == Closed(leaves + rest.leaves, rest.hit, rest.vis)
  }

  lemma {:induction false} RemainingStarts(m: Machine, threads: seq<Path>)
    requires WellFormed(m.prog) && Settled(m, threads)
    ensures Remaining(m, threads, 0, [], {})
  {
    hide Settled, Advance;
    assert threads[0..] == threads;
    var r := Advance(m, threads, {}, MAX_THREADS);
    assert [] + r.leaves == r.leaves;
  }

  lemma {:induction false} RemainingStep(m: Machine, threads: seq<Path>, k: nat, leaves: seq<Path>, vis: set<nat>)
    requires WellFormed(m.prog) && Settled(m, threads) && k < |threads| && Remaining(m, threads, k, leaves, vis)
    ensures |leaves| <= MAX_THREADS && |threads[k]| > 0 && InBounds(m, Last(threads[k]))
    ensures
      var s := Succ(m, Last(threads[k]));
      if |s| == 0 then Remaining(m, threads, k + 1, leaves, vis)
      else
        var first := Closure(m, threads[k] + [s[0]], vis, MAX_THREADS - |leaves|);
        if first.hit.Some? then
          Advance(m, threads, {}, MAX_THREADS) == Closed(leaves + first.leaves, first.hit, first.vis)
        else
          Remaining(m, threads, k + 1, leaves + first.leaves, first.vis)
  {
    hide Settled, Advance, Closure, Succ, WellFormed;
    AdvanceUnfolds(m, threads[k..], vis, MAX_THREADS - |leaves|);
    assert threads[k..][1..] == threads[k + 1..];
    assert threads[k..][0] == threads[k];
    var s := Succ(m, Last(threads[k]));
    if |s| > 0 {
      var first := Closure(m, threads[k] + [s[0]], vis, MAX_THREADS - |leaves|);
      if first.hit.None? {
        var rest := Advance(m, threads[k + 1..], first.vis, MAX_THREADS - |leaves| - |first.leaves|);
        assert leaves + (first.leaves + rest.leaves) == leaves + first.leaves + rest.leaves;
      }
    }
  }

  lemma {:induction false} RemainingEnds(m: Machine, threads: seq<Path>, leaves: seq<Path>, vis: set<nat>)
    requires WellFormed(m.prog) && Settled(m, threads) && Remaining(m, threads, |threads|, leaves, vis)
    ensures Advance(m, threads, {}, MAX_THREADS) == Closed(leaves, None, vis)
  {
    hide Settled;
    assert threads[|threads|..] == [];
    assert leaves + [] == leaves;
  }

  /** What a waiting thread does at its position. */
  lemma {:induction false} WaitingSteps(m: Machine, root: Config, pos: nat, p: Path)
    requires WellFormed(m.prog) && Waiting(m, root, pos, p)
    ensures |p| > 0 && InBounds(m, Last(p)) && Last(p).pos == pos && IsPath(m, p) && Consuming(m.prog[Last(p).pc])
    ensures Succ(m, Last(p)) ==
      if pos < |m.text| && Matches(m.flags, m.prog[Last(p).pc], m.text[pos])
      then [Config(Last(p).pc + 1, pos + 1)] else []
  {
  }

  lemma {:induction false} TakesByte(m: Machine, p: Path, c: Config)
    requires WellFormed(m.prog) && IsPath(m, p) && |p| > 0 && Succ(m, Last(p)) == [c] && Consuming(m.prog[Last(p).pc])
    ensures IsPath(m, p + [c]) && Rep(m, p + [c]) == Rep(m, p).(pc := c.pc)
  {
    assert c in Succ(m, Last(p));
    ExtendPath(m, p, c);
  }

  /** One position of vm_exec_range: the threads of cur from the highest priority down, cut at a match. */
  method AdvanceAll(m: Machine, cur: ThreadList, nxt: ThreadList, vis: Visited, pos: nat, foundSaved: seq<int>,
        ghost root: Config, ghost threads: seq<Path>)
    returns (got: bool, saved: seq<int>)
    requires WellFormed(m.prog) && AllWaiting(m, root, pos, threads) && Settled(m, threads) && AllPaths(m, threads)
    requires cur.Valid() && nxt.Valid() && vis.Valid(|m.prog|) && cur != nxt && cur.threads != nxt.threads
    requires cur.Contents() == Stored(m, threads)
    modifies nxt, nxt.threads, vis, vis.gen
    ensures nxt.Valid() && vis.Valid(|m.prog|)
    ensures
      var r := Advance(m, threads, {}, MAX_THREADS);
      && AllPaths(m, r.leaves) && HitPath(m, r.hit)
      && nxt.Contents() == Stored(m, r.leaves)
      && got == r.hit.Some?
      && saved == if got then Captures(m, r.hit.value) else foundSaved
  {
    hide WellFormed, IsPath, Settled, Captures, Closure, Stored, Tiled, Advance, Waiting, Succ, Remaining, Flat, Matches, AllPaths, HitPath;
    nxt.count := 0;
    vis.Clear(|m.prog|);
    var blocks: seq<Block> := [];
    ghost var parts: seq<seq<Path>> := [];
    ghost var leaves: seq<Path> := [];
    got, saved := false, foundSaved;
    RemainingStarts(m, threads);
    TiledEmpty(m);
    ghost var hit: Option<Path> := None;
    ghost var k := 0;
    var ti: int := cur.count - 1;
    while ti >= 0
      invariant k == cur.count - 1 - ti && 0 <= k <= |threads|
      invariant cur.count == |threads| && cur.Contents() == Stored(m, threads)
      invariant nxt.Valid() && vis.Valid(|m.prog|)
      invariant Tiled(m, blocks, parts, nxt.Contents()) && |blocks| <= nxt.count
      invariant Flat(parts) == leaves && |leaves| == nxt.count
      invariant !got && saved == foundSaved
      invariant Remaining(m, threads, k, leaves, vis.Marked(|m.prog|))
      decreases ti
    {
      var t := cur.threads[ti];
      ghost var p := threads[k];
      StoredAt(m, threads, k);
      assert cur.Contents()[ti] == Rep(m, p);
      assert Waiting(m, root, pos, p);
      WaitingSteps(m, root, pos, p);
      RemainingStep(m, threads, k, leaves, vis.Marked(|m.prog|));
      if pos < |m.text| && Matches(m.flags, m.prog[t.pc], m.text[pos]) {
        ghost var c := Config(t.pc + 1, pos + 1);
        TakesByte(m, p, c);
        var before := nxt.count;
        ghost var first := Closure(m, p + [c], vis.Marked(|m.prog|), MAX_THREADS - |leaves|);
        ghost var was := nxt.Contents();
        got, saved := AddThread(m, nxt, vis, t.(pc := t.pc + 1), pos + 1, foundSaved, p + [c]);
        var contributed := nxt.count - before;
        if contributed > 0 && |blocks| < MAX_THREADS {
          TiledGrows(m, blocks, parts, was, first.leaves);
          blocks := blocks + [Block(before, contributed)];
          FlatSnoc(parts, first.leaves);
          parts := parts + [first.leaves];
        } else {
          assert nxt.Contents() == was;
          assert leaves + first.leaves == leaves;
        }
        leaves := leaves + first.leaves;
        if got {
          hit := first.hit;
          break;
        }
      }
      k := k + 1;
      ti := ti - 1;
    }
    if !got {
      RemainingEnds(m, threads, leaves, vis.Marked(|m.prog|));
    }
    RestoreOrder(m, nxt, blocks, parts);
  }

  lemma {:induction false} FlatSnoc(parts: seq<seq<Path>>, part: seq<Path>)
    ensures Flat(parts + [part]) == Flat(parts) + part
  {
    assert (parts + [part])[..|parts|] == parts;
  }

  lemma {:induction false} TiledEmpty(m: Machine)
    requires WellFormed(m.prog)
    ensures Tiled(m, [], [], []) && Flat([]) == [] && HitPath(m, None)
  {
  }

  lemma {:induction false} AdvanceAtEnd(m: Machine, root: Config, threads: seq<Path>, vis: set<nat>, room: nat)
    requires WellFormed(m.prog) && Settled(m, threads) && AllWaiting(m, root, |m.text|, threads)
    ensures Advance(m, threads, vis, room) == Closed([], None, vis)
  {
    hide Settled, Waiting, Closure, WellFormed, Succ;
    if threads != [] {
      AdvanceUnfolds(m, threads, vis, room);
      assert Waiting(m, root, |m.text|, threads[0]);
      WaitingSteps(m, root, |m.text|, threads[0]);
      AdvanceAtEnd(m, root, threads[1..], vis, room);
    }
  }

  lemma {:induction false} RunStep(m: Machine, root: Config, threads: seq<Path>, best: Option<Path>, pos: nat)
    requires WellFormed(m.prog) && Settled(m, threads) && AllWaiting(m, root, pos, threads)
    requires threads != [] && pos <= |m.text|
    ensures var r := Advance(m, threads, {}, MAX_THREADS);
      && AllWaiting(m, root, pos + 1, r.leaves)
      && Run(m, threads, best, pos) == Run(m, r.leaves, if r.hit.Some? then r.hit else best, pos + 1)
  {
    hide Settled, Waiting, WellFormed, Advance;
    AdvanceSound(m, root, pos, threads, {}, MAX_THREADS);
    if pos == |m.text| {
      AdvanceAtEnd(m, root, threads, {}, MAX_THREADS);
    }
  }

  ghost predicate WaitingArePaths(m: Machine, root: Config, pos: nat, threads: seq<Path>)
    requires WellFormed(m.prog)
  {
    AllWaiting(m, root, pos, threads) && Settled(m, threads) && AllPaths(m, threads)
  }

  lemma {:induction false} WaitingAll(m: Machine, root: Config, pos: nat, threads: seq<Path>)
    requires WellFormed(m.prog) && AllWaiting(m, root, pos, threads)
    ensures WaitingArePaths(m, root, pos, threads)
  {
    hide IsPath, Simple;
    forall i | 0 <= i < |threads|
      ensures IsPath(m, threads[i]) && |threads[i]| > 0 && InBounds(m, Last(threads[i]))
    {
      assert Waiting(m, root, pos, threads[i]);
      WaitingSteps(m, root, pos, threads[i]);
    }
  }

  /** The slots of the match so far, all unset while there is none. */
  ghost function Slots(m: Machine, hit: Option<Path>): (s: seq<int>)
    requires WellFormed(m.prog) && HitPath(m, hit)
    ensures |s| == m.nslots
  {
    if hit.Some? then Captures(m, hit.value) else Unset(m.nslots)
  }

  /** A match made while seeding is recognised by its two group-0 slots. */
  lemma {:induction false} SeedFound(m: Machine, start: nat, hit: Option<Path>)
    requires Framed(m) && GoodHit(m, Config(0, start), hit) && HitPath(m, hit)
    ensures hit.Some? <==> Slots(m, hit)[0] >= 0 && Slots(m, hit)[1] >= 0
  {
    if hit.Some? {
      FrameCloses(m, hit.value);
    }
  }

  /** A thread list at position pos: one thread per pc, each waiting for a byte, its offsets unset or not beyond pos. */
  ghost predicate Tidy(m: Machine, pos: nat, contents: seq<Thread>) {
    && (forall i :: 0 <= i < |contents| ==> TidyThread(m, pos, contents[i]))
    && (forall i, j :: 0 <= i < j < |contents| ==> contents[i].pc != contents[j].pc)
  }

  ghost predicate TidyThread(m: Machine, pos: nat, t: Thread) {
    && t.pc < |m.prog| && Consuming(m.prog[t.pc]) && |t.saved| == m.nslots
    && forall k :: 0 <= k < |t.saved| ==> t.saved[k] == -1 || 0 <= t.saved[k] <= pos
  }

  lemma {:induction false} RepIsTidy(m: Machine, root: Config, pos: nat, p: Path)
    requires WellFormed(m.prog) && Waiting(m, root, pos, p)
    ensures TidyThread(m, pos, Rep(m, p)) && Rep(m, p).pc == Last(p).pc
  {
    hide WellFormed, Simple, Captures;
    forall k | 0 <= k < m.nslots ensures Captures(m, p)[k] == -1 || 0 <= Captures(m, p)[k] <= pos { SlotsBehind(m, p, k); }
    hide IsPath;
  }

  /** The stored form of the threads k positions after the start is tidy. */
  lemma {:induction false} ThreadsAreTidy(m: Machine, start: nat, k: nat)
    requires WellFormed(m.prog) && start <= |m.text|
    ensures AllPaths(m, ThreadsAt(m, start, k)) && Tidy(m, start + k, Stored(m, ThreadsAt(m, start, k)))
  {
    hide WellFormed, IsPath, Waiting, Stored, ThreadsAt, TidyThread;
    var threads, root := ThreadsAt(m, start, k), Config(0, start);
    ThreadsApart(m, start, k);
    var now :| Spread(threads, {}, now);
    WaitingAll(m, root, start + k, threads);
    var c, n := Stored(m, threads), |threads|;
    forall i | 0 <= i < n ensures TidyThread(m, start + k, c[i]) && c[i].pc == Last(threads[n - 1 - i]).pc {
      StoredAt(m, threads, n - 1 - i);
      assert Waiting(m, root, start + k, threads[n - 1 - i]);
      RepIsTidy(m, root, start + k, threads[n - 1 - i]);
    }
  }

  /** vm_exec_range. */
  method ExecRange(m: Machine, start: nat, bufA: ThreadList, bufB: ThreadList, vis: Visited, matchSaved: seq<int>)
    returns (ok: bool, saved: seq<int>)
    requires Framed(m) && start <= |m.text| && |matchSaved| == m.nslots
    requires bufA.Valid() && bufB.Valid() && vis.Valid(|m.prog|) && bufA != bufB && bufA.threads != bufB.threads
    modifies bufA, bufA.threads, bufB, bufB.threads, vis, vis.gen
    ensures bufA.Valid() && bufB.Valid() && vis.Valid(|m.prog|)
    ensures ok == Exec(m, start).Some? && HitPath(m, Exec(m, start))
    ensures saved == if ok then Captures(m, Exec(m, start).value) else matchSaved
  {
    hide WellFormed, Framed, IsPath, Settled, Captures, Closure, Stored, Advance, Waiting, Run, AllWaiting, Exec, GoodHit, Tidy, ThreadsAt;
    ghost var root := Config(0, start);
    var cur, nxt := bufA, bufB;
    cur.count := 0;
    nxt.count := 0;
    vis.Clear(|m.prog|);
    Seeding(m, start);
    assert cur.Contents() == [];
    var found, foundSaved := AddThread(m, cur, vis, Thread(0, Unset(m.nslots)), start, Unset(m.nslots), Root(start));
    ghost var seed := Closure(m, Root(start), {}, MAX_THREADS);
    ghost var threads, best := seed.leaves, seed.hit;
    SeedFound(m, start, best);
    found := foundSaved[0] >= 0 && foundSaved[1] >= 0;
    var pos := start;
    while pos <= |m.text|
      invariant start <= pos <= |m.text| + 1
      invariant (cur == bufA && nxt == bufB) || (cur == bufB && nxt == bufA)
      invariant cur.Valid() && nxt.Valid() && vis.Valid(|m.prog|)
      invariant WaitingArePaths(m, root, pos, threads) && cur.Contents() == Stored(m, threads)
      invariant HitPath(m, best) && found == best.Some? && foundSaved == Slots(m, best)
      invariant threads == ThreadsAt(m, start, pos - start) && Tidy(m, pos, cur.Contents())
      invariant Run(m, threads, best, pos) == Exec(m, start)
      decreases |m.text| + 1 - pos
    {
      if cur.count == 0 {
        break;
      }
      NextPosition(m, start, threads, best, pos);
      var got;
      got, foundSaved := AdvanceAll(m, cur, nxt, vis, pos, foundSaved, root, threads);
      ghost var r := Advance(m, threads, {}, MAX_THREADS);
      if got {
        found := true;
      }
      threads, best := r.leaves, if got then r.hit else best;
      cur, nxt := nxt, cur;
      pos := pos + 1;
    }
    RunEnds(m, threads, best, pos);
    if found {
      return true, foundSaved;
    }
    return false, matchSaved;
  }

  /** From one position to the next. */
  lemma {:induction false} NextPosition(m: Machine, start: nat, threads: seq<Path>, best: Option<Path>, pos: nat)
    requires WellFormed(m.prog) && start <= pos <= |m.text| && WaitingArePaths(m, Config(0, start), pos, threads)
    requires threads != [] && threads == ThreadsAt(m, start, pos - start)
    ensures AllWaiting(m, Config(0, start), pos, threads) && Settled(m, threads)
    ensures
      var r := Advance(m, threads, {}, MAX_THREADS);
      && WaitingArePaths(m, Config(0, start), pos + 1, r.leaves)
      && r.leaves == ThreadsAt(m, start, pos + 1 - start) && Tidy(m, pos + 1, Stored(m, r.leaves))
      && Run(m, threads, best, pos) == Run(m, r.leaves, if r.hit.Some? then r.hit else best, pos + 1)
  {
    hide WellFormed, AllWaiting, Settled, AllPaths, Tidy, Stored, ThreadsAt, Advance, Run;
    RunStep(m, Config(0, start), threads, best, pos);
    WaitingAll(m, Config(0, start), pos + 1, Advance(m, threads, {}, MAX_THREADS).leaves);
    ThreadsStep(m, start, pos - start);
    ThreadsAreTidy(m, start, pos + 1 - start);
  }

  lemma {:induction false} ThreadsStep(m: Machine, start: nat, k: nat)
    requires WellFormed(m.prog) && start <= |m.text|
    ensures ThreadsAt(m, start, 0) == Closure(m, Root(start), {}, MAX_THREADS).leaves
    ensures ThreadsAt(m, start, k + 1) == Advance(m, ThreadsAt(m, start, k), {}, MAX_THREADS).leaves
  {
    hide Closure, Advance, WellFormed;
  }

  lemma {:induction false} RunEnds(m: Machine, threads: seq<Path>, best: Option<Path>, pos: nat)
    requires WellFormed(m.prog) && Settled(m, threads) && (threads == [] || pos >= |m.text|)
    ensures Run(m, threads, best, pos) == best
  {
  }

  lemma {:induction false} Seeding(m: Machine, start: nat)
    requires Framed(m) && start <= |m.text|
    ensures WellFormed(m.prog) && |m.prog| > 0 && m.nslots >= 2
    ensures IsPath(m, Root(start)) && InBounds(m, Last(Root(start))) && Last(Root(start)) == Config(0, start)
    ensures Rep(m, Root(start)) == Thread(0, Unset(m.nslots))
    ensures
      var r := Closure(m, Root(start), {}, MAX_THREADS);
      && WaitingArePaths(m, Config(0, start), start, r.leaves)
      && GoodHit(m, Config(0, start), r.hit)
      && Run(m, r.leaves, r.hit, start) == Exec(m, start)
      && r.leaves == ThreadsAt(m, start, 0) && Tidy(m, start, Stored(m, r.leaves))
  {
    hide Closure, Run, Tidy, Stored;
    ThreadsStep(m, start, 0);
    ThreadsAreTidy(m, start, 0);
    var r := Closure(m, Root(start), {}, MAX_THREADS);
    ClosureSound(m, Config(0, start), Root(start), {}, MAX_THREADS);
    WaitingAll(m, Config(0, start), start, r.leaves);
  }
}
