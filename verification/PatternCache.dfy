/** The 32-slot least-recently-used cache of compiled patterns. */
module PatternCache {
  import opened Basics

  const SLOTS := 32
  const PATLEN := 128
  const CLOCK_LIMIT := 0x1_0000_0000

  /** A pattern and its flags. */
  datatype Key = Key(pattern: string, flags: int)

  type Handle = nat

  datatype CacheSlot = CacheSlot(key: Key, re: Option<Handle>, stamp: nat)

  /** The slot that holds h. */
  ghost predicate At(slots: seq<CacheSlot>, h: Handle, i: nat) {
    i < |slots| && slots[i].re == Some(h)
  }

  ghost predicate Held(slots: seq<CacheSlot>, h: Handle) {
    exists i: nat :: At(slots, h, i)
  }

  ghost predicate Newer(slots: seq<CacheSlot>, stamp: nat, i: nat) {
    i < |slots| && slots[i].stamp > stamp
  }

  ghost function NewerSet(slots: seq<CacheSlot>, stamp: nat): set<nat> {
    set i: nat | i < |slots| && Newer(slots, stamp, i)
  }

  /** How many slots were used more recently than slot i. */
  ghost function Age(slots: seq<CacheSlot>, i: nat): nat
    requires i < |slots|
  {
    |NewerSet(slots, slots[i].stamp)|
  }

  /** Occupied slots have keys, stamps and handles of their own, each handle compiled for its key and not freed. */
  ghost predicate Sound(slots: seq<CacheSlot>, clock: nat, next: nat, made: map<Handle, Key>, freed: set<Handle>) {
    && |slots| == SLOTS
    && (forall i :: 0 <= i < SLOTS && slots[i].re.None? ==> slots[i].stamp == 0)
    && (forall i :: 0 <= i < SLOTS && slots[i].re.Some? ==>
          && 0 < slots[i].stamp <= clock && |slots[i].key.pattern| < PATLEN
          && slots[i].re.value < next && slots[i].re.value !in freed
          && slots[i].re.value in made && made[slots[i].re.value] == slots[i].key)
    && (forall i, j :: 0 <= i < j < SLOTS && slots[i].re.Some? && slots[j].re.Some? ==>
          slots[i].key != slots[j].key && slots[i].stamp != slots[j].stamp && slots[i].re != slots[j].re)
    && (forall h :: h in made ==> h < next)
    && (forall h :: h in freed ==> h < next)
  }

  lemma {:induction false} AllBelow(n: nat)
    ensures |set i: nat | i < n && IsIndex(i)| == n
  {
    if n == 0 {
      assert (set i: nat | i < n && IsIndex(i)) == {};
    } else {
      AllBelow(n - 1);
      assert (set i: nat | i < n && IsIndex(i)) == (set i: nat | i < n - 1 && IsIndex(i)) + {n - 1};
    }
  }

  ghost predicate IsIndex(i: nat) { true }

  /** The slot with the least stamp is empty, or every other slot is newer. */
  lemma {:induction false} OldestAge(slots: seq<CacheSlot>, clock: nat, next: nat, made: map<Handle, Key>, freed: set<Handle>, lru: nat)
    requires Sound(slots, clock, next, made, freed) && lru < SLOTS
    requires forall j :: 0 <= j < SLOTS ==> slots[lru].stamp <= slots[j].stamp
    ensures slots[lru].re.Some? ==> Age(slots, lru) == SLOTS - 1
  {
    if slots[lru].re.Some? {
      var all := set i: nat | i < SLOTS && IsIndex(i);
      AllBelow(SLOTS);
      forall i: nat ensures i in NewerSet(slots, slots[lru].stamp) <==> i in all - {lru} {
        if i < SLOTS && i != lru { assert IsIndex(i); }
      }
      assert NewerSet(slots, slots[lru].stamp) == all - {lru};
    }
  }

  /** Writing a newest stamp into one slot ages every other by one at most, and makes that one the newest. */
  lemma {:induction false} Ages(slots: seq<CacheSlot>, clock: nat, k: nat, s: CacheSlot, i: nat)
    requires k < |slots| && i < |slots| && s.stamp > clock && forall j :: 0 <= j < |slots| ==> slots[j].stamp <= clock
    ensures i != k ==> Age(slots[k := s], i) <= Age(slots, i) + 1
    ensures Age(slots[k := s], k) == 0
  {
    var after := slots[k := s];
    assert NewerSet(after, s.stamp) == {};
    if i != k {
      var was := NewerSet(slots, slots[i].stamp);
      forall j | j in NewerSet(after, slots[i].stamp) ensures j in was + {k} {
        if j != k { assert Newer(slots, slots[i].stamp, j); }
      }
      Smaller(NewerSet(after, slots[i].stamp), was + {k});
    }
  }

  /** What one call did to the handles held before it: at most one left, and only the one all others were newer than. */
  ghost predicate Aged(was: seq<CacheSlot>, now: seq<CacheSlot>, freedWas: set<Handle>, freedNow: set<Handle>) {
    && |was| == |now| && freedWas <= freedNow
    && forall h, i: nat :: At(was, h, i) && Age(was, i) < SLOTS - 1 ==>
         h !in freedNow && At(now, h, i) && Age(now, i) <= Age(was, i) + 1
  }

  /** A hit: the slot becomes the newest. */
  lemma {:induction false} Touched(slots: seq<CacheSlot>, clock: nat, next: nat, made: map<Handle, Key>, freed: set<Handle>, k: nat)
    requires Sound(slots, clock, next, made, freed) && k < SLOTS && slots[k].re.Some?
    ensures
      var now := slots[k := slots[k].(stamp := clock + 1)];
      Sound(now, clock + 1, next, made, freed) && Aged(slots, now, freed, freed) && Age(now, k) == 0
  {
    var s := slots[k].(stamp := clock + 1);
    var now := slots[k := s];
    Ages(slots, clock, k, s, k);
    hide Age;
    forall h, i: nat | At(slots, h, i) && Age(slots, i) < SLOTS - 1
      ensures h !in freed && At(now, h, i) && Age(now, i) <= Age(slots, i) + 1
    {
      Ages(slots, clock, k, s, i);
    }
  }

  ghost function FreedBy(slots: seq<CacheSlot>, freed: set<Handle>, lru: nat): set<Handle>
    requires lru < |slots|
  {
    if slots[lru].re.Some? then freed + {slots[lru].re.value} else freed
  }

  /** A miss: the slot with the least stamp is handed over to a new handle. */
  lemma {:induction false} Replaced(slots: seq<CacheSlot>, clock: nat, next: nat, made: map<Handle, Key>, freed: set<Handle>, lru: nat, key: Key)
    requires Sound(slots, clock, next, made, freed) && lru < SLOTS && |key.pattern| < PATLEN
    requires forall j :: 0 <= j < SLOTS ==> slots[lru].stamp <= slots[j].stamp
    requires forall j :: 0 <= j < SLOTS && slots[j].re.Some? ==> slots[j].key != key
    ensures
      var now := slots[lru := CacheSlot(key, Some(next), clock + 1)];
      && Sound(now, clock + 1, next + 1, made[next := key], FreedBy(slots, freed, lru))
      && Aged(slots, now, freed, FreedBy(slots, freed, lru)) && Age(now, lru) == 0
  {
    var s := CacheSlot(key, Some(next), clock + 1);
    var now := slots[lru := s];
    OldestAge(slots, clock, next, made, freed, lru);
    Ages(slots, clock, lru, s, lru);
    hide Age;
    forall h, i: nat | At(slots, h, i) && Age(slots, i) < SLOTS - 1
      ensures h !in FreedBy(slots, freed, lru) && At(now, h, i) && Age(now, i) <= Age(slots, i) + 1
    {
      Ages(slots, clock, lru, s, i);
    }
  }

  /** The slot that already holds key. */
  ghost predicate Hit(slots: seq<CacheSlot>, key: Key, i: nat) {
    i < |slots| && slots[i].re.Some? && slots[i].key == key
  }

  class Cache {
    const slots: array<CacheSlot>
    const compiles: Key -> bool
    var clock: nat
    var next: Handle
    ghost var made: map<Handle, Key>
    ghost var freed: set<Handle>

    ghost predicate Valid()
      reads this, slots
    {
      clock < CLOCK_LIMIT && Sound(slots[..], clock, next, made, freed)
    }

    constructor (compiles: Key -> bool)
      ensures Valid() && this.compiles == compiles && clock == 0 && freed == {} && fresh(slots) && slots.Length == 32
    {
      this.compiles := compiles;
      slots := new CacheSlot[SLOTS](_ => CacheSlot(Key("", 0), None, 0));
      clock, next, made, freed := 0, 0, map[], {};
    }

    /** __ls_regex_cached. */
    method Cached(pattern: string, flags: int) returns (re: Option<Handle>)
      requires Valid() && clock + 1 < 0x1_0000_0000
      modifies this, slots
      ensures Valid() && clock <= old(clock) + 1
      ensures Aged(old(slots[..]), slots[..], old(freed), freed)
      ensures re.Some? <==> |pattern| < 128 && (compiles(Key(pattern, flags)) || exists i: nat :: Hit(old(slots[..]), Key(pattern, flags), i))
      ensures re.None? ==> slots[..] == old(slots[..]) && freed == old(freed)
      ensures re.Some? ==> Newest(re.value, Key(pattern, flags))
      ensures forall i: nat :: Hit(old(slots[..]), Key(pattern, flags), i) && |pattern| < 128 ==>
        re == old(slots[..])[i].re && freed == old(freed) && next == old(next)
    {
      hide Sound, Aged, Age;
      if |pattern| >= PATLEN {
        Unchanged(slots[..], clock, next, made, freed);
        return None;
      }
      var key := Key(pattern, flags);
      SlotCount(slots[..], clock, next, made, freed);
      var lru := 0;
      var i := 0;
      while i < SLOTS
        invariant 0 <= i <= SLOTS && 0 <= lru < SLOTS && slots[..] == old(slots[..])
        invariant forall j :: 0 <= j < i ==> slots[lru].stamp <= slots[j].stamp
        invariant forall j :: 0 <= j < i && slots[j].re.Some? ==> slots[j].key != key
      {
        if slots[i].re.Some? && slots[i].key == key {
          Touched(slots[..], clock, next, made, freed, i);
          HitOnce(slots[..], clock, next, made, freed, key, i);
          clock := clock + 1;
          ghost var now := slots[..][i := slots[i].(stamp := clock)];
          slots[i] := slots[i].(stamp := clock);
          assert slots[..] == now;
          assert Hit(old(slots[..]), key, i) && At(slots[..], slots[i].re.value, i);
          return slots[i].re;
        }
        if slots[i].stamp < slots[lru].stamp {
          lru := i;
        }
        i := i + 1;
      }
      if !compiles(key) {
        Unchanged(slots[..], clock, next, made, freed);
        return None;
      }
      Replaced(slots[..], clock, next, made, freed, lru, key);
      freed := FreedBy(slots[..], freed, lru);
      made := made[next := key];
      clock := clock + 1;
      ghost var after := slots[..][lru := CacheSlot(key, Some(next), clock)];
      slots[lru] := CacheSlot(key, Some(next), clock);
      assert slots[..] == after;
      re := Some(next);
      assert At(slots[..], next, lru);
      HeldNotFreed(slots[..], clock, next + 1, made, freed, next, lru);
      next := next + 1;
    }

    /** h was just handed out for key. */
    ghost predicate Newest(h: Handle, key: Key)
      reads this, slots
    {
      && h in made && made[h] == key && h !in freed
      && exists i: nat :: At(slots[..], h, i) && Age(slots[..], i) == 0
    }

    /** h is in the cache with at most n slots used more recently. */
    ghost predicate Safe(h: Handle, n: nat)
      reads this, slots
    {
      h !in freed && exists i: nat :: At(slots[..], h, i) && Age(slots[..], i) <= n
    }

    /** A handle just returned survives any 31 further calls. */
    method Survives(h: Handle, keys: seq<Key>)
      requires Valid() && clock + |keys| < 0x1_0000_0000 && Safe(h, 0) && |keys| <= 31
      modifies this, slots
      ensures Valid() && h !in freed && Held(slots[..], h)
    {
      var k := 0;
      while k < |keys|
        invariant 0 <= k <= |keys| && Valid() && clock + |keys| - k < CLOCK_LIMIT && Safe(h, k)
      {
        hide Valid, Age;
        ghost var i: nat :| At(slots[..], h, i) && Age(slots[..], i) <= k;
        var re := Cached(keys[k].pattern, keys[k].flags);
        assert At(slots[..], h, i) && Age(slots[..], i) <= k + 1;
        k := k + 1;
      }
    }
  }

  lemma {:induction false} Unchanged(slots: seq<CacheSlot>, clock: nat, next: nat, made: map<Handle, Key>, freed: set<Handle>)
    requires Sound(slots, clock, next, made, freed)
    ensures Aged(slots, slots, freed, freed)
  {
  }

  lemma {:induction false} SlotCount(slots: seq<CacheSlot>, clock: nat, next: nat, made: map<Handle, Key>, freed: set<Handle>)
    requires Sound(slots, clock, next, made, freed)
    ensures |slots| == SLOTS
  {
  }

  lemma {:induction false} HitOnce(slots: seq<CacheSlot>, clock: nat, next: nat, made: map<Handle, Key>, freed: set<Handle>, key: Key, i: nat)
    requires Sound(slots, clock, next, made, freed) && Hit(slots, key, i)
    ensures forall j: nat :: Hit(slots, key, j) ==> j == i
    ensures slots[i].re.value in made && made[slots[i].re.value] == key && slots[i].re.value !in freed
  {
  }

  lemma {:induction false} HeldNotFreed(slots: seq<CacheSlot>, clock: nat, next: nat, made: map<Handle, Key>, freed: set<Handle>, h: Handle, i: nat)
    requires Sound(slots, clock, next, made, freed) && At(slots, h, i)
    ensures h in made && made[h] == slots[i].key && h !in freed
  {
  }
}
