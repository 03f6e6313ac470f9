/** Open addressing with linear probing: a slot array that stands for a map, entries never deleted. */
module Probing {
  import opened Basics

  datatype Slot<K, V> = Empty | Full(key: K, value: V)

  /** d places after home, wrapping at n. */
  function At(home: nat, d: nat, n: nat): (i: nat)
    requires home < n && d < n
    ensures i < n
  {
    if home + d < n then home + d else home + d - n
  }

  /** How far i is after home. */
  function Dist(home: nat, i: nat, n: nat): (d: nat)
    requires home < n && i < n
    ensures d < n && At(home, d, n) == i
  {
    if home <= i then i - home else i + n - home
  }

  function Home<K>(hash: K -> nat, k: K, n: nat): (h: nat)
    requires n > 0
    ensures h < n
  {
    hash(k) % n
  }

  /** The first d places probed for k hold other keys. */
  ghost predicate Passed<K, V>(slots: seq<Slot<K, V>>, hash: K -> nat, k: K, d: nat)
    requires |slots| > 0 && d <= |slots|
  {
    forall e: nat :: e < d ==> var s := slots[At(Home(hash, k, |slots|), e, |slots|)]; s.Full? && s.key != k
  }

  /** The slots hold the map: each entry once, where probing for it ends. */
  ghost predicate Holds<K, V>(slots: seq<Slot<K, V>>, hash: K -> nat, view: map<K, V>) {
    && (forall i :: 0 <= i < |slots| && slots[i].Full? ==>
          && slots[i].key in view && view[slots[i].key] == slots[i].value
          && Passed(slots, hash, slots[i].key, Dist(Home(hash, slots[i].key, |slots|), i, |slots|)))
    && (forall k :: k in view ==> exists i :: 0 <= i < |slots| && slots[i].Full? && slots[i].key == k)
  }

  /** Where probing for k comes to an end: at its entry, or at the first empty slot. */
  ghost predicate EndsAt<K, V>(slots: seq<Slot<K, V>>, hash: K -> nat, k: K, i: nat) {
    && i < |slots|
    && Passed(slots, hash, k, Dist(Home(hash, k, |slots|), i, |slots|))
    && (slots[i].Full? ==> slots[i].key == k)
  }

  lemma {:induction false} PassedAt<K, V>(slots: seq<Slot<K, V>>, hash: K -> nat, k: K, d: nat, e: nat)
    requires |slots| > 0 && d <= |slots| && Passed(slots, hash, k, d) && e < d
    ensures var s := slots[At(Home(hash, k, |slots|), e, |slots|)]; s.Full? && s.key != k
  {
  }

  /** An entry for k is where probing for k ends. */
  lemma {:induction false} EndIsEntry<K, V>(slots: seq<Slot<K, V>>, hash: K -> nat, view: map<K, V>, k: K, i: nat, j: nat)
    requires Holds(slots, hash, view) && EndsAt(slots, hash, k, i) && j < |slots| && slots[j].Full? && slots[j].key == k
    ensures i == j
  {
    var h := Home(hash, k, |slots|);
    var di, dj := Dist(h, i, |slots|), Dist(h, j, |slots|);
    hide At, Dist, Home;
    if dj < di {
      PassedAt(slots, hash, k, di, dj);
    } else if di < dj {
      PassedAt(slots, hash, k, dj, di);
    }
  }

  /** Probing decides membership. */
  lemma {:induction false} EndDecides<K, V>(slots: seq<Slot<K, V>>, hash: K -> nat, view: map<K, V>, k: K, i: nat)
    requires Holds(slots, hash, view) && EndsAt(slots, hash, k, i)
    ensures k in view <==> slots[i].Full?
    ensures k in view ==> view[k] == slots[i].value
  {
    if k in view {
      var j :| 0 <= j < |slots| && slots[j].Full? && slots[j].key == k;
      EndIsEntry(slots, hash, view, k, i, j);
    }
  }

  /** Writing where probing ends updates the map at that key and nowhere else. */
  lemma {:induction false} WriteUpdates<K, V>(slots: seq<Slot<K, V>>, hash: K -> nat, view: map<K, V>, k: K, v: V, i: nat)
    requires Holds(slots, hash, view) && EndsAt(slots, hash, k, i)
    ensures Holds(slots[i := Full(k, v)], hash, view[k := v])
  {
    EndDecides(slots, hash, view, k, i);
    var after, then' := slots[i := Full(k, v)], view[k := v];
    forall j | 0 <= j < |after| && after[j].Full?
      ensures after[j].key in then' && then'[after[j].key] == after[j].value
      ensures Passed(after, hash, after[j].key, Dist(Home(hash, after[j].key, |after|), j, |after|))
    {
      if j != i {
        KeyElsewhere(slots, hash, view, k, i, j);
        PassedStays(slots, hash, slots[j].key, Dist(Home(hash, slots[j].key, |slots|), j, |slots|), i, k, v);
      } else {
        PassedBefore(slots, hash, k, i, v);
      }
    }
    forall q | q in then' ensures exists j :: 0 <= j < |after| && after[j].Full? && after[j].key == q {
      if q == k {
        assert after[i].key == q;
      } else {
        var j :| 0 <= j < |slots| && slots[j].Full? && slots[j].key == q;
        assert j != i;
        assert after[j] == slots[j];
      }
    }
  }

  /** The entry for k can only be where probing for it ends. */
  lemma {:induction false} KeyElsewhere<K, V>(slots: seq<Slot<K, V>>, hash: K -> nat, view: map<K, V>, k: K, i: nat, j: nat)
    requires Holds(slots, hash, view) && EndsAt(slots, hash, k, i) && j < |slots| && slots[j].Full? && j != i
    ensures slots[j].key != k
  {
    if slots[j].key == k { EndIsEntry(slots, hash, view, k, i, j); }
  }

  lemma {:induction false} PassedStays<K, V>(slots: seq<Slot<K, V>>, hash: K -> nat, q: K, d: nat, i: nat, k: K, v: V)
    requires |slots| > 0 && d <= |slots| && i < |slots| && Passed(slots, hash, q, d) && q != k
    ensures Passed(slots[i := Full(k, v)], hash, q, d)
  {
    forall e: nat | e < d
      ensures var s := slots[i := Full(k, v)][At(Home(hash, q, |slots|), e, |slots|)]; s.Full? && s.key != q
    {
      var s := slots[At(Home(hash, q, |slots|), e, |slots|)];
      assert s.Full? && s.key != q;
    }
  }

  lemma {:induction false} PassedBefore<K, V>(slots: seq<Slot<K, V>>, hash: K -> nat, k: K, i: nat, v: V)
    requires EndsAt(slots, hash, k, i)
    ensures Passed(slots[i := Full(k, v)], hash, k, Dist(Home(hash, k, |slots|), i, |slots|))
  {
    var h := Home(hash, k, |slots|);
    forall e: nat | e < Dist(h, i, |slots|)
      ensures var s := slots[i := Full(k, v)][At(h, e, |slots|)]; s.Full? && s.key != k
    {
      var s := slots[At(h, e, |slots|)];
      assert s.Full? && s.key != k && At(h, e, |slots|) != i;
    }
  }

  lemma {:induction false} FullKeys<K, V>(slots: seq<Slot<K, V>>, hash: K -> nat, view: map<K, V>, n: nat) returns (keys: set<K>)
    requires Holds(slots, hash, view) && n <= |slots| && forall i :: 0 <= i < n ==> slots[i].Full?
    ensures keys <= view.Keys && |keys| == n && forall k :: k in keys ==> exists i :: 0 <= i < n && slots[i].key == k
  {
    if n == 0 { return {}; }
    var k := slots[n - 1].key;
    EntryInView(slots, hash, view, n - 1);
    hide Holds, Passed, EndsAt;
    keys := FullKeys(slots, hash, view, n - 1);
    if k in keys {
      var i :| 0 <= i < n - 1 && slots[i].key == k;
      KeyElsewhere(slots, hash, view, k, n - 1, i);
    }
    keys := keys + {k};
  }

  /** A table that is not full has an empty slot, so every probe ends. */
  lemma {:induction false} RoomLeft<K, V>(slots: seq<Slot<K, V>>, hash: K -> nat, view: map<K, V>)
    requires Holds(slots, hash, view) && |view| < |slots|
    ensures exists i :: 0 <= i < |slots| && slots[i].Empty?
  {
    if forall i :: 0 <= i < |slots| ==> slots[i].Full? {
      var keys := FullKeys(slots, hash, view, |slots|);
      Smaller(keys, view.Keys);
    }
  }

  /** The probe loop every one of these tables runs. */
  method Probe<K(==), V>(slots: array<Slot<K, V>>, hash: K -> nat, ghost view: map<K, V>, k: K) returns (i: nat)
    requires Holds(slots[..], hash, view) && |view| < slots.Length
    ensures i < slots.Length && EndsAt(slots[..], hash, k, i)
    ensures k in view <==> slots[i].Full?
    ensures k in view ==> slots[i] == Full(k, view[k])
  {
    hide Holds;
    RoomLeft(slots[..], hash, view);
    ghost var gap :| 0 <= gap < slots.Length && slots[..][gap].Empty?;
    ghost var home := Home(hash, k, slots.Length);
    i := Home(hash, k, slots.Length);
    ghost var d := 0;
    while slots[i].Full? && slots[i].key != k
      invariant d < slots.Length && i == At(home, d, slots.Length) && Passed(slots[..], hash, k, d)
      invariant d <= Dist(home, gap, slots.Length)
      decreases slots.Length - d
    {
      assert i != gap;
      i := if i + 1 == slots.Length then 0 else i + 1;
      d := d + 1;
    }
    assert Dist(home, i, slots.Length) == d;
    EndDecides(slots[..], hash, view, k, i);
  }

  /** The map of the first n slots. */
  ghost predicate Copied<K, V>(old': seq<Slot<K, V>>, view: map<K, V>, done: map<K, V>, n: nat) {
    && n <= |old'| && done.Keys <= view.Keys && (forall k :: k in done ==> done[k] == view[k])
    && forall j :: 0 <= j < n && old'[j].Full? ==> old'[j].key in done
  }

  lemma {:induction false} CopiedAll<K, V>(old': seq<Slot<K, V>>, hash: K -> nat, view: map<K, V>, done: map<K, V>)
    requires Holds(old', hash, view) && Copied(old', view, done, |old'|)
    ensures done == view
  {
    forall k | k in view ensures k in done {
      var i :| 0 <= i < |old'| && old'[i].Full? && old'[i].key == k;
    }
  }

  /** Probe, then write there. */
  method Put<K(==), V>(slots: array<Slot<K, V>>, hash: K -> nat, ghost view: map<K, V>, k: K, v: V)
    requires Holds(slots[..], hash, view) && |view| < slots.Length
    modifies slots
    ensures Holds(slots[..], hash, view[k := v])
  {
    hide Holds;
    var at := Probe(slots, hash, view, k);
    WriteUpdates(slots[..], hash, view, k, v, at);
    ghost var after := slots[..][at := Full(k, v)];
    slots[at] := Full(k, v);
    assert slots[..] == after;
  }

  lemma {:induction false} CopiedOne<K, V>(old': seq<Slot<K, V>>, hash: K -> nat, view: map<K, V>, done: map<K, V>, n: nat)
    requires Holds(old', hash, view) && Copied(old', view, done, n) && n < |old'|
    ensures |done| <= |view|
    ensures old'[n].Full? ==> Copied(old', view, done[old'[n].key := old'[n].value], n + 1)
    ensures old'[n].Empty? ==> Copied(old', view, done, n + 1)
  {
    hide Holds;
    if old'[n].Full? { EntryInView(old', hash, view, n); }
    Smaller(done.Keys, view.Keys);
  }

  /** Every entry of one table put into a larger empty one. */
  method Rehash<K(==), V>(old': array<Slot<K, V>>, hash: K -> nat, ghost view: map<K, V>, newCap: nat)
    returns (slots: array<Slot<K, V>>)
    requires Holds(old'[..], hash, view) && |view| < newCap
    ensures fresh(slots) && slots.Length == newCap && Holds(slots[..], hash, view)
  {
    slots := new Slot<K, V>[newCap](_ => Empty);
    ghost var done: map<K, V> := map[];
    assert Holds(slots[..], hash, done) && Copied(old'[..], view, done, 0);
    hide Holds, Copied;
    var i := 0;
    while i < old'.Length
      invariant 0 <= i <= old'.Length && fresh(slots) && slots.Length == newCap
      invariant old'[..] == old(old'[..])
      invariant Holds(slots[..], hash, done) && Copied(old'[..], view, done, i)
    {
      CopiedOne(old'[..], hash, view, done, i);
      if old'[i].Full? {
        Put(slots, hash, done, old'[i].key, old'[i].value);
        done := done[old'[i].key := old'[i].value];
      }
      i := i + 1;
    }
    CopiedAll(old'[..], hash, view, done);
  }

  lemma {:induction false} EntryInView<K, V>(slots: seq<Slot<K, V>>, hash: K -> nat, view: map<K, V>, i: nat)
    requires Holds(slots, hash, view) && i < |slots| && slots[i].Full?
    ensures slots[i].key in view && view[slots[i].key] == slots[i].value && EndsAt(slots, hash, slots[i].key, i)
  {
  }
}
