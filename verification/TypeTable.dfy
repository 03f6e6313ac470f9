/** The type checker's name indexes: hashed lookup answers what a first-match scan of the registry answers. */
module TypeTable {
  import opened Basics
  import opened Probing

  datatype Entry<V> = Entry(name: string, value: V)

  /** The earliest registration of a name, searched front to back. */
  function FirstMatch<V>(entries: seq<Entry<V>>, name: string): Option<V> {
    if entries == [] then None
    else if entries[0].name == name then Some(entries[0].value)
    else FirstMatch(entries[1..], name)
  }

  lemma {:induction false} FirstMatchAppend<V>(entries: seq<Entry<V>>, e: Entry<V>, name: string)
    ensures FirstMatch(entries + [e], name) ==
      if FirstMatch(entries, name).Some? then FirstMatch(entries, name)
      else if e.name == name then Some(e.value) else None
  {
    if entries == [] {
      assert (entries + [e])[1..] == [];
    } else {
      assert (entries + [e])[1..] == entries[1..] + [e];
      FirstMatchAppend(entries[1..], e, name);
    }
  }

  /** What FirstMatch means: an entry with that name and no earlier one. */
  lemma {:induction false} FirstMatchIsFirst<V>(entries: seq<Entry<V>>, name: string)
    ensures FirstMatch(entries, name).None? <==> forall i :: 0 <= i < |entries| ==> entries[i].name != name
    ensures FirstMatch(entries, name).Some? ==>
      exists i :: 0 <= i < |entries| && entries[i] == Entry(name, FirstMatch(entries, name).value)
        && forall j :: 0 <= j < i ==> entries[j].name != name
  {
    if entries != [] {
      FirstMatchIsFirst(entries[1..], name);
      if entries[0].name != name && FirstMatch(entries, name).Some? {
        var i :| 0 <= i < |entries[1..]| && entries[1..][i] == Entry(name, FirstMatch(entries, name).value)
          && forall j :: 0 <= j < i ==> entries[1..][j].name != name;
        forall j | 0 <= j < i + 1 ensures entries[j].name != name {
          if j > 0 { assert entries[j] == entries[1..][j - 1]; }
        }
        assert entries[i + 1] == entries[1..][i];
      } else if entries[0].name == name {
        assert entries[0] == Entry(name, entries[0].value);
      }
    }
  }

  /** The index agrees with the registry on every name. */
  ghost predicate Mirrors<V>(entries: seq<Entry<V>>, view: map<string, V>) {
    forall name: string :: FirstMatch(entries, name) == if name in view then Some(view[name]) else None
  }

  /** A registry array with its hash index beside it, for any hash function. */
  class Registry<V> {
    ghost var view: map<string, V>
    const hash: string -> nat
    var entries: seq<Entry<V>>
    var tab: array<Slot<string, V>>
    var count: nat

    /** The load stays under 70 percent, so every probe ends. */
    ghost predicate Valid()
      reads this, tab
    {
      && Probing.Holds(tab[..], hash, view) && count == |view| && Mirrors(entries, view)
      && (tab.Length == 0 || count * 10 < tab.Length * 7) && (tab.Length == 0 || tab.Length >= 16)
    }

    constructor (hash: string -> nat)
      ensures Valid() && entries == [] && fresh(tab)
    {
      this.hash := hash;
      entries, view, count := [], map[], 0;
      tab := new Slot<string, V>[0](_ => Empty);
    }

    /** type_tab_grow. */
    method Grow()
      requires Valid()
      modifies this`tab
      ensures Valid() && fresh(tab) && tab.Length == if old(tab.Length) < 16 then 16 else old(tab.Length) * 2
    {
      hide Probing.Holds, Mirrors;
      if tab.Length == 0 { NothingHeld(tab[..], hash, view); }
      tab := Probing.Rehash<string, V>(tab, hash, view, if tab.Length < 16 then 16 else tab.Length * 2);
    }

    /** register_struct_type and type_tab_insert: the array takes every entry, the index keeps the first of a name. */
    method Register(name: string, value: V)
      requires Valid()
      modifies this, tab
      ensures Valid() && entries == old(entries) + [Entry(name, value)]
      ensures tab == old(tab) || fresh(tab)
    {
      hide Probing.Holds, Mirrors, Probing.EndsAt;
      if tab.Length == 0 || (count + 1) * 10 >= tab.Length * 7 {
        if tab.Length == 0 { NothingHeld(tab[..], hash, view); }
        Grow();
      }
      MirrorsAppend(entries, view, Entry(name, value));
      var i := Probing.Probe<string, V>(tab, hash, view, name);
      entries := entries + [Entry(name, value)];
      if tab[i].Empty? {
        Probing.WriteUpdates(tab[..], hash, view, name, value, i);
        ghost var after := tab[..][i := Full(name, value)];
        tab[i] := Full(name, value);
        assert tab[..] == after;
        count := count + 1;
        view := view[name := value];
      }
    }

    /** type_tab_find: the hashed lookup is the linear scan. */
    method Find(name: string) returns (r: Option<V>)
      requires Valid()
      ensures r == FirstMatch(entries, name)
    {
      if tab.Length == 0 {
        NothingHeld(tab[..], hash, view);
        return None;
      }
      var i := Probing.Probe<string, V>(tab, hash, view, name);
      return if tab[i].Full? then Some(tab[i].value) else None;
    }

    /** The scan used when the index is switched off. */
    method FindLinear(name: string) returns (r: Option<V>)
      ensures r == FirstMatch(entries, name)
    {
      var i := 0;
      assert entries[0..] == entries;
      while i < |entries|
        invariant 0 <= i <= |entries| && FirstMatch(entries, name) == FirstMatch(entries[i..], name)
      {
        if entries[i].name == name {
          return Some(entries[i].value);
        }
        assert entries[i..][1..] == entries[i + 1..];
        i := i + 1;
      }
      return None;
    }
  }

  lemma {:induction false} NothingHeld<V>(slots: seq<Slot<string, V>>, hash: string -> nat, view: map<string, V>)
    requires Probing.Holds(slots, hash, view) && slots == []
    ensures view == map[]
  {
  }

  lemma {:induction false} MirrorsAppend<V>(entries: seq<Entry<V>>, view: map<string, V>, e: Entry<V>)
    requires Mirrors(entries, view)
    ensures Mirrors(entries + [e], if e.name in view then view else view[e.name := e.value])
  {
    forall name: string
      ensures var after := if e.name in view then view else view[e.name := e.value];
        FirstMatch(entries + [e], name) == if name in after then Some(after[name]) else None
    {
      FirstMatchAppend(entries, e, name);
    }
  }

  /** The impl index: a name maps to the place of its first impl. */
  ghost predicate Numbered(entries: seq<Entry<nat>>) {
    forall i :: 0 <= i < |entries| ==> entries[i].value == i
  }

  /** impl_tab_insert after a new impl is appended. */
  method RegisterImpl(r: Registry<nat>, name: string)
    requires r.Valid() && Numbered(r.entries)
    modifies r, r.tab
    ensures r.Valid() && Numbered(r.entries) && r.entries == old(r.entries) + [Entry(name, |old(r.entries)|)]
  {
    r.Register(name, |r.entries|);
  }

  /** find_impl_idx: the index of the first impl with that name, or -1. */
  method FindImpl(r: Registry<nat>, name: string) returns (idx: int)
    requires r.Valid() && Numbered(r.entries)
    ensures idx == -1 ==> forall i :: 0 <= i < |r.entries| ==> r.entries[i].name != name
    ensures idx != -1 ==> 0 <= idx < |r.entries| && r.entries[idx].name == name && forall i :: 0 <= i < idx ==> r.entries[i].name != name
  {
    FirstMatchIsFirst(r.entries, name);
    var found := r.Find(name);
    return if found.Some? then found.value else -1;
  }
}
