/** The allocation tracker: a growing probing table that refines the history of every address. */
module MemCheck {
  import opened Probing

  type Address = nat
  const NULL: Address := 0
  const INITIAL_CAP := 256

  datatype Status = Live(size: nat) | Freed

  /** What is known after a run: the latest status of every address ever handed out, and the error counts. */
  datatype Ledger = Ledger(status: map<Address, Status>, doubleFrees: nat, invalidFrees: nat, started: bool)

  datatype Event = Alloc(size: nat, result: Address) | Realloc(old': Address, size: nat, result: Address) | Free(p: Address)

  function Untracked(l: Ledger, p: Address): Ledger {
    if p in l.status && l.status[p].Live? then l.(status := l.status[p := Freed]) else l
  }

  /** What the C library may return: NULL, or an address that is not live. */
  predicate Possible(l: Ledger, e: Event) {
    match e
    case Alloc(_, r) => !(r in l.status && l.status[r].Live?)
    case Realloc(p, _, r) => var u := Untracked(l, p); !(r in u.status && u.status[r].Live?)
    case Free(_) => true
  }

  /** The history semantics. */
  function After(l: Ledger, e: Event): Ledger {
    match e
    case Alloc(size, r) =>
      if r == NULL then l.(started := true) else l.(started := true, status := l.status[r := Live(size)])
    case Realloc(p, size, r) =>
      var u := Untracked(l, p).(started := true);
      if r == NULL then u else u.(status := u.status[r := Live(size)])
    case Free(p) =>
      if p == NULL || !l.started then l
      else if p !in l.status then l.(invalidFrees := l.invalidFrees + 1)
      else if l.status[p].Freed? then l.(doubleFrees := l.doubleFrees + 1)
      else l.(status := l.status[p := Freed])
  }

  ghost function LiveSet(status: map<Address, Status>): set<Address> {
    set p | p in status && status[p].Live?
  }

  lemma {:induction false} MapGrows(status: map<Address, Status>, p: Address, s: Status)
    ensures |status[p := s]| == |status| + if p in status then 0 else 1
  {
    assert status[p := s].Keys == status.Keys + {p};
  }

  lemma {:induction false} LiveAdd(status: map<Address, Status>, p: Address, size: nat)
    requires !(p in status && status[p].Live?)
    ensures LiveSet(status[p := Live(size)]) == LiveSet(status) + {p} && p !in LiveSet(status)
    ensures |LiveSet(status[p := Live(size)])| == |LiveSet(status)| + 1
  {
    assert LiveSet(status[p := Live(size)]) == LiveSet(status) + {p};
  }

  lemma {:induction false} TrackCounts(status: map<Address, Status>, p: Address, size: nat)
    requires p != NULL && NULL !in status && !(p in status && status[p].Live?)
    ensures var then' := status[p := Live(size)];
      && |LiveSet(then')| == |LiveSet(status)| + 1 && |then'| == |status| + (if p in status then 0 else 1) && NULL !in then'
  {
    hide LiveSet;
    LiveAdd(status, p, size);
    MapGrows(status, p, Live(size));
  }

  lemma {:induction false} LiveDrop(status: map<Address, Status>, p: Address)
    requires p in status && status[p].Live?
    ensures LiveSet(status[p := Freed]) == LiveSet(status) - {p}
    ensures |LiveSet(status[p := Freed])| == |LiveSet(status)| - 1
  {
    assert LiveSet(status[p := Freed]) == LiveSet(status) - {p};
  }

  class Tracker {
    ghost var ledger: Ledger
    const hash: Address -> nat
    var table: array<Slot<Address, Status>>
    var total: nat
    var live: nat
    var doubleFrees: nat
    var invalidFrees: nat
    var initialized: bool

    /** The table holds the history, the counters count it, and the table is under half full. */
    ghost predicate Valid()
      reads this, table
    {
      && Probing.Holds(table[..], hash, ledger.status)
      && total == |ledger.status| && live == |LiveSet(ledger.status)|
      && doubleFrees == ledger.doubleFrees && invalidFrees == ledger.invalidFrees && initialized == ledger.started
      && NULL !in ledger.status
      && (initialized ==> INITIAL_CAP <= table.Length && total * 2 < table.Length)
      && (!initialized ==> ledger.status == map[] && table.Length == 0)
    }

    constructor (hash: Address -> nat)
      ensures Valid() && ledger == Ledger(map[], 0, 0, false) && fresh(table)
    {
      this.hash := hash;
      table := new Slot<Address, Status>[0](_ => Empty);
      total, live, doubleFrees, invalidFrees, initialized := 0, 0, 0, 0, false;
      ledger := Ledger(map[], 0, 0, false);
    }

    /** mc_init on first use. */
    method Init()
      requires Valid()
      modifies this
      ensures Valid() && initialized && ledger == old(ledger).(started := true)
      ensures table == old(table) || (fresh(table) && table.Length == 256)
    {
      if initialized {
        return;
      }
      initialized := true;
      table := new Slot<Address, Status>[INITIAL_CAP](_ => Empty);
      ledger := ledger.(started := true);
    }

    /** Grow when one more entry would make the table half full. */
    method MakeRoom()
      requires Valid() && initialized
      modifies this
      ensures Valid() && initialized && ledger == old(ledger) && (total + 1) * 2 < table.Length
      ensures table == old(table) || fresh(table)
    {
      if (total + 1) * 2 >= table.Length {
        hide Probing.Holds;
        table := Probing.Rehash<Address, Status>(table, hash, ledger.status, table.Length * 2);
      }
    }

    /** Track p as live: a new entry, or the recycled entry of an address freed before. */
    method Track(p: Address, size: nat)
      requires Valid() && initialized && (total + 1) * 2 < table.Length
      requires p != NULL && !(p in ledger.status && ledger.status[p].Live?)
      modifies this, table
      ensures Valid() && initialized && table == old(table)
      ensures ledger == old(ledger).(status := old(ledger).status[p := Live(size)])
    {
      hide Probing.Holds, LiveSet, Probing.EndsAt;
      var i := Probing.Probe<Address, Status>(table, hash, ledger.status, p);
      TrackCounts(ledger.status, p, size);
      if table[i].Empty? {
        total := total + 1;
      }
      SetEntry(i, p, Live(size));
      live := live + 1;
      ledger := ledger.(status := ledger.status[p := Live(size)]);
    }

    /** Write an entry where probing for its address ended. */
    method SetEntry(i: nat, p: Address, status: Status)
      requires Probing.Holds(table[..], hash, ledger.status) && Probing.EndsAt(table[..], hash, p, i)
      modifies table
      ensures Probing.Holds(table[..], hash, ledger.status[p := status])
    {
      hide Probing.Holds;
      Probing.WriteUpdates(table[..], hash, ledger.status, p, status, i);
      ghost var after := table[..][i := Full(p, status)];
      table[i] := Full(p, status);
      assert table[..] == after;
    }

    /** Mark the entry found at i freed. */
    method MarkFreed(p: Address, i: nat)
      requires Valid() && initialized && p in ledger.status && ledger.status[p].Live?
      requires Probing.EndsAt(table[..], hash, p, i)
      modifies this, table
      ensures Valid() && initialized && table == old(table)
      ensures ledger == old(ledger).(status := old(ledger).status[p := Freed])
    {
      hide Probing.Holds;
      LiveDrop(ledger.status, p);
      MapGrows(ledger.status, p, Freed);
      SetEntry(i, p, Freed);
      live := live - 1;
      ledger := ledger.(status := ledger.status[p := Freed]);
    }

    /** ls_mc_alloc, with what malloc returns. */
    method Alloc(size: nat, result: Address) returns (p: Address)
      requires Valid() && Possible(ledger, Event.Alloc(size, result))
      modifies this, table
      ensures Valid() && p == result && ledger == After(old(ledger), Event.Alloc(size, result))
      ensures table == old(table) || fresh(table)
    {
      Init();
      MakeRoom();
      p := result;
      if p == NULL {
        return;
      }
      Track(p, size);
    }

    /** The implicit free of a reallocated block. */
    method Untrack(p: Address)
      requires Valid() && initialized
      modifies this, table
      ensures Valid() && initialized && table == old(table) && ledger == Untracked(old(ledger), p)
    {
      if p == NULL {
        return;
      }
      hide Probing.Holds;
      var i := Probing.Probe<Address, Status>(table, hash, ledger.status, p);
      if table[i].Full? && table[i].value.Live? {
        MarkFreed(p, i);
      }
    }

    /** ls_mc_realloc, with what realloc returns. */
    method Realloc(old': Address, size: nat, result: Address) returns (p: Address)
      requires Valid() && Possible(ledger, Event.Realloc(old', size, result))
      modifies this, table
      ensures Valid() && p == result && ledger == After(old(ledger), Event.Realloc(old', size, result))
      ensures table == old(table) || fresh(table)
    {
      Init();
      Untrack(old');
      MakeRoom();
      p := result;
      if p == NULL {
        return;
      }
      Track(p, size);
    }

    /** ls_mc_free. */
    method Free(p: Address)
      requires Valid()
      modifies this, table
      ensures Valid() && table == old(table) && ledger == After(old(ledger), Event.Free(p))
    {
      if p == NULL || !initialized {
        return;
      }
      hide Probing.Holds;
      var i := Probing.Probe<Address, Status>(table, hash, ledger.status, p);
      if table[i].Empty? {
        invalidFrees := invalidFrees + 1;
        ledger := ledger.(invalidFrees := ledger.invalidFrees + 1);
      } else if table[i].value.Freed? {
        doubleFrees := doubleFrees + 1;
        ledger := ledger.(doubleFrees := ledger.doubleFrees + 1);
      } else {
        MarkFreed(p, i);
      }
    }
  
    /** The counting loop of ls_mc_report: what is reported leaked is what is live. */
    method Report() returns (leaks: nat, violations: nat)
      requires Valid()
      ensures leaks == live == |LiveSet(ledger.status)|
      ensures violations == leaks + ledger.doubleFrees + ledger.invalidFrees
    {
      hide Probing.Holds, SeenLive, LiveSet;
      leaks := 0;
      var i := 0;
      AllSeen(table[..], hash, ledger.status);
      while i < table.Length
        invariant 0 <= i <= table.Length && leaks == |SeenLive(table[..], i)|
      {
        SeenStep(table[..], hash, ledger.status, i);
        if table[i].Full? && table[i].value.Live? {
          leaks := leaks + 1;
        }
        i := i + 1;
      }
      violations := leaks + doubleFrees + invalidFrees;
    }
  }

  ghost function SeenLive(slots: seq<Slot<Address, Status>>, n: nat): set<Address>
    requires n <= |slots|
  {
    if n == 0 then {}
    else SeenLive(slots, n - 1) + if slots[n - 1].Full? && slots[n - 1].value.Live? then {slots[n - 1].key} else {}
  }

  lemma {:induction false} NotSeen(slots: seq<Slot<Address, Status>>, hash: Address -> nat, status: map<Address, Status>, i: nat, n: nat)
    requires Probing.Holds(slots, hash, status) && n <= i < |slots| && slots[i].Full?
    ensures slots[i].key !in SeenLive(slots, n)
    decreases n
  {
    hide Probing.Holds;
    if n > 0 {
      NotSeen(slots, hash, status, i, n - 1);
      if slots[n - 1].Full? {
        Probing.EntryInView(slots, hash, status, i);
        Probing.KeyElsewhere(slots, hash, status, slots[i].key, i, n - 1);
      }
    }
  }

  lemma {:induction false} SeenStep(slots: seq<Slot<Address, Status>>, hash: Address -> nat, status: map<Address, Status>, i: nat)
    requires Probing.Holds(slots, hash, status) && i < |slots|
    ensures |SeenLive(slots, i + 1)| == |SeenLive(slots, i)| + if slots[i].Full? && slots[i].value.Live? then 1 else 0
  {
    hide Probing.Holds;
    if slots[i].Full? { NotSeen(slots, hash, status, i, i); }
  }

  lemma {:induction false} SeenIs(slots: seq<Slot<Address, Status>>, n: nat, p: Address)
    requires n <= |slots|
    ensures p in SeenLive(slots, n) <==> exists i :: 0 <= i < n && slots[i].Full? && slots[i].key == p && slots[i].value.Live?
  {
    if n > 0 { SeenIs(slots, n - 1, p); }
  }

  lemma {:induction false} AllSeen(slots: seq<Slot<Address, Status>>, hash: Address -> nat, status: map<Address, Status>)
    requires Probing.Holds(slots, hash, status)
    ensures SeenLive(slots, |slots|) == LiveSet(status) && SeenLive(slots, 0) == {}
  {
    forall p ensures p in SeenLive(slots, |slots|) <==> p in LiveSet(status) {
      SeenIs(slots, |slots|, p);
    }
  }

  // ---- the ledger and the event list ----

  const NOTHING := Ledger(map[], 0, 0, false)

  ghost function Play(events: seq<Event>): Ledger {
    if events == [] then NOTHING else After(Play(events[..|events| - 1]), events[|events| - 1])
  }

  predicate Returns(e: Event, p: Address) {
    (e.Alloc? || e.Realloc?) && e.result == p && p != NULL
  }

  predicate Releases(e: Event, p: Address) {
    (e.Free? && e.p == p) || (e.Realloc? && e.old' == p)
  }

  datatype Touch = Never | HandedOut(size: nat) | Released

  /** What last happened to p. */
  ghost function LastTouch(events: seq<Event>, p: Address): Touch {
    if events == [] then Never
    else
      var e, before := events[|events| - 1], LastTouch(events[..|events| - 1], p);
      if Returns(e, p) then HandedOut(e.size)
      else if Releases(e, p) && !before.Never? then Released
      else before
  }

  predicate Started(events: seq<Event>) {
    exists k :: 0 <= k < |events| && !events[k].Free?
  }

  /** The status of every address is what the last event that touched it made it. */
  lemma {:induction false} HistoryDecides(events: seq<Event>, p: Address)
    ensures var l := Play(events);
      && (p in l.status <==> !LastTouch(events, p).Never?)
      && (p in l.status ==> l.status[p] == if LastTouch(events, p).HandedOut? then Live(LastTouch(events, p).size) else Freed)
    ensures Play(events).started <==> Started(events)
    ensures NULL !in Play(events).status
  {
    if events != [] {
      var n := |events| - 1;
      HistoryDecides(events[..n], p);
      assert events == events[..n] + [events[n]];
      NeverStarted(events[..n]);
    }
  }

  lemma {:induction false} NeverStarted(events: seq<Event>)
    ensures !Play(events).started ==> Play(events).status == map[]
  {
    if events != [] { NeverStarted(events[..|events| - 1]); }
  }

  /** The frees that hit an address last released, or after the first allocation one never handed out. */
  ghost function BadFrees(events: seq<Event>, double: bool): nat {
    if events == [] then 0
    else
      var n := |events| - 1;
      var e := events[n];
      BadFrees(events[..n], double) +
      if e.Free? && e.p != NULL && Started(events[..n]) &&
         LastTouch(events[..n], e.p) == (if double then Released else Never) then 1 else 0
  }

  /** Both error counters are exactly those counts. */
  lemma {:induction false} CountersAreExact(events: seq<Event>)
    ensures Play(events).doubleFrees == BadFrees(events, true)
    ensures Play(events).invalidFrees == BadFrees(events, false)
  {
    if events != [] {
      var n := |events| - 1;
      CountersAreExact(events[..n]);
      if events[n].Free? {
        var l, p := Play(events[..n]), events[n].p;
        HistoryDecides(events[..n], p);
        NeverStarted(events[..n]);
        assert Play(events) == After(l, Event.Free(p));
      }
    }
  }

  /** One call on a tracker, with what malloc returned. */
  method Apply(t: Tracker, e: Event)
    requires t.Valid() && Possible(t.ledger, e)
    modifies t, t.table
    ensures t.Valid() && t.ledger == After(old(t.ledger), e) && (t.table == old(t.table) || fresh(t.table))
  {
    match e {
      case Alloc(size, result) => var p := t.Alloc(size, result);
      case Realloc(old', size, result) => var p := t.Realloc(old', size, result);
      case Free(p) => t.Free(p);
    }
  }

  /** Any run of the tracker ends with the history of its events, and its report counts them. */
  method Replay(hash: Address -> nat, events: seq<Event>) returns (t: Tracker, leaks: nat, violations: nat)
    requires forall k :: 0 <= k < |events| ==> Possible(Play(events[..k]), events[k])
    ensures fresh(t) && t.Valid() && t.ledger == Play(events)
    ensures leaks == |LiveSet(Play(events).status)| && violations == leaks + BadFrees(events, true) + BadFrees(events, false)
    ensures forall p :: p in LiveSet(Play(events).status) <==> LastTouch(events, p).HandedOut?
  {
    hide Possible, After, LastTouch, BadFrees, LiveSet;
    t := new Tracker(hash);
    var k := 0;
    assert events[..0] == [];
    while k < |events|
      invariant 0 <= k <= |events| && fresh(t) && fresh(t.table) && t.Valid() && t.ledger == Play(events[..k])
    {
      PlayOne(events, k);
      Apply(t, events[k]);
      k := k + 1;
    }
    assert events[..k] == events;
    leaks, violations := t.Report();
    CountersAreExact(events);
    forall p ensures p in LiveSet(Play(events).status) <==> LastTouch(events, p).HandedOut? { LiveIsHandedOut(events, p); }
  }

  lemma {:induction false} PlayOne(events: seq<Event>, k: nat)
    requires k < |events|
    ensures Play(events[..k + 1]) == After(Play(events[..k]), events[k])
  {
    assert events[..k + 1][..k] == events[..k];
  }

  lemma {:induction false} LiveIsHandedOut(events: seq<Event>, p: Address)
    ensures p in LiveSet(Play(events).status) <==> LastTouch(events, p).HandedOut?
  {
    HistoryDecides(events, p);
  }
}
