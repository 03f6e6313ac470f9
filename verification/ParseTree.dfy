/** Parses of a pattern: how every choice went, what the parse matches, and which of two parses is preferred. */
module ParseTree {
  import opened Basics
  import opened Machine
  import opened Regex

  datatype Tree =
    | Leaf
    | Inside(t: Tree)
    | Both(l: Tree, r: Tree)
    | Pick(right: bool, t: Tree)
    | Skip
    | Take(t: Tree)
    | Done
    | More(head: Tree, tail: Tree)

  /** The state a parse of e leaves, None when the tree is no parse of e from s. */
  ghost function Yield(flags: Flags, text: seq<Byte>, e: Regex, s: State, t: Tree): Option<State>
    decreases t, 2
  {
    match e
    case Empty => if t.Leaf? then Some(s) else None
    case Op(i) => if t.Leaf? then YieldOp(flags, text, i, s) else None
    case Group(id, f) =>
      if !t.Inside? then None
      else
        var u := Yield(flags, text, f, Put(s, 2 * id), t.t);
        if u.Some? then Some(Put(u.value, 2 * id + 1)) else None
    case Cat(a, b) =>
      if !t.Both? then None
      else
        var u := Yield(flags, text, a, s, t.l);
        if u.Some? then Yield(flags, text, b, u.value, t.r) else None
    case Alt(a, b) => if t.Pick? then Yield(flags, text, if t.right then b else a, s, t.t) else None
    case Opt(f, _) => YieldOpt(flags, text, f, s, t)
    case Star(f, _) => YieldChain(flags, text, f, s, t)
    case Plus(f, _) => if t.More? then YieldChain(flags, text, f, s, t) else None
    case Count(f, min, extra, _) => YieldCount(flags, text, f, min, extra, s, t)
  }

  ghost function YieldOp(flags: Flags, text: seq<Byte>, i: Instr, s: State): Option<State> {
    if Consuming(i) then
      if s.pos < |text| && Matches(flags, i, text[s.pos]) then Some(State(s.pos + 1, s.saved)) else None
    else
      if s.pos <= |text| && AnchorOk(flags, i, text, s.pos) then Some(s) else None
  }

  ghost function YieldOpt(flags: Flags, text: seq<Byte>, e: Regex, s: State, t: Tree): Option<State>
    decreases t, 0
  {
    match t
    case Skip => Some(s)
    case Take(x) => Yield(flags, text, e, s, x)
    case _ => None
  }

  /** One repetition after another. */
  ghost function YieldChain(flags: Flags, text: seq<Byte>, e: Regex, s: State, t: Tree): Option<State>
    decreases t, 0
  {
    match t
    case Done => Some(s)
    case More(head, tail) =>
      var u := Yield(flags, text, e, s, head);
      if u.Some? then YieldChain(flags, text, e, u.value, tail) else None
    case _ => None
  }

  /** The mandatory repetitions, then a chain, or a fixed number of optional ones. */
  ghost function YieldCount(flags: Flags, text: seq<Byte>, e: Regex, min: nat, extra: Option<nat>, s: State, t: Tree): Option<State>
    decreases t, 1
  {
    if min > 0 then
      if !t.More? then None
      else
        var u := Yield(flags, text, e, s, t.head);
        if u.Some? then YieldCount(flags, text, e, min - 1, extra, u.value, t.tail) else None
    else if extra.None? then YieldChain(flags, text, e, s, t)
    else if extra.value == 0 then if t.Done? then Some(s) else None
    else if !t.More? then None
    else
      var u := YieldOpt(flags, text, e, s, t.head);
      if u.Some? then YieldCount(flags, text, e, 0, Some(extra.value - 1), u.value, t.tail) else None
  }

  // ---- preference ----

  /** t is preferred to u: at the first choice where they differ, t went the way the pattern tries first. */
  predicate Prefers(e: Regex, t: Tree, u: Tree)
    decreases t, 2
  {
    match e
    case Empty => false
    case Op(_) => false
    case Group(_, f) => t.Inside? && u.Inside? && Prefers(f, t.t, u.t)
    case Cat(a, b) =>
      t.Both? && u.Both? && (Prefers(a, t.l, u.l) || (t.l == u.l && Prefers(b, t.r, u.r)))
    case Alt(a, b) =>
      t.Pick? && u.Pick? &&
      ((!t.right && u.right) || (t.right == u.right && Prefers(if t.right then b else a, t.t, u.t)))
    case Opt(f, lazy) => PrefersOpt(f, lazy, t, u)
    case Star(f, lazy) => PrefersChain(f, lazy, t, u)
    case Plus(f, lazy) => t.More? && u.More? && PrefersChain(f, lazy, t, u)
    case Count(f, min, extra, lazy) => PrefersCount(f, min, extra, lazy, t, u)
  }

  /** Greedy: take before skip. Lazy: skip before take. */
  predicate PrefersOpt(e: Regex, lazy: bool, t: Tree, u: Tree)
    decreases t, 0
  {
    if t.Take? && u.Take? then Prefers(e, t.t, u.t)
    else if lazy then t.Skip? && u.Take? else t.Take? && u.Skip?
  }

  /** Greedy: one more repetition before none. Lazy: none before one more. */
  predicate PrefersChain(e: Regex, lazy: bool, t: Tree, u: Tree)
    decreases t, 0
  {
    if t.More? && u.More? then
      Prefers(e, t.head, u.head) || (t.head == u.head && PrefersChain(e, lazy, t.tail, u.tail))
    else if lazy then t.Done? && u.More? else t.More? && u.Done?
  }

  predicate PrefersCount(e: Regex, min: nat, extra: Option<nat>, lazy: bool, t: Tree, u: Tree)
    decreases t, 1
  {
    if min > 0 then
      t.More? && u.More? &&
      (Prefers(e, t.head, u.head) || (t.head == u.head && PrefersCount(e, min - 1, extra, lazy, t.tail, u.tail)))
    else if extra.None? then PrefersChain(e, lazy, t, u)
    else if extra.value == 0 then false
    else
      t.More? && u.More? &&
      (PrefersOpt(e, lazy, t.head, u.head) ||
       (t.head == u.head && PrefersCount(e, 0, Some(extra.value - 1), lazy, t.tail, u.tail)))
  }

  // ---- a pattern matches when it has a parse ----

  ghost predicate HasParse(flags: Flags, text: seq<Byte>, e: Regex, s: State, t: State) {
    exists tree :: Yield(flags, text, e, s, tree) == Some(t)
  }

  lemma {:induction false} ParseMeans(flags: Flags, text: seq<Byte>, e: Regex, s: State, tree: Tree)
    requires Yield(flags, text, e, s, tree).Some?
    ensures Means(flags, text, e, s, Yield(flags, text, e, s, tree).value)
    decreases tree, 2
  {
    match e
    case Empty =>
    case Op(_) =>
    case Group(id, f) => ParseMeans(flags, text, f, Put(s, 2 * id), tree.t);
    case Cat(a, b) =>
      ParseMeans(flags, text, a, s, tree.l);
      ParseMeans(flags, text, b, Yield(flags, text, a, s, tree.l).value, tree.r);
    case Alt(a, b) => ParseMeans(flags, text, if tree.right then b else a, s, tree.t);
    case Opt(f, _) => if tree.Take? { ParseMeans(flags, text, f, s, tree.t); }
    case Star(f, _) => var k := ChainMeans(flags, text, f, s, tree);
    case Plus(f, _) => var k := ChainMeans(flags, text, f, s, tree);
    case Count(f, min, extra, _) => var k := CountMeans(flags, text, f, min, extra, s, tree);
  }

  lemma {:induction false} ChainMeans(flags: Flags, text: seq<Byte>, e: Regex, s: State, tree: Tree) returns (k: nat)
    requires YieldChain(flags, text, e, s, tree).Some?
    ensures Times(flags, text, e, k, s, YieldChain(flags, text, e, s, tree).value) && (tree.More? ==> k >= 1)
    decreases tree, 0
  {
    if tree.Done? { return 0; }
    ParseMeans(flags, text, e, s, tree.head);
    hide Means, Yield;
    k := ChainMeans(flags, text, e, Yield(flags, text, e, s, tree.head).value, tree.tail);
    k := k + 1;
  }

  lemma {:induction false} CountMeans(flags: Flags, text: seq<Byte>, e: Regex, min: nat, extra: Option<nat>, s: State, tree: Tree)
    returns (k: nat)
    requires YieldCount(flags, text, e, min, extra, s, tree).Some?
    ensures min <= k && (extra.Some? ==> k <= min + extra.value)
    ensures Times(flags, text, e, k, s, YieldCount(flags, text, e, min, extra, s, tree).value)
    decreases tree, 1
  {
    hide Means, Yield;
    if min > 0 {
      ParseMeans(flags, text, e, s, tree.head);
      k := CountMeans(flags, text, e, min - 1, extra, Yield(flags, text, e, s, tree.head).value, tree.tail);
      k := k + 1;
    } else if extra.None? {
      k := ChainMeans(flags, text, e, s, tree);
    } else if extra.value == 0 {
      return 0;
    } else {
      var u := YieldOpt(flags, text, e, s, tree.head).value;
      k := CountMeans(flags, text, e, 0, Some(extra.value - 1), u, tree.tail);
      if tree.head.Take? {
        ParseMeans(flags, text, e, s, tree.head.t);
        k := k + 1;
      }
    }
  }

  lemma {:induction false} MeansParse(flags: Flags, text: seq<Byte>, e: Regex, s: State, t: State) returns (tree: Tree)
    requires Means(flags, text, e, s, t)
    ensures Yield(flags, text, e, s, tree) == Some(t)
    decreases e, 0
  {
    hide Times, YieldCount, YieldChain;
    match e
    case Empty => tree := Leaf;
    case Op(_) => tree := Leaf;
    case Group(id, f) =>
      var u :| Means(flags, text, f, Put(s, 2 * id), u) && t == Put(u, 2 * id + 1);
      var x := MeansParse(flags, text, f, Put(s, 2 * id), u);
      tree := Inside(x);
    case Cat(a, b) =>
      var u :| Means(flags, text, a, s, u) && Means(flags, text, b, u, t);
      var x := MeansParse(flags, text, a, s, u);
      var y := MeansParse(flags, text, b, u, t);
      tree := Both(x, y);
    case Alt(a, b) =>
      if Means(flags, text, a, s, t) {
        var x := MeansParse(flags, text, a, s, t);
        tree := Pick(false, x);
      } else {
        var x := MeansParse(flags, text, b, s, t);
        tree := Pick(true, x);
      }
    case Opt(f, _) =>
      if s == t {
        tree := Skip;
      } else {
        var x := MeansParse(flags, text, f, s, t);
        tree := Take(x);
      }
    case Star(f, _) =>
      var k: nat :| Times(flags, text, f, k, s, t);
      tree := TimesParse(flags, text, f, k, s, t);
    case Plus(f, _) =>
      var k: nat :| k >= 1 && Times(flags, text, f, k, s, t);
      tree := TimesParse(flags, text, f, k, s, t);
    case Count(f, min, extra, _) =>
      var k: nat :| min <= k && (extra.Some? ==> k <= min + extra.value) && Times(flags, text, f, k, s, t);
      tree := TimesCount(flags, text, f, min, extra, k, s, t);
  }

  lemma {:induction false} TimesParse(flags: Flags, text: seq<Byte>, e: Regex, k: nat, s: State, t: State) returns (tree: Tree)
    requires Times(flags, text, e, k, s, t)
    ensures YieldChain(flags, text, e, s, tree) == Some(t) && (k > 0 ==> tree.More?)
    decreases e, k + 1
  {
    hide Means, Yield;
    if k == 0 { return Done; }
    var u :| Means(flags, text, e, s, u) && Times(flags, text, e, k - 1, u, t);
    var x := MeansParse(flags, text, e, s, u);
    var y := TimesParse(flags, text, e, k - 1, u, t);
    tree := More(x, y);
  }

  lemma {:induction false} TimesCount(flags: Flags, text: seq<Byte>, e: Regex, min: nat, extra: Option<nat>, k: nat, s: State, t: State)
    returns (tree: Tree)
    requires min <= k && (extra.Some? ==> k <= min + extra.value) && Times(flags, text, e, k, s, t)
    ensures YieldCount(flags, text, e, min, extra, s, tree) == Some(t)
    decreases e, k + 2, if extra.Some? then extra.value else 0
  {
    hide Means, Yield;
    if min == 0 && extra.None? {
      tree := TimesParse(flags, text, e, k, s, t);
    } else if min == 0 && k == 0 {
      if extra.value == 0 { return Done; }
      var y := TimesCount(flags, text, e, 0, Some(extra.value - 1), 0, s, t);
      tree := More(Skip, y);
    } else {
      var u :| Means(flags, text, e, s, u) && Times(flags, text, e, k - 1, u, t);
      var x := MeansParse(flags, text, e, s, u);
      if min > 0 {
        var y := TimesCount(flags, text, e, min - 1, extra, k - 1, u, t);
        tree := More(x, y);
      } else {
        var y := TimesCount(flags, text, e, 0, Some(extra.value - 1), k - 1, u, t);
        tree := More(Take(x), y);
      }
    }
  }

  /** What a pattern means is what its parses yield. */
  lemma {:induction false} MeaningIsParsing(flags: Flags, text: seq<Byte>, e: Regex, s: State, t: State)
    ensures Means(flags, text, e, s, t) <==> HasParse(flags, text, e, s, t)
  {
    hide Means, Yield;
    if Means(flags, text, e, s, t) {
      var tree := MeansParse(flags, text, e, s, t);
    }
    if HasParse(flags, text, e, s, t) {
      var tree :| Yield(flags, text, e, s, tree) == Some(t);
      ParseMeans(flags, text, e, s, tree);
    }
  }

  // ---- preference is a total order on the parses from one state ----

  lemma {:induction false} PreferenceIsTotal(flags: Flags, text: seq<Byte>, e: Regex, s: State, t: Tree, u: Tree)
    requires Yield(flags, text, e, s, t).Some? && Yield(flags, text, e, s, u).Some?
    ensures t == u || Prefers(e, t, u) || Prefers(e, u, t)
    decreases t, 2
  {
    match e
    case Empty =>
    case Op(_) =>
    case Group(id, f) => PreferenceIsTotal(flags, text, f, Put(s, 2 * id), t.t, u.t);
    case Cat(a, b) =>
      PreferenceIsTotal(flags, text, a, s, t.l, u.l);
      if t.l == u.l { PreferenceIsTotal(flags, text, b, Yield(flags, text, a, s, t.l).value, t.r, u.r); }
    case Alt(a, b) =>
      if t.right == u.right { PreferenceIsTotal(flags, text, if t.right then b else a, s, t.t, u.t); }
    case Opt(f, lazy) => OptIsTotal(flags, text, f, lazy, s, t, u);
    case Star(f, lazy) => ChainIsTotal(flags, text, f, lazy, s, t, u);
    case Plus(f, lazy) => ChainIsTotal(flags, text, f, lazy, s, t, u);
    case Count(f, min, extra, lazy) => CountIsTotal(flags, text, f, min, extra, lazy, s, t, u);
  }

  lemma {:induction false} OptIsTotal(flags: Flags, text: seq<Byte>, e: Regex, lazy: bool, s: State, t: Tree, u: Tree)
    requires YieldOpt(flags, text, e, s, t).Some? && YieldOpt(flags, text, e, s, u).Some?
    ensures t == u || PrefersOpt(e, lazy, t, u) || PrefersOpt(e, lazy, u, t)
    decreases t, 0
  {
    hide Yield, Prefers;
    if t.Take? && u.Take? { PreferenceIsTotal(flags, text, e, s, t.t, u.t); }
  }

  lemma {:induction false} ChainIsTotal(flags: Flags, text: seq<Byte>, e: Regex, lazy: bool, s: State, t: Tree, u: Tree)
    requires YieldChain(flags, text, e, s, t).Some? && YieldChain(flags, text, e, s, u).Some?
    ensures t == u || PrefersChain(e, lazy, t, u) || PrefersChain(e, lazy, u, t)
    decreases t, 0
  {
    hide Yield, Prefers;
    if t.More? && u.More? {
      PreferenceIsTotal(flags, text, e, s, t.head, u.head);
      if t.head == u.head { ChainIsTotal(flags, text, e, lazy, Yield(flags, text, e, s, t.head).value, t.tail, u.tail); }
    }
  }

  lemma {:induction false} CountIsTotal(flags: Flags, text: seq<Byte>, e: Regex, min: nat, extra: Option<nat>, lazy: bool, s: State, t: Tree, u: Tree)
    requires YieldCount(flags, text, e, min, extra, s, t).Some? && YieldCount(flags, text, e, min, extra, s, u).Some?
    ensures t == u || PrefersCount(e, min, extra, lazy, t, u) || PrefersCount(e, min, extra, lazy, u, t)
    decreases t, 1
  {
    hide Yield, Prefers, YieldOpt, PrefersOpt, YieldChain, PrefersChain;
    if min > 0 {
      PreferenceIsTotal(flags, text, e, s, t.head, u.head);
      if t.head == u.head { CountIsTotal(flags, text, e, min - 1, extra, lazy, Yield(flags, text, e, s, t.head).value, t.tail, u.tail); }
    } else if extra.None? {
      ChainIsTotal(flags, text, e, lazy, s, t, u);
    } else if extra.value > 0 {
      OptIsTotal(flags, text, e, lazy, s, t.head, u.head);
      if t.head == u.head {
        CountIsTotal(flags, text, e, 0, Some(extra.value - 1), lazy, YieldOpt(flags, text, e, s, t.head).value, t.tail, u.tail);
      }
    }
  }

  lemma {:induction false} PreferenceIsStrict(e: Regex, t: Tree, u: Tree)
    requires Prefers(e, t, u)
    ensures !Prefers(e, u, t)
    decreases t, 2
  {
    match e
    case Empty =>
    case Op(_) =>
    case Group(_, f) => PreferenceIsStrict(f, t.t, u.t);
    case Cat(a, b) => if Prefers(a, t.l, u.l) { PreferenceIsStrict(a, t.l, u.l); } else { PreferenceIsStrict(b, t.r, u.r); }
    case Alt(a, b) => if t.right == u.right { PreferenceIsStrict(if t.right then b else a, t.t, u.t); }
    case Opt(f, lazy) => OptIsStrict(f, lazy, t, u);
    case Star(f, lazy) => ChainIsStrict(f, lazy, t, u);
    case Plus(f, lazy) => ChainIsStrict(f, lazy, t, u);
    case Count(f, min, extra, lazy) => CountIsStrict(f, min, extra, lazy, t, u);
  }

  lemma {:induction false} OptIsStrict(e: Regex, lazy: bool, t: Tree, u: Tree)
    requires PrefersOpt(e, lazy, t, u)
    ensures !PrefersOpt(e, lazy, u, t)
    decreases t, 0
  {
    hide Prefers;
    if t.Take? && u.Take? { PreferenceIsStrict(e, t.t, u.t); }
  }

  lemma {:induction false} ChainIsStrict(e: Regex, lazy: bool, t: Tree, u: Tree)
    requires PrefersChain(e, lazy, t, u)
    ensures !PrefersChain(e, lazy, u, t)
    decreases t, 0
  {
    hide Prefers;
    if t.More? && u.More? {
      if Prefers(e, t.head, u.head) { PreferenceIsStrict(e, t.head, u.head); }
      else { ChainIsStrict(e, lazy, t.tail, u.tail); }
    }
  }

  lemma {:induction false} CountIsStrict(e: Regex, min: nat, extra: Option<nat>, lazy: bool, t: Tree, u: Tree)
    requires PrefersCount(e, min, extra, lazy, t, u)
    ensures !PrefersCount(e, min, extra, lazy, u, t)
    decreases t, 1
  {
    hide Prefers, PrefersOpt, PrefersChain;
    if min > 0 {
      if Prefers(e, t.head, u.head) { PreferenceIsStrict(e, t.head, u.head); }
      else { CountIsStrict(e, min - 1, extra, lazy, t.tail, u.tail); }
    } else if extra.None? {
      ChainIsStrict(e, lazy, t, u);
    } else if PrefersOpt(e, lazy, t.head, u.head) {
      OptIsStrict(e, lazy, t.head, u.head);
    } else {
      CountIsStrict(e, 0, Some(extra.value - 1), lazy, t.tail, u.tail);
    }
  }
}
