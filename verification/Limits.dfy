/** What a pattern may ask of the compiler: measures of the tree, as one would count them on the pattern written out. */
module Limits {
  import opened Basics
  import opened Regex

  function Larger(a: nat, b: nat): nat {
    if a < b then b else a
  }

  /** The bars of the alternation e is, with those of its last alternative. */
  function OwnBars(e: Regex): nat {
    match e
    case Alt(_, b) => OwnBars(b) + 1
    case _ => 0
  }

  /** The most bars in one alternation of e. */
  function MostBars(e: Regex): nat {
    match e
    case Empty => 0
    case Op(_) => 0
    case Group(_, f) => MostBars(f)
    case Cat(a, b) => Larger(MostBars(a), MostBars(b))
    case Alt(a, b) => Larger(OwnBars(e), Larger(MostBars(a), MostBars(b)))
    case Opt(f, _) => MostBars(f)
    case Star(f, _) => MostBars(f)
    case Plus(f, _) => MostBars(f)
    case Count(f, _, _, _) => MostBars(f)
  }

  /** The group numbers of e. */
  function Numbers(e: Regex): set<nat> {
    match e
    case Empty => {}
    case Op(_) => {}
    case Group(id, f) => {id} + Numbers(f)
    case Cat(a, b) => Numbers(a) + Numbers(b)
    case Alt(a, b) => Numbers(a) + Numbers(b)
    case Opt(f, _) => Numbers(f)
    case Star(f, _) => Numbers(f)
    case Plus(f, _) => Numbers(f)
    case Count(f, _, _, _) => Numbers(f)
  }

  /** The largest upper bound of a {n,m} in e. */
  function MostTimes(e: Regex): nat {
    match e
    case Empty => 0
    case Op(_) => 0
    case Group(_, f) => MostTimes(f)
    case Cat(a, b) => Larger(MostTimes(a), MostTimes(b))
    case Alt(a, b) => Larger(MostTimes(a), MostTimes(b))
    case Opt(f, _) => MostTimes(f)
    case Star(f, _) => MostTimes(f)
    case Plus(f, _) => MostTimes(f)
    case Count(f, min, extra, _) => Larger(if extra.Some? then min + extra.value else 0, MostTimes(f))
  }

  /** Where a part of a pattern can stand without parentheses: alone, between bars, in a row, under a quantifier. */
  datatype Place = Alone | Between | InRow | Repeated

  predicate NeedsParens(e: Regex, at: Place) {
    match at
    case Alone => false
    case Between => e.Alt?
    case InRow => e.Alt? || e.Cat? || e.Empty?
    case Repeated => !e.Op? && !e.Group?
  }

  /** How deep parentheses nest when e is written out at that place, capturing or not. */
  function Parens(e: Regex, at: Place): nat {
    (if NeedsParens(e, at) then 1 else 0) +
    match e
    case Empty => 0
    case Op(_) => 0
    case Group(_, f) => Parens(f, Alone) + 1
    case Cat(a, b) => Larger(Parens(a, InRow), Parens(b, Between))
    case Alt(a, b) => Larger(Parens(a, Between), Parens(b, Alone))
    case Opt(f, _) => Parens(f, Repeated)
    case Star(f, _) => Parens(f, Repeated)
    case Plus(f, _) => Parens(f, Repeated)
    case Count(f, _, _, _) => Parens(f, Repeated)
  }

  /** A bound on the instructions of e: one for each test, two for a group, a bar or a loop, and every repetition counted out. */
  function Instructions(e: Regex): nat {
    match e
    case Empty => 0
    case Op(_) => 1
    case Group(_, f) => Instructions(f) + 2
    case Cat(a, b) => Instructions(a) + Instructions(b)
    case Alt(a, b) => Instructions(a) + 2 + Instructions(b)
    case Opt(f, _) => Instructions(f) + 1
    case Star(f, _) => Instructions(f) + 2
    case Plus(f, _) => Instructions(f) + 1
    case Count(f, min, extra, _) =>
      Larger(Instructions(f), min * Instructions(f) + if extra.Some? then extra.value * (Instructions(f) + 1) else Instructions(f) + 2)
  }
}
