/** The fast f-string formatter: decimal printing, and assembly into a bounded buffer with snprintf counting. */
module Format {
  import opened Basics

  const U64_LIMIT := 0x1_0000_0000_0000_0000
  const I64_MIN := -0x8000_0000_0000_0000
  const I64_LIMIT := 0x8000_0000_0000_0000
  const NUL: char := 0 as char

  // ---- decimals ----

  function Digit(d: nat): char
    requires d < 10
  {
    (48 + d) as char
  }

  /** v in decimal. */
  function Decimal(v: nat): (s: string)
    ensures |s| > 0
  {
    if v < 10 then [Digit(v)] else Decimal(v / 10) + [Digit(v % 10)]
  }

  function Signed(v: int): string {
    if v < 0 then "-" + Decimal(-v) else Decimal(v)
  }

  /** Reading a numeral back. */
  function Value(s: string): nat {
    if s == "" then 0
    else
      var c := s[|s| - 1];
      Value(s[..|s| - 1]) * 10 + if '0' <= c <= '9' then c as nat - 48 else 0
  }

  function SignedValue(s: string): int {
    if s != "" && s[0] == '-' then 0 - Value(s[1..]) else Value(s)
  }

  lemma {:induction false} DecimalRoundTrips(v: nat)
    ensures Value(Decimal(v)) == v
    ensures forall i :: 0 <= i < |Decimal(v)| ==> '0' <= Decimal(v)[i] <= '9'
    ensures v > 0 ==> Decimal(v)[0] != '0'
  {
    if v >= 10 {
      DecimalRoundTrips(v / 10);
      var s := Decimal(v);
      assert s[..|s| - 1] == Decimal(v / 10);
      assert s[|s| - 1] == Digit(v % 10);
    } else {
      assert Decimal(v)[..0] == "";
    }
  }

  lemma {:induction false} SignedRoundTrips(v: int)
    ensures SignedValue(Signed(v)) == v
  {
    if v < 0 {
      DecimalRoundTrips(-v);
      assert Signed(v)[1..] == Decimal(-v);
    } else {
      DecimalRoundTrips(v);
    }
  }

  function Power(n: nat): (p: nat)
    ensures p >= 1
  {
    if n == 0 then 1 else 10 * Power(n - 1)
  }

  lemma {:induction false} DecimalLength(v: nat, n: nat)
    requires v < Power(n) && n > 0
    ensures |Decimal(v)| <= n
    decreases n
  {
    if v >= 10 {
      DecimalLength(v / 10, n - 1);
    }
  }

  /** 20 characters hold any 64-bit decimal, sign included. */
  lemma {:induction false} SixtyFourBitsFit(v: int)
    requires I64_MIN <= v < U64_LIMIT
    ensures |Signed(v)| <= 20
  {
    assert Power(5) == 100_000;
    assert Power(10) == 10_000_000_000;
    assert Power(15) == 1_000_000_000_000_000;
    assert Power(19) == 10_000_000_000_000_000_000;
    assert Power(20) == 100_000_000_000_000_000_000;
    if v < 0 {
      DecimalLength(-v, 19);
    } else {
      DecimalLength(v, 20);
    }
  }

  /** The digits of v from the low end. */
  method Digits(v: nat) returns (tmp: array<char>, n: nat)
    requires 0 < v < U64_LIMIT
    ensures fresh(tmp) && n == |Decimal(v)| <= 20 == tmp.Length
    ensures forall i :: 0 <= i < n ==> tmp[i] == Decimal(v)[n - 1 - i]
  {
    SixtyFourBitsFit(v);
    tmp := new char[20];
    n := 0;
    var rest: nat := v;
    ghost var whole := Decimal(v);
    while rest > 0
      invariant n <= |whole| <= 20 && (rest > 0 ==> n < |whole| && whole[..|whole| - n] == Decimal(rest))
      invariant rest == 0 ==> n == |whole|
      invariant forall i :: 0 <= i < n ==> tmp[i] == whole[|whole| - 1 - i]
      decreases rest
    {
      ghost var front := whole[..|whole| - n];
      assert front[|front| - 1] == Digit(rest % 10);
      assert rest >= 10 ==> front[..|front| - 1] == Decimal(rest / 10);
      assert front[..|front| - 1] == whole[..|whole| - n - 1];
      tmp[n] := Digit(rest % 10);
      n := n + 1;
      rest := rest / 10;
    }
  }

  /** ls_u64_dec: digits from the low end into a scratch array, then reversed into out. */
  method PrintU64(v: nat, out: array<char>, at: nat) returns (n: nat)
    requires v < U64_LIMIT && at + 20 <= out.Length
    modifies out
    ensures n == |Decimal(v)| <= 20 && out[at..at + n] == Decimal(v) && out[..at] == old(out[..at])
  {
    if v == 0 {
      out[at] := '0';
      assert out[at..at + 1] == "0";
      return 1;
    }
    var tmp;
    tmp, n := Digits(v);
    ghost var whole := Decimal(v);
    var i := 0;
    while i < n
      invariant 0 <= i <= n == |whole| && forall k :: at <= k < at + i ==> out[k] == whole[k - at]
      invariant forall k :: 0 <= k < at ==> out[k] == old(out[k])
      invariant forall k :: 0 <= k < n ==> tmp[k] == whole[n - 1 - k]
    {
      out[at + i] := tmp[n - 1 - i];
      i := i + 1;
    }
    assert out[at..at + n] == whole;
  }

  /** ls_i64_dec: the magnitude of INT64_MIN is formed without negating it. */
  method PrintI64(v: int, out: array<char>) returns (n: nat)
    requires I64_MIN <= v < I64_LIMIT && out.Length >= 21
    modifies out
    ensures n == |Signed(v)| <= 20 && out[..n] == Signed(v)
  {
    SixtyFourBitsFit(v);
    if v < 0 {
      out[0] := '-';
      var uv := -(v + 1) + 1;
      n := PrintU64(uv, out, 1);
      assert out[..1] == "-";
      assert out[..1 + n] == out[..1] + out[1..1 + n];
      n := n + 1;
    } else {
      n := PrintU64(v, out, 0);
      assert out[..n] == out[0..n];
    }
  }

  // ---- assembly ----

  datatype Arg = Signed32(i: int) | Unsigned32(u: nat) | Signed64(l: int) | Unsigned64(n: nat) | Text(s: Option<string>) | Letter(c: char)

  datatype Piece = Literal(c: char) | Percent | Conv(kind: Kind) | Foreign

  datatype Kind = D | U | LLD | LLU | S | C

  /** The piece a format starts with, and how much of it that takes. */
  function Next(fmt: string): (r: (Piece, nat))
    requires fmt != ""
    ensures !r.0.Foreign? ==> 0 < r.1 <= |fmt|
  {
    if fmt[0] != '%' then (Literal(fmt[0]), 1)
    else if |fmt| < 2 then (Foreign, 0)
    else if fmt[1] == '%' then (Percent, 2)
    else if fmt[1] == 'd' || fmt[1] == 'i' then (Conv(D), 2)
    else if fmt[1] == 'u' then (Conv(U), 2)
    else if fmt[1] == 's' then (Conv(S), 2)
    else if fmt[1] == 'c' then (Conv(C), 2)
    else if |fmt| >= 4 && fmt[1] == 'l' && fmt[2] == 'l' && fmt[3] == 'd' then (Conv(LLD), 4)
    else if |fmt| >= 4 && fmt[1] == 'l' && fmt[2] == 'l' && fmt[3] == 'u' then (Conv(LLU), 4)
    else (Foreign, 0)
  }

  /** Only conversions of the fast path. */
  predicate Simple(fmt: string) {
    fmt == "" || (!Next(fmt).0.Foreign? && Simple(fmt[Next(fmt).1..]))
  }

  /** ls_fmt_is_simple. */
  method IsSimple(fmt: string) returns (yes: bool)
    ensures yes <==> Simple(fmt)
  {
    var p := 0;
    assert fmt[0..] == fmt;
    while p < |fmt|
      invariant 0 <= p <= |fmt| && (Simple(fmt[p..]) <==> Simple(fmt))
    {
      var rest := fmt[p..];
      var step := 1;
      if rest[0] == '%' {
        if |rest| >= 2 && rest[1] in {'%', 'd', 'i', 'u', 's', 'c'} {
          step := 2;
        } else if |rest| >= 4 && rest[1] == 'l' && rest[2] == 'l' && (rest[3] == 'd' || rest[3] == 'u') {
          step := 4;
        } else {
          return false;
        }
      }
      assert Next(rest).1 == step && rest[step..] == fmt[p + step..];
      p := p + step;
    }
    return true;
  }

  predicate Fits(k: Kind, a: Arg) {
    match k
    case D => a.Signed32? && -0x8000_0000 <= a.i < 0x8000_0000
    case U => a.Unsigned32? && a.u < 0x1_0000_0000
    case LLD => a.Signed64? && I64_MIN <= a.l < I64_LIMIT
    case LLU => a.Unsigned64? && a.n < U64_LIMIT
    case S => a.Text?
    case C => a.Letter?
  }

  /** The caller passes one argument of the right type per conversion. */
  predicate ArgsFit(fmt: string, args: seq<Arg>)
    requires Simple(fmt)
  {
    fmt == "" ||
    var (p, n) := Next(fmt);
    if p.Conv? then args != [] && Fits(p.kind, args[0]) && ArgsFit(fmt[n..], args[1..]) else ArgsFit(fmt[n..], args)
  }

  function Shown(k: Kind, a: Arg): string
    requires Fits(k, a)
  {
    match k
    case D => Signed(a.i)
    case U => Decimal(a.u)
    case LLD => Signed(a.l)
    case LLU => Decimal(a.n)
    case S => if a.s.Some? then a.s.value else "(null)"
    case C => [a.c]
  }

  /** The whole text the format asks for. */
  function Rendered(fmt: string, args: seq<Arg>): string
    requires Simple(fmt) && ArgsFit(fmt, args)
  {
    if fmt == "" then ""
    else
      var (p, n) := Next(fmt);
      match p
      case Literal(c) => [c] + Rendered(fmt[n..], args)
      case Percent => "%" + Rendered(fmt[n..], args)
      case Conv(k) => Shown(k, args[0]) + Rendered(fmt[n..], args[1..])
      case Foreign => ""
  }

  function Min(a: nat, b: nat): nat {
    if a < b then a else b
  }

  /** What fits of the text so far is in the buffer, the last byte kept free. */
  ghost predicate Holds(buf: seq<char>, size: nat, text: string) {
    size <= |buf| && forall k :: 0 <= k < |text| && k + 1 < size ==> buf[k] == text[k]
  }

  /** ls_fmt_put. */
  method Put(buf: array<char>, size: nat, ghost text: string, total: nat, src: string) returns (now: nat)
    requires total == |text| && Holds(buf[..], size, text)
    modifies buf
    ensures now == |text + src| && Holds(buf[..], size, text + src)
    ensures forall k :: size <= k < buf.Length ==> buf[k] == old(buf[k])
  {
    var i := 0;
    while i < |src|
      invariant 0 <= i <= |src| && Holds(buf[..], size, text + src[..i])
      invariant forall k :: size <= k < buf.Length ==> buf[k] == old(buf[k])
    {
      var idx := total + i;
      if idx + 1 < size {
        buf[idx] := src[i];
      }
      i := i + 1;
    }
    assert src[..i] == src;
    now := total + |src|;
  }

  /** One conversion's text. */
  method Convert(k: Kind, a: Arg) returns (s: string)
    requires Fits(k, a)
    ensures s == Shown(k, a)
  {
    var num := new char[24];
    var n;
    match k {
      case D => n := PrintI64(a.i, num); s := num[..n];
      case U => n := PrintU64(a.u, num, 0); s := num[0..n];
      case LLD => n := PrintI64(a.l, num); s := num[..n];
      case LLU => n := PrintU64(a.n, num, 0); s := num[0..n];
      case S => s := if a.s.Some? then a.s.value else "(null)";
      case C => s := [a.c];
    }
  }

  /** ls_fast_vformat: the full length is returned, and the buffer holds the text cut to size - 1 and its NUL. */
  method FastFormat(buf: array<char>, size: nat, fmt: string, args: seq<Arg>) returns (total: nat)
    requires size <= buf.Length && Simple(fmt) && ArgsFit(fmt, args)
    modifies buf
    ensures var text := Rendered(fmt, args);
      && total == |text|
      && (size > 0 ==> var cut := Min(|text|, size - 1); buf[..cut] == text[..cut] && buf[cut] == '\0')
    ensures forall k :: size <= k < buf.Length ==> buf[k] == old(buf[k])
  {
    hide Rendered, Simple, ArgsFit, Next, Holds;
    NothingYet(buf[..], size);
    total := 0;
    ghost var text := "";
    var p, rest := fmt, args;
    while p != ""
      invariant Simple(p) && ArgsFit(p, rest) && total == |text| && Holds(buf[..], size, text)
      invariant text + Rendered(p, rest) == Rendered(fmt, args)
      invariant forall k :: size <= k < buf.Length ==> buf[k] == old(buf[k])
      decreases |p|
    {
      var s, n;
      if p[0] != '%' {
        n := 1;
        while n < |p| && p[n] != '%'
          invariant 1 <= n <= |p| && forall k :: 0 <= k < n ==> p[k] != '%'
        {
          n := n + 1;
        }
        LiteralRun(p, rest, n);
        s := p[..n];
      } else {
        PieceStep(p, rest);
        var piece := Next(p).0;
        n := Next(p).1;
        if piece.Percent? {
          s := "%";
        } else {
          s := Convert(piece.kind, rest[0]);
          rest := rest[1..];
        }
      }
      assert text + (s + Rendered(p[n..], rest)) == text + s + Rendered(p[n..], rest);
      total := Put(buf, size, text, total, s);
      text := text + s;
      p := p[n..];
    }
    Ended(p, rest);
    assert text + "" == text;
    if size > 0 {
      CutHolds(buf[..], size, text);
      var cut := if total < size then total else size - 1;
      ghost var kept := buf[..cut];
      buf[cut] := NUL;
      assert buf[..cut] == kept;
    }
  }

  lemma {:induction false} NothingYet(buf: seq<char>, size: nat)
    requires size <= |buf|
    ensures Holds(buf, size, "")
  {
  }

  lemma {:induction false} Ended(p: string, args: seq<Arg>)
    requires p == "" && Simple(p) && ArgsFit(p, args)
    ensures Rendered(p, args) == ""
  {
  }

  lemma {:induction false} CutHolds(buf: seq<char>, size: nat, text: string)
    requires Holds(buf, size, text) && size > 0
    ensures var cut := Min(|text|, size - 1); cut < |buf| && buf[..cut] == text[..cut]
  {
  }

  lemma {:induction false} LiteralOne(p: string, args: seq<Arg>)
    requires p != "" && p[0] != '%' && Simple(p) && ArgsFit(p, args)
    ensures Simple(p[1..]) && ArgsFit(p[1..], args) && Rendered(p, args) == [p[0]] + Rendered(p[1..], args)
  {
  }

  /** A run of literal characters renders as itself. */
  lemma {:induction false} LiteralRun(p: string, args: seq<Arg>, n: nat)
    requires Simple(p) && ArgsFit(p, args) && n <= |p| && forall k :: 0 <= k < n ==> p[k] != '%'
    ensures Simple(p[n..]) && ArgsFit(p[n..], args) && Rendered(p, args) == p[..n] + Rendered(p[n..], args)
    decreases n
  {
    hide Rendered, Simple, ArgsFit, Next;
    if n > 0 {
      LiteralOne(p, args);
      LiteralRun(p[1..], args, n - 1);
      assert p[1..][n - 1..] == p[n..];
      assert p[..n] + Rendered(p[n..], args) == [p[0]] + (p[1..][..n - 1] + Rendered(p[n..], args));
    } else {
      assert p[0..] == p;
    }
  }

  /** A conversion, or %%, renders as its own text. */
  lemma {:induction false} PieceStep(p: string, args: seq<Arg>)
    requires p != "" && p[0] == '%' && Simple(p) && ArgsFit(p, args)
    ensures
      var (piece, n) := Next(p);
      && 0 < n <= |p| && Simple(p[n..])
      && (piece.Percent? || (piece.Conv? && args != [] && Fits(piece.kind, args[0])))
      && (piece.Percent? ==> ArgsFit(p[n..], args) && Rendered(p, args) == "%" + Rendered(p[n..], args))
      && (piece.Conv? ==> ArgsFit(p[n..], args[1..]) && Rendered(p, args) == Shown(piece.kind, args[0]) + Rendered(p[n..], args[1..]))
  {
  }

  // ---- what the rendered text says ----

  /** How many arguments a format uses up. */
  function Wanted(fmt: string): nat
    requires Simple(fmt)
  {
    if fmt == "" then 0 else Wanted(fmt[Next(fmt).1..]) + if Next(fmt).0.Conv? then 1 else 0
  }

  lemma {:induction false} NextOfJoin(f: string, g: string)
    requires f != "" && !Next(f).0.Foreign?
    ensures f + g != "" && Next(f + g) == Next(f) && (f + g)[Next(f).1..] == f[Next(f).1..] + g
  {
    var n := Next(f).1;
    assert (f + g)[n..] == f[n..] + g;
  }

  lemma {:induction false} SimpleStep(f: string, a: seq<Arg>)
    requires f != "" && Simple(f) && ArgsFit(f, a)
    ensures
      var (p, n) := Next(f);
      && !p.Foreign? && 0 < n <= |f| && Simple(f[n..])
      && (p.Conv? ==> a != [] && Fits(p.kind, a[0]) && ArgsFit(f[n..], a[1..]) && Wanted(f) == 1 + Wanted(f[n..])
                      && Rendered(f, a) == Shown(p.kind, a[0]) + Rendered(f[n..], a[1..]))
      && (!p.Conv? ==> ArgsFit(f[n..], a) && Wanted(f) == Wanted(f[n..])
                       && Rendered(f, a) == (if p.Literal? then [p.c] else "%") + Rendered(f[n..], a))
  {
  }

  lemma {:induction false} StepIs(f: string, a: seq<Arg>)
    requires f != "" && !Next(f).0.Foreign? && Simple(f[Next(f).1..])
    ensures Simple(f)
    ensures !Next(f).0.Conv? ==> (ArgsFit(f, a) <==> ArgsFit(f[Next(f).1..], a))
    ensures Next(f).0.Conv? ==> (ArgsFit(f, a) <==> a != [] && Fits(Next(f).0.kind, a[0]) && ArgsFit(f[Next(f).1..], a[1..]))
  {
  }

  lemma {:induction false} Associate(a: string, b: string, c: string)
    ensures a + b + c == a + (b + c)
  {
  }

  ghost predicate Joins(f: string, g: string, a: seq<Arg>, b: seq<Arg>)
    requires Simple(f) && Simple(g) && ArgsFit(f, a) && ArgsFit(g, b)
  {
    Simple(f + g) && ArgsFit(f + g, a + b) && Rendered(f + g, a + b) == Rendered(f, a) + Rendered(g, b)
  }

  lemma {:induction false} JoinsOn(f: string, g: string, a: seq<Arg>, b: seq<Arg>)
    requires f != "" && Simple(f) && Simple(g) && ArgsFit(f, a) && ArgsFit(g, b) && !Next(f).0.Foreign? && 0 < Next(f).1 <= |f|
    requires Simple(f[Next(f).1..])
    requires if Next(f).0.Conv? then a != [] && ArgsFit(f[Next(f).1..], a[1..]) && Joins(f[Next(f).1..], g, a[1..], b)
             else ArgsFit(f[Next(f).1..], a) && Joins(f[Next(f).1..], g, a, b)
    ensures Joins(f, g, a, b)
  {
    hide Simple, ArgsFit, Rendered, Wanted, Next, Shown;
    SimpleStep(f, a);
    NextOfJoin(f, g);
    var (p, n) := Next(f);
    var c := if p.Conv? then a[1..] else a;
    assert p.Conv? ==> (a + b)[1..] == a[1..] + b && (a + b)[0] == a[0];
    StepIs(f + g, a + b);
    SimpleStep(f + g, a + b);
    var shown := if p.Conv? then Shown(p.kind, a[0]) else if p.Literal? then [p.c] else "%";
    Associate(shown, Rendered(f[n..], c), Rendered(g, b));
  }

  /** Two formats one after the other, each with its own arguments, render as the two texts. */
  lemma {:induction false} JoinRenders(f: string, g: string, a: seq<Arg>, b: seq<Arg>)
    requires Simple(f) && Simple(g) && ArgsFit(f, a) && ArgsFit(g, b) && |a| == Wanted(f)
    ensures Simple(f + g) && ArgsFit(f + g, a + b) && Rendered(f + g, a + b) == Rendered(f, a) + Rendered(g, b)
    decreases |f|
  {
    if f == "" {
      assert f + g == g && a + b == b;
    } else {
      hide Simple, ArgsFit, Rendered, Wanted, Next, Shown;
      SimpleStep(f, a);
      var (p, n) := Next(f);
      JoinRenders(f[n..], g, if p.Conv? then a[1..] else a, b);
      JoinsOn(f, g, a, b);
    }
  }

  /** Text without a percent sign renders as itself. */
  lemma {:induction false} PlainRenders(f: string)
    requires '%' !in f
    ensures Simple(f) && ArgsFit(f, []) && Rendered(f, []) == f
    decreases |f|
  {
    if f != "" {
      PlainRenders(f[1..]);
      assert Next(f) == (Literal(f[0]), 1);
      assert f == [f[0]] + f[1..];
    }
  }

  lemma {:induction false} OneConversion(f: string, k: Kind, a: Arg)
    requires f != "" && Next(f) == (Conv(k), |f|) && Fits(k, a)
    ensures Simple(f) && ArgsFit(f, [a]) && Wanted(f) == 1 && Rendered(f, [a]) == Shown(k, a)
  {
    assert f[|f|..] == "" && [a][1..] == [];
    assert Rendered("", []) == "";
    assert Shown(k, a) + "" == Shown(k, a);
  }

  /** A numeral: digits, without a zero in front unless it is the only one. */
  ghost predicate Numeral(s: string) {
    s != "" && (forall i :: 0 <= i < |s| ==> s[i] in "0123456789") && (s[0] == '0' ==> s == "0")
  }

  lemma {:induction false} DecimalIsNumeral(v: nat)
    ensures Numeral(Decimal(v)) && Value(Decimal(v)) == v
  {
    DecimalRoundTrips(v);
    var s, d := Decimal(v), "0123456789";
    forall i | 0 <= i < |s| ensures s[i] in d {
      assert d[s[i] as nat - 48] == s[i];
    }
  }

  /** %d, %i and %lld show the number they are given: reading the text back gives it, and it is a numeral behind any sign. */
  lemma {:induction false} SignedRenders(i: int, l: int)
    requires -0x8000_0000 <= i < 0x8000_0000 && -0x8000_0000_0000_0000 <= l < 0x8000_0000_0000_0000
    ensures Simple("%d") && ArgsFit("%d", [Signed32(i)]) && Simple("%i") && ArgsFit("%i", [Signed32(i)])
    ensures Simple("%lld") && ArgsFit("%lld", [Signed64(l)])
    ensures var s := Rendered("%d", [Signed32(i)]);
      SignedValue(s) == i && Rendered("%i", [Signed32(i)]) == s && (if i < 0 then s != "" && s[0] == '-' && Numeral(s[1..]) else Numeral(s))
    ensures var s := Rendered("%lld", [Signed64(l)]);
      SignedValue(s) == l && (if l < 0 then s != "" && s[0] == '-' && Numeral(s[1..]) else Numeral(s))
  {
    OneConversion("%d", D, Signed32(i));
    OneConversion("%i", D, Signed32(i));
    OneConversion("%lld", LLD, Signed64(l));
    hide Rendered, Simple, ArgsFit, SignedValue, Numeral;
    SignedRoundTrips(i);
    SignedRoundTrips(l);
    SignedIsNumeral(i);
    SignedIsNumeral(l);
  }

  lemma {:induction false} SignedIsNumeral(v: int)
    ensures var s := Signed(v); if v < 0 then s != "" && s[0] == '-' && Numeral(s[1..]) else Numeral(s)
  {
    DecimalIsNumeral(if v < 0 then -v else v);
    hide Numeral, Decimal;
    if v < 0 { assert Signed(v)[1..] == Decimal(-v); }
  }

  /** %u and %llu show theirs. */
  lemma {:induction false} UnsignedRenders(u: nat, n: nat)
    requires u < 0x1_0000_0000 && n < 0x1_0000_0000_0000_0000
    ensures Simple("%u") && ArgsFit("%u", [Unsigned32(u)]) && Simple("%llu") && ArgsFit("%llu", [Unsigned64(n)])
    ensures var s := Rendered("%u", [Unsigned32(u)]); Value(s) == u && Numeral(s)
    ensures var s := Rendered("%llu", [Unsigned64(n)]); Value(s) == n && Numeral(s)
  {
    OneConversion("%u", U, Unsigned32(u));
    OneConversion("%llu", LLU, Unsigned64(n));
    hide Rendered, Simple, ArgsFit, Value, Numeral;
    DecimalIsNumeral(u);
    DecimalIsNumeral(n);
  }

  /** %s shows its text, or "(null)" without one, %c its character, %% a percent sign. */
  lemma {:induction false} TextRenders(t: string, c: char)
    ensures Simple("%s") && ArgsFit("%s", [Text(Some(t))]) && ArgsFit("%s", [Text(None)])
    ensures Rendered("%s", [Text(Some(t))]) == t && Rendered("%s", [Text(None)]) == "(null)"
    ensures Simple("%c") && ArgsFit("%c", [Letter(c)]) && Rendered("%c", [Letter(c)]) == [c]
    ensures Simple("%%") && ArgsFit("%%", []) && Rendered("%%", []) == "%"
  {
    OneConversion("%s", S, Text(Some(t)));
    OneConversion("%s", S, Text(None));
    OneConversion("%c", C, Letter(c));
    assert Next("%%") == (Percent, 2) && "%%"[2..] == "";
    assert Rendered("", []) == "" && Simple("") && ArgsFit("", []);
  }

  /** A single digit looks like itself. */
  lemma {:induction false} DigitRenders(d: nat)
    requires d < 10
    ensures Simple("%u") && ArgsFit("%u", [Unsigned32(d)]) && Rendered("%u", [Unsigned32(d)]) == ["0123456789"[d]]
  {
    OneConversion("%u", U, Unsigned32(d));
    assert "0123456789"[d] == (48 + d) as char;
  }

  /** Which formats are simple, read from the front. */
  lemma {:induction false} SimpleMeans(c: char, rest: string)
    ensures Simple("")
    ensures c != '%' ==> (Simple([c] + rest) <==> Simple(rest))
    ensures Simple("%" + rest) <==>
      || (rest != "" && rest[0] in "%diusc" && Simple(rest[1..]))
      || (|rest| >= 3 && (rest[..3] == "lld" || rest[..3] == "llu") && Simple(rest[3..]))
  {
    assert ([c] + rest)[1..] == rest;
    var f := "%" + rest;
    assert rest != "" ==> f[2..] == rest[1..];
    assert |rest| >= 3 ==> f[4..] == rest[3..] && rest[..3] == [rest[0], rest[1], rest[2]];
  }
}
