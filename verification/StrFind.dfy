/** Substring search: one byte, short haystack, and the Sunday quick search. */
module StrFind {
  import opened Machine

  const SHORT_HAY := 256

  ghost predicate Occurs(hay: seq<Byte>, needle: seq<Byte>, i: int) {
    0 <= i && i + |needle| <= |hay| && hay[i..i + |needle|] == needle
  }

  ghost predicate NoneIn(hay: seq<Byte>, needle: seq<Byte>, lo: int, hi: int) {
    forall i :: lo <= i < hi ==> !Occurs(hay, needle, i)
  }

  /** r is the least occurrence at or after start, or -1 when there is none. */
  ghost predicate Finds(hay: seq<Byte>, needle: seq<Byte>, start: int, r: int) {
    if r == -1 then NoneIn(hay, needle, start, |hay| + 1)
    else start <= r && Occurs(hay, needle, r) && NoneIn(hay, needle, start, r)
  }

  /** An index or -1, or the haystack was read past its end and the answer is undefined. */
  datatype Outcome = Index(at: int) | Overread

  /** The bytes memchr is asked to look at are not all in the haystack; a negative count is a huge size_t. */
  predicate Past(hay: seq<Byte>, from: nat, count: int) {
    count < 0 || from + count > |hay|
  }

  /** memchr: the first of count bytes from `from` that equals b, or -1. */
  method MemChr(hay: seq<Byte>, from: nat, count: int, b: Byte) returns (r: Outcome)
    ensures r.Overread? <==> Past(hay, from, count)
    ensures r.Index? ==>
      && (r.at == -1 || (from <= r.at < from + count && hay[r.at] == b))
      && forall i :: from <= i < (if r.at == -1 then from + count else r.at) ==> hay[i] != b
  {
    if Past(hay, from, count) {
      return Overread;
    }
    var p := from;
    while p < from + count
      invariant from <= p <= from + count && forall i :: from <= i < p ==> hay[i] != b
    {
      if hay[p] == b {
        return Index(p);
      }
      p := p + 1;
    }
    return Index(-1);
  }

  lemma {:induction false} OccursAt(hay: seq<Byte>, needle: seq<Byte>, i: nat, k: nat)
    requires Occurs(hay, needle, i) && k < |needle|
    ensures hay[i + k] == needle[k]
  {
    assert hay[i..i + |needle|][k] == hay[i + k];
  }

  /** A window whose first byte differs is no occurrence. */
  lemma {:induction false} FirstByte(hay: seq<Byte>, needle: seq<Byte>, lo: nat, hi: nat)
    requires |needle| > 0 && hi <= |hay|
    requires forall i :: lo <= i < hi ==> hay[i] != needle[0]
    ensures NoneIn(hay, needle, lo, hi)
  {
    forall i | lo <= i < hi ensures !Occurs(hay, needle, i) {
      if Occurs(hay, needle, i) { OccursAt(hay, needle, i, 0); }
    }
  }

  lemma {:induction false} TailDecides(hay: seq<Byte>, needle: seq<Byte>, i: nat)
    requires |needle| > 0 && i + |needle| <= |hay| && hay[i] == needle[0]
    ensures hay[i + 1..i + |needle|] == needle[1..] <==> Occurs(hay, needle, i)
  {
    assert hay[i..i + |needle|] == [hay[i]] + hay[i + 1..i + |needle|];
    assert needle == [needle[0]] + needle[1..];
  }

  /** No shift of the table jumps over an occurrence: the byte past the window decides. */
  lemma {:induction false} ShiftSkipsNothing(hay: seq<Byte>, needle: seq<Byte>, i: nat, shift: int)
    requires i + |needle| < |hay| && 1 <= shift <= |needle| + 1
    requires forall k :: 0 <= k < |needle| && needle[k] == hay[i + |needle|] ==> shift <= |needle| - k
    ensures NoneIn(hay, needle, i + 1, i + shift)
  {
    forall j | i + 1 <= j < i + shift ensures !Occurs(hay, needle, j) {
      if Occurs(hay, needle, j) { OccursAt(hay, needle, j, i + |needle| - j); }
    }
  }

  method BuildShifts(needle: seq<Byte>) returns (qs: array<int>)
    requires |needle| > 0
    ensures fresh(qs) && qs.Length == 256
    ensures forall c :: 0 <= c < 256 ==> 1 <= qs[c] <= |needle| + 1
    ensures forall k :: 0 <= k < |needle| ==> qs[needle[k]] <= |needle| - k
  {
    var n := |needle|;
    qs := new int[256];
    var k := 0;
    while k < 256
      invariant 0 <= k <= 256 && forall c :: 0 <= c < k ==> qs[c] == n + 1
    {
      qs[k] := n + 1;
      k := k + 1;
    }
    k := 0;
    while k < n
      invariant 0 <= k <= n
      invariant forall c :: 0 <= c < 256 ==> qs[c] == n + 1 || n - k < qs[c] <= n
      invariant forall j :: 0 <= j < k ==> qs[needle[j]] <= n - j
    {
      qs[needle[k]] := n - k;
      k := k + 1;
    }
  }

  lemma {:induction false} NoneBeyond(hay: seq<Byte>, needle: seq<Byte>)
    ensures forall i :: i > |hay| - |needle| ==> !Occurs(hay, needle, i)
  {
  }

  lemma {:induction false} EmptyOccurs(hay: seq<Byte>, needle: seq<Byte>, i: nat)
    requires |needle| == 0
    ensures Occurs(hay, needle, i) <==> i <= |hay|
  {
    if i <= |hay| { assert hay[i..i] == []; }
  }

  /** __ls_str_find: the single-byte path alone takes a start past the end for a huge count. */
  method Find(hay: seq<Byte>, needle: seq<Byte>, from: int) returns (r: Outcome)
    ensures r.Overread? <==> |needle| == 1 <= |hay| < from
    ensures r.Index? ==> Finds(hay, needle, if from < 0 then 0 else from, r.at)
  {
    hide Occurs;
    var start := if from < 0 then 0 else from;
    NoneBeyond(hay, needle);
    var hlen, nlen := |hay|, |needle|;
    if nlen == 0 {
      EmptyOccurs(hay, needle, start);
      return Index(if start <= hlen then start else -1);
    }
    if nlen > hlen {
      return Index(-1);
    }
    var first := needle[0];
    if nlen == 1 {
      r := MemChr(hay, start, hlen - start, first);
      if r.Index? {
        FirstByte(hay, needle, start, if r.at == -1 then hlen else r.at);
        if r.at != -1 {
          TailDecides(hay, needle, r.at);
          assert hay[r.at + 1..r.at + 1] == needle[1..];
        }
      }
      return;
    }
    var last := hlen - nlen;
    var i := start;
    if hlen < SHORT_HAY {
      while i <= last
        invariant start <= i && NoneIn(hay, needle, start, i)
        decreases last - i
      {
        var found := MemChr(hay, i, last - i + 1, first);
        var p := found.at;
        FirstByte(hay, needle, i, if p == -1 then last + 1 else p);
        if p == -1 {
          return Index(-1);
        }
        i := p;
        TailDecides(hay, needle, i);
        if hay[i + 1..i + nlen] == needle[1..] {
          return Index(i);
        }
        i := i + 1;
      }
      return Index(-1);
    }
    var qs := BuildShifts(needle);
    while i <= last
      invariant start <= i && NoneIn(hay, needle, start, i)
      decreases last - i
      modifies {}
    {
      var found := MemChr(hay, i, last - i + 1, first);
      var p := found.at;
      FirstByte(hay, needle, i, if p == -1 then last + 1 else p);
      if p == -1 {
        return Index(-1);
      }
      i := p;
      TailDecides(hay, needle, i);
      if hay[i + 1..i + nlen] == needle[1..] {
        return Index(i);
      }
      var next := i + nlen;
      if next >= hlen {
        return Index(-1);
      }
      ShiftSkipsNothing(hay, needle, i, qs[hay[next]]);
      i := i + qs[hay[next]];
    }
    return Index(-1);
  }

  /** "a" searched for in "a" from 2 on. */
  method FindPastTheEnd() returns (r: Outcome)
    ensures r == Overread
  {
    r := Find([97], [97], 2);
  }
}
