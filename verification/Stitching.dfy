/** Cutting a byte range at chunk boundaries and putting the pieces back together. */
module Stitching {
  import opened Bytes
  import opened Files

  /** A read of `size` bytes at `offset`, in chunks of `cs` bytes. */
  datatype Span = Span(offset: nat, size: nat, cs: nat)
  {
    predicate Ok() {
      size > 0 && cs > 0
    }
    function First(): nat
      requires Ok()
    {
      offset / cs
    }
    function Last(): nat
      requires Ok()
    {
      (offset + size - 1) / cs
    }
    /** The part of chunk `c` the read wants, relative to the chunk. */
    function WantFrom(c: nat): nat {
      Max(0, offset - c * cs)
    }
    function WantTo(c: nat): int {
      Min(offset + size, c * cs + cs) - c * cs
    }
  }

  /** Which chunks a range covers, and that every one of them contributes something. */
  lemma SpanCovers(s: Span, c: nat)
    requires s.Ok() && s.First() <= c <= s.Last()
    ensures s.First() <= s.Last()
    ensures 0 <= s.WantFrom(c) < s.WantTo(c) <= s.cs
    ensures c == s.First() ==> c * s.cs + s.WantFrom(c) == s.offset
    ensures c == s.Last() ==> c * s.cs + s.WantTo(c) == s.offset + s.size
    ensures c < s.Last() ==> c * s.cs + s.WantTo(c) == (c + 1) * s.cs + s.WantFrom(c + 1)
  {
    var first, last := s.First(), s.Last();
    DivMod(s.offset, s.cs);
    DivMod(s.offset + s.size - 1, s.cs);
    DivMono(s.offset, s.offset + s.size - 1, s.cs);
    MulMono(first, c, s.cs);
    MulMono(c, last, s.cs);
    if c < last { MulMono(c + 1, last, s.cs); }
    if first < c { MulMono(first + 1, c, s.cs); }
    assert (c + 1) * s.cs == c * s.cs + s.cs;
  }

  function Share(parts: Parts, s: Span, c: nat): (r: seq<byte>)
    requires s.Ok()
  {
    BytesOf(parts, s.cs, c * s.cs + s.WantFrom(c), Max(0, s.WantTo(c) - s.WantFrom(c)))
  }

  /** The bytes of a stored part are the bytes of the file at its place. */
  lemma PartIsShare(parts: Parts, s: Span, c: nat)
    requires s.Ok() && s.First() <= c <= s.Last() && c in parts && parts[c].data.Some?
    ensures s.WantFrom(c) < s.WantTo(c)
    ensures Share(parts, s, c) == Window(parts[c].data.value, s.WantFrom(c), s.WantTo(c) - s.WantFrom(c))
  {
    SpanCovers(s, c);
    var p, w := Share(parts, s, c), Window(parts[c].data.value, s.WantFrom(c), s.WantTo(c) - s.WantFrom(c));
    forall i | 0 <= i < |p| ensures p[i] == w[i] {
      DivUnique(c * s.cs + s.WantFrom(c) + i, c, s.cs);
    }
  }

  /** A stored part is as long as its row says. */
  predicate Clean(parts: Parts, c: int) {
    c in parts && parts[c].data.Some? ==> parts[c].row.size == |parts[c].data.value|
  }

  /** The read needs bytes of this part and its object is gone. */
  predicate Blocked(parts: Parts, s: Span, c: nat)
    requires s.Ok()
  {
    c in parts && parts[c].data.None? && s.WantFrom(c) < parts[c].row.size
  }

  ghost predicate AnyBlocked(parts: Parts, s: Span)
    requires s.Ok()
  {
    exists c: nat :: s.First() <= c <= s.Last() && Blocked(parts, s, c)
  }

  ghost predicate AllClean(parts: Parts, s: Span)
    requires s.Ok()
  {
    forall c :: s.First() <= c <= s.Last() ==> Clean(parts, c)
  }

  /** A part whose object is gone reads as zeroes where nothing of it is needed. */
  lemma GoneIsShare(parts: Parts, s: Span, c: nat)
    requires s.Ok() && s.First() <= c <= s.Last() && c in parts && parts[c].data.None?
    ensures s.WantFrom(c) < s.WantTo(c) && Share(parts, s, c) == Zeros(s.WantTo(c) - s.WantFrom(c))
  {
    SpanCovers(s, c);
    var p := Share(parts, s, c);
    forall i | 0 <= i < |p| ensures p[i] == 0 {
      DivUnique(c * s.cs + s.WantFrom(c) + i, c, s.cs);
    }
  }

  lemma HoleIsShare(parts: Parts, s: Span, c: nat)
    requires s.Ok() && s.First() <= c <= s.Last() && c !in parts
    ensures s.WantFrom(c) < s.WantTo(c)
    ensures Share(parts, s, c) == Zeros(s.WantTo(c) - s.WantFrom(c))
  {
    SpanCovers(s, c);
    var p := Share(parts, s, c);
    forall i | 0 <= i < |p| ensures p[i] == 0 {
      DivUnique(c * s.cs + s.WantFrom(c) + i, c, s.cs);
    }
  }

  lemma BytesJoin(parts: Parts, cs: int, from: nat, a: nat, b: nat)
    requires cs > 0
    ensures BytesOf(parts, cs, from, a) + BytesOf(parts, cs, from + a, b) == BytesOf(parts, cs, from, a + b)
  {
  }

  /** How many bytes of the range lie before its `i`-th chunk. */
  function Before(s: Span, i: nat): int
    requires s.Ok()
  {
    if s.First() + i <= s.Last() then (s.First() + i) * s.cs + s.WantFrom(s.First() + i) - s.offset else s.size
  }

  lemma BeforeNone(s: Span)
    requires s.Ok()
    ensures Before(s, 0) == 0 && s.First() <= s.Last()
  {
    DivMono(s.offset, s.offset + s.size - 1, s.cs);
    SpanCovers(s, s.First());
  }

  lemma NextShare(parts: Parts, s: Span, i: nat)
    requires s.Ok() && s.First() + i <= s.Last()
    ensures 0 <= Before(s, i) <= Before(s, i + 1)
    ensures BytesOf(parts, s.cs, s.offset, Before(s, i)) + Share(parts, s, s.First() + i) ==
            BytesOf(parts, s.cs, s.offset, Before(s, i + 1))
  {
    var c := s.First() + i;
    SpanCovers(s, c);
    StartsInside(s, c);
    BytesJoin(parts, s.cs, s.offset, Before(s, i), s.WantTo(c) - s.WantFrom(c));
  }

  lemma StartsInside(s: Span, c: nat)
    requires s.Ok() && s.First() <= c
    ensures c * s.cs + s.WantFrom(c) >= s.offset
  {
  }

  ghost predicate AllShares(parts: Parts, s: Span, pieces: seq<seq<byte>>)
    requires s.Ok()
  {
    && |pieces| == s.Last() - s.First() + 1
    && forall i :: 0 <= i < |pieces| ==> pieces[i] == Share(parts, s, s.First() + i)
  }

  /** Laying the pieces end to end spells out the range. */
  method Stitch(pieces: seq<seq<byte>>, s: Span, ghost parts: Parts) returns (out: seq<byte>)
    requires s.Ok()
    ensures AllShares(parts, s, pieces) ==> out == BytesOf(parts, s.cs, s.offset, s.size)
  {
    out := [];
    BeforeNone(s);
    assert BytesOf(parts, s.cs, s.offset, 0) == [];
    for i := 0 to |pieces|
      invariant AllShares(parts, s, pieces) ==> Before(s, i) >= 0 && out == BytesOf(parts, s.cs, s.offset, Before(s, i))
    {
      if AllShares(parts, s, pieces) { NextShare(parts, s, i); }
      out := out + pieces[i];
    }
  }
}
