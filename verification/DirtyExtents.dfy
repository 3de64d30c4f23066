/** The modified byte ranges of a cached file, as a canonical list of intervals. */
module DirtyExtents {
  import opened Bytes

  /** The bytes from `start` up to, not including, `end`. */
  datatype Span = Span(start: nat, end: nat)
  {
    predicate Covers(x: nat) { start <= x < end }
    predicate Touches(other: Span) { !(end < other.start || start > other.end) }
  }

  /** Nonempty, in order, and never so close that two could be one. */
  ghost predicate Canonical(ranges: seq<Span>) {
    && (forall i :: 0 <= i < |ranges| ==> ranges[i].start < ranges[i].end)
    && (forall i, j :: 0 <= i < j < |ranges| ==> ranges[i].end < ranges[j].start)
  }

  /** The set of bytes a list of ranges stands for. */
  ghost predicate Has(ranges: seq<Span>, x: nat) {
    exists i :: 0 <= i < |ranges| && ranges[i].Covers(x)
  }

  lemma HasCat(a: seq<Span>, b: seq<Span>, x: nat)
    ensures Has(a + b, x) <==> Has(a, x) || Has(b, x)
  {
    if Has(a, x) {
      var i :| 0 <= i < |a| && a[i].Covers(x);
      assert (a + b)[i].Covers(x);
    }
    if Has(b, x) {
      var i :| 0 <= i < |b| && b[i].Covers(x);
      assert (a + b)[|a| + i].Covers(x);
    }
  }

  lemma HasOne(r: Span, x: nat)
    ensures Has([r], x) <==> r.Covers(x)
  {
    if r.Covers(x) { assert [r][0].Covers(x); }
  }

  lemma HasUpto(ranges: seq<Span>, i: nat, x: nat)
    requires i < |ranges|
    ensures Has(ranges[..i + 1], x) <==> Has(ranges[..i], x) || ranges[i].Covers(x)
  {
    assert ranges[..i + 1] == ranges[..i] + [ranges[i]];
    HasCat(ranges[..i], [ranges[i]], x);
    HasOne(ranges[i], x);
  }

  // ----- the list depends only on the set -----

  lemma HasTail(ranges: seq<Span>, x: nat)
    requires Canonical(ranges) && ranges != []
    ensures Has(ranges[1..], x) <==> Has(ranges, x) && x >= ranges[0].end
  {
    assert ranges == [ranges[0]] + ranges[1..];
    HasCat([ranges[0]], ranges[1..], x);
    HasOne(ranges[0], x);
  }

  lemma FirstIsLeast(a: seq<Span>, b: seq<Span>)
    requires Canonical(a) && Canonical(b) && a != [] && forall x: nat :: Has(a, x) ==> Has(b, x)
    ensures b != [] && b[0].start <= a[0].start
  {
    assert a[0].Covers(a[0].start);
    assert Has(a, a[0].start);
  }

  lemma FirstEndsLast(a: seq<Span>, b: seq<Span>)
    requires Canonical(a) && Canonical(b) && a != [] && b != [] && a[0].start == b[0].start
    requires forall x: nat :: Has(b, x) ==> Has(a, x)
    ensures b[0].end <= a[0].end
  {
    if a[0].end < b[0].end {
      assert b[0].Covers(a[0].end);
      assert Has(b, a[0].end);
    }
  }

  /** Two canonical lists for the same bytes are the same list, however they came about. */
  lemma {:induction false} SameBytesSameRanges(a: seq<Span>, b: seq<Span>)
    requires Canonical(a) && Canonical(b) && forall x: nat :: Has(a, x) <==> Has(b, x)
    ensures a == b
    decreases |a|
  {
    if a != [] { FirstIsLeast(a, b); }
    if b != [] { FirstIsLeast(b, a); }
    if a != [] {
      FirstEndsLast(a, b);
      FirstEndsLast(b, a);
      forall x: nat ensures Has(a[1..], x) <==> Has(b[1..], x) { HasTail(a, x); HasTail(b, x); }
      SameBytesSameRanges(a[1..], b[1..]);
      assert a == [a[0]] + a[1..] && b == [b[0]] + b[1..];
    }
  }

  // ----- insert -----

  /** Every kept range is clear of the merged one. */
  ghost predicate Apart(kept: seq<Span>, merged: Span) {
    forall j :: 0 <= j < |kept| ==> kept[j].end < merged.start || kept[j].start > merged.end
  }

  ghost predicate AllBefore(kept: seq<Span>, bound: nat) {
    forall j :: 0 <= j < |kept| ==> kept[j].end < bound
  }

  /** Merging a range that touches changes nothing but the union. */
  lemma MergeTouching(kept: seq<Span>, merged: Span, r: Span)
    requires Canonical(kept) && Apart(kept, merged) && AllBefore(kept, r.start)
    requires merged.start < merged.end && r.start < r.end && r.Touches(merged)
    ensures Apart(kept, Span(Min(merged.start, r.start), Max(merged.end, r.end)))
    ensures forall x: nat :: Span(Min(merged.start, r.start), Max(merged.end, r.end)).Covers(x) <==> merged.Covers(x) || r.Covers(x)
  {
  }

  /** Split the ranges into those clear of the new one and the union of those that are not. */
  method Absorb(ranges: seq<Span>, range: Span) returns (kept: seq<Span>, merged: Span)
    requires Canonical(ranges) && range.start < range.end
    ensures Canonical(kept) && Apart(kept, merged) && merged.start < merged.end
    ensures forall x: nat :: Has(kept, x) || merged.Covers(x) <==> Has(ranges, x) || range.Covers(x)
  {
    kept, merged := [], range;
    for i := 0 to |ranges|
      invariant Canonical(kept) && Apart(kept, merged) && merged.start < merged.end
      invariant forall j :: i <= j < |ranges| ==> AllBefore(kept, ranges[j].start)
      invariant forall x: nat :: Has(kept, x) || merged.Covers(x) <==> Has(ranges[..i], x) || range.Covers(x)
    {
      var existing := ranges[i];
      forall x: nat ensures Has(ranges[..i + 1], x) <==> Has(ranges[..i], x) || existing.Covers(x) { HasUpto(ranges, i, x); }
      if existing.Touches(merged) {
        MergeTouching(kept, merged, existing);
        merged := Span(Min(merged.start, existing.start), Max(merged.end, existing.end));
      } else {
        forall x: nat ensures Has(kept + [existing], x) <==> Has(kept, x) || existing.Covers(x) {
          HasCat(kept, [existing], x);
          HasOne(existing, x);
        }
        kept := kept + [existing];
      }
    }
    assert ranges[..|ranges|] == ranges;
  }

  lemma PlacedHas(a: seq<Span>, b: seq<Span>, merged: Span, x: nat)
    ensures Has(a + [merged] + b, x) <==> Has(a + b, x) || merged.Covers(x)
  {
    HasCat(a, b, x);
    HasCat(a + [merged], b, x);
    HasCat(a, [merged], x);
    HasOne(merged, x);
  }

  lemma CanonicalCat(a: seq<Span>, b: seq<Span>)
    requires Canonical(a) && Canonical(b) && forall i, j :: 0 <= i < |a| && 0 <= j < |b| ==> a[i].end < b[j].start
    ensures Canonical(a + b)
  {
  }

  lemma CanonicalParts(a: seq<Span>, b: seq<Span>)
    requires Canonical(a + b)
    ensures Canonical(a) && Canonical(b) && forall i, j :: 0 <= i < |a| && 0 <= j < |b| ==> a[i].end < b[j].start
  {
    assert forall i :: 0 <= i < |a| ==> (a + b)[i] == a[i];
    assert forall j :: 0 <= j < |b| ==> (a + b)[|a| + j] == b[j];
  }

  lemma PlacedCanonical(a: seq<Span>, b: seq<Span>, merged: Span)
    requires Canonical(a + b) && merged.start < merged.end
    requires forall j :: 0 <= j < |a| ==> a[j].end < merged.start
    requires forall j :: 0 <= j < |b| ==> b[j].start > merged.end
    ensures Canonical(a + [merged] + b)
  {
    CanonicalParts(a, b);
    CanonicalCat(a, [merged]);
    CanonicalCat(a + [merged], b);
  }

  /** Put the merged range where its start belongs. */
  method Place(kept: seq<Span>, merged: Span) returns (ranges: seq<Span>)
    requires Canonical(kept) && Apart(kept, merged) && merged.start < merged.end
    ensures Canonical(ranges) && forall x: nat :: Has(ranges, x) <==> Has(kept, x) || merged.Covers(x)
  {
    var p := 0;
    while p < |kept| && kept[p].start <= merged.start
      invariant 0 <= p <= |kept| && forall j :: 0 <= j < p ==> kept[j].end < merged.start
    {
      p := p + 1;
    }
    var a, b := kept[..p], kept[p..];
    ranges := a + [merged] + b;
    assert kept == a + b;
    PlacedCanonical(a, b, merged);
    forall x: nat ensures Has(ranges, x) <==> Has(kept, x) || merged.Covers(x) { PlacedHas(a, b, merged, x); }
  }

  // ----- clear -----

  /** What is left of a range once another is taken out. */
  function Without(r: Span, cut: Span): seq<Span> {
    if r.end <= cut.start || r.start >= cut.end then [r]
    else
      (if r.start < cut.start then [Span(r.start, cut.start)] else []) +
      (if r.end > cut.end then [Span(cut.end, r.end)] else [])
  }

  lemma WithoutHas(r: Span, cut: Span, x: nat)
    requires cut.start < cut.end
    ensures Has(Without(r, cut), x) <==> r.Covers(x) && !cut.Covers(x)
  {
    var a := if r.start < cut.start then [Span(r.start, cut.start)] else [];
    var b := if r.end > cut.end then [Span(cut.end, r.end)] else [];
    HasOne(r, x);
    HasCat(a, b, x);
    HasOne(Span(r.start, cut.start), x);
    HasOne(Span(cut.end, r.end), x);
  }

  lemma WithoutCanonical(r: Span, cut: Span)
    requires r.start < r.end && cut.start < cut.end
    ensures Canonical(Without(r, cut))
    ensures forall j :: 0 <= j < |Without(r, cut)| ==> r.start <= Without(r, cut)[j].start && Without(r, cut)[j].end <= r.end
  {
  }

  /** Everything so far ends no later than range `i` does. */
  ghost predicate Within(done: seq<Span>, bound: int) {
    forall j :: 0 <= j < |done| ==> done[j].end <= bound
  }

  method Cut(ranges: seq<Span>, cut: Span) returns (left: seq<Span>)
    requires Canonical(ranges) && cut.start < cut.end
    ensures Canonical(left) && forall x: nat :: Has(left, x) <==> Has(ranges, x) && !cut.Covers(x)
  {
    left := [];
    for i := 0 to |ranges|
      invariant Canonical(left) && (if i > 0 then Within(left, ranges[i - 1].end) else left == [])
      invariant forall x: nat :: Has(left, x) <==> Has(ranges[..i], x) && !cut.Covers(x)
    {
      var pieces := Without(ranges[i], cut);
      WithoutCanonical(ranges[i], cut);
      CanonicalCat(left, pieces);
      forall x: nat ensures Has(left + pieces, x) <==> Has(ranges[..i + 1], x) && !cut.Covers(x) {
        HasCat(left, pieces, x);
        WithoutHas(ranges[i], cut, x);
        HasUpto(ranges, i, x);
      }
      left := left + pieces;
    }
    assert ranges[..|ranges|] == ranges;
  }

  // ----- truncate -----

  /** What is left of a range below a size. */
  function Below(r: Span, size: nat): seq<Span> {
    if r.start >= size then [] else if r.end > size then [Span(r.start, size)] else [r]
  }

  lemma BelowHas(r: Span, size: nat, x: nat)
    ensures Has(Below(r, size), x) <==> r.Covers(x) && x < size
  {
    HasOne(Span(r.start, size), x);
    HasOne(r, x);
  }

  lemma TrimStep(ranges: seq<Span>, size: nat, i: nat, left: seq<Span>)
    requires Canonical(ranges) && i < |ranges| && Canonical(left)
    requires if i > 0 then Within(left, ranges[i - 1].end) else left == []
    ensures Canonical(left + Below(ranges[i], size)) && Within(left + Below(ranges[i], size), ranges[i].end)
  {
    CanonicalCat(left, Below(ranges[i], size));
  }

  lemma TrimHas(ranges: seq<Span>, size: nat, i: nat, left: seq<Span>, x: nat)
    requires i < |ranges| && (Has(left, x) <==> Has(ranges[..i], x) && x < size)
    ensures Has(left + Below(ranges[i], size), x) <==> Has(ranges[..i + 1], x) && x < size
  {
    HasCat(left, Below(ranges[i], size), x);
    BelowHas(ranges[i], size, x);
    HasUpto(ranges, i, x);
  }

  method Trim(ranges: seq<Span>, size: nat) returns (left: seq<Span>)
    requires Canonical(ranges)
    ensures Canonical(left) && forall x: nat :: Has(left, x) <==> Has(ranges, x) && x < size
  {
    left := [];
    for i := 0 to |ranges|
      invariant Canonical(left) && (if i > 0 then Within(left, ranges[i - 1].end) else left == [])
      invariant forall x: nat :: Has(left, x) <==> Has(ranges[..i], x) && x < size
    {
      TrimStep(ranges, size, i, left);
      forall x: nat ensures Has(left + Below(ranges[i], size), x) <==> Has(ranges[..i + 1], x) && x < size {
        TrimHas(ranges, size, i, left, x);
      }
      left := left + Below(ranges[i], size);
    }
    assert ranges[..|ranges|] == ranges;
  }

  // ----- the tracker -----

  class Extents {
    var ranges: seq<Span>

    ghost predicate Valid()
      reads this
    {
      Canonical(ranges)
    }

    constructor ()
      ensures Valid() && ranges == []
    {
      ranges := [];
    }

    /** Exactly the union. */
    method Insert(range: Span)
      requires Valid()
      modifies this
      ensures Valid() && forall x: nat :: Has(ranges, x) <==> Has(old(ranges), x) || range.Covers(x)
    {
      if range.start >= range.end { return; }
      var kept, merged := Absorb(ranges, range);
      ranges := Place(kept, merged);
    }

    /** Exactly the difference. */
    method ClearRange(range: Span)
      requires Valid()
      modifies this
      ensures Valid() && forall x: nat :: Has(ranges, x) <==> Has(old(ranges), x) && !range.Covers(x)
    {
      if range.start >= range.end { return; }
      ranges := Cut(ranges, range);
    }

    method ClearAll()
      modifies this
      ensures Valid() && ranges == []
    {
      ranges := [];
    }

    method IsDirty() returns (dirty: bool)
      requires Valid()
      ensures dirty <==> exists x: nat :: Has(ranges, x)
    {
      dirty := ranges != [];
      if dirty { assert ranges[0].Covers(ranges[0].start); assert Has(ranges, ranges[0].start); }
    }

    /** Exactly the intersection with the bytes below the new size. */
    method Truncate(size: nat)
      requires Valid()
      modifies this
      ensures Valid() && forall x: nat :: Has(ranges, x) <==> Has(old(ranges), x) && x < size
    {
      ranges := Trim(ranges, size);
    }

    method TruncateGrow(from: nat, to: nat)
      requires Valid()
      modifies this
      ensures Valid() && forall x: nat :: Has(ranges, x) <==> Has(old(ranges), x) || from <= x < to
    {
      if to > from { Insert(Span(from, to)); }
    }
  }
}
