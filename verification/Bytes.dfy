/** Bytes, byte strings and the flat file every other module is compared with. */
module Bytes {
  type byte = bv8

  datatype Option<+T> = None | Some(value: T)

  function Min(a: int, b: int): (r: int)
    ensures r <= a && r <= b && (r == a || r == b)
  {
    if a <= b then a else b
  }

  function Max(a: int, b: int): (r: int)
    ensures r >= a && r >= b && (r == a || r == b)
  {
    if a >= b then a else b
  }

  ghost predicate NoDuplicates<T>(r: seq<T>) {
    forall i, j :: 0 <= i < j < |r| ==> r[i] != r[j]
  }

  function Zeros(n: nat): (r: seq<byte>)
    ensures |r| == n && forall i :: 0 <= i < n ==> r[i] == 0
  {
    seq(n, _ => 0)
  }

  /** The byte at a position of a zero-extended byte string. */
  function At(f: seq<byte>, i: int): byte {
    if 0 <= i < |f| then f[i] else 0
  }

  /** `Vec::resize(n, 0)`. */
  function Resize(s: seq<byte>, n: nat): (r: seq<byte>)
    ensures |r| == n && forall i :: 0 <= i < n ==> r[i] == At(s, i)
  {
    if n <= |s| then s[..n] else s + Zeros(n - |s|)
  }

  /** A POSIX write into a flat file: zero-fill the gap, overwrite the overlap, keep the rest. */
  function FlatWrite(f: seq<byte>, offset: nat, body: seq<byte>): (r: seq<byte>)
    ensures body == [] ==> r == f
    ensures body != [] ==> |r| == Max(|f|, offset + |body|)
    ensures forall i :: 0 <= i < |r| ==> r[i] == if offset <= i < offset + |body| then body[i - offset] else At(f, i)
  {
    if body == [] then f
    else seq(Max(|f|, offset + |body|), i requires 0 <= i < Max(|f|, offset + |body|) =>
               if offset <= i < offset + |body| then body[i - offset] else At(f, i))
  }

  /** `f[from..to]`, cut off at the end of the file. */
  function Slice(f: seq<byte>, from: nat, to: nat): (r: seq<byte>)
    ensures |r| == Max(0, Min(to, |f|) - from)
    ensures forall i :: 0 <= i < |r| ==> r[i] == f[from + i]
  {
    if from <= Min(to, |f|) then f[from..Min(to, |f|)] else []
  }

  /** `n` bytes from `from` on, with zeroes past the end. */
  function Window(p: seq<byte>, from: nat, n: nat): (r: seq<byte>)
    ensures |r| == n && forall i :: 0 <= i < n ==> r[i] == At(p, from + i)
  {
    seq<byte>(n, i requires 0 <= i => At(p, from + i))
  }

  lemma WindowPastEnd(p: seq<byte>, from: nat, n: nat)
    requires from >= |p| || n == 0
    ensures Window(p, from, n) == Zeros(n)
  {
  }

  lemma WindowInside(p: seq<byte>, from: nat, n: nat)
    requires from <= |p|
    ensures Window(p, from, n) == Resize(Slice(p, from, Min(from + n, |p|)), n)
  {
  }

  // ----- division by a chunk size -----

  lemma {:induction false} DivMod(i: int, d: int)
    requires d > 0
    ensures i == i / d * d + i % d && 0 <= i % d < d
    ensures i >= 0 ==> i / d >= 0
  {
  }

  lemma MulMono(a: int, b: int, d: int)
    requires a <= b && d >= 0
    ensures a * d <= b * d
  {
  }

  /** The quotient is the only multiple of `d` that has `i` in its block. */
  lemma DivUnique(i: int, k: int, d: int)
    requires d > 0 && k * d <= i < k * d + d
    ensures i / d == k && i % d == i - k * d
  {
    DivMod(i, d);
    var q := i / d;
    if q < k { MulMono(q + 1, k, d); }
    if q > k { MulMono(k + 1, q, d); }
  }

  lemma DivMono(i: int, j: int, d: int)
    requires d > 0 && i <= j
    ensures i / d <= j / d
  {
    DivMod(i, d);
    DivMod(j, d);
    if i / d > j / d { MulMono(j / d + 1, i / d, d); }
  }

  /** `u64::div_ceil`. */
  function CeilDiv(a: int, d: int): (r: int)
    requires d > 0
  {
    (a + d - 1) / d
  }

  lemma CeilDivBounds(a: int, d: int)
    requires d > 0
    ensures (CeilDiv(a, d) - 1) * d < a <= CeilDiv(a, d) * d
  {
    DivMod(a + d - 1, d);
  }
}
