/** The base64 decoder of the Basic credential, and the encoding of section 4 of RFC 4648 it inverts.

    The accumulator is 32 bits wide and its high bits are shifted out; only the bits not yet turned
    into a byte matter. */
module Base64 {
  import opened Bytes

  const PAD: byte := 0x3D

  /** Padding and ASCII whitespace are passed over, wherever they are. */
  predicate Skipped(c: byte) {
    c == PAD || c == 0x20 || c == 0x09 || c == 0x0A || c == 0x0C || c == 0x0D
  }

  /** The position of a character in the alphabet. */
  function Value(c: byte): Option<bv32> {
    if 0x41 <= c <= 0x5A then Some((c - 0x41) as bv32)
    else if 0x61 <= c <= 0x7A then Some((c - 0x61 + 26) as bv32)
    else if 0x30 <= c <= 0x39 then Some((c - 0x30 + 52) as bv32)
    else if c == 0x2B then Some(62)
    else if c == 0x2F then Some(63)
    else None
  }

  /** The character for six bits. */
  function Letter(v: bv32): byte {
    var w := (v & 0x3F) as byte;
    if w < 26 then w + 0x41
    else if w < 52 then w - 26 + 0x61
    else if w < 62 then w - 52 + 0x30
    else if w == 62 then 0x2B
    else 0x2F
  }

  lemma LetterValue(v: bv32)
    requires v <= 63
    ensures Value(Letter(v)) == Some(v) && !Skipped(Letter(v))
  {
  }

  /** Table 1 of RFC 4648: three runs of consecutive characters, from A, a and 0, and two more. */
  lemma AlphabetOrder(v: bv32)
    requires v < 63
    ensures Letter(0) == 0x41 && Letter(26) == 0x61 && Letter(52) == 0x30 && Letter(62) == 0x2B && Letter(63) == 0x2F
    ensures v != 25 && v != 51 && v < 61 ==> Letter(v + 1) == Letter(v) + 1
  {
  }

  /** A character has a value exactly if it is in the alphabet, and the value is its place there. */
  lemma ValueExact(c: byte, v: bv32)
    ensures Value(c) == Some(v) <==> v <= 63 && Letter(v) == c
  {
  }

  // ----- decoding -----

  datatype Acc = Acc(out: seq<byte>, buffer: bv32, bits: bv32)

  const EMPTY: Acc := Acc([], 0, 0)

  function Low8(x: bv32): byte {
    (x & 0xFF) as byte
  }

  function Step(a: Acc, v: bv32): Acc
    requires a.bits <= 6
  {
    var buffer, bits := (a.buffer << 6) | v, a.bits + 6;
    if bits >= 8 then Acc(a.out + [Low8(buffer >> (bits - 8))], buffer, bits - 8) else Acc(a.out, buffer, bits)
  }

  function Feed(vs: seq<bv32>): (a: Acc)
    ensures a.bits == 0 || a.bits == 2 || a.bits == 4 || a.bits == 6
  {
    if vs == [] then EMPTY else Step(Feed(vs[..|vs| - 1]), vs[|vs| - 1])
  }

  /** The six-bit values a text spells, or nothing if a character is not in the alphabet. */
  function Values(text: seq<byte>): Option<seq<bv32>> {
    if text == [] then Some([])
    else
      var before, c := Values(text[..|text| - 1]), text[|text| - 1];
      if before.None? || Skipped(c) then before
      else if Value(c).None? then None
      else Some(before.value + [Value(c).value])
  }

  lemma {:induction false} BadStaysBad(text: seq<byte>, n: nat)
    requires n <= |text| && Values(text[..n]).None?
    ensures Values(text).None?
    decreases |text|
  {
    if n < |text| {
      assert text[..|text| - 1][..n] == text[..n];
      BadStaysBad(text[..|text| - 1], n);
    } else {
      assert text[..n] == text;
    }
  }

  lemma FeedMore(vs: seq<bv32>, v: bv32)
    ensures Feed(vs + [v]) == Step(Feed(vs), v)
  {
    assert (vs + [v])[..|vs|] == vs;
  }

  lemma ValuesNext(text: seq<byte>, i: nat)
    requires i < |text| && Values(text[..i]).Some?
    ensures Values(text[..i + 1]) ==
            if Skipped(text[i]) then Values(text[..i])
            else if Value(text[i]).None? then None
            else Some(Values(text[..i]).value + [Value(text[i]).value])
  {
    assert text[..i + 1][..i] == text[..i];
  }

  /** Take in six bits, and put out a byte once there are eight. */
  method Push(a: Acc, v: bv32) returns (r: Acc)
    requires a.bits <= 6
    ensures r == Step(a, v)
  {
    var out, buffer, bits := a.out, (a.buffer << 6) | v, a.bits + 6;
    if bits >= 8 {
      bits := bits - 8;
      out := out + [Low8(buffer >> bits)];
    }
    r := Acc(out, buffer, bits);
  }

  method Decode(input: seq<byte>) returns (r: Option<seq<byte>>)
    ensures r == if Values(input).Some? then Some(Feed(Values(input).value).out) else None
  {
    var acc := EMPTY;
    ghost var vs := [];
    for i := 0 to |input|
      invariant Values(input[..i]) == Some(vs) && Feed(vs) == acc
    {
      ValuesNext(input, i);
      if !Skipped(input[i]) {
        var value := Value(input[i]);
        if value.None? {
          BadStaysBad(input, i + 1);
          return None;
        }
        FeedMore(vs, value.value);
        vs := vs + [value.value];
        acc := Push(acc, value.value);
      }
    }
    assert input[..|input|] == input;
    r := Some(acc.out);
  }

  // ----- encoding -----

  function Wide(b: byte): bv32 { b as bv32 }

  function First(a: byte): bv32 { Wide(a) >> 2 }
  function Second(a: byte, b: byte): bv32 { ((Wide(a) & 3) << 4) | (Wide(b) >> 4) }
  function Third(b: byte, c: byte): bv32 { ((Wide(b) & 15) << 2) | (Wide(c) >> 6) }
  function Fourth(c: byte): bv32 { Wide(c) & 63 }

  /** Three bytes at a time as four values; a short last group is filled up with zero bits. */
  function Sextets(s: seq<byte>): seq<bv32> {
    if |s| == 0 then []
    else if |s| == 1 then [First(s[0]), Second(s[0], 0)]
    else if |s| == 2 then [First(s[0]), Second(s[0], s[1]), Third(s[1], 0)]
    else [First(s[0]), Second(s[0], s[1]), Third(s[1], s[2]), Fourth(s[2])] + Sextets(s[3..])
  }

  function Letters(vs: seq<bv32>): seq<byte> {
    seq(|vs|, i requires 0 <= i < |vs| => Letter(vs[i]))
  }

  function Unpadded(s: seq<byte>): seq<byte> {
    Letters(Sextets(s))
  }

  function Padded(s: seq<byte>): seq<byte> {
    Unpadded(s) + if |s| % 3 == 1 then [PAD, PAD] else if |s| % 3 == 2 then [PAD] else []
  }

  lemma SmallGroups(a: byte, b: byte, c: byte)
    ensures First(a) <= 63 && Second(a, b) <= 63 && Third(b, c) <= 63 && Fourth(c) <= 63
  {
  }

  // ----- decoding inverts encoding -----

  /** The bits of a whole group come out as its three bytes, whatever was in the accumulator. */
  lemma GroupBits(buffer: bv32, a: byte, b: byte, c: byte)
    ensures var x := (buffer << 6) | First(a);
            var y := (x << 6) | Second(a, b);
            var z := (y << 6) | Third(b, c);
            var w := (z << 6) | Fourth(c);
            Low8(y >> 4) == a && Low8(z >> 2) == b && Low8(w >> 0) == c
  {
  }

  lemma FeedTwo(vs: seq<bv32>, a: byte, b: byte)
    requires Feed(vs).bits == 0
    ensures var end := Feed(vs + [First(a), Second(a, b)]);
            end.bits == 4 && end.out == Feed(vs).out + [a] && end.buffer == (((Feed(vs).buffer << 6) | First(a)) << 6) | Second(a, b)
  {
    FeedMore(vs, First(a));
    FeedMore(vs + [First(a)], Second(a, b));
    assert vs + [First(a)] + [Second(a, b)] == vs + [First(a), Second(a, b)];
    GroupBits(Feed(vs).buffer, a, b, 0);
  }

  lemma FeedThree(vs: seq<bv32>, a: byte, b: byte, c: byte)
    requires Feed(vs).bits == 0
    ensures var two, end := Feed(vs + [First(a), Second(a, b)]), Feed(vs + [First(a), Second(a, b), Third(b, c)]);
            end.bits == 2 && end.out == Feed(vs).out + [a, b] && end.buffer == (two.buffer << 6) | Third(b, c)
  {
    FeedTwo(vs, a, b);
    FeedMore(vs + [First(a), Second(a, b)], Third(b, c));
    assert vs + [First(a), Second(a, b)] + [Third(b, c)] == vs + [First(a), Second(a, b), Third(b, c)];
    GroupBits(Feed(vs).buffer, a, b, c);
  }

  lemma FeedGroup(vs: seq<bv32>, a: byte, b: byte, c: byte)
    requires Feed(vs).bits == 0
    ensures var end := Feed(vs + [First(a), Second(a, b), Third(b, c), Fourth(c)]);
            end.bits == 0 && end.out == Feed(vs).out + [a, b, c]
  {
    FeedTwo(vs, a, b);
    FeedThree(vs, a, b, c);
    var three := vs + [First(a), Second(a, b), Third(b, c)];
    FeedMore(three, Fourth(c));
    assert three + [Fourth(c)] == vs + [First(a), Second(a, b), Third(b, c), Fourth(c)];
    GroupBits(Feed(vs).buffer, a, b, c);
  }

  lemma Regroup<T>(a: seq<T>, b: seq<T>, c: seq<T>)
    ensures a + (b + c) == a + b + c
  {
  }

  lemma SplitThree(s: seq<byte>)
    requires |s| >= 3
    ensures s == [s[0], s[1], s[2]] + s[3..]
  {
  }

  lemma FeedShort(vs: seq<bv32>, s: seq<byte>)
    requires Feed(vs).bits == 0 && |s| < 3
    ensures Feed(vs + Sextets(s)).out == Feed(vs).out + s
  {
    if |s| == 0 {
      assert vs + Sextets(s) == vs;
    } else if |s| == 1 {
      FeedTwo(vs, s[0], 0);
    } else {
      FeedThree(vs, s[0], s[1], 0);
      assert s == [s[0], s[1]];
    }
  }

  lemma {:induction false} FeedSextets(vs: seq<bv32>, s: seq<byte>)
    requires Feed(vs).bits == 0
    ensures Feed(vs + Sextets(s)).out == Feed(vs).out + s
    decreases |s|
  {
    if |s| < 3 {
      FeedShort(vs, s);
    } else {
      var group, rest := [First(s[0]), Second(s[0], s[1]), Third(s[1], s[2]), Fourth(s[2])], s[3..];
      SplitThree(s);
      Regroup(vs, group, Sextets(rest));
      FeedGroup(vs, s[0], s[1], s[2]);
      FeedSextets(vs + group, rest);
      Regroup(Feed(vs).out, [s[0], s[1], s[2]], rest);
    }
  }

  // ----- padding and whitespace -----

  function Strip(text: seq<byte>): seq<byte> {
    if text == [] then []
    else if Skipped(text[|text| - 1]) then Strip(text[..|text| - 1])
    else Strip(text[..|text| - 1]) + [text[|text| - 1]]
  }

  lemma {:induction false} StripValues(text: seq<byte>)
    ensures Values(text) == Values(Strip(text))
    decreases |text|
  {
    if text != [] {
      var front, c := text[..|text| - 1], text[|text| - 1];
      StripValues(front);
      if !Skipped(c) { assert (Strip(front) + [c])[..|Strip(front)|] == Strip(front); }
    }
  }

  predicate SixBits(vs: seq<bv32>) {
    forall i :: 0 <= i < |vs| ==> vs[i] <= 63
  }

  lemma {:induction false} LettersValues(vs: seq<bv32>)
    requires SixBits(vs)
    ensures Values(Letters(vs)) == Some(vs) && Strip(Letters(vs)) == Letters(vs)
    decreases |vs|
  {
    if vs != [] {
      var front := vs[..|vs| - 1];
      LettersValues(front);
      LetterValue(vs[|vs| - 1]);
      assert Letters(vs)[..|vs| - 1] == Letters(front);
      assert vs == front + [vs[|vs| - 1]];
    }
  }

  lemma {:induction false} SextetsSmall(s: seq<byte>)
    ensures SixBits(Sextets(s))
    decreases |s|
  {
    if |s| == 1 {
      SmallGroups(s[0], 0, 0);
    } else if |s| == 2 {
      SmallGroups(s[0], s[1], 0);
    } else if |s| >= 3 {
      SmallGroups(s[0], s[1], s[2]);
      SextetsSmall(s[3..]);
    }
  }

  /** Decoding inverts encoding: any text that is the encoding of `s` once padding and whitespace are
      passed over decodes to `s`. */
  lemma DecodeInverts(text: seq<byte>, s: seq<byte>)
    requires Strip(text) == Unpadded(s)
    ensures Values(text).Some? && Feed(Values(text).value).out == s
  {
    StripValues(text);
    SextetsSmall(s);
    LettersValues(Sextets(s));
    FeedSextets([], s);
    assert [] + Sextets(s) == Sextets(s);
  }

  /** Both ways of writing the encoding are such texts. */
  lemma PaddedOrNot(s: seq<byte>)
    ensures Strip(Unpadded(s)) == Unpadded(s) && Strip(Padded(s)) == Unpadded(s)
  {
    SextetsSmall(s);
    LettersValues(Sextets(s));
    var u := Unpadded(s);
    assert (u + [PAD])[..|u|] == u;
    assert (u + [PAD, PAD])[..|u| + 1] == u + [PAD];
    assert Strip(u + [PAD]) == u;
    assert u + [] == u;
  }

  ghost predicate InAlphabet(c: byte) {
    exists v: bv32 :: v <= 63 && Letter(v) == c
  }

  lemma AlphabetHasValues(c: byte)
    ensures Value(c).Some? <==> InAlphabet(c)
  {
    if Value(c).Some? { ValueExact(c, Value(c).value); }
    if v: bv32 :| v <= 63 && Letter(v) == c { ValueExact(c, v); }
  }

  /** A text decodes to something exactly if all it has besides padding and whitespace is in the alphabet. */
  lemma {:induction false} DecodesExactly(text: seq<byte>)
    ensures Values(text).Some? <==>
            forall i :: 0 <= i < |text| ==> InAlphabet(text[i]) || text[i] in [0x3D, 0x20, 0x09, 0x0A, 0x0C, 0x0D]
    decreases |text|
  {
    if text != [] {
      var front, c := text[..|text| - 1], text[|text| - 1];
      DecodesExactly(front);
      AlphabetHasValues(c);
      assert forall i :: 0 <= i < |front| ==> front[i] == text[i];
    }
  }
}
