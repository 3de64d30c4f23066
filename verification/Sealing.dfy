/** A chunk is a header and a row of segments, each encrypted and authenticated by itself.

    The cipher is ideal: a stored cell remembers the key, nonce, associated data and message it was
    encrypted from, so a ciphertext opens under exactly the nonce and associated data it was made
    with. The nonce prefix, a hash of the object id and the key id, is taken to be injective. */
module Sealing {
  import opened Bytes
  import opened Records

  type Key = int
  type KeyId = int

  const SEGMENT_SIZE: int := 256 * 1024
  const HEADER_LEN: int := 8
  const TAG_LEN: int := 16
  /** A whole sealed segment. */
  const UNIT: int := SEGMENT_SIZE + TAG_LEN
  const U32: int := 0x1_0000_0000
  const CIPHERTEXT_OVERHEAD: int := HEADER_LEN + 16 * 1024 * 1024 / SEGMENT_SIZE * TAG_LEN

  datatype Nonce = Nonce(obj: ObjectId, keyId: KeyId, counter: int, last: bool)

  /** `index as u32`. */
  function Wrap32(index: nat): nat {
    index % U32
  }

  lemma SmallWraps(index: nat)
    requires index < U32
    ensures Wrap32(index) == index
  {
  }

  /** The segment counter is stored in 32 bits. */
  function NonceFor(keyId: KeyId, obj: ObjectId, index: nat, last: bool): Nonce {
    Nonce(obj, keyId, Wrap32(index), last)
  }

  datatype Aad = Aad(obj: ObjectId, keyId: KeyId)

  /** One stored byte. */
  datatype Cell = Head(at: int) | Cipher(key: Key, nonce: Nonce, aad: Aad, msg: seq<byte>, at: int)

  function Encrypt(key: Key, nonce: Nonce, aad: Aad, msg: seq<byte>): (c: seq<Cell>)
    ensures |c| == |msg| + TAG_LEN
  {
    seq(|msg| + TAG_LEN, i => Cipher(key, nonce, aad, msg, i))
  }

  function Decrypt(key: Key, nonce: Nonce, aad: Aad, c: seq<Cell>): (r: Option<seq<byte>>)
    ensures r.Some? ==> c == Encrypt(key, nonce, aad, r.value)
  {
    if c != [] && c[0].Cipher? && c == Encrypt(key, nonce, aad, c[0].msg) then Some(c[0].msg) else None
  }

  lemma DecryptEncrypt(key: Key, nonce: Nonce, aad: Aad, msg: seq<byte>)
    ensures Decrypt(key, nonce, aad, Encrypt(key, nonce, aad, msg)) == Some(msg)
  {
    assert Encrypt(key, nonce, aad, msg)[0] == Cipher(key, nonce, aad, msg, 0);
  }

  function Header(): (h: seq<Cell>)
    ensures |h| == HEADER_LEN
  {
    seq(HEADER_LEN, i => Head(i))
  }

  lemma Append<T>(a: seq<T>, b: seq<T>, c: seq<T>)
    ensures (a + b) + c == a + (b + c)
  {
  }

  lemma Middle<T>(a: seq<T>, b: seq<T>, c: seq<T>)
    ensures (a + (b + c))[|a|..|a| + |b|] == b
  {
  }

  // ----- layout -----

  function SegmentCount(len: nat): nat {
    Max(CeilDiv(len, SEGMENT_SIZE), 1)
  }

  function CiphertextOverhead(len: nat): nat {
    HEADER_LEN + SegmentCount(len) * TAG_LEN
  }

  /** How long segment `index` is once sealed. */
  function SegmentLen(len: nat, index: nat): (r: nat)
    ensures r >= TAG_LEN
  {
    Min(SEGMENT_SIZE, Max(0, len - index * SEGMENT_SIZE)) + TAG_LEN
  }

  /** The first cell of a segment and the one after its last, counting the header. */
  function SegmentSpan(len: nat, index: nat): (nat, nat) {
    var start := HEADER_LEN + index * UNIT;
    (start, start + SegmentLen(len, index))
  }

  datatype ChunkRange = ChunkRange(obj: ObjectId, len: nat, from: nat, to: nat)

  function First(r: ChunkRange): nat {
    Min(r.from / SEGMENT_SIZE, SegmentCount(r.len) - 1)
  }

  function Last(r: ChunkRange): nat {
    Min(Max(0, r.to - 1) / SEGMENT_SIZE, SegmentCount(r.len) - 1)
  }

  /** Which cells a plaintext range needs, in whole segments, and the first of these. */
  function ToFetch(r: ChunkRange): (nat, nat, nat) {
    (SegmentSpan(r.len, First(r)).0, SegmentSpan(r.len, Last(r)).1, First(r))
  }

  /** The number of segments for this many bytes: only the last may be short. */
  predicate Fits(len: nat, n: nat) {
    n >= 1 && (n - 1) * SEGMENT_SIZE <= len <= n * SEGMENT_SIZE && (n > 1 ==> (n - 1) * SEGMENT_SIZE < len)
  }

  lemma CountFits(len: nat)
    ensures Fits(len, SegmentCount(len))
  {
    CeilDivBounds(len, SEGMENT_SIZE);
  }

  lemma OverheadCovered(len: nat)
    requires len <= 16 * 1024 * 1024
    ensures CiphertextOverhead(len) <= CIPHERTEXT_OVERHEAD
    ensures CiphertextOverhead(16 * 1024 * 1024) == CIPHERTEXT_OVERHEAD
  {
    CountFits(len);
  }

  /** Only the segments the range touches are fetched; an empty range on a boundary fetches none. */
  lemma FetchIsTight(r: ChunkRange)
    requires r.from <= r.to <= r.len
    ensures First(r) <= Last(r) + 1 <= SegmentCount(r.len)
    ensures First(r) * SEGMENT_SIZE <= r.from && r.to <= (Last(r) + 1) * SEGMENT_SIZE
    ensures r.from < r.to ==>
              First(r) <= Last(r) && r.from < (First(r) + 1) * SEGMENT_SIZE && Last(r) * SEGMENT_SIZE < r.to
  {
    CountFits(r.len);
    DivMod(r.from, SEGMENT_SIZE);
    DivMod(Max(0, r.to - 1), SEGMENT_SIZE);
    if r.from < r.to { DivMono(r.from, r.to - 1, SEGMENT_SIZE); }
  }

  // ----- sealing -----

  function Bound(p: seq<byte>, i: nat): (r: nat)
    ensures r <= |p|
  {
    Min(i * SEGMENT_SIZE, |p|)
  }

  function Piece(p: seq<byte>, i: nat): seq<byte> {
    p[Bound(p, i)..Max(Bound(p, i), Bound(p, i + 1))]
  }

  /** The plaintext cut into segments. */
  function Pieces(p: seq<byte>): (r: seq<seq<byte>>)
    ensures |r| == SegmentCount(|p|)
  {
    seq(SegmentCount(|p|), i requires 0 <= i => Piece(p, i))
  }

  /** All pieces but the last are whole, and only a lone piece is empty. */
  ghost predicate Shaped(pieces: seq<seq<byte>>) {
    && pieces != []
    && (forall i :: 0 <= i < |pieces| - 1 ==> |pieces[i]| == SEGMENT_SIZE)
    && |pieces[|pieces| - 1]| <= SEGMENT_SIZE
    && (|pieces| > 1 ==> pieces[|pieces| - 1] != [])
  }

  function Flat(pieces: seq<seq<byte>>, a: nat, b: nat): seq<byte>
    requires a <= b <= |pieces|
    decreases b
  {
    if a == b then [] else Flat(pieces, a, b - 1) + pieces[b - 1]
  }

  lemma PiecesShaped(p: seq<byte>)
    ensures Shaped(Pieces(p))
  {
    CountFits(|p|);
    forall i | 0 <= i < |Pieces(p)| - 1 ensures |Pieces(p)[i]| == SEGMENT_SIZE { WholePiece(p, i); }
    assert |Pieces(p)[|Pieces(p)| - 1]| == |p| - Bound(p, |Pieces(p)| - 1);
  }

  lemma WholePiece(p: seq<byte>, i: nat)
    requires i + 1 < SegmentCount(|p|)
    ensures |Piece(p, i)| == SEGMENT_SIZE
  {
    CountFits(|p|);
  }

  /** Putting the pieces back together. */
  lemma {:induction false} FlatPieces(p: seq<byte>, a: nat, b: nat)
    requires a <= b <= SegmentCount(|p|)
    ensures Bound(p, a) <= Bound(p, b) && Flat(Pieces(p), a, b) == p[Bound(p, a)..Bound(p, b)]
    decreases b
  {
    if a < b {
      FlatPieces(p, a, b - 1);
      PieceAt(p, b - 1);
      assert p[Bound(p, a)..Bound(p, b)] == p[Bound(p, a)..Bound(p, b - 1)] + p[Bound(p, b - 1)..Bound(p, b)];
    }
  }

  lemma PieceAt(p: seq<byte>, i: nat)
    requires i < SegmentCount(|p|)
    ensures Bound(p, i) <= Bound(p, i + 1) && Pieces(p)[i] == p[Bound(p, i)..Bound(p, i + 1)]
    ensures Bound(p, i) == i * SEGMENT_SIZE
  {
    CountFits(|p|);
  }

  lemma AllPieces(p: seq<byte>)
    ensures Flat(Pieces(p), 0, SegmentCount(|p|)) == p
  {
    FlatPieces(p, 0, SegmentCount(|p|));
    CountFits(|p|);
    assert p[Bound(p, 0)..Bound(p, SegmentCount(|p|))] == p;
  }

  datatype Secret = Secret(keyId: KeyId, key: Key, obj: ObjectId)

  function Segment(s: Secret, pieces: seq<seq<byte>>, i: nat): (r: seq<Cell>)
    requires i < |pieces|
    ensures |r| == |pieces[i]| + TAG_LEN
  {
    Encrypt(s.key, NonceFor(s.keyId, s.obj, i, i + 1 == |pieces|), Aad(s.obj, s.keyId), pieces[i])
  }

  /** Segments `a..b`, one after the other. */
  function Body(s: Secret, pieces: seq<seq<byte>>, a: nat, b: nat): (r: seq<Cell>)
    requires a <= b <= |pieces|
    decreases b
  {
    if a == b then [] else Body(s, pieces, a, b - 1) + Segment(s, pieces, b - 1)
  }

  function Sealed(s: Secret, p: seq<byte>): (r: seq<Cell>) {
    Header() + Body(s, Pieces(p), 0, SegmentCount(|p|))
  }

  lemma {:induction false} BodyLength(s: Secret, pieces: seq<seq<byte>>, a: nat, b: nat)
    requires a <= b <= |pieces|
    ensures |Body(s, pieces, a, b)| == |Flat(pieces, a, b)| + (b - a) * TAG_LEN
    decreases b
  {
    if a < b { BodyLength(s, pieces, a, b - 1); }
  }

  /** A sealed chunk is exactly its plaintext plus the advertised overhead. */
  lemma SealedLength(s: Secret, p: seq<byte>)
    ensures |Sealed(s, p)| == |p| + CiphertextOverhead(|p|)
    ensures |Sealed(s, p)| == |p| + 8 + 16 * Max(1, CeilDiv(|p|, 262144))
  {
    BodyLength(s, Pieces(p), 0, SegmentCount(|p|));
    AllPieces(p);
  }

  method Seal(s: Secret, plaintext: seq<byte>) returns (full: seq<Cell>)
    ensures full == Sealed(s, plaintext)
  {
    var segments := SegmentCount(|plaintext|);
    ghost var pieces := Pieces(plaintext);
    full := Header();
    for index := 0 to segments
      invariant full == Header() + Body(s, pieces, 0, index)
    {
      PieceAt(plaintext, index);
      var start := index * SEGMENT_SIZE;
      var end := Min(start + SEGMENT_SIZE, |plaintext|);
      var piece := plaintext[start..end];
      var sealed := Encrypt(s.key, NonceFor(s.keyId, s.obj, index, index + 1 == segments), Aad(s.obj, s.keyId), piece);
      Append(Header(), Body(s, pieces, 0, index), sealed);
      full := full + sealed;
    }
  }

  // ----- finding segments again -----

  lemma {:induction false} BodySplit(s: Secret, pieces: seq<seq<byte>>, a: nat, m: nat, b: nat)
    requires a <= m <= b <= |pieces|
    ensures Body(s, pieces, a, b) == Body(s, pieces, a, m) + Body(s, pieces, m, b)
    decreases b
  {
    if m < b {
      BodySplit(s, pieces, a, m, b - 1);
      Append(Body(s, pieces, a, m), Body(s, pieces, m, b - 1), Segment(s, pieces, b - 1));
    }
  }

  lemma BodyAround(s: Secret, pieces: seq<seq<byte>>, a: nat, i: nat, b: nat)
    requires a <= i < b <= |pieces|
    ensures Body(s, pieces, a, b) == Body(s, pieces, a, i) + (Segment(s, pieces, i) + Body(s, pieces, i + 1, b))
  {
    BodySplit(s, pieces, a, i, b);
    BodySplit(s, pieces, i, i + 1, b);
    assert Body(s, pieces, i, i + 1) == Body(s, pieces, i, i) + Segment(s, pieces, i) == Segment(s, pieces, i);
  }

  /** All segments before the last are whole. */
  lemma {:induction false} PrefixLength(s: Secret, pieces: seq<seq<byte>>, a: nat, i: nat)
    requires Shaped(pieces) && a <= i < |pieces|
    ensures |Body(s, pieces, a, i)| == (i - a) * UNIT
    decreases i
  {
    if a < i { PrefixLength(s, pieces, a, i - 1); }
  }

  // ----- opening a whole object -----

  function Opened(s: Secret, c: seq<Cell>, index: nat, last: bool): Option<seq<byte>> {
    Decrypt(s.key, NonceFor(s.keyId, s.obj, index, last), Aad(s.obj, s.keyId), c)
  }

  lemma SegmentOpens(s: Secret, pieces: seq<seq<byte>>, i: nat)
    requires i < |pieces|
    ensures Opened(s, Segment(s, pieces, i), i, i + 1 == |pieces|) == Some(pieces[i])
  {
    DecryptEncrypt(s.key, NonceFor(s.keyId, s.obj, i, i + 1 == |pieces|), Aad(s.obj, s.keyId), pieces[i]);
  }

  lemma CutInside(index: nat, n: nat, len: nat)
    requires index < n && (n - 1) * UNIT <= len
    ensures index * UNIT <= len
  {
  }

  /** The sealed bytes taken for segment `index`. */
  function Cut(body: seq<Cell>, index: nat): seq<Cell>
    requires index * UNIT <= |body|
  {
    body[index * UNIT..Min(index * UNIT + UNIT, |body|)]
  }

  /** The first `k` of `n` segments, one after the other. */
  function OpenedUpTo(s: Secret, body: seq<Cell>, n: nat, k: nat): Option<seq<byte>>
    requires k <= n && (n - 1) * UNIT <= |body|
  {
    if k == 0 then Some([]) else
      CutInside(k - 1, n, |body|);
      var before, here := OpenedUpTo(s, body, n, k - 1), Opened(s, Cut(body, k - 1), k - 1, k == n);
      if before.Some? && here.Some? then Some(before.value + here.value) else None
  }

  function Segments(body: seq<Cell>): (n: nat)
    ensures n >= 1 && (n - 1) * UNIT <= |body| <= n * UNIT && (n > 1 ==> (n - 1) * UNIT < |body|)
  {
    CeilDivBounds(|body|, UNIT);
    Max(CeilDiv(|body|, UNIT), 1)
  }

  predicate HeaderOk(c: seq<Cell>) {
    |c| >= HEADER_LEN && c[4..HEADER_LEN] == Header()[4..]
  }

  function OpenedObject(s: Secret, c: seq<Cell>): Option<seq<byte>> {
    if !HeaderOk(c) then None
    else OpenedUpTo(s, c[HEADER_LEN..], Segments(c[HEADER_LEN..]), Segments(c[HEADER_LEN..]))
  }

  /** An object laid out with another segment size, or too short to say, does not open. */
  lemma LayoutChecked(s: Secret, c: seq<Cell>)
    requires OpenedObject(s, c).Some?
    ensures |c| >= 8 && forall i :: 4 <= i < 8 ==> c[i] == Head(i)
  {
    assert forall i :: 4 <= i < 8 ==> c[i] == c[4..HEADER_LEN][i - 4] && Header()[i] == Header()[4..][i - 4];
  }

  /** The loop of `open_segmented`, given the segment count. */
  method OpenBody(s: Secret, body: seq<Cell>, segments: nat) returns (r: Option<seq<byte>>)
    requires (segments - 1) * UNIT <= |body|
    ensures r == OpenedUpTo(s, body, segments, segments)
  {
    var plaintext := [];
    for index := 0 to segments
      invariant OpenedUpTo(s, body, segments, index) == Some(plaintext)
    {
      CutInside(index, segments, |body|);
      var here := Opened(s, Cut(body, index), index, index + 1 == segments);
      if here.None? {
        FailureSticks(s, body, segments, index + 1, segments);
        return None;
      }
      plaintext := plaintext + here.value;
    }
    r := Some(plaintext);
  }

  method OpenSegmented(s: Secret, ciphertext: seq<Cell>) returns (r: Option<seq<byte>>)
    ensures r == OpenedObject(s, ciphertext)
  {
    if !HeaderOk(ciphertext) { return None; }
    var body := ciphertext[HEADER_LEN..];
    r := OpenBody(s, body, Segments(body));
  }

  lemma {:induction false} FailureSticks(s: Secret, body: seq<Cell>, n: nat, j: nat, k: nat)
    requires j <= k <= n && (n - 1) * UNIT <= |body| && OpenedUpTo(s, body, n, j).None?
    ensures OpenedUpTo(s, body, n, k).None?
    decreases k
  {
    if j < k { FailureSticks(s, body, n, j, k - 1); }
  }

  lemma CeilUnique(a: int, d: int, n: int)
    requires d > 0 && (n - 1) * d < a <= n * d
    ensures CeilDiv(a, d) == n
  {
    DivUnique(a + d - 1, n, d);
  }

  lemma LastEnds(s: Secret, pieces: seq<seq<byte>>)
    requires Shaped(pieces)
    ensures var n := |pieces|;
            && |Body(s, pieces, 0, n)| == (n - 1) * UNIT + |Segment(s, pieces, n - 1)|
            && TAG_LEN <= |Segment(s, pieces, n - 1)| <= UNIT
  {
    PrefixLength(s, pieces, 0, |pieces| - 1);
  }

  /** The segment count is recovered from the length alone. */
  lemma CountRecovered(s: Secret, pieces: seq<seq<byte>>)
    requires Shaped(pieces)
    ensures Segments(Body(s, pieces, 0, |pieces|)) == |pieces|
  {
    LastEnds(s, pieces);
    CeilUnique(|Body(s, pieces, 0, |pieces|)|, UNIT, |pieces|);
  }

  lemma CutIsSegment(s: Secret, pieces: seq<seq<byte>>, i: nat)
    requires Shaped(pieces) && i < |pieces|
    ensures i * UNIT <= |Body(s, pieces, 0, |pieces|)|
    ensures Cut(Body(s, pieces, 0, |pieces|), i) == Segment(s, pieces, i)
  {
    var n := |pieces|;
    PrefixLength(s, pieces, 0, i);
    BodyAround(s, pieces, 0, i, n);
    Middle(Body(s, pieces, 0, i), Segment(s, pieces, i), Body(s, pieces, i + 1, n));
    if i == n - 1 { assert Body(s, pieces, n, n) == []; } else { assert |Segment(s, pieces, i)| == UNIT; }
  }

  lemma {:induction false} OpensUpTo(s: Secret, pieces: seq<seq<byte>>, k: nat)
    requires Shaped(pieces) && k <= |pieces| && (|pieces| - 1) * UNIT <= |Body(s, pieces, 0, |pieces|)|
    ensures OpenedUpTo(s, Body(s, pieces, 0, |pieces|), |pieces|, k) == Some(Flat(pieces, 0, k))
    decreases k
  {
    if k > 0 {
      OpensUpTo(s, pieces, k - 1);
      CutIsSegment(s, pieces, k - 1);
      SegmentOpens(s, pieces, k - 1);
    }
  }

  /** Opening what was sealed gives the plaintext back, for every length. */
  lemma SealOpenRoundTrip(s: Secret, p: seq<byte>)
    ensures OpenedObject(s, Sealed(s, p)) == Some(p)
  {
    var c, pieces := Sealed(s, p), Pieces(p);
    PiecesShaped(p);
    assert c[HEADER_LEN..] == Body(s, pieces, 0, |pieces|);
    assert c[4..HEADER_LEN] == Header()[4..];
    CountRecovered(s, pieces);
    OpensUpTo(s, pieces, |pieces|);
    AllPieces(p);
  }

  // ----- opening a range -----

  function Prepend(a: seq<byte>, b: Option<seq<byte>>): Option<seq<byte>> {
    if b.Some? then Some(a + b.value) else None
  }

  lemma PrependNothing(b: Option<seq<byte>>)
    ensures Prepend([], b) == b
  {
    if b.Some? { assert [] + b.value == b.value; }
  }

  lemma PrependAssoc(a: seq<byte>, b: seq<byte>, c: Option<seq<byte>>)
    ensures Prepend(a, Prepend(b, c)) == Prepend(a + b, c)
  {
    if c.Some? { Append(a, b, c.value); }
  }

  /** The segments from `cursor` on, opened one by one until `fetched` is used up. */
  function OpenedFrom(s: Secret, len: nat, n: nat, fetched: seq<Cell>, cursor: nat, index: nat): Option<seq<byte>>
    requires cursor <= |fetched|
    decreases |fetched| - cursor
  {
    if cursor == |fetched| then Some([]) else
      var size := SegmentLen(len, index);
      if cursor + size > |fetched| then None
      else
        var here := Opened(s, fetched[cursor..cursor + size], index, index + 1 == n);
        if here.None? then None else Prepend(here.value, OpenedFrom(s, len, n, fetched, cursor + size, index + 1))
  }

  function OpenedRange(s: Secret, range: ChunkRange, fetched: seq<Cell>, first: nat): Option<seq<byte>>
    requires first * SEGMENT_SIZE <= range.from <= range.to
  {
    var plain := OpenedFrom(s, range.len, SegmentCount(range.len), fetched, 0, first);
    var skip, want := range.from - first * SEGMENT_SIZE, range.to - range.from;
    if plain.None? || skip + want > |plain.value| then None else Some(plain.value[skip..skip + want])
  }

  /** Open the segment at the cursor. */
  method OpenNext(s: Secret, len: nat, n: nat, fetched: seq<Cell>, cursor: nat,
                  index: nat) returns (here: Option<seq<byte>>, after: nat)
    requires cursor < |fetched|
    ensures here.None? ==> OpenedFrom(s, len, n, fetched, cursor, index) == None
    ensures here.Some? ==> cursor < after <= |fetched|
    ensures here.Some? ==>
              OpenedFrom(s, len, n, fetched, cursor, index) == Prepend(here.value, OpenedFrom(s, len, n, fetched, after, index + 1))
  {
    after := cursor + SegmentLen(len, index);
    if after > |fetched| { return None, after; }
    here := Opened(s, fetched[cursor..after], index, index + 1 == n);
  }

  /** One more segment on what is open so far. */
  method OpenMore(s: Secret, len: nat, n: nat, fetched: seq<Cell>, cursor: nat, index: nat, plain: seq<byte>, ghost all: Option<seq<byte>>)
    returns (longer: Option<seq<byte>>, after: nat)
    requires cursor < |fetched| && all == Prepend(plain, OpenedFrom(s, len, n, fetched, cursor, index))
    ensures longer.None? ==> all == None
    ensures longer.Some? ==> cursor < after <= |fetched| && all == Prepend(longer.value, OpenedFrom(s, len, n, fetched, after, index + 1))
  {
    var here;
    here, after := OpenNext(s, len, n, fetched, cursor, index);
    if here.None? { return None, after; }
    PrependAssoc(plain, here.value, OpenedFrom(s, len, n, fetched, after, index + 1));
    longer := Some(plain + here.value);
  }

  lemma OpenedAtEnd(s: Secret, len: nat, n: nat, fetched: seq<Cell>, index: nat, plain: seq<byte>)
    ensures Prepend(plain, OpenedFrom(s, len, n, fetched, |fetched|, index)) == Some(plain)
  {
    assert plain + [] == plain;
  }

  /** The loop of `open_range`. */
  method OpenFetched(s: Secret, len: nat, n: nat, fetched: seq<Cell>, first: nat) returns (r: Option<seq<byte>>)
    ensures r == OpenedFrom(s, len, n, fetched, 0, first)
  {
    ghost var all := OpenedFrom(s, len, n, fetched, 0, first);
    var plaintext: seq<byte>, cursor, index := [], 0, first;
    PrependNothing(all);
    while cursor < |fetched|
      invariant cursor <= |fetched| && all == Prepend(plaintext, OpenedFrom(s, len, n, fetched, cursor, index))
      decreases |fetched| - cursor
    {
      var longer, after := OpenMore(s, len, n, fetched, cursor, index, plaintext, all);
      if longer.None? { return None; }
      plaintext, cursor, index := longer.value, after, index + 1;
    }
    OpenedAtEnd(s, len, n, fetched, index, plaintext);
    r := Some(plaintext);
  }

  method OpenRange(s: Secret, range: ChunkRange, fetched: seq<Cell>, first: nat) returns (r: Option<seq<byte>>)
    requires first * SEGMENT_SIZE <= range.from <= range.to
    ensures r == OpenedRange(s, range, fetched, first)
  {
    var plain := OpenFetched(s, range.len, SegmentCount(range.len), fetched, first);
    if plain.None? { return None; }
    var skip := range.from - first * SEGMENT_SIZE;
    var want := range.to - range.from;
    if skip + want > |plain.value| { return None; }
    r := Some(plain.value[skip..skip + want]);
  }

  // ----- a range read is a slice -----

  lemma SpanIsLength(s: Secret, p: seq<byte>, i: nat)
    requires i < SegmentCount(|p|)
    ensures SegmentLen(|p|, i) == |Segment(s, Pieces(p), i)|
  {
    PieceAt(p, i);
  }

  lemma {:induction false} FlatFront(pieces: seq<seq<byte>>, a: nat, b: nat)
    requires a < b <= |pieces|
    ensures Flat(pieces, a, b) == pieces[a] + Flat(pieces, a + 1, b)
    decreases b
  {
    if a + 1 < b {
      FlatFront(pieces, a, b - 1);
      Append(pieces[a], Flat(pieces, a + 1, b - 1), pieces[b - 1]);
    }
  }

  /** The layout computed from the length is the one the pieces have. */
  ghost predicate Matches(len: nat, pieces: seq<seq<byte>>) {
    forall i :: 0 <= i < |pieces| ==> SegmentLen(len, i) == |pieces[i]| + TAG_LEN
  }

  /** One more segment in front of cells that open. */
  lemma FetchStep(s: Secret, len: nat, n: nat, fetched: seq<Cell>, cursor: nat, index: nat, after: nat, plain: seq<byte>,
                  rest: seq<byte>)
    requires cursor < after <= |fetched| && after - cursor == SegmentLen(len, index)
    requires Opened(s, fetched[cursor..after], index, index + 1 == n) == Some(plain)
    requires OpenedFrom(s, len, n, fetched, after, index + 1) == Some(rest)
    ensures OpenedFrom(s, len, n, fetched, cursor, index) == Some(plain + rest)
  {
  }

  lemma SegmentStands(s: Secret, pieces: seq<seq<byte>>, a: nat, i: nat, b: nat, at: nat)
    requires a <= i < b <= |pieces| && at == |Body(s, pieces, a, i)|
    ensures var after := at + |Segment(s, pieces, i)|;
            after <= |Body(s, pieces, a, b)| && Body(s, pieces, a, b)[at..after] == Segment(s, pieces, i)
  {
    BodyAround(s, pieces, a, i, b);
    Middle(Body(s, pieces, a, i), Segment(s, pieces, i), Body(s, pieces, i + 1, b));
  }

  lemma {:induction false} OpensFrom(s: Secret, len: nat, pieces: seq<seq<byte>>, a: nat, i: nat, b: nat, at: nat)
    requires a <= i <= b <= |pieces| && Matches(len, pieces) && at == |Body(s, pieces, a, i)|
    ensures at <= |Body(s, pieces, a, b)|
    ensures OpenedFrom(s, len, |pieces|, Body(s, pieces, a, b), at, i) == Some(Flat(pieces, i, b))
    decreases b - i
  {
    if i < b {
      var after := at + |Segment(s, pieces, i)|;
      OpensFrom(s, len, pieces, a, i + 1, b, after);
      SegmentStands(s, pieces, a, i, b, at);
      SegmentOpens(s, pieces, i);
      FetchStep(s, len, |pieces|, Body(s, pieces, a, b), at, i, after, pieces[i], Flat(pieces, i + 1, b));
      FlatFront(pieces, i, b);
    }
  }

  lemma ThreeParts<T>(h: seq<T>, x: seq<T>, y: seq<T>, z: seq<T>)
    ensures (h + ((x + y) + z))[|h| + |x|..|h| + |x + y|] == y
  {
    Append(x, y, z);
    Append(h, x, y + z);
    Middle(h + x, y, z);
  }

  /** The fetched bytes are exactly the segments the range touches. */
  lemma FetchedBody(s: Secret, p: seq<byte>, a: nat, b: nat)
    requires a <= b <= SegmentCount(|p|)
    ensures var start, end := HEADER_LEN + |Body(s, Pieces(p), 0, a)|, HEADER_LEN + |Body(s, Pieces(p), 0, b)|;
            start <= end <= |Sealed(s, p)| && Sealed(s, p)[start..end] == Body(s, Pieces(p), a, b)
  {
    var pieces := Pieces(p);
    BodySplit(s, pieces, 0, a, b);
    BodySplit(s, pieces, 0, b, |pieces|);
    ThreeParts(Header(), Body(s, pieces, 0, a), Body(s, pieces, a, b), Body(s, pieces, b, |pieces|));
  }

  /** Where the fetch starts and ends, in terms of whole segments. */
  lemma FetchBounds(s: Secret, p: seq<byte>, r: ChunkRange)
    requires r.len == |p| && r.from <= r.to <= |p|
    ensures First(r) <= Last(r) + 1 <= SegmentCount(|p|)
    ensures ToFetch(r).0 == HEADER_LEN + |Body(s, Pieces(p), 0, First(r))|
    ensures ToFetch(r).1 == HEADER_LEN + |Body(s, Pieces(p), 0, Last(r) + 1)|
  {
    FetchIsTight(r);
    PiecesShaped(p);
    PrefixLength(s, Pieces(p), 0, First(r));
    PrefixLength(s, Pieces(p), 0, Last(r));
    SpanIsLength(s, p, Last(r));
  }

  lemma SliceOfSlice<T>(p: seq<T>, lo: nat, hi: nat, from: nat, to: nat, skip: nat, want: nat)
    requires lo <= from <= to <= hi <= |p| && skip == from - lo && want == to - from
    ensures skip + want <= |p[lo..hi]| && p[lo..hi][skip..skip + want] == p[from..to]
  {
    var x, y := p[lo..hi][skip..skip + want], p[from..to];
    assert |x| == |y| && forall i :: 0 <= i < want ==> x[i] == y[i];
  }

  lemma PiecesMatch(s: Secret, p: seq<byte>)
    ensures Matches(|p|, Pieces(p))
  {
    forall i | 0 <= i < |Pieces(p)| ensures SegmentLen(|p|, i) == |Pieces(p)[i]| + TAG_LEN { SpanIsLength(s, p, i); }
  }

  lemma FetchOpens(s: Secret, p: seq<byte>, a: nat, b: nat)
    requires a <= b <= SegmentCount(|p|)
    ensures var pieces := Pieces(p);
            && Bound(p, a) <= Bound(p, b)
            && OpenedFrom(s, |p|, |pieces|, Body(s, pieces, a, b), 0, a) == Some(p[Bound(p, a)..Bound(p, b)])
  {
    PiecesMatch(s, p);
    OpensFrom(s, |p|, Pieces(p), a, a, b, 0);
    FlatPieces(p, a, b);
  }

  lemma CutRange(s: Secret, r: ChunkRange, fetched: seq<Cell>, a: nat, plain: seq<byte>, skip: nat, want: nat)
    requires a * SEGMENT_SIZE <= r.from <= r.to && skip == r.from - a * SEGMENT_SIZE && want == r.to - r.from && skip + want <= |plain|
    requires OpenedFrom(s, r.len, SegmentCount(r.len), fetched, 0, a) == Some(plain)
    ensures OpenedRange(s, r, fetched, a) == Some(plain[skip..skip + want])
  {
  }

  /** Segments `a..b` contain every range between their bounds. */
  lemma CoveredRange(s: Secret, r: ChunkRange, p: seq<byte>, a: nat, b: nat)
    requires r.len == |p| && r.from <= r.to <= |p| && a <= b <= SegmentCount(|p|)
    requires a * SEGMENT_SIZE <= r.from && r.to <= b * SEGMENT_SIZE
    ensures OpenedRange(s, r, Body(s, Pieces(p), a, b), a) == Some(p[r.from..r.to])
  {
    var lo, hi, skip, want := Bound(p, a), Bound(p, b), r.from - a * SEGMENT_SIZE, r.to - r.from;
    FetchOpens(s, p, a, b);
    SliceOfSlice(p, lo, hi, r.from, r.to, skip, want);
    CutRange(s, r, Body(s, Pieces(p), a, b), a, p[lo..hi], skip, want);
  }

  /** The bytes chosen for a range are whole segments of the object. */
  lemma FetchedIs(s: Secret, r: ChunkRange, p: seq<byte>)
    requires r.len == |p| && r.from <= r.to <= |p|
    ensures First(r) <= Last(r) + 1 <= SegmentCount(|p|) && ToFetch(r).0 <= ToFetch(r).1 <= |Sealed(s, p)| && ToFetch(r).2 == First(r)
    ensures Sealed(s, p)[ToFetch(r).0..ToFetch(r).1] == Body(s, Pieces(p), First(r), Last(r) + 1)
  {
    FetchBounds(s, p, r);
    FetchedBody(s, p, First(r), Last(r) + 1);
  }

  /** Opening the bytes chosen for a range gives exactly that slice of the plaintext. */
  lemma RangeReadIsSlice(s: Secret, r: ChunkRange, p: seq<byte>)
    requires r.len == |p| && r.from <= r.to <= |p|
    ensures var c, (start, end, first) := Sealed(s, p), ToFetch(r);
            && start <= end <= |c| && first * SEGMENT_SIZE <= r.from
            && OpenedRange(s, r, c[start..end], first) == Some(p[r.from..r.to])
  {
    FetchIsTight(r);
    FetchedIs(s, r, p);
    CoveredRange(s, r, p, First(r), Last(r) + 1);
  }

  /** Fetch the object bytes a range needs, as far as the object has them, and open them. */
  method FetchRange(s: Secret, sealed: seq<Cell>, range: ChunkRange, ghost p: seq<byte>) returns (r: Option<seq<byte>>)
    requires s.obj == range.obj && range.from <= range.to <= range.len
    ensures sealed == Sealed(s, p) && range.len == |p| ==> r == Some(p[range.from..range.to])
  {
    FetchIsTight(range);
    var (start, end, first) := ToFetch(range);
    var at := Min(start, |sealed|);
    var fetched := sealed[at..Max(at, Min(end, |sealed|))];
    r := OpenRange(s, range, fetched, first);
    if sealed == Sealed(s, p) && range.len == |p| { RangeReadIsSlice(s, range, p); }
  }

  // ----- tampering -----

  /** Any arrangement of an object's own segments: dropped, repeated or reordered. */
  function Arranged(s: Secret, pieces: seq<seq<byte>>, order: seq<nat>, k: nat): seq<Cell>
    requires k <= |order| && forall i :: 0 <= i < |order| ==> order[i] < |pieces|
  {
    if k == 0 then [] else Arranged(s, pieces, order, k - 1) + Segment(s, pieces, order[k - 1])
  }

  function NonceAt(s: Secret, n: nat, i: nat): Nonce {
    NonceFor(s.keyId, s.obj, i, i + 1 == n)
  }

  /** The nonces of an object with `n` segments are pairwise distinct exactly up to 2^32 + 1 segments. */
  lemma NoncesDistinct(s: Secret, n: nat)
    ensures (forall i, j :: 0 <= i < j < n ==> NonceAt(s, n, i) != NonceAt(s, n, j)) <==> n <= U32 + 1
  {
    if n > U32 + 1 {
      assert Wrap32(U32) == Wrap32(0);
      assert NonceAt(s, n, 0) == NonceAt(s, n, U32);
    }
  }

  /** A nonce tells object, key id and flag apart, and the index up to 2^32. */
  lemma NonceExact(k: KeyId, obj: ObjectId, i: nat, last: bool, k': KeyId, obj': ObjectId, i': nat, last': bool)
    ensures NonceFor(k, obj, i, last) == NonceFor(k', obj', i', last') <==>
            k == k' && obj == obj' && last == last' && i % 0x1_0000_0000 == i' % 0x1_0000_0000
  {
  }

  /** So no two segments of any two objects share a nonce, unless one of the objects has more than 2^32 segments. */
  lemma NoNonceReused(s: Secret, n: nat, i: nat, t: Secret, m: nat, j: nat)
    requires i < n <= U32 && j < m <= U32 && NonceAt(s, n, i) == NonceAt(t, m, j)
    ensures s.obj == t.obj && s.keyId == t.keyId && i == j
  {
    NonceExact(s.keyId, s.obj, i, i + 1 == n, t.keyId, t.obj, j, j + 1 == m);
    SmallWraps(i);
    SmallWraps(j);
  }

  // ----- cells of other objects -----

  /** The cell was sealed under this key, for this object and key id. */
  predicate Mine(s: Secret, c: Cell) {
    c.Cipher? && c.key == s.key && c.nonce.obj == s.obj && c.nonce.keyId == s.keyId && c.aad == Aad(s.obj, s.keyId)
  }

  predicate AllMine(s: Secret, c: seq<Cell>) {
    forall i :: 0 <= i < |c| ==> Mine(s, c[i])
  }

  lemma OpenedIsMine(s: Secret, c: seq<Cell>, index: nat, last: bool)
    requires Opened(s, c, index, last).Some?
    ensures AllMine(s, c)
  {
  }

  lemma SegmentIsMine(s: Secret, pieces: seq<seq<byte>>, i: nat)
    requires i < |pieces|
    ensures AllMine(s, Segment(s, pieces, i)) && Segment(s, pieces, i) != []
  {
  }

  lemma BothMine(s: Secret, a: seq<Cell>, b: seq<Cell>)
    requires AllMine(s, a) && AllMine(s, b)
    ensures AllMine(s, a + b)
  {
  }

  /** Every cell of the first `k` segments, of a body that opens. */
  lemma {:induction false} UpToIsMine(s: Secret, body: seq<Cell>, n: nat, k: nat)
    requires k <= n && (n - 1) * UNIT <= |body| && OpenedUpTo(s, body, n, k).Some?
    ensures AllMine(s, body[..Min(k * UNIT, |body|)])
    decreases k
  {
    if k > 0 {
      UpToIsMine(s, body, n, k - 1);
      CutInside(k - 1, n, |body|);
      OpenedIsMine(s, Cut(body, k - 1), k - 1, k == n);
      BothMine(s, body[..(k - 1) * UNIT], Cut(body, k - 1));
      assert body[..Min(k * UNIT, |body|)] == body[..(k - 1) * UNIT] + Cut(body, k - 1);
    }
  }

  /** An object that opens has no cell of another object, another key or another key id. */
  lemma OnlyOwnCellsOpen(s: Secret, c: seq<Cell>)
    requires OpenedObject(s, c).Some?
    ensures forall i :: HEADER_LEN <= i < |c| ==> Mine(s, c[i])
  {
    var body := c[HEADER_LEN..];
    UpToIsMine(s, body, Segments(body), Segments(body));
    assert body[..|body|] == body;
    assert forall i :: HEADER_LEN <= i < |c| ==> c[i] == body[i - HEADER_LEN];
  }

  /** Neither has a range that opens. */
  lemma {:induction false} OnlyOwnCellsInRange(s: Secret, len: nat, n: nat, fetched: seq<Cell>, cursor: nat, index: nat)
    requires cursor <= |fetched| && OpenedFrom(s, len, n, fetched, cursor, index).Some?
    ensures forall i :: cursor <= i < |fetched| ==> Mine(s, fetched[i])
    decreases |fetched| - cursor
  {
    if cursor < |fetched| {
      var after := cursor + SegmentLen(len, index);
      OpenedIsMine(s, fetched[cursor..after], index, index + 1 == n);
      OnlyOwnCellsInRange(s, len, n, fetched, after, index + 1);
      assert forall i :: cursor <= i < after ==> fetched[i] == fetched[cursor..after][i - cursor];
    }
  }

  /** A segment sealed by `t` stands somewhere in the cells. */
  predicate Holds(c: seq<Cell>, t: Secret, pieces: seq<seq<byte>>, i: nat, at: nat)
    requires i < |pieces|
  {
    at + |Segment(t, pieces, i)| <= |c| && c[at..at + |Segment(t, pieces, i)|] == Segment(t, pieces, i)
  }

  lemma ForeignCell(s: Secret, t: Secret, c: seq<Cell>, pieces: seq<seq<byte>>, i: nat, at: nat)
    requires i < |pieces| && Holds(c, t, pieces, i, at) && s != t
    ensures at < |c| && !Mine(s, c[at])
  {
    SegmentIsMine(t, pieces, i);
    assert c[at] == Segment(t, pieces, i)[0];
  }

  /** So a segment sealed for another object, under another key or another key id, wherever it stands, keeps an object
      from opening. */
  lemma ForeignNeverOpens(s: Secret, t: Secret, c: seq<Cell>, pieces: seq<seq<byte>>, i: nat, at: nat)
    requires i < |pieces| && Holds(c, t, pieces, i, at) && s != t && at >= HEADER_LEN
    ensures OpenedObject(s, c).None?
  {
    ForeignCell(s, t, c, pieces, i, at);
    if OpenedObject(s, c).Some? { OnlyOwnCellsOpen(s, c); }
  }

  /** And a range from being read. */
  lemma ForeignNeverRead(s: Secret, t: Secret, range: ChunkRange, fetched: seq<Cell>, first: nat, pieces: seq<seq<byte>>, i: nat, at: nat)
    requires i < |pieces| && Holds(fetched, t, pieces, i, at) && s != t && first * SEGMENT_SIZE <= range.from <= range.to
    ensures OpenedRange(s, range, fetched, first).None?
  {
    ForeignCell(s, t, fetched, pieces, i, at);
    if OpenedFrom(s, range.len, SegmentCount(range.len), fetched, 0, first).Some? {
      OnlyOwnCellsInRange(s, range.len, SegmentCount(range.len), fetched, 0, first);
    }
  }

  // ----- segments in another order -----

  /** Each parsed segment of an object that opens is a genuine encryption at its own position. */
  lemma {:induction false} OpenedAt(s: Secret, body: seq<Cell>, n: nat, k: nat, t: nat)
    requires t < k <= n && (n - 1) * UNIT <= |body| && OpenedUpTo(s, body, n, k).Some?
    ensures t * UNIT <= |body| && Opened(s, Cut(body, t), t, t + 1 == n).Some?
    decreases k
  {
    CutInside(t, n, |body|);
    if t < k - 1 { OpenedAt(s, body, n, k - 1, t); }
  }

  lemma {:induction false} ArrangedPrefix(s: Secret, pieces: seq<seq<byte>>, order: seq<nat>, j: nat, k: nat)
    requires j < k <= |order| && forall i :: 0 <= i < |order| ==> order[i] < |pieces|
    ensures var a, seg := Arranged(s, pieces, order, j), Segment(s, pieces, order[j]);
            |a| + |seg| <= |Arranged(s, pieces, order, k)| && Arranged(s, pieces, order, k)[|a|..|a| + |seg|] == seg
    decreases k
  {
    if j < k - 1 { ArrangedPrefix(s, pieces, order, j, k - 1); }
  }

  lemma {:induction false} ArrangedWhole(s: Secret, pieces: seq<seq<byte>>, order: seq<nat>, t: nat)
    requires Shaped(pieces) && t <= |order| && forall i :: 0 <= i < |order| ==> order[i] < |pieces|
    requires forall i :: 0 <= i < t ==> order[i] == i
    requires t <= |pieces| - 1
    ensures |Arranged(s, pieces, order, t)| == t * UNIT
  {
    if t > 0 { ArrangedWhole(s, pieces, order, t - 1); }
  }

  /** What opens at a position is what was sealed there. */
  lemma SamePlace(s: Secret, pieces: seq<seq<byte>>, i: nat, c: seq<Cell>, t: nat, last: bool)
    requires i < |pieces| && Opened(s, c, t, last).Some? && c[0] == Segment(s, pieces, i)[0]
    ensures Wrap32(i) == Wrap32(t) && (i + 1 == |pieces|) == last && |c| == |Segment(s, pieces, i)|
  {
    var msg := Opened(s, c, t, last).value;
    var n, aad := NonceFor(s.keyId, s.obj, t, last), Aad(s.obj, s.keyId);
    assert c == Encrypt(s.key, n, aad, msg);
    assert c[0] == Cipher(s.key, n, aad, msg, 0);
    assert Segment(s, pieces, i)[0] == Cipher(s.key, NonceFor(s.keyId, s.obj, i, i + 1 == |pieces|), aad, pieces[i], 0);
  }

  ghost predicate Chosen(pieces: seq<seq<byte>>, order: seq<nat>) {
    forall i :: 0 <= i < |order| ==> order[i] < |pieces|
  }

  /** The cut at an aligned position starts with the segment placed there. */
  lemma CutStarts(body: seq<Cell>, seg: seq<Cell>, t: nat, at: nat)
    requires at == t * UNIT && seg != [] && at + |seg| <= |body| && body[at..at + |seg|] == seg
    ensures Cut(body, t) != [] && Cut(body, t)[0] == seg[0]
  {
    assert body[at] == seg[0];
  }

  /** A cut that is as long as its segment and is the last one ends the body. */
  lemma CutEnds(body: seq<Cell>, size: nat, t: nat, n: nat)
    requires t + 1 == n && t * UNIT <= |body| <= n * UNIT && |Cut(body, t)| == size
    ensures |body| == t * UNIT + size
  {
  }

  /** An aligned segment that opens has the counter, the flag and the length of the one sealed there. */
  lemma PlaceOpened(s: Secret, pieces: seq<seq<byte>>, order: seq<nat>, body: seq<Cell>, n: nat, t: nat)
    requires t < |order| && Chosen(pieces, order) && body == Arranged(s, pieces, order, |order|)
    requires |Arranged(s, pieces, order, t)| == t * UNIT <= |body| && Opened(s, Cut(body, t), t, t + 1 == n).Some?
    ensures |Cut(body, t)| == |Segment(s, pieces, order[t])|
    ensures Wrap32(order[t]) == Wrap32(t) && (order[t] + 1 == |pieces| <==> t + 1 == n)
  {
    ArrangedPrefix(s, pieces, order, t, |order|);
    CutStarts(body, Segment(s, pieces, order[t]), t, |Arranged(s, pieces, order, t)|);
    SamePlace(s, pieces, order[t], Cut(body, t), t, t + 1 == n);
  }

  lemma StrictlyInside(len: nat, t: nat, n: nat)
    requires t * UNIT < len <= n * UNIT
    ensures t < n
  {
  }

  /** The first `t` segments are in place, and none of them is the last one. */
  ghost predicate Straight(pieces: seq<seq<byte>>, order: seq<nat>, t: nat) {
    InPlace(order, t) && t <= Max(0, |pieces| - 1)
  }

  ghost predicate InPlace(order: seq<nat>, t: nat) {
    t <= |order| && forall i :: 0 <= i < t ==> order[i] == i
  }

  lemma Aligned(s: Secret, pieces: seq<seq<byte>>, order: seq<nat>, body: seq<Cell>, n: nat, t: nat)
    requires Shaped(pieces) && t < |order| && Chosen(pieces, order) && Straight(pieces, order, t)
    requires body == Arranged(s, pieces, order, |order|) && |body| <= n * UNIT
    ensures |Arranged(s, pieces, order, t)| == t * UNIT < |body| && t < n
  {
    ArrangedWhole(s, pieces, order, t);
    ArrangedPrefix(s, pieces, order, t, |order|);
    StrictlyInside(|body|, t, n);
  }

  /** The segment at an aligned position that opens is the one that belongs there. */
  lemma PlaceForced(s: Secret, pieces: seq<seq<byte>>, order: seq<nat>, body: seq<Cell>, n: nat, t: nat)
    requires Shaped(pieces) && |pieces| <= U32 && t < |order| && Chosen(pieces, order) && Straight(pieces, order, t)
    requires body == Arranged(s, pieces, order, |order|) && t < n && |body| <= n * UNIT
    requires |Arranged(s, pieces, order, t)| == t * UNIT <= |body| && Opened(s, Cut(body, t), t, t + 1 == n).Some?
    ensures order[t] == t && (t + 1 == |pieces| <==> t + 1 == n) && (t + 1 == n ==> |order| == n)
  {
    PlaceOpened(s, pieces, order, body, n, t);
    SmallWraps(order[t]);
    SmallWraps(t);
    if t + 1 == n { NothingAfterLast(s, pieces, order, body, n, t); }
  }

  lemma NothingAfterLast(s: Secret, pieces: seq<seq<byte>>, order: seq<nat>, body: seq<Cell>, n: nat, t: nat)
    requires t < |order| && Chosen(pieces, order) && body == Arranged(s, pieces, order, |order|) && t + 1 == n
    requires t * UNIT <= |body| <= n * UNIT && |Arranged(s, pieces, order, t)| == t * UNIT
    requires |Cut(body, t)| == |Segment(s, pieces, order[t])|
    ensures |order| == n
  {
    CutEnds(body, |Segment(s, pieces, order[t])|, t, n);
    if t + 1 < |order| { ArrangedPrefix(s, pieces, order, t + 1, |order|); }
  }

  lemma {:induction false} ForcedUpTo(s: Secret, pieces: seq<seq<byte>>, order: seq<nat>, body: seq<Cell>, n: nat,
                                      t: nat)
    requires Shaped(pieces) && |pieces| <= U32 && 1 <= t <= |order| && Chosen(pieces, order)
    requires body == Arranged(s, pieces, order, |order|)
    requires (n - 1) * UNIT <= |body| <= n * UNIT && OpenedUpTo(s, body, n, n).Some?
    ensures Straight(pieces, order, t - 1) && order[t - 1] == t - 1
    ensures InPlace(order, t)
    ensures t <= n && (t == |pieces| <==> t == n) && (t == n ==> |order| == n)
    decreases t
  {
    if t > 1 { ForcedUpTo(s, pieces, order, body, n, t - 1); }
    assert Straight(pieces, order, t - 1);
    Aligned(s, pieces, order, body, n, t - 1);
    OpenedAt(s, body, n, n, t - 1);
    PlaceForced(s, pieces, order, body, n, t - 1);
  }

  lemma {:induction false} ArrangedAtMost(s: Secret, pieces: seq<seq<byte>>, order: seq<nat>, k: nat)
    requires Shaped(pieces) && Chosen(pieces, order) && k <= |order|
    ensures |Arranged(s, pieces, order, k)| <= k * UNIT
  {
    if k > 0 {
      ArrangedAtMost(s, pieces, order, k - 1);
      assert order[k - 1] < |pieces| - 1 || order[k - 1] == |pieces| - 1;
    }
  }

  lemma {:induction false} InOrder(s: Secret, pieces: seq<seq<byte>>, order: seq<nat>, k: nat)
    requires k <= |order| <= |pieces| && Chosen(pieces, order) && forall i :: 0 <= i < |order| ==> order[i] == i
    ensures Arranged(s, pieces, order, k) == Body(s, pieces, 0, k)
  {
    if k > 0 { InOrder(s, pieces, order, k - 1); }
  }

  /** An object put together from segments of a sealed chunk opens only if it is that chunk: no
      segment can be dropped, repeated or moved. */
  lemma TamperedNeverOpens(s: Secret, p: seq<byte>, order: seq<nat>)
    requires SegmentCount(|p|) <= U32 && Chosen(Pieces(p), order)
    requires OpenedObject(s, Header() + Arranged(s, Pieces(p), order, |order|)).Some?
    ensures Header() + Arranged(s, Pieces(p), order, |order|) == Sealed(s, p)
    ensures |order| == SegmentCount(|p|) && forall i :: 0 <= i < |order| ==> order[i] == i
  {
    PiecesShaped(p);
    var body := Arranged(s, Pieces(p), order, |order|);
    assert (Header() + body)[HEADER_LEN..] == body;
    OrderForced(s, Pieces(p), order, body, Segments(body));
    InOrder(s, Pieces(p), order, |order|);
  }

  lemma NoFewer(len: nat, n: nat, k: nat)
    requires k >= 1 && (n > 1 ==> (n - 1) * UNIT < len) && len <= k * UNIT
    ensures n <= k
  {
  }

  lemma OrderForced(s: Secret, pieces: seq<seq<byte>>, order: seq<nat>, body: seq<Cell>, n: nat)
    requires Shaped(pieces) && |pieces| <= U32 && Chosen(pieces, order) && body == Arranged(s, pieces, order, |order|)
    requires n >= 1 && (n - 1) * UNIT <= |body| <= n * UNIT && (n > 1 ==> (n - 1) * UNIT < |body|)
    requires OpenedUpTo(s, body, n, n).Some?
    ensures |order| == |pieces| && InPlace(order, |order|)
  {
    if order == [] { EmptyNeverOpens(s, n); }
    ArrangedAtMost(s, pieces, order, |order|);
    NoFewer(|body|, n, |order|);
    ForcedUpTo(s, pieces, order, body, n, |order|);
  }

  lemma EmptyNeverOpens(s: Secret, n: nat)
    requires n >= 1 && (n - 1) * UNIT <= 0
    ensures OpenedUpTo(s, [], n, n) == None
  {
    assert n == 1;
    assert Cut([], 0) == [];
  }
}
