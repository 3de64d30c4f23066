/** What a file reads as, and the single steps a write takes on its way through the repository. */
module Files {
  import opened Bytes
  import opened Records

  // ----- what a node can reach -----

  /** A manifest row with the bytes its object holds, if the store still has that object. */
  datatype Part = Part(row: Row, data: Option<seq<byte>>)

  type Parts = map<int, Part>

  datatype VersionView = VersionView(rec: Version, parts: Parts)

  /** Everything the contents of one file depend on. */
  datatype NodeView = NodeView(node: Node, current: Option<VersionView>, staged: map<VersionId, VersionView>)

  function PartOf(objects: map<ObjectId, seq<byte>>, row: Row): Part {
    Part(row, if row.obj in objects then Some(objects[row.obj]) else None)
  }

  function PartsOf(objects: map<ObjectId, seq<byte>>, rows: Manifest): Parts {
    map k | k in rows :: PartOf(objects, rows[k])
  }

  function ViewOf(s: State, v: VersionId): VersionView
    requires v in s.versions
  {
    VersionView(s.versions[v], PartsOf(s.objects, RowsOf(s, v)))
  }

  function CurrentView(s: State, n: NodeId): Option<VersionView>
    requires n in s.nodes
  {
    var current := s.nodes[n].current;
    if current.Some? && current.value in s.versions then Some(ViewOf(s, current.value)) else None
  }

  function View(s: State, n: NodeId): NodeView
    requires n in s.nodes
  {
    NodeView(s.nodes[n], CurrentView(s, n), map v | v in s.versions && IsStagingOf(s, n, v) :: ViewOf(s, v))
  }

  // ----- bytes -----

  /** One byte of a version: absent parts and short parts read as zeroes. */
  function ByteAt(parts: Parts, cs: int, i: nat): byte
    requires cs > 0
  {
    if i / cs in parts && parts[i / cs].data.Some? then At(parts[i / cs].data.value, i % cs) else 0
  }

  function BytesOf(parts: Parts, cs: int, from: nat, len: nat): (r: seq<byte>)
    requires cs > 0
    ensures |r| == len && forall i :: 0 <= i < len ==> r[i] == ByteAt(parts, cs, from + i)
  {
    seq<byte>(len, i requires 0 <= i => ByteAt(parts, cs, from + i))
  }

  predicate PartOk(p: Part, k: int, cs: int, bound: int) {
    && 0 <= k && p.row.index == k && p.row.offset == k * cs
    && p.data.Some? && p.row.size == |p.data.value| && p.row.hash == Digest(p.data.value)
    && |p.data.value| <= cs && k * cs + |p.data.value| <= bound
  }

  /** Row `i` of length `p` satisfies `i * cs + p <= bound`. */
  ghost predicate PartsOk(parts: Parts, cs: int, bound: int) {
    cs > 0 && forall k :: k in parts ==> PartOk(parts[k], k, cs, bound)
  }

  /** The parts spell out exactly the bytes of `f`. */
  ghost predicate Holds(parts: Parts, cs: int, f: seq<byte>) {
    PartsOk(parts, cs, |f|) && forall i :: 0 <= i < |f| ==> ByteAt(parts, cs, i) == f[i]
  }

  function ChunkSize(rec: Version): int {
    Max(rec.chunkSize, 1)
  }

  ghost predicate VersionHolds(v: VersionView, f: seq<byte>) {
    v.rec.size == |f| && Holds(v.parts, ChunkSize(v.rec), f)
  }

  /** A file nobody is writing: at most one open write, and the newest version reads as `f`. */
  ghost predicate Quiet(view: NodeView, f: seq<byte>) {
    && view.node.size == |f|
    && (forall v, w :: v in view.staged && w in view.staged ==> v == w)
    && (view.node.current.Some? <==> view.current.Some?)
    && (forall v :: v in view.staged ==> VersionHolds(view.staged[v], f))
    && (view.staged == map[] ==>
          if view.current.Some? then VersionHolds(view.current.value, f) else f == [])
  }

  // ----- a read -----

  ghost function OpenOf(s: State, n: NodeId): Option<VersionId> {
    if v :| IsOpen(s, n, v) then Some(v) else None
  }

  datatype IoError = NoSuchNode | IsDirectory | Unreadable

  /** The version a read is served from: the open write if there is one, else the committed version. */
  ghost function Served(s: State, n: NodeId): Option<VersionId>
    requires n in s.nodes
  {
    if OpenOf(s, n).Some? then OpenOf(s, n) else s.nodes[n].current
  }

  /** What a read at one moment returns; the flag is false for bytes of an open version, which must not be cached. */
  ghost function ReadBytes(s: State, n: NodeId, offset: Option<nat>, size: Option<nat>)
    : Result<(seq<byte>, bool), IoError>
  {
    if n !in s.nodes then Err(NoSuchNode)
    else if s.nodes[n].kind == Directory then Err(IsDirectory)
    else
      var from, end := if offset.Some? then offset.value else 0, Max(s.nodes[n].size, 0);
      var len := Min(if size.Some? then size.value else end - from, end - from);
      var served := Served(s, n);
      if from >= end || len == 0 || served.None? || served.value !in s.versions then Ok(([], true))
      else
        var parts, cs := ViewOf(s, served.value).parts, ChunkSize(s.versions[served.value]);
        Ok((BytesOf(parts, cs, from, len), OpenOf(s, n).None?))
  }

  // ----- a write, step by step -----

  const COMMIT_EVERY_BYTES: int := 1024 * 1024 * 1024

  datatype Phase =
    | Opening(base: Option<VersionId>)                                // no open write: stage one
    | Carrying(base: Option<VersionId>, work: VersionId)              // copy the rows of the base version
    | Scanning(work: VersionId)                                       // look up the rows to merge into
    | Merging(work: VersionId, todo: seq<int>, prior: Manifest)         // seal and store the next part
    | Attaching(work: VersionId, todo: seq<int>, prior: Manifest, row: Row)
    | Touching(work: VersionId)
    | Resizing
    | Closing

  datatype Writer = Writer(offset: nat, body: seq<byte>, oldSize: nat, phase: Phase)
  {
    function NewSize(): nat {
      Max(oldSize, offset + |body|)
    }
    predicate Covers(i: int) {
      offset <= i < offset + |body|
    }
    /** Whether the file grew past another automatic commit point. */
    predicate Crosses() {
      NewSize() / COMMIT_EVERY_BYTES > oldSize / COMMIT_EVERY_BYTES
    }
  }

  function OpenPhase(s: State, n: NodeId, open: Option<VersionId>): Phase
    requires n in s.nodes
  {
    if open.Some? then Scanning(open.value) else Opening(s.nodes[n].current)
  }

  /** A write as it stands once it holds the file lock. */
  ghost function StartWriter(s: State, n: NodeId, offset: nat, body: seq<byte>): Writer
    requires n in s.nodes
  {
    Writer(offset, body, Max(s.nodes[n].size, 0), OpenPhase(s, n, OpenOf(s, n)))
  }

  function Range(a: int, b: int): (r: seq<int>)
    ensures |r| == Max(0, b - a + 1) && forall i :: 0 <= i < |r| ==> r[i] == a + i
    ensures forall k :: k in r <==> a <= k <= b
  {
    var r := seq(Max(0, b - a + 1), i => a + i);
    assert forall k :: a <= k <= b ==> k in r by {
      forall k | a <= k <= b ensures k in r { assert r[k - a] == k; }
    }
    r
  }

  /** The last part of the old file if it was not whole and lies outside the write. */
  function RewriteLast(wr: Writer, cs: int): Option<int>
    requires cs > 0
  {
    var first, last := wr.offset / cs, (wr.offset + |wr.body| - 1) / cs;
    var tail := wr.oldSize / cs;
    if wr.oldSize > 0 && wr.oldSize % cs != 0 && tail < CeilDiv(wr.NewSize(), cs) && (tail < first || tail > last)
    then Some(tail) else None
  }

  /** The parts a write seals again, in index order. */
  function Touched(wr: Writer, cs: int): seq<int>
    requires cs > 0
  {
    var first, last := wr.offset / cs, (wr.offset + |wr.body| - 1) / cs;
    var reached := Range(first, Min(last, CeilDiv(wr.NewSize(), cs) - 1));
    match RewriteLast(wr, cs)
    case None => reached
    case Some(tail) => if tail < first then [tail] + reached else reached + [tail]
  }

  /** How long the part starting at `start` is once the write is done. */
  function PartLen(wr: Writer, start: int, cs: int): int {
    Min(cs, wr.NewSize() - start)
  }

  /** Whether the write replaces that part outright, so that nothing has to be fetched. */
  predicate Replaces(wr: Writer, start: int, cs: int) {
    wr.offset <= start && start + PartLen(wr, start, cs) <= wr.offset + |wr.body|
  }

  /** `plain[from..from + |patch|].copy_from_slice(patch)`. */
  function Splice(plain: seq<byte>, from: nat, patch: seq<byte>): (r: seq<byte>)
    requires from + |patch| <= |plain|
    ensures |r| == |plain|
    ensures forall j :: 0 <= j < |r| ==> r[j] == if from <= j < from + |patch| then patch[j - from] else plain[j]
  {
    plain[..from] + patch + plain[from + |patch|..]
  }

  /** The plaintext of a part: old bytes zero-extended, then the overlap copied in. */
  function Merged(wr: Writer, start: int, cs: int, existing: seq<byte>): (r: seq<byte>)
    requires cs > 0 && 0 <= start <= wr.NewSize()
    ensures |r| == PartLen(wr, start, cs)
    ensures forall j :: 0 <= j < |r| ==>
      r[j] == if wr.Covers(start + j) then wr.body[start + j - wr.offset] else At(existing, j)
  {
    var len := PartLen(wr, start, cs);
    var from, to := Max(wr.offset, start), Min(wr.offset + |wr.body|, start + len);
    var plain := Resize(if Replaces(wr, start, cs) then [] else existing, len);
    if from < to then Splice(plain, from - start, wr.body[from - wr.offset..to - wr.offset]) else plain
  }

  /** The bytes the write merges part `k` into. */
  function Existing(s: State, prior: Manifest, k: int): seq<byte>
  {
    if k in prior && prior[k].obj in s.objects then s.objects[prior[k].obj] else []
  }

  /** The rows of a version the write merges into. */
  function Prior(rows: Manifest, todo: seq<int>): Manifest {
    map k | k in rows && k in todo :: rows[k]
  }

  function StagedChunkSize(config: int, s: State, base: Option<VersionId>): int {
    if base.Some? && base.value in s.versions then ChunkSize(s.versions[base.value]) else config
  }

  /** Whether a part can be fetched, decrypted and matched with the hash its row records. */
  predicate Readable(s: State, row: Row) {
    row.obj in s.objects && row.hash == Digest(s.objects[row.obj])
  }

  /** Whether the write can take its next step; when it cannot, the request fails. */
  predicate CanStep(s: State, n: NodeId, wr: Writer) {
    match wr.phase
    case Opening(base) => n in s.nodes && (base.Some? ==> base.value in s.versions)
    case Carrying(base, work) => work in s.versions
    case Scanning(work) => work in s.versions && work in s.chunks
    case Merging(work, todo, prior) =>
      && work in s.versions
      && (todo != [] ==>
            var start := todo[0] * ChunkSize(s.versions[work]);
            && 0 <= start <= wr.NewSize()
            && (todo[0] in prior && !Replaces(wr, start, ChunkSize(s.versions[work])) ==> Readable(s, prior[todo[0]])))
    case Attaching(work, todo, _, _) => work in s.chunks && todo != []
    case Touching(_) => true
    case Resizing => n in s.nodes
    case Closing => n in s.nodes
  }

  function CommitOpenGuard(s: State, n: NodeId, v: VersionId): CommitGuard
    requires n in s.nodes
  {
    CommitGuard(n, v, s.nodes[n].generation, s.nodes[n].current)
  }

  /** Commit the open write, if there is one. */
  ghost function CommitOpen(s: State, n: NodeId): State
    requires n in s.nodes
  {
    if v :| IsOpen(s, n, v) then Commit(s, CommitOpenGuard(s, n, v), s.versions[v].size) else s
  }

  ghost function WriterStep(config: int, s: State, n: NodeId, wr: Writer): (State, Option<Writer>)
    requires CanStep(s, n, wr)
  {
    match wr.phase
    case Opening(base) =>
      (CreateStaging(s, n, base, StagedChunkSize(config, s, base)), Some(wr.(phase := Carrying(base, VersionId(s.nextVersion)))))
    case Carrying(base, work) =>
      (if base.Some? then CopyRows(s, base.value, work, 0, CeilDiv(wr.oldSize, ChunkSize(s.versions[work]))) else s,
       Some(wr.(phase := Scanning(work))))
    case Scanning(work) =>
      var todo := Touched(wr, ChunkSize(s.versions[work]));
      (s, Some(wr.(phase := Merging(work, todo, Prior(s.chunks[work], todo)))))
    case Merging(work, todo, prior) =>
      if todo == [] then (s, Some(wr.(phase := Touching(work))))
      else
        var k, cs := todo[0], ChunkSize(s.versions[work]);
        var plain := Merged(wr, k * cs, cs, Existing(s, prior, k));
        (Put(s, plain), Some(wr.(phase := Attaching(work, todo, prior, Row(k, k * cs, |plain|, Digest(plain), ObjectId(s.nextObject))))))
    case Attaching(work, todo, prior, row) =>
      (Attach(s, work, row), Some(wr.(phase := Merging(work, todo[1..], prior))))
    case Touching(work) => (Touch(s, work, wr.NewSize()), Some(wr.(phase := Resizing)))
    case Resizing => (SetSize(s, n, wr.NewSize()), Some(wr.(phase := Closing)))
    case Closing => (if wr.Crosses() then CommitOpen(s, n) else s, None)
  }
}
