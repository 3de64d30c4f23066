/** The server's byte path: chunked, sealed reads and writes over the repository and the object store.

    Objects are stored sealed; `plain` is what they decrypt to. A write is proved to have the effect
    of its steps run to the end, a read to return the bytes the served version spells out. */
module ByteApi {
  import opened Bytes
  import opened Records
  import opened Files
  import opened Sealing
  import opened WriteSteps
  import opened WholeWrites
  import opened MemoryRepository
  import opened Stitching
  import FlatFiles
  import Interleaving

  /** The store holds exactly these plaintexts, sealed under their own ids. */
  ghost predicate Stores(keyId: KeyId, key: Key, store: map<ObjectId, seq<Cell>>, plain: map<ObjectId, seq<byte>>) {
    store.Keys == plain.Keys && forall o :: o in plain ==> store[o] == Sealed(Secret(keyId, key, o), plain[o])
  }

  lemma StoresMore(keyId: KeyId, key: Key, store: map<ObjectId, seq<Cell>>, plain: map<ObjectId, seq<byte>>,
                   o: ObjectId, data: seq<byte>)
    requires Stores(keyId, key, store, plain)
    ensures Stores(keyId, key, store[o := Sealed(Secret(keyId, key, o), data)], plain[o := data])
  {
  }

  lemma StoresLess(keyId: KeyId, key: Key, store: map<ObjectId, seq<Cell>>, plain: map<ObjectId, seq<byte>>,
                   o: ObjectId)
    requires Stores(keyId, key, store, plain)
    ensures Stores(keyId, key, store - {o}, plain - {o})
  {
  }

  /** Fetch, decrypt and check a whole object. */
  method OpenChunk(s: Secret, stored: Option<seq<Cell>>, row: Row, ghost p: seq<byte>) returns (r: Option<seq<byte>>)
    requires s.obj == row.obj
    ensures stored == Some(Sealed(s, p)) ==> r == if row.hash == Digest(p) then Some(p) else None
    ensures stored == None ==> r == None
  {
    if stored.None? { return None; }
    r := OpenSegmented(s, stored.value);
    SealOpenRoundTrip(s, p);
    if r.Some? && row.hash != Digest(r.value) { return None; }
  }

  /** A range of a stored object: the segments it needs, or failing that the whole. */
  method FetchPart(s: Secret, stored: seq<Cell>, row: Row, from: nat, end: nat, ghost p: seq<byte>) returns (r: Option<seq<byte>>)
    requires s.obj == row.obj && from < end <= row.size
    ensures stored == Sealed(s, p) && row.size == |p| ==> r == Some(Slice(p, from, end))
  {
    r := FetchRange(s, stored, ChunkRange(row.obj, row.size, from, end), p);
    if r.None? {
      var all := OpenChunk(s, Some(stored), row, p);
      if all.Some? { r := Some(Slice(all.value, from, end)); }
    }
  }

  method SliceOfStored(s: Secret, stored: seq<Cell>, row: Row, from: nat, want: nat, ghost p: seq<byte>) returns (r: Option<seq<byte>>)
    requires s.obj == row.obj && from < Min(from + want, row.size)
    ensures stored == Sealed(s, p) && row.size == |p| ==> r == Some(Window(p, from, want))
  {
    var part := FetchPart(s, stored, row, from, Min(from + want, row.size), p);
    if part.None? { return None; }
    if row.size == |p| { WindowInside(p, from, want); }
    r := Some(Resize(part.value, want));
  }

  /** Read part of a chunk, fetching only the segments it needs; past its end a chunk reads as zeroes, whether or
      not the object is there. */
  method SliceOfChunk(s: Secret, stored: Option<seq<Cell>>, row: Row, from: nat, to: nat, ghost p: seq<byte>)
    returns (r: Option<seq<byte>>)
    requires s.obj == row.obj && from <= to
    ensures stored == Some(Sealed(s, p)) && row.size == |p| ==> r == Some(Window(p, from, to - from))
    ensures stored.None? ==> r == if from < Min(to, row.size) then None else Some(Zeros(to - from))
  {
    if from >= Min(to, Max(row.size, 0)) {
      if row.size == |p| { WindowPastEnd(p, from, to - from); }
      return Some(Zeros(to - from));
    }
    if stored.None? { return None; }
    r := SliceOfStored(s, stored.value, row, from, to - from, p);
  }

  /** The row for an index in two row lists put end to end. */
  function Either(overlap: seq<Row>, tail: seq<Row>, k: int): Option<Row> {
    var row := Lookup(ManifestOf(overlap), k);
    if row.Some? then row else Lookup(ManifestOf(tail), k)
  }

  method FindEither(overlap: seq<Row>, tail: seq<Row>, k: int) returns (r: Option<Row>)
    requires Sorted(overlap) && Sorted(tail)
    ensures r == Either(overlap, tail, k)
  {
    r := FindRow(overlap, k);
    if r.None? { r := FindRow(tail, k); }
  }

  class Server {
    const repo: Repository
    const keyId: KeyId
    const key: Key
    /** Chunk size of files that have none yet. */
    const config: int
    /** How many parts of a read are in flight at once. */
    const window: nat
    var store: map<ObjectId, seq<Cell>>
    var nextObject: int
    ghost var plain: map<ObjectId, seq<byte>>

    ghost predicate Sound()
      reads this, repo
    {
      repo.Valid() && window > 0 && Stores(keyId, key, store, plain)
    }

    ghost function Abs(): State
      reads this, repo
    {
      repo.Meta().(objects := plain, nextObject := nextObject)
    }

    ghost predicate Valid()
      reads this, repo
    {
      Sound() && StateOk(Abs())
    }

    constructor (keyId: KeyId, key: Key, config: int, window: nat)
      requires window > 0
      ensures Valid() && fresh(repo)
      ensures Abs() == State(map[], map[], map[], map[], 0, 0, 0, 0)
    {
      this.keyId, this.key, this.config, this.window := keyId, key, config, window;
      repo := new Repository();
      store, nextObject, plain := map[], 0, map[];
    }

    // ----- single objects -----

    /** A new object holds `data`, sealed for the id it gets. */
    method WriteChunk(data: seq<byte>) returns (o: ObjectId)
      requires Sound()
      modifies this
      ensures Sound() && o == ObjectId(old(nextObject)) && Abs() == Put(old(Abs()), data)
    {
      o := ObjectId(nextObject);
      var sealed := Seal(Secret(keyId, key, o), data);
      StoresMore(keyId, key, store, plain, o, data);
      store := store[o := sealed];
      plain := plain[o := data];
      nextObject := nextObject + 1;
    }

    /** Delete an object from the store; deleting one that is not there changes nothing. */
    method DeleteObject(o: ObjectId)
      requires Sound()
      modifies this
      ensures Sound() && Abs() == RemoveObject(old(Abs()), o)
    {
      StoresLess(keyId, key, store, plain, o);
      store := store - {o};
      plain := plain - {o};
    }

    method ReadChunk(row: Row) returns (r: Option<seq<byte>>)
      requires Sound()
      ensures r == if Readable(Abs(), row) then Some(plain[row.obj]) else None
    {
      if row.obj in store {
        r := OpenChunk(Secret(keyId, key, row.obj), Some(store[row.obj]), row, plain[row.obj]);
      } else {
        r := None;
      }
    }

    method ReadChunkSlice(row: Row, from: nat, to: nat) returns (r: Option<seq<byte>>)
      requires Sound() && from <= to
      ensures row.obj in plain && row.size == |plain[row.obj]| ==> r == Some(Window(plain[row.obj], from, to - from))
      ensures row.obj !in plain ==> r == if from < Min(to, row.size) then None else Some(Zeros(to - from))
    {
      if row.obj in store {
        r := SliceOfChunk(Secret(keyId, key, row.obj), Some(store[row.obj]), row, from, to, plain[row.obj]);
      } else {
        r := SliceOfChunk(Secret(keyId, key, row.obj), None, row, from, to, []);
      }
    }

    // ----- reads -----

    /** One chunk's share of a read. */
    method ReadShare(row: Row, s: Span, c: nat, ghost parts: Parts) returns (r: Option<seq<byte>>)
      requires Sound() && s.Ok() && s.First() <= c <= s.Last()
      requires c in parts && parts[c] == PartOf(plain, row)
      ensures Clean(parts, c) ==> r == if Blocked(parts, s, c) then None else Some(Share(parts, s, c))
    {
      SpanCovers(s, c);
      r := ReadChunkSlice(row, s.WantFrom(c), s.WantTo(c));
      if row.obj in plain { PartIsShare(parts, s, c); } else { GoneIsShare(parts, s, c); }
    }

    /** The piece of a slot is what the file holds there. */
    ghost predicate Done(parts: Parts, s: Span, pieces: seq<seq<byte>>, i: nat)
      requires s.Ok() && i < |pieces|
    {
      Clean(parts, s.First() + i) ==> !Blocked(parts, s, s.First() + i) && pieces[i] == Share(parts, s, s.First() + i)
    }

    /** Slots below `n` are filled in or still in flight. */
    ghost predicate Progress(parts: Parts, s: Span, pieces: seq<seq<byte>>, inflight: seq<nat>, n: nat)
      requires s.Ok()
    {
      && n <= |pieces|
      && (forall j :: 0 <= j < |inflight| ==> inflight[j] < n && s.First() + inflight[j] in parts)
      && (forall i :: 0 <= i < n ==> i in inflight || Done(parts, s, pieces, i))
    }

    lemma Finished(parts: Parts, s: Span, pieces: seq<seq<byte>>, inflight: seq<nat>, n: nat, j: nat, share: seq<byte>)
      requires s.Ok() && Progress(parts, s, pieces, inflight, n) && j < |inflight|
      requires var c := s.First() + inflight[j]; Clean(parts, c) ==> !Blocked(parts, s, c) && share == Share(parts, s, c)
      ensures Progress(parts, s, pieces[inflight[j] := share], inflight[..j] + inflight[j + 1..], n)
    {
      var rest, after := inflight[..j] + inflight[j + 1..], pieces[inflight[j] := share];
      assert forall i :: i in inflight ==> i == inflight[j] || i in rest;
      assert forall i :: 0 <= i < n && i != inflight[j] && Done(parts, s, pieces, i) ==> Done(parts, s, after, i);
    }

    lemma Started(parts: Parts, s: Span, pieces: seq<seq<byte>>, inflight: seq<nat>, n: nat)
      requires s.Ok() && Progress(parts, s, pieces, inflight, n) && n < |pieces| && s.First() + n in parts
      ensures Progress(parts, s, pieces, inflight + [n], n + 1)
    {
    }

    lemma Filled(parts: Parts, s: Span, pieces: seq<seq<byte>>, inflight: seq<nat>, n: nat, share: seq<byte>)
      requires s.Ok() && Progress(parts, s, pieces, inflight, n) && n < |pieces|
      requires share == Share(parts, s, s.First() + n) && s.First() + n !in parts
      ensures Progress(parts, s, pieces[n := share], inflight, n + 1)
    {
      assert forall i :: 0 <= i < n && Done(parts, s, pieces, i) ==> Done(parts, s, pieces[n := share], i);
    }

    /** Start fetches until the window is full; a hole needs none. */
    method Launch(rows: seq<Row>, s: Span, pieces: seq<seq<byte>>, inflight: seq<nat>, next: nat, ghost parts: Parts)
      returns (pieces': seq<seq<byte>>, inflight': seq<nat>, next': nat)
      requires s.Ok() && Sorted(rows) && |pieces| == s.Last() - s.First() + 1
      requires Progress(parts, s, pieces, inflight, next)
      requires forall c :: s.First() <= c <= s.Last() ==> (Lookup(ManifestOf(rows), c).Some? <==> c in parts)
      ensures |pieces'| == |pieces| && next <= next' && Progress(parts, s, pieces', inflight', next')
      ensures next' == next ==> inflight' == inflight
      ensures next' < |pieces| ==> |inflight'| >= window
    {
      pieces', inflight', next' := pieces, inflight, next;
      while next' < |pieces| && |inflight'| < window
        invariant |pieces'| == |pieces| && next <= next' && Progress(parts, s, pieces', inflight', next')
        invariant next' == next ==> inflight' == inflight
        decreases |pieces| - next'
      {
        var c := s.First() + next';
        var row := FindRow(rows, c);
        if row.Some? {
          Started(parts, s, pieces', inflight', next');
          inflight' := inflight' + [next'];
        } else {
          HoleIsShare(parts, s, c);
          var zeroes := Zeros(s.WantTo(c) - s.WantFrom(c));
          Filled(parts, s, pieces', inflight', next', zeroes);
          pieces' := pieces'[next' := zeroes];
        }
        next' := next' + 1;
      }
    }

    /** One fetch that is in flight comes back, whichever it is. */
    method Join(rows: seq<Row>, s: Span, pieces: seq<seq<byte>>, inflight: seq<nat>, ghost n: nat, ghost parts: Parts)
      returns (r: Option<seq<seq<byte>>>, inflight': seq<nat>)
      requires Sound() && s.Ok() && Sorted(rows) && |pieces| == s.Last() - s.First() + 1 && inflight != []
      requires Progress(parts, s, pieces, inflight, n)
      requires forall c :: c in parts && s.First() <= c <= s.Last() ==>
                 Lookup(ManifestOf(rows), c).Some? && parts[c] == PartOf(plain, Lookup(ManifestOf(rows), c).value)
      ensures |inflight'| == |inflight| - 1
      ensures AllClean(parts, s) && r.None? ==> AnyBlocked(parts, s)
      ensures r.Some? ==> |r.value| == |pieces| && Progress(parts, s, r.value, inflight', n)
    {
      var j :| 0 <= j < |inflight|;
      var c := s.First() + inflight[j];
      inflight' := inflight[..j] + inflight[j + 1..];
      var row := FindRow(rows, c);
      var share := ReadShare(row.value, s, c, parts);
      if share.None? { return None, inflight'; }
      Finished(parts, s, pieces, inflight, n, j, share.value);
      r := Some(pieces[inflight[j] := share.value]);
    }

    /** Fetch the chunks of a read, at most `window` at a time, finishing in any order. */
    method ReadShares(rows: seq<Row>, s: Span, ghost all: Manifest) returns (r: Option<seq<seq<byte>>>)
      requires Sound() && s.Ok() && Sorted(rows) && ManifestOf(rows) == InRange(all, s.First(), s.Last())
      ensures AllClean(PartsOf(plain, all), s) ==>
                if AnyBlocked(PartsOf(plain, all), s) then r == None else r.Some? && AllShares(PartsOf(plain, all), s, r.value)
    {
      ghost var parts := PartsOf(plain, all);
      BeforeNone(s);
      var pieces: seq<seq<byte>> := seq(s.Last() - s.First() + 1, _ => []);
      var inflight: seq<nat>, next := [], 0;
      while next < |pieces| || inflight != []
        invariant |pieces| == s.Last() - s.First() + 1 && Progress(parts, s, pieces, inflight, next)
        decreases |pieces| - next, |inflight|
      {
        pieces, inflight, next := Launch(rows, s, pieces, inflight, next, parts);
        if inflight != [] {
          var joined;
          joined, inflight := Join(rows, s, pieces, inflight, next, parts);
          if joined.None? { return None; }
          pieces := joined.value;
        }
      }
      AllDone(parts, s, pieces);
      r := Some(pieces);
    }

    lemma AllDone(parts: Parts, s: Span, pieces: seq<seq<byte>>)
      requires s.Ok() && |pieces| == s.Last() - s.First() + 1 && Progress(parts, s, pieces, [], |pieces|)
      ensures AllClean(parts, s) ==> !AnyBlocked(parts, s) && AllShares(parts, s, pieces)
    {
      assert forall i :: 0 <= i < |pieces| ==> Done(parts, s, pieces, i);
      if AllClean(parts, s) {
        forall c: nat | s.First() <= c <= s.Last() ensures !Blocked(parts, s, c) { assert Done(parts, s, pieces, c - s.First()); }
        forall i | 0 <= i < |pieces| ensures pieces[i] == Share(parts, s, s.First() + i) { assert Done(parts, s, pieces, i); }
      }
    }

    /** Read a range of one version. */
    method ReadVersion(v: VersionId, s: Span) returns (r: Option<seq<byte>>)
      requires Sound() && s.Ok()
      ensures var parts := PartsOf(plain, RowsOf(Abs(), v));
              v in repo.chunks && AllClean(parts, s) ==> r == if AnyBlocked(parts, s) then None else Some(BytesOf(parts, s.cs, s.offset, s.size))
    {
      var rows := repo.GetChunkRange(v, s.First(), s.Last());
      if rows.Err? { return None; }
      var pieces := ReadShares(rows.value, s, RowsOf(repo.Meta(), v));
      if pieces.None? { return None; }
      var bytes := Stitch(pieces.value, s, PartsOf(plain, RowsOf(repo.Meta(), v)));
      r := Some(bytes);
    }

    /** The version a read is served from, and whether it is committed. */
    method FindServed(n: NodeId, ghost s: State) returns (served: Option<VersionId>, committed: bool)
      requires Valid() && s == Abs() && n in repo.nodes
      ensures served == Served(s, n) && committed == OpenOf(s, n).None? && (served.Some? ==> served.value in s.versions)
    {
      var working := repo.FindOpenStaging(n);
      OpenFound(s, repo.Meta(), n, working);
      committed := working.None?;
      served := if working.Some? then working else repo.nodes[n].current;
    }

    /** The rest of a read, once its range is known not to be empty. */
    method ReadServed(n: NodeId, from: nat, len: nat, ghost s: State, ghost offset: Option<nat>, ghost size: Option<nat>)
      returns (r: Result<(seq<byte>, bool), IoError>)
      requires Valid() && s == Abs() && n in repo.nodes && repo.nodes[n].kind != Directory && AskedRange(s, n, offset, size) == Some((from, len))
      ensures Answers(s, n, offset, size, r)
    {
      var served, committed := FindServed(n, s);
      ServedRead(s, n, offset, size, from, len);
      if served.None? { return Ok(([], true)); }
      var bytes := ReadVersion(served.value, Span(from, len, ChunkSize(repo.versions[served.value])));
      if bytes.None? { return Err(Unreadable); }
      r := Ok((bytes.value, committed));
    }

    /** Answers with exactly the bytes the stored records spell out, or with an error if the object of a part it
        needs is gone. */
    method Read(n: NodeId, offset: Option<nat>, size: Option<nat>) returns (r: Result<(seq<byte>, bool), IoError>)
      requires Valid()
      ensures n !in repo.nodes ==> r == Err(NoSuchNode)
      ensures n in repo.nodes && repo.nodes[n].kind == Directory ==> r == Err(IsDirectory)
      ensures n in repo.nodes && repo.nodes[n].kind == File ==> Answers(Abs(), n, offset, size, r)
    {
      if n !in repo.nodes { return Err(NoSuchNode); }
      var node := repo.nodes[n];
      if node.kind == Directory { return Err(IsDirectory); }
      var from, end := if offset.Some? then offset.value else 0, Max(node.size, 0);
      if from >= end { return Ok(([], true)); }
      var len := Min(if size.Some? then size.value else end - from, end - from);
      if len == 0 { return Ok(([], true)); }
      r := ReadServed(n, from, len, Abs(), offset, size);
    }

    // ----- writes -----

    /** A new working version, with the committed manifest carried over. */
    method StageWorking(n: NodeId, base: Option<VersionId>, oldSize: nat) returns (work: VersionId)
      requires Sound() && n in repo.nodes && (base.Some? ==> base.value in repo.versions)
      modifies repo
      ensures Sound() && work == VersionId(old(Abs().nextVersion))
      ensures Abs() == Staged(config, old(Abs()), n, base, oldSize)
    {
      var chunkSize := if base.Some? then ChunkSize(repo.versions[base.value]) else config;
      ghost var staged := CreateStaging(Abs(), n, base, chunkSize);
      var created := repo.CreateStagingVersion(n, base, chunkSize);
      work := created.value;
      assert Abs() == staged;
      if base.Some? { repo.CopyChunkRange(base.value, work, 0, CeilDiv(oldSize, Max(chunkSize, 1))); }
    }

    /** Merge the write into one part, and store and record the result. */
    method MergePart(wr: Writer, work: VersionId, cs: int, k: int, found: Option<Row>,
                     ghost prior: Manifest) returns (ok: bool)
      requires Sound() && work in Abs().chunks && cs > 0 && 0 <= k * cs <= wr.NewSize() && found == Lookup(prior, k)
      modifies this, repo
      ensures Sound() && ok == Fetchable(old(Abs()), wr, cs, prior, k)
      ensures Abs() == if ok then AddPart(old(Abs()), wr, work, cs, prior, k) else old(Abs())
    {
      var existing := [];
      if found.Some? && !Replaces(wr, k * cs, cs) {
        var chunk := ReadChunk(found.value);
        if chunk.None? { return false; }
        existing := chunk.value;
      }
      var data := Merged(wr, k * cs, cs, existing);
      var o := WriteChunk(data);
      var attached := repo.AttachChunk(work, Row(k, k * cs, |data|, Digest(data), o));
      ok := true;
    }

    /** Merge the write into every part it touches, in index order. */
    method MergeParts(wr: Writer, work: VersionId, cs: int, todo: seq<int>, overlap: seq<Row>, tail: seq<Row>,
                      ghost prior: Manifest)
      returns (ok: bool)
      requires Sound() && work in Abs().chunks && cs > 0 && Inside(wr, cs, todo) && Sorted(overlap) && Sorted(tail)
      requires forall k :: k in todo ==> Either(overlap, tail, k) == Lookup(prior, k)
      modifies this, repo
      ensures Sound() && (Abs(), ok) == MergeAll(old(Abs()), wr, work, cs, todo, prior)
    {
      ghost var now := Abs();
      assert todo[0..] == todo;
      for i := 0 to |todo|
        invariant Sound() && now == Abs() && work in now.chunks
        invariant MergeAll(now, wr, work, cs, todo[i..], prior) == old(MergeAll(Abs(), wr, work, cs, todo, prior))
      {
        MergeNext(now, wr, work, cs, todo, i, prior);
        var row := FindEither(overlap, tail, todo[i]);
        var merged := MergePart(wr, work, cs, todo[i], row, prior);
        if !merged { return false; }
        now := AddPart(now, wr, work, cs, prior, todo[i]);
      }
      ok := true;
    }

    /** What is already there of the parts to be sealed again, looked up before anything changes. */
    method FindPrior(wr: Writer, work: VersionId, cs: int) returns (overlap: seq<Row>, tail: seq<Row>)
      requires Sound() && work in Abs().chunks && cs > 0
      ensures Sorted(overlap) && Sorted(tail)
      ensures forall k :: k in Touched(wr, cs) ==>
                Either(overlap, tail, k) == Lookup(Prior(Abs().chunks[work], Touched(wr, cs)), k)
    {
      var first, last := wr.offset / cs, (wr.offset + |wr.body| - 1) / cs;
      var found := repo.GetChunkRange(work, first, Min(last, CeilDiv(wr.NewSize(), cs)));
      overlap, tail := found.value, [];
      var rewrite := RewriteLast(wr, cs);
      if rewrite.Some? {
        found := repo.GetChunkRange(work, rewrite.value, rewrite.value);
        tail := found.value;
      }
      forall k | k in Touched(wr, cs) ensures Either(overlap, tail, k) == Lookup(Prior(Abs().chunks[work], Touched(wr, cs)), k) {
        RangesServe(Abs().chunks[work], wr, cs, overlap, tail, k);
      }
    }

    /** From the working version on: merge every part, then set the version's size and the node's. */
    method WriteWorking(n: NodeId, wr: Writer, work: VersionId) returns (ok: bool)
      requires Sound() && n in repo.nodes && work in repo.versions && work in Abs().chunks && wr.body != []
      modifies this, repo
      ensures Sound() && (Abs(), ok) == RunParts(config, old(Abs()), n, wr.(phase := Scanning(work)))
    {
      var cs := ChunkSize(repo.versions[work]);
      var todo := Touched(wr, cs);
      TouchedInside(wr, cs);
      ghost var prior := Prior(Abs().chunks[work], todo);
      WorkingRuns(config, Abs(), n, wr, work, cs, MergeAll(Abs(), wr, work, cs, todo, prior));
      var overlap, tail := FindPrior(wr, work, cs);
      ok := MergeParts(wr, work, cs, todo, overlap, tail, prior);
      if !ok { return; }
      repo.TouchStaging(work, wr.NewSize());
      var sized := repo.UpdateSize(n, wr.NewSize());
    }

    /** Everything a write does short of committing. */
    method WriteParts(n: NodeId, wr: Writer) returns (ok: bool)
      requires Sound() && n in repo.nodes && wr.body != []
      requires wr.phase.Opening? || (wr.phase.Scanning? && wr.phase.work in repo.versions && wr.phase.work in Abs().chunks)
      modifies this, repo
      ensures Sound() && (Abs(), ok) == RunParts(config, old(Abs()), n, wr)
    {
      var work;
      if wr.phase.Opening? {
        var base := wr.phase.base;
        if base.Some? && base.value !in repo.versions { return false; }
        OpenRuns(config, Abs(), n, wr, base);
        work := StageWorking(n, base, wr.oldSize);
      } else {
        work := wr.phase.work;
      }
      ok := WriteWorking(n, wr, work);
    }

    method CommitAs(n: NodeId, v: VersionId, ghost was: State)
      requires Sound() && was == Abs() && n in repo.nodes && v in repo.versions
      requires CommitRefusal(was, CommitOpenGuard(was, n, v)) == None
      modifies repo
      ensures Sound() && Abs() == Commit(was, CommitOpenGuard(was, n, v), was.versions[v].size)
    {
      var node := repo.nodes[n];
      var done := repo.CommitVersion(CommitGuard(n, v, node.generation, node.current), repo.versions[v].size);
    }

    /** Commit the open write, if there is one; under the file lock the guard always matches. */
    method CommitWorking(n: NodeId) returns (committed: bool)
      requires Valid() && n in repo.nodes
      modifies repo
      ensures Valid() && Abs() == CommitOpen(old(Abs()), n) && committed == old(OpenOf(Abs(), n)).Some?
    {
      var found := repo.FindOpenStaging(n);
      OpenFound(Abs(), repo.Meta(), n, found);
      CommitOpenStateOk(Abs(), n);
      if found.None? { return false; }
      CommitOpenIs(Abs(), n, found.value);
      CommitAs(n, found.value, Abs());
      committed := true;
    }

    /** The open version becomes the committed one; without an open version nothing changes. */
    method Sync(n: NodeId) returns (r: Result<(), IoError>)
      requires Valid()
      modifies repo
      ensures Valid() && r == (if n in old(repo.nodes) then Ok(()) else Err(NoSuchNode))
      ensures Abs() == if n in old(repo.nodes) then CommitOpen(old(Abs()), n) else old(Abs())
    {
      if n !in repo.nodes { return Err(NoSuchNode); }
      var committed := CommitWorking(n);
      r := Ok(());
    }

    /** One whole write, from the lock to the commit point. */
    method Write(n: NodeId, offset: nat, body: seq<byte>) returns (r: Result<nat, IoError>)
      requires Valid()
      modifies this, repo
      ensures Valid()
      ensures body == [] ==> r == Ok(0) && Abs() == old(Abs())
      ensures body != [] && n !in old(repo.nodes) ==> r == Err(NoSuchNode) && Abs() == old(Abs())
      ensures body != [] && n in old(repo.nodes) && old(repo.nodes)[n].kind == Directory ==> r == Err(IsDirectory) && Abs() == old(Abs())
      ensures body != [] && n in old(repo.nodes) && old(repo.nodes)[n].kind == File ==>
                && r == (if r.Ok? then Ok(|body|) else Err(Unreadable))
                && (Abs(), r.Ok?) == RunWriter(config, old(Abs()), n, StartWriter(old(Abs()), n, offset, body))
    {
      if body == [] { return Ok(0); }
      if n !in repo.nodes { return Err(NoSuchNode); }
      var node := repo.nodes[n];
      if node.kind == Directory { return Err(IsDirectory); }
      var found := repo.FindOpenStaging(n);
      OpenFound(Abs(), repo.Meta(), n, found);
      var wr := Writer(offset, body, Max(node.size, 0), if found.Some? then Scanning(found.value) else Opening(node.current));
      var commits := wr.Crosses();
      PartsThenCommit(config, Abs(), n, wr, commits);
      var ok := WriteParts(n, wr);
      if !ok { return Err(Unreadable); }
      if commits { var committed := CommitWorking(n); }
      r := Ok(|body|);
    }
  }

  /** The two ranges a write looks up hold the rows of all the parts it touches. */
  lemma RangesServe(rows: Manifest, wr: Writer, cs: int, overlap: seq<Row>, tail: seq<Row>, k: int)
    requires cs > 0 && k in Touched(wr, cs)
    requires ManifestOf(overlap) ==
             InRange(rows, wr.offset / cs, Min((wr.offset + |wr.body| - 1) / cs, CeilDiv(wr.NewSize(), cs)))
    requires match RewriteLast(wr, cs)
             case None => tail == []
             case Some(last) => ManifestOf(tail) == InRange(rows, last, last)
    ensures Either(overlap, tail, k) == Lookup(Prior(rows, Touched(wr, cs)), k)
  {
  }

  /** The bytes a read asks for that the file has. */
  function AskedRange(s: State, n: NodeId, offset: Option<nat>, size: Option<nat>): (r: Option<(nat, nat)>)
    requires n in s.nodes
    ensures r.Some? ==> r.value.1 > 0
  {
    var from, end := if offset.Some? then offset.value else 0, Max(s.nodes[n].size, 0);
    var len := Min(if size.Some? then size.value else end - from, end - from);
    if from >= end || len == 0 then None else Some((from, len))
  }

  /** The version and the range a read goes to the store for, if it has to. */
  ghost function Wanted(s: State, n: NodeId, offset: Option<nat>, size: Option<nat>): (r: Option<(VersionId, Span)>)
    ensures r.Some? ==> r.value.0 in s.versions && r.value.1.Ok()
  {
    if n !in s.nodes || s.nodes[n].kind == Directory || AskedRange(s, n, offset, size).None? then None
    else
      var (from, len), served := AskedRange(s, n, offset, size).value, Served(s, n);
      if served.None? || served.value !in s.versions then None
      else Some((served.value, Span(from, len, ChunkSize(s.versions[served.value]))))
  }

  /** The answer of a read: what the records spell out, or an error exactly if a part it needs has lost its object. */
  ghost predicate Answers(s: State, n: NodeId, offset: Option<nat>, size: Option<nat>, r: Result<(seq<byte>, bool), IoError>) {
    match Wanted(s, n, offset, size)
    case None => r == ReadBytes(s, n, offset, size)
    case Some((v, span)) =>
      var parts := ViewOf(s, v).parts;
      AllClean(parts, span) ==> r == if AnyBlocked(parts, span) then Err(Unreadable) else ReadBytes(s, n, offset, size)
  }

  /** A read that is not empty comes out of the served version. */
  lemma ServedRead(s: State, n: NodeId, offset: Option<nat>, size: Option<nat>, from: nat, len: nat)
    requires n in s.nodes && s.nodes[n].kind != Directory && AskedRange(s, n, offset, size) == Some((from, len))
    requires Served(s, n).Some? ==> Served(s, n).value in s.versions
    ensures ReadBytes(s, n, offset, size) ==
            match Served(s, n)
            case None => Ok(([], true))
            case Some(v) => Ok((BytesOf(PartsOf(s.objects, RowsOf(s, v)), ChunkSize(s.versions[v]), from, len), OpenOf(s, n).None?))
  {
  }

  /** The parts this read needs are all there. */
  ghost predicate Intact(s: State, n: NodeId, offset: Option<nat>, size: Option<nat>) {
    match Wanted(s, n, offset, size)
    case None => true
    case Some((v, span)) => AllClean(ViewOf(s, v).parts, span) && !AnyBlocked(ViewOf(s, v).parts, span)
  }

  /** A file that spells out its bytes is intact, so reading it never fails. */
  lemma QuietIntact(s: State, n: NodeId, f: seq<byte>, offset: Option<nat>, size: Option<nat>)
    requires StateOk(s) && n in s.nodes && Quiet(View(s, n), f)
    ensures Intact(s, n, offset, size)
  {
    FlatFiles.ServedHolds(s, n, f);
    if Wanted(s, n, offset, size).Some? {
      var v := ViewOf(s, Served(s, n).value);
      assert forall k :: k in v.parts ==> PartOk(v.parts[k], k, ChunkSize(v.rec), |f|);
    }
  }

  lemma AskedBack(f: seq<byte>, offset: nat, body: seq<byte>)
    ensures FlatFiles.Asked(FlatWrite(f, offset, body), Some(offset), Some(|body|)) == body
  {
  }

  lemma StartEngaged(s: State, n: NodeId, offset: nat, body: seq<byte>)
    requires StateOk(s) && n in s.nodes && body != []
    ensures Engaged(s, n, StartWriter(s, n, offset, body))
  {
    Interleaving.OpenOfStaging(s, n);
  }

  /** On a file that reads as `f` a write cannot fail, and afterwards the file reads as the flat write over `f`. */
  lemma WriteSucceeds(config: int, s: State, n: NodeId, f: seq<byte>, offset: nat, body: seq<byte>)
    requires StateOk(s) && n in s.nodes && Quiet(View(s, n), f) && body != []
    ensures var (t, ok) := RunWriter(config, s, n, StartWriter(s, n, offset, body));
            && ok && StateOk(t) && n in t.nodes && t.nodes[n].kind == s.nodes[n].kind
            && Quiet(View(t, n), FlatWrite(f, offset, body))
  {
    var wr := StartWriter(s, n, offset, body);
    FlatFiles.BeginBusy(s, n, f, wr);
    WriteIsFlatWrite(config, s, n, f, wr, n);
    StartEngaged(s, n, offset, body);
    RunKeepsKind(config, s, n, wr);
  }

  /** The bytes just written are what a read of them returns. */
  lemma ReadYourWrite(config: int, s: State, n: NodeId, f: seq<byte>, offset: nat, body: seq<byte>)
    requires StateOk(s) && n in s.nodes && s.nodes[n].kind == File && Quiet(View(s, n), f) && body != []
    ensures var t := RunWriter(config, s, n, StartWriter(s, n, offset, body)).0;
            && Intact(t, n, Some(offset), Some(|body|))
            && ReadBytes(t, n, Some(offset), Some(|body|)).Ok?
            && ReadBytes(t, n, Some(offset), Some(|body|)).value.0 == body
  {
    WriteSucceeds(config, s, n, f, offset, body);
    var t, g := RunWriter(config, s, n, StartWriter(s, n, offset, body)).0, FlatWrite(f, offset, body);
    QuietIntact(t, n, g, Some(offset), Some(|body|));
    FlatFiles.QuietRead(t, n, g, Some(offset), Some(|body|));
    AskedBack(f, offset, body);
  }

  /** What the repository finds is the open version. */
  lemma OpenFound(s: State, meta: State, n: NodeId, found: Option<VersionId>)
    requires StateOk(s) && meta.versions == s.versions
    requires found.Some? ==> IsOpen(meta, n, found.value)
    requires found.None? ==> forall v :: !IsStagingOf(meta, n, v)
    ensures OpenOf(s, n) == found
    ensures if found.Some? then IsStagingOf(s, n, found.value) else forall v :: !IsStagingOf(s, n, v)
    ensures n in s.nodes && Served(s, n).Some? ==> Served(s, n).value in s.versions
  {
    assert forall v :: IsStagingOf(s, n, v) <==> IsStagingOf(meta, n, v);
    if found.Some? {
      OpenIsUnique(s, n, found.value);
      assert IsOpen(s, n, found.value);
    }
    if n in s.nodes && s.nodes[n].current.Some? { assert CurrentOk(s, n, s.nodes[n].current.value); }
  }
}
