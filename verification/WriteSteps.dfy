/** Every step of a write keeps the file readable as the old bytes overlaid with the finished parts,
    and the last one leaves exactly the flat-file write. */
module WriteSteps {
  import opened Bytes
  import opened Records
  import opened Files

  // ----- structure of a repository state -----

  /** Identifiers are below their counters, manifests and versions come in pairs, a current version
      is a committed version of its own node, and no node has two open writes. */
  ghost predicate StateOk(s: State) {
    IdsOk(s) && LinksOk(s)
  }

  ghost predicate IdsOk(s: State) {
    && s.versions.Keys == s.chunks.Keys
    && (forall n :: n in s.nodes ==> n.id < s.nextNode)
    && (forall v :: v in s.versions ==> v.id < s.nextVersion && s.versions[v].node.id < s.nextNode)
    && (forall o :: o in s.objects ==> o.id < s.nextObject)
    && (forall v, k :: v in s.chunks && k in s.chunks[v] ==> s.chunks[v][k].obj.id < s.nextObject)
  }

  ghost predicate LinksOk(s: State) {
    && (forall n :: n in s.nodes && s.nodes[n].current.Some? ==> CurrentOk(s, n, s.nodes[n].current.value))
    && (forall v :: v in s.versions && s.versions[v].state == Staging ==> s.versions[v].committedAt == None)
    && (forall n, u, v :: IsStagingOf(s, n, u) && IsStagingOf(s, n, v) ==> u == v)
  }

  predicate CurrentOk(s: State, n: NodeId, v: VersionId) {
    v in s.versions && s.versions[v].node == n && s.versions[v].state == Committed
  }

  // ----- what holds in the middle of a write -----

  /** Bytes of finished parts are the new ones, all others are the old ones. */
  ghost predicate Mixed(parts: Parts, cs: int, f: seq<byte>, wr: Writer, todo: seq<int>)
    requires cs > 0
  {
    forall i: nat :: ByteAt(parts, cs, i) == if wr.Covers(i) && i / cs !in todo then wr.body[i - wr.offset] else At(f, i)
  }

  ghost predicate TodoOk(todo: seq<int>, wr: Writer, cs: int) {
    && (forall i :: 0 <= i < |todo| ==> 0 <= todo[i] && todo[i] * cs < wr.NewSize())
    && (forall i, j :: 0 <= i < j < |todo| ==> todo[i] != todo[j])
  }

  ghost predicate Remembers(prior: Manifest, parts: Parts, todo: seq<int>) {
    forall k :: k in todo ==> (k in prior <==> k in parts) && (k in prior ==> prior[k] == parts[k].row)
  }

  ghost predicate MergeOk(v: VersionView, f: seq<byte>, wr: Writer, todo: seq<int>) {
    && PartsOk(v.parts, ChunkSize(v.rec), wr.NewSize())
    && Mixed(v.parts, ChunkSize(v.rec), f, wr, todo)
    && TodoOk(todo, wr, ChunkSize(v.rec))
  }

  /** The plaintext stored for the part about to be attached. */
  ghost predicate PlainOk(plain: seq<byte>, start: int, cs: int, f: seq<byte>, wr: Writer) {
    && |plain| == PartLen(wr, start, cs)
    && forall j :: 0 <= j < |plain| ==>
         plain[j] == if wr.Covers(start + j) then wr.body[start + j - wr.offset] else At(f, start + j)
  }

  /** The open version has the size of the file, or none yet if this write opened it. */
  predicate NotResized(rec: Version, f: seq<byte>) {
    rec.size == |f| || rec.size == 0
  }

  ghost predicate MergeBusy(view: NodeView, f: seq<byte>, wr: Writer, work: VersionId, todo: seq<int>, prior: Manifest) {
    && view.staged.Keys == {work} && NotResized(view.staged[work].rec, f)
    && MergeOk(view.staged[work], f, wr, todo)
    && Remembers(prior, view.staged[work].parts, todo)
  }

  ghost predicate CarryBusy(view: NodeView, f: seq<byte>, base: Option<VersionId>, work: VersionId) {
    && view.staged.Keys == {work} && view.staged[work].parts == map[] && view.staged[work].rec.size == 0
    && Quiet(view.(staged := map[]), f) && base == view.node.current
    && (base.Some? ==> ChunkSize(view.staged[work].rec) == ChunkSize(view.current.value.rec))
  }

  ghost predicate BusyView(view: NodeView, f: seq<byte>, wr: Writer) {
    && wr.body != []
    && wr.oldSize == |f|
    && (view.node.current.Some? <==> view.current.Some?)
    && (!wr.phase.Closing? ==> view.node.size == |f|)
    && match wr.phase
       case Opening(base) => Quiet(view, f) && view.staged == map[] && base == view.node.current
       case Carrying(base, work) => CarryBusy(view, f, base, work)
       case Scanning(work) =>
         && view.staged.Keys == {work} && NotResized(view.staged[work].rec, f)
         && Holds(view.staged[work].parts, ChunkSize(view.staged[work].rec), f)
       case Merging(work, todo, prior) => MergeBusy(view, f, wr, work, todo, prior)
       case Attaching(work, todo, prior, row) => todo != [] && MergeBusy(view, f, wr, work, todo, prior)
       case Touching(work) =>
         view.staged.Keys == {work} && NotResized(view.staged[work].rec, f) && MergeOk(view.staged[work], f, wr, [])
       case Resizing =>
         view.staged != map[] && Quiet(view.(node := view.node.(size := wr.NewSize())), FlatWrite(f, wr.offset, wr.body))
       case Closing =>
         view.staged != map[] && Quiet(view, FlatWrite(f, wr.offset, wr.body))
  }

  /** The stored part waiting to be attached is the one `row` describes. */
  ghost predicate Uploaded(objects: map<ObjectId, seq<byte>>, row: Row, k: int, cs: int, f: seq<byte>, wr: Writer) {
    && row.obj in objects
    && PlainOk(objects[row.obj], k * cs, cs, f, wr)
    && row == Row(k, k * cs, |objects[row.obj]|, Digest(objects[row.obj]), row.obj)
  }

  ghost predicate Busy(s: State, n: NodeId, f: seq<byte>, wr: Writer)
    requires n in s.nodes
  {
    && BusyView(View(s, n), f, wr)
    && (wr.phase.Attaching? ==>
          Uploaded(s.objects, wr.phase.row, wr.phase.todo[0], ChunkSize(View(s, n).staged[wr.phase.work].rec), f, wr))
  }

  // ----- manifests -----

  lemma HoldsEverywhere(parts: Parts, cs: int, f: seq<byte>, i: nat)
    requires Holds(parts, cs, f)
    ensures ByteAt(parts, cs, i) == At(f, i)
  {
    DivMod(i, cs);
  }

  lemma PartsOkWider(parts: Parts, cs: int, bound: int, wider: int)
    requires PartsOk(parts, cs, bound) && bound <= wider
    ensures PartsOk(parts, cs, wider)
  {
  }

  /** What a part the write has not reached yet still holds. */
  lemma PriorBytes(v: VersionView, f: seq<byte>, wr: Writer, todo: seq<int>, k: int, j: int)
    requires MergeOk(v, f, wr, todo) && k in todo && 0 <= j < ChunkSize(v.rec) && 0 <= k
    ensures At(PriorData(v, k), j) == At(f, k * ChunkSize(v.rec) + j)
  {
    var cs := ChunkSize(v.rec);
    var i := k * cs + j;
    MulMono(0, k, cs);
    DivUnique(i, k, cs);
    assert ByteAt(v.parts, cs, i) == At(f, i);
  }

  function PriorData(v: VersionView, k: int): seq<byte> {
    if k in v.parts && v.parts[k].data.Some? then v.parts[k].data.value else []
  }

  /** Attaching a merged part finishes exactly that part. */
  lemma AttachMixed(v: VersionView, f: seq<byte>, wr: Writer, todo: seq<int>, p: Part)
    requires MergeOk(v, f, wr, todo) && todo != [] && |f| == wr.oldSize
    requires p.data.Some? && PlainOk(p.data.value, todo[0] * ChunkSize(v.rec), ChunkSize(v.rec), f, wr)
    requires p.row == Row(todo[0], todo[0] * ChunkSize(v.rec), |p.data.value|, Digest(p.data.value), p.row.obj)
    ensures MergeOk(v.(parts := v.parts[todo[0] := p]), f, wr, todo[1..])
  {
    var k, cs, parts := todo[0], ChunkSize(v.rec), v.parts[todo[0] := p];
    assert forall i :: i in todo <==> i == k || i in todo[1..];
    assert k !in todo[1..];
    assert PartOk(p, k, cs, wr.NewSize());
    forall i: nat
      ensures ByteAt(parts, cs, i) == if wr.Covers(i) && i / cs !in todo[1..] then wr.body[i - wr.offset] else At(f, i)
    {
      DivMod(i, cs);
      if i / cs == k {
        assert i == k * cs + i % cs;
      } else {
        assert ByteAt(parts, cs, i) == ByteAt(v.parts, cs, i);
      }
    }
  }

  /** Once no part is left, the working version is the flat-file write. */
  lemma AllMerged(v: VersionView, f: seq<byte>, wr: Writer)
    requires MergeOk(v, f, wr, []) && wr.body != [] && wr.oldSize == |f|
    ensures Holds(v.parts, ChunkSize(v.rec), FlatWrite(f, wr.offset, wr.body))
  {
  }

  // ----- the parts a write touches -----

  lemma TouchedCovers(wr: Writer, cs: int)
    requires cs > 0 && wr.body != []
    ensures TodoOk(Touched(wr, cs), wr, cs)
    ensures forall i: nat :: wr.Covers(i) ==> i / cs in Touched(wr, cs)
  {
    var first, last := wr.offset / cs, (wr.offset + |wr.body| - 1) / cs;
    var count := CeilDiv(wr.NewSize(), cs);
    CeilDivBounds(wr.NewSize(), cs);
    DivMod(wr.offset, cs);
    DivMod(wr.offset + |wr.body| - 1, cs);
    assert last <= count - 1 by {
      if last > count - 1 { MulMono(count, last, cs); }
    }
    var reached := Range(first, Min(last, count - 1));
    forall k | 0 <= k <= count - 1
      ensures k * cs < wr.NewSize()
    {
      MulMono(k, count - 1, cs);
    }
    forall i: nat | wr.Covers(i)
      ensures i / cs in reached && i / cs in Touched(wr, cs)
    {
      DivMono(wr.offset, i, cs);
      DivMono(i, wr.offset + |wr.body| - 1, cs);
    }
    if RewriteLast(wr, cs).Some? {
      DivMod(wr.oldSize, cs);
    }
  }

  /** A part is fetched exactly if the write keeps a byte of it: without one nothing has to be there. */
  lemma FetchedExactly(s: State, n: NodeId, wr: Writer, k: int, start: int, cs: int)
    requires wr.phase.Merging? && wr.phase.todo != [] && wr.phase.todo[0] == k && wr.phase.work in s.versions && wr.body != []
    requires cs == ChunkSize(s.versions[wr.phase.work]) && start == k * cs && 0 <= start < wr.NewSize()
    ensures CanStep(s, n, wr) <==>
            || (forall i :: start <= i < start + PartLen(wr, start, cs) ==> wr.Covers(i))
            || k !in wr.phase.prior || Readable(s, wr.phase.prior[k])
  {
    var end := start + PartLen(wr, start, cs);
    if forall i :: start <= i < end ==> wr.Covers(i) {
      assert wr.Covers(start) && wr.Covers(end - 1);
    }
  }

  // ----- frames -----

  ghost predicate Reaches(s: State, n: NodeId, v: VersionId)
    requires n in s.nodes
  {
    v in s.versions && (IsStagingOf(s, n, v) || s.nodes[n].current == Some(v))
  }

  /** A node's view only depends on its record and on the versions it reaches. */
  lemma SameView(s: State, t: State, n: NodeId)
    requires n in s.nodes && n in t.nodes && s.nodes[n] == t.nodes[n]
    requires forall v :: Reaches(s, n, v) ==> Reaches(t, n, v) && ViewOf(s, v) == ViewOf(t, v)
    requires forall v :: Reaches(t, n, v) ==> Reaches(s, n, v)
    ensures View(s, n) == View(t, n)
  {
    var a, b := View(s, n), View(t, n);
    assert forall v :: v in a.staged ==> Reaches(s, n, v) && ViewOf(s, v).rec.state == Staging;
    assert forall v :: v in b.staged ==> Reaches(t, n, v) && ViewOf(t, v).rec.state == Staging;
    assert forall v :: v in a.staged ==> v in b.staged;
    assert forall v :: v in b.staged ==> v in a.staged;
    if s.nodes[n].current.Some? {
      assert Reaches(s, n, s.nodes[n].current.value) <==> Reaches(t, n, s.nodes[n].current.value);
    }
  }

  /** Storing a new object leaves every version's bytes alone. */
  lemma PutKeepsParts(s: State, data: seq<byte>, v: VersionId)
    requires StateOk(s) && v in s.versions
    ensures ViewOf(Put(s, data), v) == ViewOf(s, v)
  {
    var a, b := ViewOf(Put(s, data), v).parts, ViewOf(s, v).parts;
    assert a.Keys == b.Keys;
    assert forall k :: k in RowsOf(s, v) ==> a[k] == b[k];
  }

  // ----- what a writer relies on besides the bytes -----

  ghost predicate Engaged(s: State, n: NodeId, wr: Writer) {
    && wr.body != []
    && match wr.phase
       case Opening(base) => (n in s.nodes ==> base == s.nodes[n].current) && forall v :: !IsStagingOf(s, n, v)
       case Carrying(base, work) => (n in s.nodes ==> base == s.nodes[n].current) && IsStagingOf(s, n, work)
       case Scanning(work) => IsStagingOf(s, n, work)
       case Merging(work, todo, prior) => IsStagingOf(s, n, work) && TodoOk(todo, wr, ChunkSize(s.versions[work]))
       case Attaching(work, todo, prior, row) =>
         && IsStagingOf(s, n, work) && todo != [] && TodoOk(todo, wr, ChunkSize(s.versions[work]))
         && row.obj in s.objects
       case Touching(work) => IsStagingOf(s, n, work)
       case Resizing => true
       case Closing => true
  }

  lemma OpenIsUnique(s: State, n: NodeId, v: VersionId)
    requires StateOk(s) && IsStagingOf(s, n, v)
    ensures forall u :: IsOpen(s, n, u) <==> u == v
  {
  }

  /** Committing the open version, with the guard of this very moment. */
  lemma CommitOpenIs(s: State, n: NodeId, v: VersionId)
    requires StateOk(s) && n in s.nodes && IsOpen(s, n, v)
    ensures CommitRefusal(s, CommitOpenGuard(s, n, v)) == None
    ensures CommitOpen(s, n) == Commit(s, CommitOpenGuard(s, n, v), s.versions[v].size)
  {
    OpenIsUnique(s, n, v);
  }

  /** What a commit of `v` does to the records: `v` becomes the current version of `n`, the one before it is
      superseded, and nothing else changes. */
  ghost predicate Commits(s: State, t: State, n: NodeId, v: VersionId) {
    && t == s.(nodes := t.nodes, versions := t.versions) && t.nodes.Keys == s.nodes.Keys && t.versions.Keys == s.versions.Keys
    && n in s.nodes && t.nodes[n].current == Some(v) && (forall m :: m in s.nodes && m != n ==> t.nodes[m] == s.nodes[m])
    && v in s.versions && t.versions[v].node == s.versions[v].node && t.versions[v].state == Committed
    && (forall u :: u in s.versions && u != v && s.nodes[n].current != Some(u) ==> t.versions[u] == s.versions[u])
    && (forall u :: u in s.versions && u != v && s.nodes[n].current == Some(u) ==>
          t.versions[u] == s.versions[u].(state := Superseded))
  }

  lemma CommitIs(s: State, n: NodeId, v: VersionId)
    requires n in s.nodes && v in s.versions && (s.nodes[n].current.Some? ==> CurrentOk(s, n, s.nodes[n].current.value))
    ensures CommitRefusal(s, CommitOpenGuard(s, n, v)) == None
    ensures Commits(s, Commit(s, CommitOpenGuard(s, n, v), s.versions[v].size), n, v)
  {
    var t := Commit(s, CommitOpenGuard(s, n, v), s.versions[v].size);
    assert t.nodes.Keys == s.nodes.Keys && t.versions.Keys == s.versions.Keys;
  }

  lemma CommitsLinksOk(s: State, t: State, n: NodeId, v: VersionId)
    requires LinksOk(s) && Commits(s, t, n, v) && IsStagingOf(s, n, v)
    ensures LinksOk(t)
  {
    assert forall m, u :: IsStagingOf(t, m, u) ==> IsStagingOf(s, m, u);
    forall m | m in t.nodes && t.nodes[m].current.Some? ensures CurrentOk(t, m, t.nodes[m].current.value) {
      if m != n { assert CurrentOk(s, m, s.nodes[m].current.value); }
    }
  }

  lemma CommitLinksOk(s: State, n: NodeId, v: VersionId)
    requires StateOk(s) && n in s.nodes && IsOpen(s, n, v)
    ensures LinksOk(Commit(s, CommitOpenGuard(s, n, v), s.versions[v].size))
  {
    CommitIs(s, n, v);
    CommitsLinksOk(s, Commit(s, CommitOpenGuard(s, n, v), s.versions[v].size), n, v);
  }

  lemma CommitIdsOk(s: State, n: NodeId, v: VersionId)
    requires StateOk(s) && n in s.nodes && IsOpen(s, n, v)
    ensures IdsOk(Commit(s, CommitOpenGuard(s, n, v), s.versions[v].size))
  {
  }

  lemma CommitOpenStateOk(s: State, n: NodeId)
    requires StateOk(s) && n in s.nodes
    ensures StateOk(CommitOpen(s, n))
  {
    if v :| IsOpen(s, n, v) {
      CommitOpenIs(s, n, v);
      CommitLinksOk(s, n, v);
      CommitIdsOk(s, n, v);
    }
  }

  lemma CreateLinksOk(s: State, n: NodeId, base: Option<VersionId>, cs: int)
    requires StateOk(s) && n in s.nodes && forall v :: !IsStagingOf(s, n, v)
    ensures LinksOk(CreateStaging(s, n, base, cs))
  {
    var t := CreateStaging(s, n, base, cs);
    assert forall m, u :: IsStagingOf(t, m, u) ==> IsStagingOf(s, m, u) || (m == n && u.id == s.nextVersion);
  }

  lemma CreateStagingStateOk(s: State, n: NodeId, base: Option<VersionId>, cs: int)
    requires StateOk(s) && n in s.nodes && forall v :: !IsStagingOf(s, n, v)
    ensures StateOk(CreateStaging(s, n, base, cs))
  {
    CreateLinksOk(s, n, base, cs);
  }

  lemma CopyRowsStateOk(s: State, from: VersionId, to: VersionId, first: int, last: int)
    requires StateOk(s) && to in s.versions
    ensures StateOk(CopyRows(s, from, to, first, last))
  {
    var t := CopyRows(s, from, to, first, last);
    assert forall m, u :: IsStagingOf(t, m, u) ==> IsStagingOf(s, m, u);
  }

  lemma PutStateOk(s: State, data: seq<byte>)
    requires StateOk(s)
    ensures StateOk(Put(s, data))
  {
    assert forall m, u :: IsStagingOf(Put(s, data), m, u) ==> IsStagingOf(s, m, u);
  }

  lemma AttachStateOk(s: State, v: VersionId, row: Row)
    requires StateOk(s) && v in s.chunks && row.obj.id < s.nextObject
    ensures StateOk(Attach(s, v, row))
  {
    assert forall m, u :: IsStagingOf(Attach(s, v, row), m, u) ==> IsStagingOf(s, m, u);
  }

  lemma TouchStateOk(s: State, v: VersionId, size: int)
    requires StateOk(s)
    ensures StateOk(Touch(s, v, size))
  {
    assert forall m, u :: IsStagingOf(Touch(s, v, size), m, u) ==> IsStagingOf(s, m, u);
  }

  lemma SetSizeStateOk(s: State, n: NodeId, size: int)
    requires StateOk(s) && n in s.nodes
    ensures StateOk(SetSize(s, n, size))
  {
    assert forall m, u :: IsStagingOf(SetSize(s, n, size), m, u) ==> IsStagingOf(s, m, u);
  }

  lemma StepStateOk(config: int, s: State, n: NodeId, wr: Writer)
    requires StateOk(s) && Engaged(s, n, wr) && CanStep(s, n, wr)
    ensures StateOk(WriterStep(config, s, n, wr).0)
  {
    match wr.phase
    case Opening(base) => CreateStagingStateOk(s, n, base, StagedChunkSize(config, s, base));
    case Carrying(base, work) =>
      if base.Some? {
        CopyRowsStateOk(s, base.value, work, 0, CeilDiv(wr.oldSize, ChunkSize(s.versions[work])));
      }
    case Merging(work, todo, prior) =>
      if todo != [] {
        PutStateOk(s, Merged(wr, todo[0] * ChunkSize(s.versions[work]), ChunkSize(s.versions[work]), Existing(s, prior, todo[0])));
      }
    case Attaching(work, todo, prior, row) => AttachStateOk(s, work, row);
    case Touching(work) => TouchStateOk(s, work, wr.NewSize());
    case Resizing => SetSizeStateOk(s, n, wr.NewSize());
    case Closing => CommitOpenStateOk(s, n);
    case Scanning(_) =>
  }

  lemma StepEngaged(config: int, s: State, n: NodeId, wr: Writer)
    requires StateOk(s) && Engaged(s, n, wr) && CanStep(s, n, wr)
    ensures var (t, next) := WriterStep(config, s, n, wr); next.Some? ==> Engaged(t, n, next.value)
  {
    match wr.phase
    case Scanning(work) => TouchedCovers(wr, ChunkSize(s.versions[work]));
    case _ =>
  }

  // ----- the effect of a step on other files -----

  ghost predicate GrowsObjects(s: State, t: State) {
    && (forall o :: o in s.objects ==> o in t.objects && t.objects[o] == s.objects[o])
    && (forall o :: o in t.objects && o !in s.objects ==> o.id >= s.nextObject)
  }

  ghost predicate SameVersionsOf(s: State, t: State, m: NodeId) {
    && (forall v :: v in s.versions && s.versions[v].node == m ==>
          v in t.versions && t.versions[v] == s.versions[v] && RowsOf(t, v) == RowsOf(s, v))
    && (forall v :: v in t.versions && t.versions[v].node == m ==> v in s.versions && s.versions[v].node == m)
  }

  lemma SameParts(s: State, t: State, rows: Manifest)
    requires GrowsObjects(s, t) && forall k :: k in rows ==> rows[k].obj.id < s.nextObject
    ensures PartsOf(s.objects, rows) == PartsOf(t.objects, rows)
  {
    assert forall k :: k in rows ==> PartOf(s.objects, rows[k]) == PartOf(t.objects, rows[k]);
  }

  lemma OtherNode(s: State, t: State, m: NodeId)
    requires StateOk(s) && StateOk(t) && m in s.nodes && m in t.nodes && s.nodes[m] == t.nodes[m]
    requires GrowsObjects(s, t) && SameVersionsOf(s, t, m)
    ensures View(s, m) == View(t, m)
  {
    forall v | Reaches(s, m, v)
      ensures Reaches(t, m, v) && ViewOf(s, v) == ViewOf(t, v)
    {
      assert s.versions[v].node == m;
      SameParts(s, t, RowsOf(s, v));
    }
    assert forall v :: Reaches(t, m, v) ==> t.versions[v].node == m;
    SameView(s, t, m);
  }

  /** A step of the write to one file leaves every other file exactly as it was. */
  lemma StepOthers(config: int, s: State, n: NodeId, wr: Writer, m: NodeId)
    requires StateOk(s) && Engaged(s, n, wr) && CanStep(s, n, wr) && m in s.nodes && m != n
    ensures var t := WriterStep(config, s, n, wr).0; m in t.nodes && View(t, m) == View(s, m)
  {
    if wr.phase.Closing? {
      if wr.Crosses() { CommitOthers(s, n, m); }
    } else {
      StepStateOk(config, s, n, wr);
      StepFrame(config, s, n, wr, m);
      OtherNode(s, WriterStep(config, s, n, wr).0, m);
    }
  }

  ghost predicate Frame(s: State, t: State, m: NodeId) {
    && GrowsObjects(s, t) && SameVersionsOf(s, t, m)
    && (m in s.nodes <==> m in t.nodes)
    && (m in s.nodes ==> t.nodes[m] == s.nodes[m])
  }

  lemma CarryFrame(config: int, s: State, n: NodeId, wr: Writer, m: NodeId)
    requires StateOk(s) && Engaged(s, n, wr) && CanStep(s, n, wr) && m != n
    requires wr.phase.Opening? || wr.phase.Carrying? || wr.phase.Attaching?
    ensures Frame(s, WriterStep(config, s, n, wr).0, m)
  {
  }

  lemma StepFrame(config: int, s: State, n: NodeId, wr: Writer, m: NodeId)
    requires StateOk(s) && Engaged(s, n, wr) && CanStep(s, n, wr) && m != n && !wr.phase.Closing?
    ensures Frame(s, WriterStep(config, s, n, wr).0, m)
  {
    if wr.phase.Opening? || wr.phase.Carrying? || wr.phase.Attaching? { CarryFrame(config, s, n, wr, m); }
  }

  /** The version a write is working on. */
  function WorkOf(phase: Phase): Option<VersionId> {
    match phase
    case Carrying(_, work) => Some(work)
    case Scanning(work) => Some(work)
    case Merging(work, _, _) => Some(work)
    case Attaching(work, _, _, _) => Some(work)
    case Touching(work) => Some(work)
    case _ => None
  }

  predicate SameKind(a: Version, b: Version) {
    a.node == b.node && a.state == b.state && a.chunkSize == b.chunkSize
  }

  /** Versions other than `work` stay as they are, `work` stays a staging version, and at most one version
      is new: an empty one being staged for `n`. */
  ghost predicate OnlyWork(s: State, t: State, n: NodeId, work: Option<VersionId>) {
    && t.nextNode == s.nextNode && s.nextVersion <= t.nextVersion
    && (forall v :: v in s.versions ==> v in t.versions && SameKind(s.versions[v], t.versions[v]))
    && (forall v :: v in s.versions && work != Some(v) ==> t.versions[v] == s.versions[v] && RowsOf(t, v) == RowsOf(s, v))
    && (forall v :: v in t.versions && v !in s.versions ==>
          v.id == s.nextVersion && t.versions[v].node == n && t.versions[v].state == Staging && RowsOf(t, v) == map[])
    && (forall m :: m in t.nodes <==> m in s.nodes)
    && (forall m :: m in s.nodes ==> t.nodes[m].current == s.nodes[m].current)
  }

  lemma CreateOnlyWork(s: State, n: NodeId, base: Option<VersionId>, chunkSize: int)
    requires VersionId(s.nextVersion) !in s.versions && n in s.nodes
    ensures OnlyWork(s, CreateStaging(s, n, base, chunkSize), n, None)
  {
  }

  lemma CopyOnlyWork(s: State, n: NodeId, from: VersionId, work: VersionId, last: int)
    ensures OnlyWork(s, CopyRows(s, from, work, 0, last), n, Some(work))
  {
  }

  lemma AttachOnlyWork(s: State, n: NodeId, work: VersionId, row: Row)
    requires work in s.chunks
    ensures OnlyWork(s, Attach(s, work, row), n, Some(work))
  {
  }

  lemma TouchOnlyWork(s: State, n: NodeId, work: VersionId, size: int)
    ensures OnlyWork(s, Touch(s, work, size), n, Some(work))
  {
  }

  lemma AsideOnlyWork(s: State, n: NodeId, work: Option<VersionId>, data: seq<byte>, size: int)
    ensures OnlyWork(s, s, n, work) && OnlyWork(s, Put(s, data), n, work)
    ensures n in s.nodes ==> OnlyWork(s, SetSize(s, n, size), n, work)
  {
  }

  lemma StepOnlyWork(config: int, s: State, n: NodeId, wr: Writer)
    requires StateOk(s) && Engaged(s, n, wr) && CanStep(s, n, wr) && !wr.phase.Closing?
    ensures OnlyWork(s, WriterStep(config, s, n, wr).0, n, WorkOf(wr.phase))
  {
    AsideOnlyWork(s, n, WorkOf(wr.phase), [], wr.NewSize());
    match wr.phase
    case Opening(base) => CreateOnlyWork(s, n, base, StagedChunkSize(config, s, base));
    case Carrying(base, work) =>
      if base.Some? { CopyOnlyWork(s, n, base.value, work, CeilDiv(wr.oldSize, ChunkSize(s.versions[work]))); }
    case Merging(work, todo, prior) =>
      if todo != [] {
        var cs := ChunkSize(s.versions[work]);
        AsideOnlyWork(s, n, Some(work), Merged(wr, todo[0] * cs, cs, Existing(s, prior, todo[0])), 0);
      }
    case Attaching(work, _, _, row) => AttachOnlyWork(s, n, work, row);
    case Touching(work) => TouchOnlyWork(s, n, work, wr.NewSize());
    case _ =>
  }

  lemma CommitsElsewhere(s: State, t: State, n: NodeId, v: VersionId, m: NodeId)
    requires LinksOk(s) && Commits(s, t, n, v) && s.versions[v].node == n && m != n
    ensures SameVersionsOf(s, t, m)
  {
    if s.nodes[n].current.Some? { assert CurrentOk(s, n, s.nodes[n].current.value); }
  }

  lemma CommitFrame(s: State, n: NodeId, m: NodeId)
    requires StateOk(s) && n in s.nodes && m != n
    ensures var t := CommitOpen(s, n);
            SameVersionsOf(s, t, m) && t.nodes.Keys == s.nodes.Keys && (m in s.nodes ==> t.nodes[m] == s.nodes[m]) && t.objects == s.objects
  {
    if v :| IsOpen(s, n, v) {
      CommitOpenIs(s, n, v);
      CommitIs(s, n, v);
      CommitsElsewhere(s, CommitOpen(s, n), n, v, m);
    }
  }

  lemma CommitOthers(s: State, n: NodeId, m: NodeId)
    requires StateOk(s) && n in s.nodes && m in s.nodes && m != n
    ensures var t := CommitOpen(s, n); m in t.nodes && View(t, m) == View(s, m)
  {
    CommitOpenStateOk(s, n);
    CommitFrame(s, n, m);
    OtherNode(s, CommitOpen(s, n), m);
  }

  // ----- the effect of a step on its own file -----

  /** An undisturbed write never fails. */
  lemma BusyCanStep(s: State, n: NodeId, f: seq<byte>, wr: Writer)
    requires StateOk(s) && n in s.nodes && Busy(s, n, f, wr)
    ensures Engaged(s, n, wr) && CanStep(s, n, wr)
  {
    var view := View(s, n);
    assert forall v :: v in view.staged <==> IsStagingOf(s, n, v);
    match wr.phase
    case Merging(work, todo, prior) =>
      if todo != [] && todo[0] in prior {
        assert view.staged[work].parts[todo[0]].data.Some?;
      }
    case _ =>
  }

  lemma OpeningStep(config: int, s: State, n: NodeId, f: seq<byte>, wr: Writer)
    requires StateOk(s) && n in s.nodes && Busy(s, n, f, wr) && CanStep(s, n, wr) && wr.phase.Opening?
    ensures var (t, next) := WriterStep(config, s, n, wr); n in t.nodes && Busy(t, n, f, next.value)
  {
    var base, w := wr.phase.base, VersionId(s.nextVersion);
    var t := CreateStaging(s, n, base, StagedChunkSize(config, s, base));
    var a, b := View(s, n), View(t, n);
    assert forall v :: IsStagingOf(t, n, v) ==> v == w by {
      assert forall v :: IsStagingOf(t, n, v) && v != w ==> v in a.staged;
    }
    assert b.staged.Keys == {w} && b.staged[w].parts == map[];
    assert b.current == a.current by {
      if base.Some? { assert ViewOf(t, base.value) == ViewOf(s, base.value); }
    }
  }

  /** The range copied at the start of a write is the whole committed manifest. */
  lemma CopiesAll(s: State, from: VersionId, to: VersionId, cs: int, size: nat)
    requires from != to && RowsOf(s, to) == map[] && PartsOk(PartsOf(s.objects, RowsOf(s, from)), cs, size)
    ensures RowsOf(CopyRows(s, from, to, 0, CeilDiv(size, cs)), to) == RowsOf(s, from)
  {
    var last := CeilDiv(size, cs);
    CeilDivBounds(size, cs);
    forall k | k in RowsOf(s, from)
      ensures 0 <= k <= last
    {
      assert PartOk(PartsOf(s.objects, RowsOf(s, from))[k], k, cs, size);
      if k > last { MulMono(last + 1, k, cs); }
    }
    if last < 0 { MulMono(last, 0, cs); }
  }

  lemma CarryingStep(config: int, s: State, n: NodeId, f: seq<byte>, wr: Writer)
    requires StateOk(s) && n in s.nodes && Busy(s, n, f, wr) && CanStep(s, n, wr) && wr.phase.Carrying?
    ensures var (t, next) := WriterStep(config, s, n, wr); n in t.nodes && Busy(t, n, f, next.value)
  {
    var (t, next) := WriterStep(config, s, n, wr);
    var base, w := wr.phase.base, wr.phase.work;
    var a, b := View(s, n), View(t, n);
    assert forall v :: IsStagingOf(t, n, v) <==> IsStagingOf(s, n, v);
    assert b.staged.Keys == a.staged.Keys;
    if base.Some? {
      assert a.staged[w].parts.Keys == RowsOf(s, w).Keys;
      CopiesAll(s, base.value, w, ChunkSize(s.versions[w]), wr.oldSize);
      assert b.staged[w].parts == a.current.value.parts;
    } else {
      assert b.staged[w].parts == map[];
    }
  }

  lemma ScanningStep(config: int, s: State, n: NodeId, f: seq<byte>, wr: Writer)
    requires StateOk(s) && n in s.nodes && Busy(s, n, f, wr) && CanStep(s, n, wr) && wr.phase.Scanning?
    ensures var (t, next) := WriterStep(config, s, n, wr); n in t.nodes && Busy(t, n, f, next.value)
  {
    var w := wr.phase.work;
    var v := View(s, n).staged[w];
    var cs := ChunkSize(v.rec);
    TouchedCovers(wr, cs);
    PartsOkWider(v.parts, cs, |f|, wr.NewSize());
    forall i: nat
      ensures ByteAt(v.parts, cs, i) == At(f, i)
    {
      HoldsEverywhere(v.parts, cs, f, i);
    }
  }

  lemma MergedPlain(wr: Writer, start: int, cs: int, prior: seq<byte>, f: seq<byte>)
    requires cs > 0 && 0 <= start <= wr.NewSize()
    requires forall j :: 0 <= j < cs ==> At(prior, j) == At(f, start + j)
    ensures PlainOk(Merged(wr, start, cs, prior), start, cs, f, wr)
  {
  }

  lemma PriorMerged(v: VersionView, f: seq<byte>, wr: Writer, todo: seq<int>, k: int)
    requires MergeOk(v, f, wr, todo) && k in todo && 0 <= k && 0 <= k * ChunkSize(v.rec) <= wr.NewSize()
    ensures var cs := ChunkSize(v.rec); PlainOk(Merged(wr, k * cs, cs, PriorData(v, k)), k * cs, cs, f, wr)
  {
    var cs := ChunkSize(v.rec);
    forall j | 0 <= j < cs ensures At(PriorData(v, k), j) == At(f, k * cs + j) {
      PriorBytes(v, f, wr, todo, k, j);
    }
    MergedPlain(wr, k * cs, cs, PriorData(v, k), f);
  }

  /** Sealing and storing the next part gets it ready to be attached. */
  lemma UploadPart(s: State, n: NodeId, f: seq<byte>, wr: Writer, plain: seq<byte>)
    requires StateOk(s) && n in s.nodes && Busy(s, n, f, wr) && wr.phase.Merging? && wr.phase.todo != []
    requires PlainOk(plain, wr.phase.todo[0] * ChunkSize(View(s, n).staged[wr.phase.work].rec),
                     ChunkSize(View(s, n).staged[wr.phase.work].rec), f, wr)
    ensures var k, cs := wr.phase.todo[0], ChunkSize(View(s, n).staged[wr.phase.work].rec);
            Busy(Put(s, plain), n, f, wr.(phase := Attaching(wr.phase.work, wr.phase.todo, wr.phase.prior,
                                                             Row(k, k * cs, |plain|, Digest(plain), ObjectId(s.nextObject)))))
  {
    SameAfterPut(s, n, plain);
    assert Put(s, plain).objects[ObjectId(s.nextObject)] == plain;
  }

  lemma MergingStep(config: int, s: State, n: NodeId, f: seq<byte>, wr: Writer)
    requires StateOk(s) && n in s.nodes && Busy(s, n, f, wr) && CanStep(s, n, wr) && wr.phase.Merging?
    ensures var (t, next) := WriterStep(config, s, n, wr); n in t.nodes && Busy(t, n, f, next.value)
  {
    if wr.phase.todo != [] {
      var v := View(s, n).staged[wr.phase.work];
      var k, cs := wr.phase.todo[0], ChunkSize(v.rec);
      assert PriorData(v, k) == Existing(s, wr.phase.prior, k);
      PriorMerged(v, f, wr, wr.phase.todo, k);
      UploadPart(s, n, f, wr, Merged(wr, k * cs, cs, PriorData(v, k)));
    }
  }

  lemma SameAfterPut(s: State, n: NodeId, data: seq<byte>)
    requires StateOk(s) && n in s.nodes
    ensures View(Put(s, data), n) == View(s, n)
  {
    var t := Put(s, data);
    forall v | Reaches(s, n, v)
      ensures ViewOf(s, v) == ViewOf(t, v)
    {
      PutKeepsParts(s, data, v);
    }
    SameView(s, t, n);
  }

  lemma AttachedView(s: State, n: NodeId, w: VersionId, row: Row)
    requires StateOk(s) && n in s.nodes && IsStagingOf(s, n, w) && row.obj in s.objects
    ensures var a := View(s, n);
            w in a.staged &&
            View(Attach(s, w, row), n) ==
            a.(staged := a.staged[w := a.staged[w].(parts := a.staged[w].parts[row.index := PartOf(s.objects, row)])])
  {
    var t, a := Attach(s, w, row), View(s, n);
    var b := View(t, n);
    assert forall v :: IsStagingOf(t, n, v) <==> IsStagingOf(s, n, v);
    assert b.staged.Keys == a.staged.Keys;
    assert forall v :: v in a.staged ==> v == w;
    assert b.staged[w].parts == a.staged[w].parts[row.index := PartOf(s.objects, row)];
  }

  lemma AttachBusy(a: NodeView, f: seq<byte>, wr: Writer, p: Part)
    requires BusyView(a, f, wr) && wr.phase.Attaching? && p.data.Some? && p.row == wr.phase.row
    requires var cs, k := ChunkSize(a.staged[wr.phase.work].rec), wr.phase.todo[0];
             && PlainOk(p.data.value, k * cs, cs, f, wr)
             && p.row == Row(k, k * cs, |p.data.value|, Digest(p.data.value), p.row.obj)
    ensures var w, todo := wr.phase.work, wr.phase.todo;
            var v := a.staged[w];
            BusyView(a.(staged := a.staged[w := v.(parts := v.parts[todo[0] := p])]), f,
                     wr.(phase := Merging(w, todo[1..], wr.phase.prior)))
  {
    var w, todo := wr.phase.work, wr.phase.todo;
    AttachMixed(a.staged[w], f, wr, todo, p);
    assert forall k :: k in todo[1..] ==> k in todo && k != todo[0];
  }

  lemma AttachingStep(config: int, s: State, n: NodeId, f: seq<byte>, wr: Writer)
    requires StateOk(s) && n in s.nodes && Busy(s, n, f, wr) && CanStep(s, n, wr) && wr.phase.Attaching?
    ensures var (t, next) := WriterStep(config, s, n, wr); n in t.nodes && Busy(t, n, f, next.value)
  {
    assert wr.phase.work in View(s, n).staged;
    AttachedView(s, n, wr.phase.work, wr.phase.row);
    AttachBusy(View(s, n), f, wr, PartOf(s.objects, wr.phase.row));
  }

  lemma TouchedView(s: State, n: NodeId, w: VersionId, size: int)
    requires n in s.nodes && IsStagingOf(s, n, w) && s.nodes[n].current != Some(w)
    ensures var a := View(s, n);
            w in a.staged &&
            View(Touch(s, w, size), n) ==
            a.(staged := a.staged[w := a.staged[w].(rec := s.versions[w].(size := size, createdAt := s.now))])
  {
    var t, a := Touch(s, w, size), View(s, n);
    assert forall v :: IsStagingOf(t, n, v) <==> IsStagingOf(s, n, v);
    assert View(t, n).staged.Keys == a.staged.Keys;
  }

  lemma TouchBusy(a: NodeView, f: seq<byte>, wr: Writer, now: Time)
    requires BusyView(a, f, wr) && wr.phase.Touching?
    ensures var w := wr.phase.work; var v := a.staged[w];
            BusyView(a.(staged := a.staged[w := v.(rec := v.rec.(size := wr.NewSize(), createdAt := now))]), f, wr.(phase := Resizing))
  {
    var w := wr.phase.work;
    var v := a.staged[w];
    var after := v.(rec := v.rec.(size := wr.NewSize(), createdAt := now));
    AllMerged(v, f, wr);
    assert VersionHolds(after, FlatWrite(f, wr.offset, wr.body));
    assert a.staged[w := after].Keys == {w};
  }

  lemma TouchingStep(config: int, s: State, n: NodeId, f: seq<byte>, wr: Writer)
    requires StateOk(s) && n in s.nodes && Busy(s, n, f, wr) && wr.phase.Touching?
    ensures var (t, next) := WriterStep(config, s, n, wr); n in t.nodes && Busy(t, n, f, next.value)
  {
    assert wr.phase.work in View(s, n).staged;
    if s.nodes[n].current.Some? { assert CurrentOk(s, n, s.nodes[n].current.value); }
    TouchedView(s, n, wr.phase.work, wr.NewSize());
    TouchBusy(View(s, n), f, wr, s.now);
  }

  lemma ResizingStep(config: int, s: State, n: NodeId, f: seq<byte>, wr: Writer)
    requires StateOk(s) && n in s.nodes && Busy(s, n, f, wr) && wr.phase.Resizing?
    ensures var (t, next) := WriterStep(config, s, n, wr); n in t.nodes && Busy(t, n, f, next.value)
  {
    var t, a := SetSize(s, n, wr.NewSize()), View(s, n);
    assert forall v :: IsStagingOf(t, n, v) <==> IsStagingOf(s, n, v);
    assert View(t, n).staged == a.staged && View(t, n).current == a.current;
  }

  /** Committing changes nothing a reader can see. */
  lemma CommitKeepsQuiet(s: State, n: NodeId, f: seq<byte>)
    requires StateOk(s) && n in s.nodes && Quiet(View(s, n), f)
    ensures var t := CommitOpen(s, n); n in t.nodes && Quiet(View(t, n), f) && View(t, n).staged == map[]
  {
    var a, t := View(s, n), CommitOpen(s, n);
    if v :| IsOpen(s, n, v) {
      CommitOpenIs(s, n, v);
      assert v in a.staged;
      assert forall u :: !IsStagingOf(t, n, u) by {
        assert forall u :: IsStagingOf(t, n, u) ==> IsStagingOf(s, n, u) && u != v;
      }
      assert View(t, n).current.value.parts == a.staged[v].parts;
    } else {
      assert forall u :: u in a.staged ==> !IsOpen(s, n, u);
      if u :| u in a.staged {
        OpenIsUnique(s, n, u);
      }
    }
  }

  /** Each step of a write keeps its invariant; the last one leaves the flat-file write. */
  lemma StepBusy(config: int, s: State, n: NodeId, f: seq<byte>, wr: Writer)
    requires StateOk(s) && n in s.nodes && Busy(s, n, f, wr) && CanStep(s, n, wr)
    ensures var (t, next) := WriterStep(config, s, n, wr);
            n in t.nodes && if next.Some? then Busy(t, n, f, next.value)
                            else Quiet(View(t, n), FlatWrite(f, wr.offset, wr.body))
  {
    match wr.phase
    case Opening(_) => OpeningStep(config, s, n, f, wr);
    case Carrying(_, _) => CarryingStep(config, s, n, f, wr);
    case Scanning(_) => ScanningStep(config, s, n, f, wr);
    case Merging(_, _, _) => MergingStep(config, s, n, f, wr);
    case Attaching(_, _, _, _) => AttachingStep(config, s, n, f, wr);
    case Touching(_) => TouchingStep(config, s, n, f, wr);
    case Resizing => ResizingStep(config, s, n, f, wr);
    case Closing => CommitKeepsQuiet(s, n, FlatWrite(f, wr.offset, wr.body));
  }
}
