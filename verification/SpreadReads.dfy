/** A read as the server makes it: the node, the open version, the version record and the rows are looked
    up one after the other and the parts are fetched afterwards, each at a point of its own in a run of
    writers, syncs, deletions and sweeps. */
module SpreadReads {
  import opened Bytes
  import opened Records
  import opened Files
  import opened WriteSteps
  import opened Interleaving
  import opened FlatFiles
  import opened Immutability
  import opened Stitching

  // ----- points of a run -----

  /** The system after the first `i` steps. */
  ghost function Point(config: int, sys: System, run: seq<Step>, i: nat): System
    requires Legal(config, sys, run) && i <= |run|
    decreases i
  {
    if i == 0 then sys else Point(config, Next(config, sys, run[0]), run[1..], i - 1)
  }

  ghost function At(config: int, run: seq<Step>, i: nat): System
    requires Legal(config, START, run) && i <= |run|
  {
    Point(config, START, run, i)
  }

  lemma {:induction false} PointNext(config: int, sys: System, run: seq<Step>, i: nat)
    requires Legal(config, sys, run) && i < |run|
    ensures Enabled(Point(config, sys, run, i), run[i])
    ensures Point(config, sys, run, i + 1) == Next(config, Point(config, sys, run, i), run[i])
    decreases i
  {
    if i > 0 { PointNext(config, Next(config, sys, run[0]), run[1..], i - 1); }
  }

  lemma {:induction false} PointSafe(config: int, sys: System, run: seq<Step>, i: nat)
    requires Legal(config, sys, run) && i <= |run| && Safe(sys)
    ensures Safe(Point(config, sys, run, i))
    decreases i
  {
    if i > 0 {
      StepSafe(config, sys, run[0]);
      PointSafe(config, Next(config, sys, run[0]), run[1..], i - 1);
    }
  }

  /** One step of a run from a safe system. */
  lemma AtNext(config: int, run: seq<Step>, i: nat)
    requires Legal(config, START, run) && i < |run|
    ensures Safe(At(config, run, i)) && Enabled(At(config, run, i), run[i])
    ensures At(config, run, i + 1) == Next(config, At(config, run, i), run[i])
  {
    PointNext(config, START, run, i);
    PointSafe(config, START, run, i);
  }

  // ----- the lookups -----

  /** What a read knows once it has its rows. */
  datatype Lookup =
    | Refused(error: IoError)
    | Nothing
    | Rows(v: VersionId, committed: bool, cs: int, from: nat, len: nat, rows: Manifest)

  /** The bytes asked for that a file of this size has. */
  function Extent(size: int, offset: Option<nat>, want: Option<nat>): (r: Option<(nat, nat)>)
    ensures r.Some? ==> r.value.1 > 0
  {
    var from, end := if offset.Some? then offset.value else 0, Max(size, 0);
    var len := Min(if want.Some? then want.value else end - from, end - from);
    if from >= end || len == 0 then None else Some((from, len))
  }

  ghost function LookUp(node: State, open: State, version: State, rows: State, n: NodeId, offset: Option<nat>, size: Option<nat>)
    : (r: Lookup)
    ensures r.Rows? ==> r.cs > 0 && r.len > 0
  {
    if n !in node.nodes then Refused(NoSuchNode)
    else if node.nodes[n].kind == Directory then Refused(IsDirectory)
    else
      match Extent(node.nodes[n].size, offset, size)
      case None => Nothing
      case Some((from, len)) =>
        if OpenOf(open, n).Some? && OpenOf(open, n).value in open.versions then
          Listed(open, rows, OpenOf(open, n).value, false, from, len)
        else if node.nodes[n].current.None? then Nothing
        else if node.nodes[n].current.value !in version.versions then Refused(Unreadable)
        else Listed(version, rows, node.nodes[n].current.value, true, from, len)
  }

  /** The rows of the range, for a version whose record was read from `version`. */
  function Listed(version: State, rows: State, v: VersionId, committed: bool, from: nat, len: nat): Lookup
    requires v in version.versions && len > 0
  {
    var cs := ChunkSize(version.versions[v]);
    if v !in rows.chunks then Refused(Unreadable)
    else Rows(v, committed, cs, from, len, InRange(rows.chunks[v], from / cs, (from + len - 1) / cs))
  }

  /** When all lookups happen at one moment the read is the read of that moment. */
  lemma AtOnce(s: State, n: NodeId, offset: Option<nat>, size: Option<nat>)
    requires StateOk(s)
    ensures match LookUp(s, s, s, s, n, offset, size)
            case Refused(error) => ReadBytes(s, n, offset, size) == Err(error)
            case Nothing => ReadBytes(s, n, offset, size) == Ok(([], true))
            case Rows(v, committed, cs, from, len, rows) =>
              && cs > 0 && v in s.versions
              && ReadBytes(s, n, offset, size) == Ok((BytesOf(ViewOf(s, v).parts, cs, from, len), committed))
              && (forall k :: k in rows ==> k in RowsOf(s, v) && rows[k] == RowsOf(s, v)[k])
  {
    OpenOfStaging(s, n);
    if n in s.nodes && s.nodes[n].current.Some? { assert CurrentOk(s, n, s.nodes[n].current.value); }
  }

  /** Where in a run a read made its lookups. */
  datatype Points = Points(node: nat, open: nat, version: nat, rows: nat)
  {
    predicate Within(n: nat) { node <= open <= version <= rows <= n }
  }

  ghost function LookUpAt(config: int, run: seq<Step>, p: Points, n: NodeId, offset: Option<nat>, size: Option<nat>): Lookup
    requires Legal(config, START, run) && p.Within(|run|)
  {
    LookUp(At(config, run, p.node).repo, At(config, run, p.open).repo, At(config, run, p.version).repo, At(config, run, p.rows).repo, n, offset, size)
  }

  /** A read of one file: where its lookups fell, what it asked for, and where the part of each row was fetched. */
  datatype Read = Read(p: Points, offset: Option<nat>, size: Option<nat>, at: map<int, nat>)

  ghost function Found(config: int, run: seq<Step>, n: NodeId, r: Read): Lookup
    requires Legal(config, START, run) && r.p.Within(|run|)
  {
    LookUpAt(config, run, r.p, n, r.offset, r.size)
  }

  /** Every row the read listed is fetched at some point after that. */
  ghost predicate Made(config: int, run: seq<Step>, n: NodeId, r: Read) {
    && Legal(config, START, run) && r.p.Within(|run|)
    && (Found(config, run, n, r).Rows? ==> Fetches(r, Found(config, run, n, r).rows, |run|))
  }

  ghost predicate Fetches(r: Read, rows: Manifest, end: nat) {
    (forall k :: k in r.at <==> k in rows) && forall k :: k in r.at ==> r.p.rows <= r.at[k] <= end
  }

  /** The parts it gets, those whose objects are gone without their bytes. */
  ghost function Fetched(config: int, run: seq<Step>, n: NodeId, r: Read): Parts
    requires Made(config, run, n, r) && Found(config, run, n, r).Rows?
  {
    var rows := Found(config, run, n, r).rows;
    map k | k in rows :: PartOf(At(config, run, r.at[k]).repo.objects, rows[k])
  }

  /** What the read answers. */
  ghost function Answer(config: int, run: seq<Step>, n: NodeId, r: Read): Result<(seq<byte>, bool), IoError>
    requires Made(config, run, n, r)
  {
    match Found(config, run, n, r)
    case Refused(error) => Err(error)
    case Nothing => Ok(([], true))
    case Rows(v, committed, cs, from, len, rows) =>
      var parts := Fetched(config, run, n, r);
      if AnyBlocked(parts, Span(from, len, cs)) then Err(Unreadable) else Ok((BytesOf(parts, cs, from, len), committed))
  }

  /** The read returns bytes of a version. */
  ghost predicate Returns(config: int, run: seq<Step>, n: NodeId, r: Read) {
    Made(config, run, n, r) && Found(config, run, n, r).Rows? && Answer(config, run, n, r).Ok?
  }

  /** The bytes it returns. */
  ghost function Got(config: int, run: seq<Step>, n: NodeId, r: Read): seq<byte>
    requires Returns(config, run, n, r)
  {
    Answer(config, run, n, r).value.0
  }

  // ----- objects never change -----

  /** If the object is there at all, it holds `data`. */
  predicate Frozen(s: State, o: ObjectId, data: seq<byte>) {
    o.id < s.nextObject && (o in s.objects ==> s.objects[o] == data)
  }

  lemma StepFrozen(config: int, sys: System, step: Step, o: ObjectId, data: seq<byte>)
    requires Safe(sys) && Enabled(sys, step) && Frozen(sys.repo, o, data)
    ensures Frozen(Next(config, sys, step).repo, o, data)
  {
    match step
    case Advance(n) =>
      assert WriterSafe(sys.repo, sys.horizon, Doomed(sys), n, sys.writers[n]);
      StepObjects(config, sys.repo, n, sys.writers[n]);
    case Sync(n) => SyncKeeps(sys.repo, n);
    case _ =>
  }

  /** Nothing in a run gives an object other bytes, not even after it is gone. */
  lemma {:induction false} ObjectsNeverChange(config: int, run: seq<Step>, i: nat, j: nat, o: ObjectId, data: seq<byte>)
    requires Legal(config, START, run) && i <= j <= |run| && Frozen(At(config, run, i).repo, o, data)
    ensures Frozen(At(config, run, j).repo, o, data)
    decreases j - i
  {
    if i < j {
      ObjectsNeverChange(config, run, i, j - 1, o, data);
      AtNext(config, run, j - 1);
      StepFrozen(config, At(config, run, j - 1), run[j - 1], o, data);
    }
  }

  lemma GoneForGood(config: int, run: seq<Step>, i: nat, j: nat, o: ObjectId)
    requires Legal(config, START, run) && i <= j <= |run|
    requires o.id < At(config, run, i).repo.nextObject && o !in At(config, run, i).repo.objects
    ensures o !in At(config, run, j).repo.objects
  {
    ObjectsNeverChange(config, run, i, j, o, []);
    ObjectsNeverChange(config, run, i, j, o, [0]);
  }

  /** A part fetched later is the part as it was, unless its object has gone. */
  lemma FetchedIsThen(config: int, run: seq<Step>, i: nat, j: nat, row: Row)
    requires Legal(config, START, run) && i <= j <= |run| && row.obj.id < At(config, run, i).repo.nextObject
    ensures var now := PartOf(At(config, run, j).repo.objects, row);
            now.data.Some? ==> now == PartOf(At(config, run, i).repo.objects, row)
  {
    var s := At(config, run, i).repo;
    if row.obj in s.objects { ObjectsNeverChange(config, run, i, j, row.obj, s.objects[row.obj]); } else { GoneForGood(config, run, i, j, row.obj); }
  }

  // ----- rows say how long their objects are -----

  ghost predicate Sized(s: State) {
    forall v, k :: v in s.chunks && k in s.chunks[v] && s.chunks[v][k].obj in s.objects ==>
      s.chunks[v][k].size == |s.objects[s.chunks[v][k].obj]|
  }

  ghost predicate WriterSized(s: State, wr: Writer) {
    wr.phase.Attaching? && wr.phase.row.obj in s.objects ==> wr.phase.row.size == |s.objects[wr.phase.row.obj]|
  }

  ghost predicate AllSized(sys: System) {
    Sized(sys.repo) && forall n :: n in sys.writers ==> WriterSized(sys.repo, sys.writers[n])
  }

  lemma AdvanceSized(config: int, s: State, n: NodeId, wr: Writer)
    requires StateOk(s) && Engaged(s, n, wr) && CanStep(s, n, wr) && Sized(s) && WriterSized(s, wr)
    ensures Sized(WriterStep(config, s, n, wr).0)
  {
    var t := WriterStep(config, s, n, wr).0;
    StepObjects(config, s, n, wr);
    forall v, k | v in t.chunks && k in t.chunks[v] && t.chunks[v][k].obj in t.objects
      ensures t.chunks[v][k].size == |t.objects[t.chunks[v][k].obj]|
    {
      assert RowsOf(t, v)[k] == t.chunks[v][k];
      StepRows(config, s, n, wr, v, k);
    }
  }

  lemma WriterStaysSized(config: int, s: State, n: NodeId, wr: Writer)
    requires StateOk(s) && Engaged(s, n, wr) && CanStep(s, n, wr)
    ensures var (t, next) := WriterStep(config, s, n, wr); next.Some? ==> WriterSized(t, next.value)
  {
  }

  lemma AdvanceAllSized(config: int, sys: System, n: NodeId)
    requires Safe(sys) && AllSized(sys) && Enabled(sys, Advance(n))
    ensures AllSized(Next(config, sys, Advance(n)))
  {
    var s, wr, next := sys.repo, sys.writers[n], Next(config, sys, Advance(n));
    assert WriterSafe(s, sys.horizon, Doomed(sys), n, wr);
    AdvanceSized(config, s, n, wr);
    WriterStaysSized(config, s, n, wr);
    StepObjects(config, s, n, wr);
    forall m | m in next.writers ensures WriterSized(next.repo, next.writers[m]) {
      if m != n { assert WriterSafe(s, sys.horizon, Doomed(sys), m, sys.writers[m]) && WriterSized(s, sys.writers[m]); }
    }
  }

  lemma StepAllSized(config: int, sys: System, step: Step)
    requires Safe(sys) && AllSized(sys) && Enabled(sys, step)
    ensures AllSized(Next(config, sys, step))
  {
    match step
    case Advance(n) => AdvanceAllSized(config, sys, n);
    case Sync(n) => if v :| IsOpen(sys.repo, n, v) { CommitOpenIs(sys.repo, n, v); }
    case _ =>
  }

  /** In every run each row says how long its object is. */
  lemma {:induction false} RowsAreSized(config: int, run: seq<Step>, i: nat)
    requires Legal(config, START, run) && i <= |run|
    ensures AllSized(At(config, run, i))
    decreases i
  {
    if i > 0 {
      RowsAreSized(config, run, i - 1);
      AtNext(config, run, i - 1);
      StepAllSized(config, At(config, run, i - 1), run[i - 1]);
    }
  }

  // ----- the manifest of a committed version only loses rows -----

  /** No longer, and never again, a version being written. */
  predicate Finished(s: State, v: VersionId) {
    v.id < s.nextVersion && (v in s.versions ==> s.versions[v].state != Staging)
  }

  ghost predicate OnlyLoses(s: State, t: State, v: VersionId) {
    SubRows(t, s, v) && (v in t.versions ==> v in s.versions && t.versions[v].chunkSize == s.versions[v].chunkSize)
  }

  lemma CommitLosesNothing(s: State, m: NodeId, v: VersionId)
    requires StateOk(s) && m in s.nodes && Finished(s, v)
    ensures Finished(CommitOpen(s, m), v) && OnlyLoses(s, CommitOpen(s, m), v)
  {
    if u :| IsOpen(s, m, u) { CommitOpenIs(s, m, u); }
  }

  lemma WriterLeavesFinished(config: int, s: State, m: NodeId, wr: Writer, v: VersionId)
    requires StateOk(s) && Engaged(s, m, wr) && CanStep(s, m, wr) && Finished(s, v)
    ensures var t := WriterStep(config, s, m, wr).0; Finished(t, v) && OnlyLoses(s, t, v)
  {
    if wr.phase.Closing? {
      CommitLosesNothing(s, m, v);
    } else {
      StepOnlyWork(config, s, m, wr);
      StepStateOk(config, s, m, wr);
      OnlyWorkLeaves(s, WriterStep(config, s, m, wr).0, m, WorkOf(wr.phase), v);
    }
  }

  lemma OnlyWorkLeaves(s: State, t: State, m: NodeId, work: Option<VersionId>, v: VersionId)
    requires IdsOk(s) && IdsOk(t) && OnlyWork(s, t, m, work) && Finished(s, v)
    requires work.Some? ==> IsStagingOf(s, m, work.value)
    ensures Finished(t, v) && OnlyLoses(s, t, v)
  {
  }

  lemma StepLoses(config: int, sys: System, step: Step, v: VersionId)
    requires Safe(sys) && Enabled(sys, step) && Finished(sys.repo, v)
    ensures Finished(Next(config, sys, step).repo, v) && OnlyLoses(sys.repo, Next(config, sys, step).repo, v)
  {
    match step
    case Advance(m) =>
      assert WriterSafe(sys.repo, sys.horizon, Doomed(sys), m, sys.writers[m]);
      WriterLeavesFinished(config, sys.repo, m, sys.writers[m], v);
    case Sync(m) => CommitLosesNothing(sys.repo, m, v);
    case _ =>
  }

  lemma {:induction false} RowsOnlyLost(config: int, run: seq<Step>, i: nat, j: nat, v: VersionId)
    requires Legal(config, START, run) && i <= j <= |run| && Finished(At(config, run, i).repo, v)
    ensures Finished(At(config, run, j).repo, v) && OnlyLoses(At(config, run, i).repo, At(config, run, j).repo, v)
    decreases j - i
  {
    if i < j {
      RowsOnlyLost(config, run, i, j - 1, v);
      AtNext(config, run, j - 1);
      StepLoses(config, At(config, run, j - 1), run[j - 1], v);
    }
  }

  // ----- when two committed reads agree -----

  /** A read flagged committed, of version `v`. */
  ghost predicate ReadsCommitted(config: int, run: seq<Step>, n: NodeId, v: VersionId, r: Read) {
    Returns(config, run, n, r) && Found(config, run, n, r).committed && Found(config, run, n, r).v == v
  }

  lemma AtSafe(config: int, run: seq<Step>, i: nat)
    requires Legal(config, START, run) && i <= |run|
    ensures Safe(At(config, run, i))
  {
    PointSafe(config, START, run, i);
  }

  /** Such a version was current when the node was read, so it was finished from then on. */
  lemma CommittedFinished(config: int, run: seq<Step>, n: NodeId, v: VersionId, r: Read)
    requires ReadsCommitted(config, run, n, v, r)
    ensures Current(At(config, run, r.p.node).repo, n, v)
    ensures Finished(At(config, run, r.p.node).repo, v) && v in At(config, run, r.p.node).repo.versions
    ensures v in At(config, run, r.p.version).repo.versions
    ensures Found(config, run, n, r).cs == ChunkSize(At(config, run, r.p.version).repo.versions[v])
  {
    AtSafe(config, run, r.p.node);
    assert CurrentOk(At(config, run, r.p.node).repo, n, v);
  }

  lemma SameChunkSize(config: int, run: seq<Step>, v: VersionId, i: nat, j: nat)
    requires Legal(config, START, run) && i <= |run| && j <= |run|
    requires v in At(config, run, i).repo.versions && v in At(config, run, j).repo.versions
    requires Finished(At(config, run, i).repo, v) && Finished(At(config, run, j).repo, v)
    ensures At(config, run, i).repo.versions[v].chunkSize == At(config, run, j).repo.versions[v].chunkSize
  {
    if i <= j { RowsOnlyLost(config, run, i, j, v); } else { RowsOnlyLost(config, run, j, i, v); }
  }

  /** The row a read lists for part `k` is the manifest's. */
  lemma ListedRow(config: int, run: seq<Step>, n: NodeId, r: Read, k: int)
    requires Returns(config, run, n, r)
    ensures var f, s := Found(config, run, n, r), At(config, run, r.p.rows).repo;
            && f.cs > 0 && f.len > 0 && f.v in s.chunks
            && (k in f.rows <==> k in s.chunks[f.v] && f.from / f.cs <= k <= (f.from + f.len - 1) / f.cs)
            && (k in f.rows ==> f.rows[k] == s.chunks[f.v][k])
  {
  }

  /** Whether byte `i` is one the read returns. */
  ghost predicate Covers(config: int, run: seq<Step>, n: NodeId, r: Read, i: nat)
    requires Returns(config, run, n, r)
  {
    var f := Found(config, run, n, r);
    f.from <= i < f.from + f.len
  }

  ghost function GotAt(config: int, run: seq<Step>, n: NodeId, r: Read, i: nat): byte
    requires Returns(config, run, n, r) && Covers(config, run, n, r, i)
  {
    Got(config, run, n, r)[i - Found(config, run, n, r).from]
  }

  /** The read found the row of byte `i`. */
  ghost predicate HasRow(config: int, run: seq<Step>, n: NodeId, r: Read, i: nat)
    requires Returns(config, run, n, r)
  {
    var f := Found(config, run, n, r);
    f.cs > 0 && i / f.cs in RowsOf(At(config, run, r.p.rows).repo, f.v)
  }

  /** Byte `i` of a version, as its rows and their objects spell it out at a point of the run. */
  ghost function Spelled(config: int, run: seq<Step>, j: nat, v: VersionId, cs: int, i: nat): byte
    requires Legal(config, START, run) && j <= |run| && cs > 0
  {
    var s := At(config, run, j).repo;
    ByteAt(PartsOf(s.objects, RowsOf(s, v)), cs, i)
  }

  lemma InSpan(span: Span, i: nat)
    requires span.Ok() && span.offset <= i < span.offset + span.size
    ensures span.First() <= i / span.cs <= span.Last() && i % span.cs >= span.WantFrom(i / span.cs)
  {
    DivMono(span.offset, i, span.cs);
    DivMono(i, span.offset + span.size - 1, span.cs);
    DivMod(i, span.cs);
  }

  /** The byte that comes out of a row: of its object if that is still there, or one past its end. */
  lemma RowByte(config: int, run: seq<Step>, n: NodeId, r: Read, i: nat)
    requires Returns(config, run, n, r) && Covers(config, run, n, r, i)
    ensures var f := Found(config, run, n, r);
            && f.cs > 0 && (HasRow(config, run, n, r, i) <==> i / f.cs in f.rows)
            && (if HasRow(config, run, n, r, i) then
                  var part := PartOf(At(config, run, r.at[i / f.cs]).repo.objects, f.rows[i / f.cs]);
                  if part.data.Some? then GotAt(config, run, n, r, i) == Bytes.At(part.data.value, i % f.cs)
                  else GotAt(config, run, n, r, i) == 0 && i % f.cs >= f.rows[i / f.cs].size
                else GotAt(config, run, n, r, i) == 0)
  {
    var f := Found(config, run, n, r);
    ListedRow(config, run, n, r, i / f.cs);
    InSpan(Span(f.from, f.len, f.cs), i);
    var parts := Fetched(config, run, n, r);
    assert GotAt(config, run, n, r, i) == ByteAt(parts, f.cs, i);
    if i / f.cs in f.rows && parts[i / f.cs].data.None? { assert !Blocked(parts, Span(f.from, f.len, f.cs), i / f.cs); }
  }

  /** Whatever happens while the parts are fetched, a read that succeeds returns the bytes the version
      spelled out when its rows were listed. */
  lemma GotIsThen(config: int, run: seq<Step>, n: NodeId, r: Read, i: nat)
    requires Returns(config, run, n, r) && Covers(config, run, n, r, i)
    ensures var f := Found(config, run, n, r);
            f.cs > 0 && GotAt(config, run, n, r, i) == Spelled(config, run, r.p.rows, f.v, f.cs, i)
  {
    var f, s := Found(config, run, n, r), At(config, run, r.p.rows).repo;
    RowByte(config, run, n, r, i);
    var k := i / f.cs;
    if k in f.rows {
      ListedRow(config, run, n, r, k);
      AtSafe(config, run, r.p.rows);
      RowsAreSized(config, run, r.p.rows);
      FetchedIsThen(config, run, r.p.rows, r.at[k], f.rows[k]);
    }
  }

  /** The bytes of a version in a range, as its rows and their objects spell them out at a point of the run. */
  ghost function SpelledOut(config: int, run: seq<Step>, j: nat, v: VersionId, cs: int, from: nat, len: nat): seq<byte>
    requires Legal(config, START, run) && j <= |run| && cs > 0
  {
    var s := At(config, run, j).repo;
    BytesOf(PartsOf(s.objects, RowsOf(s, v)), cs, from, len)
  }

  lemma GotAllThen(config: int, run: seq<Step>, n: NodeId, r: Read)
    requires Returns(config, run, n, r)
    ensures var f := Found(config, run, n, r);
            f.cs > 0 && Got(config, run, n, r) == SpelledOut(config, run, r.p.rows, f.v, f.cs, f.from, f.len)
  {
    var f := Found(config, run, n, r);
    var got, spelled := Got(config, run, n, r), SpelledOut(config, run, r.p.rows, f.v, f.cs, f.from, f.len);
    assert |got| == f.len;
    forall j | 0 <= j < f.len ensures got[j] == spelled[j] {
      var i := f.from + j;
      assert Covers(config, run, n, r, i);
      GotIsThen(config, run, n, r, i);
      assert GotAt(config, run, n, r, i) == got[j] && Spelled(config, run, r.p.rows, f.v, f.cs, i) == spelled[j];
    }
  }

  lemma SameRow(config: int, run: seq<Step>, n: NodeId, v: VersionId, a: Read, b: Read, k: int)
    requires ReadsCommitted(config, run, n, v, a) && ReadsCommitted(config, run, n, v, b) && a.p.rows <= b.p.rows
    requires k in Found(config, run, n, a).rows && k in Found(config, run, n, b).rows
    ensures Found(config, run, n, a).rows[k] == Found(config, run, n, b).rows[k]
    ensures Found(config, run, n, a).rows[k].obj.id < At(config, run, a.p.rows).repo.nextObject
  {
    CommittedFinished(config, run, n, v, a);
    RowsOnlyLost(config, run, a.p.node, a.p.rows, v);
    RowsOnlyLost(config, run, a.p.rows, b.p.rows, v);
    AtSafe(config, run, a.p.rows);
    ListedRow(config, run, n, a, k);
    ListedRow(config, run, n, b, k);
    assert k in RowsOf(At(config, run, b.p.rows).repo, v);
  }

  /** An object that is there both times holds the same bytes; one gone by then leaves a byte past its end. */
  lemma BothFound(config: int, run: seq<Step>, n: NodeId, v: VersionId, a: Read, b: Read, i: nat)
    requires ReadsCommitted(config, run, n, v, a) && ReadsCommitted(config, run, n, v, b) && a.p.rows <= b.p.rows
    requires Covers(config, run, n, a, i) && Covers(config, run, n, b, i)
    requires Found(config, run, n, a).cs == Found(config, run, n, b).cs
    requires HasRow(config, run, n, a, i) && HasRow(config, run, n, b, i)
    ensures GotAt(config, run, n, a, i) == GotAt(config, run, n, b, i)
  {
    var f := Found(config, run, n, a);
    RowByte(config, run, n, a, i);
    RowByte(config, run, n, b, i);
    GotIsThen(config, run, n, a, i);
    var k := i / f.cs;
    SameRow(config, run, n, v, a, b, k);
    ListedRow(config, run, n, a, k);
    RowsAreSized(config, run, a.p.rows);
    FetchedIsThen(config, run, a.p.rows, b.at[k], f.rows[k]);
  }

  lemma SameSize(config: int, run: seq<Step>, n: NodeId, v: VersionId, a: Read, b: Read)
    requires ReadsCommitted(config, run, n, v, a) && ReadsCommitted(config, run, n, v, b)
    ensures Found(config, run, n, a).cs == Found(config, run, n, b).cs
  {
    CommittedFinished(config, run, n, v, a);
    CommittedFinished(config, run, n, v, b);
    RowsOnlyLost(config, run, a.p.node, a.p.version, v);
    RowsOnlyLost(config, run, b.p.node, b.p.version, v);
    SameChunkSize(config, run, v, a.p.version, b.p.version);
  }

  /** Two reads flagged committed and served from one version agree on a byte exactly if both found its row
      or neither did, or the version held a zero there when the one that found the row listed it: only a row
      forgotten between the two lookups can come between them. */
  lemma CommittedReadsAgreeExactly(config: int, run: seq<Step>, n: NodeId, v: VersionId, a: Read, b: Read, i: nat)
    requires ReadsCommitted(config, run, n, v, a) && ReadsCommitted(config, run, n, v, b)
    requires Covers(config, run, n, a, i) && Covers(config, run, n, b, i)
    ensures Found(config, run, n, a).cs > 0
    ensures GotAt(config, run, n, a, i) == GotAt(config, run, n, b, i) <==>
            || (HasRow(config, run, n, a, i) <==> HasRow(config, run, n, b, i))
            || Spelled(config, run, if HasRow(config, run, n, a, i) then a.p.rows else b.p.rows, v, Found(config, run, n, a).cs, i) == 0
  {
    SameSize(config, run, n, v, a, b);
    RowByte(config, run, n, a, i);
    RowByte(config, run, n, b, i);
    GotIsThen(config, run, n, a, i);
    GotIsThen(config, run, n, b, i);
    if HasRow(config, run, n, a, i) && HasRow(config, run, n, b, i) {
      if a.p.rows <= b.p.rows { BothFound(config, run, n, v, a, b, i); } else { BothFound(config, run, n, v, b, a, i); }
    }
  }

  // ----- a guard the caller can check -----

  lemma {:induction false} PointRun(config: int, sys: System, run: seq<Step>, j: nat)
    requires Legal(config, sys, run) && j <= |run|
    ensures Legal(config, sys, run[..j]) && Run(config, sys, run[..j]) == Point(config, sys, run, j)
    decreases j
  {
    if j > 0 {
      PointRun(config, Next(config, sys, run[0]), run[1..], j - 1);
      assert run[..j][1..] == run[1..][..j - 1];
    }
  }

  lemma SliceShift(run: seq<Step>, i: nat, j: nat)
    requires 0 < i <= j <= |run|
    ensures run[1..][i - 1..j - 1] == run[i..j]
  {
  }

  lemma {:induction false} PointSegment(config: int, sys: System, run: seq<Step>, i: nat, j: nat)
    requires Legal(config, sys, run) && i <= j <= |run|
    ensures Legal(config, Point(config, sys, run, i), run[i..j])
    ensures Run(config, Point(config, sys, run, i), run[i..j]) == Point(config, sys, run, j)
    decreases i
  {
    if i == 0 {
      PointRun(config, sys, run, j);
      assert run[..j] == run[0..j];
    } else {
      PointSegment(config, Next(config, sys, run[0]), run[1..], i - 1, j - 1);
      SliceShift(run, i, j);
    }
  }

  lemma CurrentKeepsRows(config: int, run: seq<Step>, n: NodeId, v: VersionId, i: nat, j: nat)
    requires Legal(config, START, run) && i <= j <= |run|
    requires Current(At(config, run, i).repo, n, v) && Current(At(config, run, j).repo, n, v)
    ensures v in At(config, run, i).repo.versions && v in At(config, run, j).repo.versions
    ensures ViewOf(At(config, run, i).repo, v) == ViewOf(At(config, run, j).repo, v)
  {
    AtSafe(config, run, i);
    PointSegment(config, START, run, i, j);
    RunKeepsCurrent(config, At(config, run, i), run[i..j], n, v);
  }

  /** Two reads flagged committed, served from one version that was still current when each of them listed
      its rows, agree on every byte they share, wherever their other lookups and their fetches fell. */
  lemma CommittedReadsAgree(config: int, run: seq<Step>, n: NodeId, v: VersionId, a: Read, b: Read, i: nat)
    requires ReadsCommitted(config, run, n, v, a) && ReadsCommitted(config, run, n, v, b)
    requires Covers(config, run, n, a, i) && Covers(config, run, n, b, i)
    requires Current(At(config, run, a.p.rows).repo, n, v) && Current(At(config, run, b.p.rows).repo, n, v)
    ensures GotAt(config, run, n, a, i) == GotAt(config, run, n, b, i)
  {
    if a.p.rows <= b.p.rows {
      CurrentKeepsRows(config, run, n, v, a.p.rows, b.p.rows);
    } else {
      CurrentKeepsRows(config, run, n, v, b.p.rows, a.p.rows);
    }
    SameSize(config, run, n, v, a, b);
    var s, t := At(config, run, a.p.rows).repo, At(config, run, b.p.rows).repo;
    assert ViewOf(s, v).parts.Keys == RowsOf(s, v).Keys && ViewOf(t, v).parts.Keys == RowsOf(t, v).Keys;
    var k := i / Found(config, run, n, a).cs;
    assert k in RowsOf(s, v).Keys <==> k in RowsOf(t, v).Keys;
    CommittedReadsAgreeExactly(config, run, n, v, a, b, i);
  }
}
