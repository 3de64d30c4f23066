/** Writers, deletions and the garbage collector's sweep, interleaved step by step.

    The file lock is the `writers` map: one write per file at a time. A sweep is a snapshot, then for
    each doomed object a delete from the store followed by forgetting its rows, then the purge and the
    size correction; any number of other steps may fall in between, a sweep may stop anywhere, and a
    write may stop anywhere.

    Two guards say that no write works on a version the collector already counts as abandoned: a
    write or sync only starts on an open version touched since the latest cutoff, and a sweep does not
    start with a cutoff later than the last touch of a version being written. */
module Interleaving {
  import opened Bytes
  import opened Records
  import opened Files
  import opened WriteSteps

  datatype Sweep = Idle | Sweeping(cutoff: Time, doomed: set<ObjectId>, gone: Option<ObjectId>)

  /** `horizon` is the latest cutoff of any sweep so far. `disturbed` collects the files whose write
      was cut off or left open past a cutoff: their contents are not promised. */
  datatype System = System(repo: State, writers: map<NodeId, Writer>, sweep: Sweep, horizon: Time,
                           disturbed: set<NodeId>)

  datatype Step =
    | Create(kind: Kind)
    | Delete(n: NodeId)
    | Begin(n: NodeId, offset: nat, body: seq<byte>)
    | Advance(n: NodeId)
    | Abort(n: NodeId)
    | Sync(n: NodeId)
    | Snapshot(cutoff: Time, doomed: set<ObjectId>)
    | Remove(o: ObjectId)
    | Keep(o: ObjectId)
    | Forget
    | Purge
    | Reconcile
    | StopSweep
    | Tick(now: Time)

  ghost predicate Fresh(s: State, n: NodeId, cutoff: Time) {
    forall v :: IsStagingOf(s, n, v) ==> s.versions[v].createdAt >= cutoff
  }

  ghost predicate Enabled(sys: System, step: Step) {
    var s := sys.repo;
    match step
    case Create(_) => true
    case Delete(n) => n in s.nodes
    case Begin(n, _, body) =>
      n in s.nodes && s.nodes[n].kind == File && n !in sys.writers && body != [] && Fresh(s, n, sys.horizon)
    case Advance(n) => n in sys.writers && CanStep(s, n, sys.writers[n])
    case Abort(n) => n in sys.writers
    case Sync(n) => n in s.nodes && n !in sys.writers && Fresh(s, n, sys.horizon)
    case Snapshot(cutoff, doomed) =>
      && sys.sweep.Idle? && cutoff <= s.now
      && (forall o :: o in doomed ==> IsCollectable(s, cutoff, o))
      && (forall n :: n in sys.writers ==> Fresh(s, n, cutoff))
    case Remove(o) => sys.sweep.Sweeping? && sys.sweep.gone.None? && o in sys.sweep.doomed
    case Keep(o) => sys.sweep.Sweeping? && sys.sweep.gone.None? && o in sys.sweep.doomed
    case Forget => sys.sweep.Sweeping? && sys.sweep.gone.Some?
    case Purge => sys.sweep.Sweeping?
    case Reconcile => sys.sweep.Sweeping?
    case StopSweep => true
    case Tick(now) => now >= s.now
  }

  ghost function Next(config: int, sys: System, step: Step): System
    requires Enabled(sys, step)
  {
    var s := sys.repo;
    match step
    case Create(kind) => sys.(repo := CreateNode(s, kind))
    case Delete(n) => sys.(repo := DeleteNode(s, n))
    case Begin(n, offset, body) =>
      sys.(writers := sys.writers[n := StartWriter(s, n, offset, body)])
    case Advance(n) =>
      var (t, next) := WriterStep(config, s, n, sys.writers[n]);
      sys.(repo := t, writers := if next.Some? then sys.writers[n := next.value] else sys.writers - {n})
    case Abort(n) => sys.(writers := sys.writers - {n}, disturbed := sys.disturbed + {n})
    case Sync(n) => sys.(repo := CommitOpen(s, n))
    case Snapshot(cutoff, doomed) =>
      sys.(sweep := Sweeping(cutoff, doomed, None), horizon := Max(sys.horizon, cutoff),
           disturbed := sys.disturbed + set n | n in s.nodes && !Fresh(s, n, cutoff))
    case Remove(o) => sys.(repo := RemoveObject(s, o), sweep := sys.sweep.(gone := Some(o)))
    case Keep(o) => sys.(sweep := sys.sweep.(doomed := sys.sweep.doomed - {o}))
    case Forget =>
      var o := sys.sweep.gone.value;
      sys.(repo := ForgetObject(s, o), sweep := sys.sweep.(doomed := sys.sweep.doomed - {o}, gone := None))
    case Purge => sys.(repo := PurgeVersions(s, sys.sweep.cutoff))
    case Reconcile => sys.(repo := ReconcileSizes(s))
    case StopSweep => sys.(sweep := Idle)
    case Tick(now) => sys.(repo := s.(now := now))
  }

  // ----- safety of the collector -----

  function Doomed(sys: System): set<ObjectId> {
    if sys.sweep.Idle? then {} else sys.sweep.doomed
  }

  /** A version whose bytes an existing file may still need. */
  predicate Needed(s: State, horizon: Time, v: VersionId) {
    && v in s.versions && s.versions[v].node in s.nodes
    && (IsCurrent(s, v) || (s.versions[v].state == Staging && s.versions[v].createdAt >= horizon))
  }

  ghost predicate Stored(s: State, horizon: Time, doomed: set<ObjectId>) {
    forall v, k :: Needed(s, horizon, v) && k in RowsOf(s, v) ==>
      RowsOf(s, v)[k].obj in s.objects && RowsOf(s, v)[k].obj !in doomed
  }

  ghost predicate WriterSafe(s: State, horizon: Time, doomed: set<ObjectId>, n: NodeId, wr: Writer) {
    && n.id < s.nextNode && Engaged(s, n, wr) && Fresh(s, n, horizon)
    && (wr.phase.Attaching? ==> wr.phase.row.obj !in doomed && Unreferenced(s, wr.phase.row.obj))
  }

  ghost predicate Unreferenced(s: State, o: ObjectId) {
    forall v, k :: v in s.chunks && k in s.chunks[v] ==> s.chunks[v][k].obj != o
  }

  predicate Holding(writers: map<NodeId, Writer>, n: NodeId) {
    n in writers && writers[n].phase.Attaching?
  }

  /** No two writers wait to attach the same object. */
  ghost predicate DistinctUploads(writers: map<NodeId, Writer>) {
    forall m, n :: Holding(writers, m) && Holding(writers, n) && m != n ==>
      writers[m].phase.row.obj != writers[n].phase.row.obj
  }

  ghost predicate WritersSafe(s: State, horizon: Time, doomed: set<ObjectId>, writers: map<NodeId, Writer>) {
    forall n :: n in writers ==> WriterSafe(s, horizon, doomed, n, writers[n])
  }

  ghost predicate Safe(sys: System) {
    var s := sys.repo;
    && StateOk(s)
    && sys.horizon <= s.now
    && (sys.sweep.Sweeping? ==> sys.sweep.cutoff <= sys.horizon)
    && (forall o :: o in Doomed(sys) ==> o.id < s.nextObject)
    && (sys.sweep.Sweeping? && sys.sweep.gone.Some? ==> sys.sweep.gone.value in sys.sweep.doomed)
    && Stored(s, sys.horizon, Doomed(sys))
    && WritersSafe(s, sys.horizon, Doomed(sys), sys.writers)
    && DistinctUploads(sys.writers)
  }

  /** What a writer relies on survives any step that leaves its open version and its object alone. */
  lemma EngagedFrame(s: State, t: State, n: NodeId, wr: Writer)
    requires Engaged(s, n, wr)
    requires n in t.nodes ==> n in s.nodes && s.nodes[n].current == t.nodes[n].current
    requires forall v :: IsStagingOf(t, n, v) ==> IsStagingOf(s, n, v)
    requires forall v :: IsStagingOf(s, n, v) ==> IsStagingOf(t, n, v) && s.versions[v].chunkSize == t.versions[v].chunkSize
    requires wr.phase.Attaching? ==> wr.phase.row.obj in t.objects
    ensures Engaged(t, n, wr)
  {
  }

  ghost predicate SubRows(t: State, s: State, v: VersionId) {
    forall k :: k in RowsOf(t, v) ==> k in RowsOf(s, v) && RowsOf(t, v)[k] == RowsOf(s, v)[k]
  }

  lemma StoredFrame(s: State, t: State, horizon: Time, horizon': Time, doomed: set<ObjectId>, doomed': set<ObjectId>)
    requires Stored(s, horizon, doomed)
    requires forall v :: Needed(t, horizon', v) ==> Needed(s, horizon, v) && SubRows(t, s, v)
    requires doomed' <= doomed && forall o :: o in s.objects && o !in doomed ==> o in t.objects
    ensures Stored(t, horizon', doomed')
  {
    forall v, k | Needed(t, horizon', v) && k in RowsOf(t, v)
      ensures RowsOf(t, v)[k].obj in t.objects && RowsOf(t, v)[k].obj !in doomed'
    {
      assert Needed(s, horizon, v) && k in RowsOf(s, v);
    }
  }

  /** A new repository state and a new writer for one file fit together with everything else. */
  lemma Assemble(sys: System, t: State, writers: map<NodeId, Writer>, n: NodeId)
    requires Safe(sys) && StateOk(t) && Stored(t, sys.horizon, Doomed(sys))
    requires t.now >= sys.repo.now && sys.repo.nextObject <= t.nextObject
    requires forall m :: m in writers && m != n ==> m in sys.writers && writers[m] == sys.writers[m]
    requires WritersSafe(t, sys.horizon, Doomed(sys), writers)
    requires Holding(writers, n) ==> (n in sys.writers && writers[n] == sys.writers[n]) || writers[n].phase.row.obj.id >= sys.repo.nextObject
    ensures Safe(sys.(repo := t, writers := writers))
  {
    StillDistinct(sys.repo, sys.horizon, Doomed(sys), sys.writers, writers, n);
  }

  lemma StillDistinct(s: State, horizon: Time, doomed: set<ObjectId>, before: map<NodeId, Writer>,
                      after: map<NodeId, Writer>, n: NodeId)
    requires StateOk(s) && WritersSafe(s, horizon, doomed, before) && DistinctUploads(before)
    requires forall m :: m in after && m != n ==> m in before && after[m] == before[m]
    requires Holding(after, n) ==> (n in before && after[n] == before[n]) || after[n].phase.row.obj.id >= s.nextObject
    ensures DistinctUploads(after)
  {
    forall m | Holding(before, m) ensures before[m].phase.row.obj.id < s.nextObject {
      assert WriterSafe(s, horizon, doomed, m, before[m]);
    }
    assert forall m :: Holding(after, m) && m != n ==> Holding(before, m);
  }

  /** A step that leaves versions, rows and objects alone and adds no current version. */
  lemma BystanderSafe(sys: System, t: State)
    requires Safe(sys) && StateOk(t) && t.now >= sys.repo.now
    requires t.versions == sys.repo.versions && t.chunks == sys.repo.chunks && t.objects == sys.repo.objects
    requires t.nextObject == sys.repo.nextObject && t.nextNode >= sys.repo.nextNode
    requires forall n :: n in t.nodes ==>
               (n in sys.repo.nodes && t.nodes[n].current == sys.repo.nodes[n].current) || n.id >= sys.repo.nextNode
    ensures Safe(sys.(repo := t))
  {
    var s := sys.repo;
    assert forall m, v :: IsStagingOf(t, m, v) <==> IsStagingOf(s, m, v);
    forall n | n in sys.writers ensures WriterSafe(t, sys.horizon, Doomed(sys), n, sys.writers[n]) {
      assert WriterSafe(s, sys.horizon, Doomed(sys), n, sys.writers[n]);
      EngagedFrame(s, t, n, sys.writers[n]);
    }
    StoredFrame(s, t, sys.horizon, sys.horizon, Doomed(sys), Doomed(sys));
    Assemble(sys, t, sys.writers, NodeId(s.nextNode));
  }

  lemma CreateSafe(config: int, sys: System, kind: Kind)
    requires Safe(sys)
    ensures Safe(Next(config, sys, Create(kind)))
  {
    var t := CreateNode(sys.repo, kind);
    assert forall m, v :: IsStagingOf(t, m, v) ==> IsStagingOf(sys.repo, m, v);
    BystanderSafe(sys, t);
  }

  lemma DeleteSafe(config: int, sys: System, n: NodeId)
    requires Safe(sys) && n in sys.repo.nodes
    ensures Safe(Next(config, sys, Delete(n)))
  {
    var t := DeleteNode(sys.repo, n);
    assert forall m, v :: IsStagingOf(t, m, v) ==> IsStagingOf(sys.repo, m, v);
    BystanderSafe(sys, t);
  }

  lemma TickSafe(config: int, sys: System, now: Time)
    requires Safe(sys) && Enabled(sys, Tick(now))
    ensures Safe(Next(config, sys, Tick(now)))
  {
    var t := sys.repo.(now := now);
    assert forall m, v :: IsStagingOf(t, m, v) ==> IsStagingOf(sys.repo, m, v);
    BystanderSafe(sys, t);
  }

  lemma OpenOfStaging(s: State, n: NodeId)
    requires StateOk(s)
    ensures OpenOf(s, n).Some? ==> IsStagingOf(s, n, OpenOf(s, n).value)
    ensures OpenOf(s, n).None? ==> forall v :: !IsStagingOf(s, n, v)
  {
    if v :| IsStagingOf(s, n, v) {
      OpenIsUnique(s, n, v);
      assert IsOpen(s, n, v);
    }
  }

  lemma BeginSafe(config: int, sys: System, step: Step)
    requires Safe(sys) && step.Begin? && Enabled(sys, step)
    ensures Safe(Next(config, sys, step))
  {
    OpenOfStaging(sys.repo, step.n);
    var writers := Next(config, sys, step).writers;
    assert WriterSafe(sys.repo, sys.horizon, Doomed(sys), step.n, writers[step.n]);
    Assemble(sys, sys.repo, writers, step.n);
  }

  lemma SnapshotSafe(config: int, sys: System, step: Step)
    requires Safe(sys) && step.Snapshot? && Enabled(sys, step)
    ensures Safe(Next(config, sys, step))
  {
    var s, next := sys.repo, Next(config, sys, step);
    forall v, k | Needed(s, next.horizon, v) && k in RowsOf(s, v)
      ensures RowsOf(s, v)[k].obj in s.objects && RowsOf(s, v)[k].obj !in step.doomed
    {
      assert Needed(s, sys.horizon, v);
      assert Live(s, step.cutoff, v);
      assert Refers(s, v, RowsOf(s, v)[k].obj);
    }
    forall o | o in step.doomed ensures o.id < s.nextObject {
      assert IsCollectable(s, step.cutoff, o);
    }
    forall n | Holding(sys.writers, n) ensures sys.writers[n].phase.row.obj !in step.doomed {
      assert WriterSafe(s, sys.horizon, Doomed(sys), n, sys.writers[n]);
      assert Unreferenced(s, sys.writers[n].phase.row.obj);
      assert sys.writers[n].phase.row.obj in step.doomed ==> IsCollectable(s, step.cutoff, sys.writers[n].phase.row.obj);
    }
  }

  /** A collector step: no node, no needed version and no object outside the doomed set is touched. */
  ghost predicate Collects(s: State, t: State, horizon: Time, doomed: set<ObjectId>) {
    && StateOk(t)
    && t.now == s.now && t.nextNode == s.nextNode && t.nextObject == s.nextObject
    && t.nodes.Keys == s.nodes.Keys
    && (forall n :: n in s.nodes ==> t.nodes[n].current == s.nodes[n].current)
    && (forall v :: v in t.versions ==> v in s.versions && t.versions[v] == s.versions[v] && SubRows(t, s, v))
    && (forall v :: v in t.versions ==> KeepsRows(s, t, doomed, v))
    && (forall v :: v in s.versions && s.versions[v].state == Staging && s.versions[v].createdAt >= horizon ==> v in t.versions)
    && (forall o :: o in s.objects && o !in doomed ==> o in t.objects)
    && (forall o :: o in t.objects ==> o in s.objects && t.objects[o] == s.objects[o])
  }

  ghost predicate KeepsRows(s: State, t: State, doomed: set<ObjectId>, v: VersionId) {
    forall k :: k in RowsOf(s, v) && RowsOf(s, v)[k].obj !in doomed ==> k in RowsOf(t, v)
  }

  lemma CollectSafe(sys: System, t: State, doomed': set<ObjectId>, gone': Option<ObjectId>)
    requires Safe(sys) && sys.sweep.Sweeping? && Collects(sys.repo, t, sys.horizon, sys.sweep.doomed)
    requires doomed' <= sys.sweep.doomed && (gone'.Some? ==> gone'.value in doomed')
    ensures Safe(sys.(repo := t, sweep := sys.sweep.(doomed := doomed', gone := gone')))
  {
    var s := sys.repo;
    assert forall m, v :: IsStagingOf(t, m, v) ==> IsStagingOf(s, m, v);
    forall n | n in sys.writers
      ensures WriterSafe(t, sys.horizon, doomed', n, sys.writers[n])
    {
      EngagedFrame(s, t, n, sys.writers[n]);
      assert forall v, k :: v in t.chunks && k in t.chunks[v] ==> k in RowsOf(t, v) && SubRows(t, s, v);
    }
    StoredFrame(s, t, sys.horizon, sys.horizon, sys.sweep.doomed, doomed');
  }

  lemma RemoveCollects(s: State, o: ObjectId, horizon: Time, doomed: set<ObjectId>)
    requires StateOk(s) && o in doomed
    ensures Collects(s, RemoveObject(s, o), horizon, doomed)
  {
    assert forall m, v :: IsStagingOf(RemoveObject(s, o), m, v) ==> IsStagingOf(s, m, v);
  }

  lemma ForgetRows(s: State, o: ObjectId, doomed: set<ObjectId>, v: VersionId)
    requires o in doomed
    ensures SubRows(ForgetObject(s, o), s, v) && KeepsRows(s, ForgetObject(s, o), doomed, v)
  {
  }

  lemma ForgetStateOk(s: State, o: ObjectId)
    requires StateOk(s)
    ensures StateOk(ForgetObject(s, o))
  {
    assert forall m, v :: IsStagingOf(ForgetObject(s, o), m, v) ==> IsStagingOf(s, m, v);
  }

  lemma ForgetCollects(s: State, o: ObjectId, horizon: Time, doomed: set<ObjectId>)
    requires StateOk(s) && o in doomed
    ensures Collects(s, ForgetObject(s, o), horizon, doomed)
  {
    ForgetStateOk(s, o);
    forall v ensures SubRows(ForgetObject(s, o), s, v) && KeepsRows(s, ForgetObject(s, o), doomed, v) {
      ForgetRows(s, o, doomed, v);
    }
  }

  lemma PurgeStateOk(s: State, cutoff: Time)
    requires StateOk(s)
    ensures StateOk(PurgeVersions(s, cutoff))
  {
    var t := PurgeVersions(s, cutoff);
    assert forall m, v :: IsStagingOf(t, m, v) ==> IsStagingOf(s, m, v);
    forall n | n in s.nodes && s.nodes[n].current.Some?
      ensures CurrentOk(t, n, s.nodes[n].current.value)
    {
      assert CurrentOk(s, n, s.nodes[n].current.value) && IsCurrent(s, s.nodes[n].current.value);
    }
  }

  lemma PurgeCollects(s: State, cutoff: Time, horizon: Time, doomed: set<ObjectId>)
    requires StateOk(s) && cutoff <= horizon
    ensures Collects(s, PurgeVersions(s, cutoff), horizon, doomed)
  {
    PurgeStateOk(s, cutoff);
  }

  lemma ReconcileCollects(s: State, horizon: Time, doomed: set<ObjectId>)
    requires StateOk(s)
    ensures Collects(s, ReconcileSizes(s), horizon, doomed)
  {
    assert forall m, v :: IsStagingOf(ReconcileSizes(s), m, v) ==> IsStagingOf(s, m, v);
  }

  // ----- a writer's step keeps the collector safe -----

  /** Every row after a writer's step was there before, was carried over from the node's committed
      version, or is the one row being attached. */
  lemma StepRows(config: int, s: State, n: NodeId, wr: Writer, v: VersionId, k: int)
    requires StateOk(s) && Engaged(s, n, wr) && CanStep(s, n, wr)
    requires k in RowsOf(WriterStep(config, s, n, wr).0, v)
    ensures var row := RowsOf(WriterStep(config, s, n, wr).0, v)[k];
            || (k in RowsOf(s, v) && row == RowsOf(s, v)[k])
            || (wr.phase.Carrying? && v == wr.phase.work && wr.phase.base.Some? &&
                k in RowsOf(s, wr.phase.base.value) && row == RowsOf(s, wr.phase.base.value)[k])
            || (wr.phase.Attaching? && v == wr.phase.work && row == wr.phase.row)
  {
    if wr.phase.Closing? {
      if u :| IsOpen(s, n, u) { CommitOpenIs(s, n, u); }
    }
  }

  /** Nothing becomes needed by a writer's step except the version it has just created. */
  lemma StepNeeded(config: int, s: State, n: NodeId, wr: Writer, horizon: Time, v: VersionId)
    requires StateOk(s) && Engaged(s, n, wr) && CanStep(s, n, wr) && Fresh(s, n, horizon)
    requires Needed(WriterStep(config, s, n, wr).0, horizon, v)
    ensures Needed(s, horizon, v) || (wr.phase.Opening? && v.id == s.nextVersion)
  {
    if wr.phase.Closing? && wr.Crosses() {
      if u :| IsOpen(s, n, u) { CommitOpenIs(s, n, u); }
    }
  }

  lemma AdvanceStored(config: int, s: State, n: NodeId, wr: Writer, horizon: Time, doomed: set<ObjectId>)
    requires StateOk(s) && WriterSafe(s, horizon, doomed, n, wr) && CanStep(s, n, wr) && Stored(s, horizon, doomed)
    ensures Stored(WriterStep(config, s, n, wr).0, horizon, doomed)
  {
    var t := WriterStep(config, s, n, wr).0;
    assert forall o :: o in s.objects ==> o in t.objects by { StepObjects(config, s, n, wr); }
    forall v, k | Needed(t, horizon, v) && k in RowsOf(t, v)
      ensures RowsOf(t, v)[k].obj in t.objects && RowsOf(t, v)[k].obj !in doomed
    {
      StepNeeded(config, s, n, wr, horizon, v);
      StepRows(config, s, n, wr, v, k);
      if Needed(s, horizon, v) && wr.phase.Carrying? && v == wr.phase.work && wr.phase.base.Some? {
        assert n in s.nodes;
        assert CurrentOk(s, n, wr.phase.base.value);
        assert Needed(s, horizon, wr.phase.base.value);
      }
    }
  }

  lemma SyncKeeps(s: State, n: NodeId)
    requires StateOk(s) && n in s.nodes
    ensures var t := CommitOpen(s, n);
            && t.chunks == s.chunks && t.objects == s.objects && t.now == s.now
            && t.nextNode == s.nextNode && t.nextObject == s.nextObject
  {
    if v :| IsOpen(s, n, v) { CommitOpenIs(s, n, v); }
  }

  lemma StepObjects(config: int, s: State, n: NodeId, wr: Writer)
    requires StateOk(s) && Engaged(s, n, wr) && CanStep(s, n, wr)
    ensures var t := WriterStep(config, s, n, wr).0;
            GrowsObjects(s, t) && s.nextObject <= t.nextObject && t.now == s.now && t.nextNode == s.nextNode
  {
    if wr.phase.Closing? { SyncKeeps(s, n); }
  }

  /** Nobody else's row comes to name an object that waits to be attached. */
  lemma StillUnreferenced(config: int, s: State, n: NodeId, wr: Writer, o: ObjectId)
    requires StateOk(s) && Engaged(s, n, wr) && CanStep(s, n, wr) && Unreferenced(s, o)
    requires wr.phase.Attaching? ==> wr.phase.row.obj != o
    ensures Unreferenced(WriterStep(config, s, n, wr).0, o)
  {
    var t := WriterStep(config, s, n, wr).0;
    forall v, k | v in t.chunks && k in t.chunks[v] ensures t.chunks[v][k].obj != o {
      StepRows(config, s, n, wr, v, k);
      assert RowsOf(t, v)[k] == t.chunks[v][k];
    }
  }

  /** Another file's writer is not affected. */
  lemma AdvanceOthers(config: int, s: State, n: NodeId, wr: Writer, horizon: Time, doomed: set<ObjectId>, m: NodeId,
                      other: Writer)
    requires StateOk(s) && WriterSafe(s, horizon, doomed, n, wr) && CanStep(s, n, wr)
    requires m != n && WriterSafe(s, horizon, doomed, m, other)
    requires wr.phase.Attaching? && other.phase.Attaching? ==> wr.phase.row.obj != other.phase.row.obj
    ensures WriterSafe(WriterStep(config, s, n, wr).0, horizon, doomed, m, other)
  {
    var t := WriterStep(config, s, n, wr).0;
    StepObjects(config, s, n, wr);
    if wr.phase.Closing? { CommitFrame(s, n, m); } else { StepFrame(config, s, n, wr, m); }
    assert forall v :: IsStagingOf(t, m, v) ==> IsStagingOf(s, m, v);
    EngagedFrame(s, t, m, other);
    if other.phase.Attaching? { StillUnreferenced(config, s, n, wr, other.phase.row.obj); }
  }

  lemma AdvanceOwn(config: int, s: State, n: NodeId, wr: Writer, horizon: Time, doomed: set<ObjectId>)
    requires StateOk(s) && WriterSafe(s, horizon, doomed, n, wr) && CanStep(s, n, wr) && horizon <= s.now
    requires forall o :: o in doomed ==> o.id < s.nextObject
    ensures var (t, next) := WriterStep(config, s, n, wr); next.Some? ==> WriterSafe(t, horizon, doomed, n, next.value)
  {
    StepEngaged(config, s, n, wr);
  }

  lemma AdvanceSafe(config: int, sys: System, n: NodeId)
    requires Safe(sys) && Enabled(sys, Advance(n))
    ensures Safe(Next(config, sys, Advance(n)))
  {
    var s, wr, doomed := sys.repo, sys.writers[n], Doomed(sys);
    var (t, after) := WriterStep(config, s, n, wr);
    var writers := if after.Some? then sys.writers[n := after.value] else sys.writers - {n};
    StepStateOk(config, s, n, wr);
    StepObjects(config, s, n, wr);
    AdvanceStored(config, s, n, wr, sys.horizon, doomed);
    AdvanceOwn(config, s, n, wr, sys.horizon, doomed);
    forall m | m in writers && m != n
      ensures WriterSafe(t, sys.horizon, doomed, m, writers[m])
    {
      AdvanceOthers(config, s, n, wr, sys.horizon, doomed, m, sys.writers[m]);
    }
    Assemble(sys, t, writers, n);
  }

  lemma SyncStored(s: State, n: NodeId, horizon: Time, doomed: set<ObjectId>)
    requires StateOk(s) && n in s.nodes && Fresh(s, n, horizon) && Stored(s, horizon, doomed)
    ensures Stored(CommitOpen(s, n), horizon, doomed)
  {
    var t := CommitOpen(s, n);
    if v :| IsOpen(s, n, v) { CommitOpenIs(s, n, v); }
    assert forall v :: Needed(t, horizon, v) ==> Needed(s, horizon, v) && SubRows(t, s, v);
    StoredFrame(s, t, horizon, horizon, doomed, doomed);
  }

  lemma SyncSafe(config: int, sys: System, n: NodeId)
    requires Safe(sys) && Enabled(sys, Sync(n))
    ensures Safe(Next(config, sys, Sync(n)))
  {
    var s, t := sys.repo, CommitOpen(sys.repo, n);
    CommitOpenStateOk(s, n);
    SyncStored(s, n, sys.horizon, Doomed(sys));
    SyncKeeps(s, n);
    forall m | m in sys.writers
      ensures WriterSafe(t, sys.horizon, Doomed(sys), m, sys.writers[m])
    {
      CommitFrame(s, n, m);
      assert forall v :: IsStagingOf(t, m, v) ==> IsStagingOf(s, m, v);
      EngagedFrame(s, t, m, sys.writers[m]);
    }
    Assemble(sys, t, sys.writers, n);
  }

  /** Every step of every interleaving keeps the collector safe. */
  lemma StepSafe(config: int, sys: System, step: Step)
    requires Safe(sys) && Enabled(sys, step)
    ensures Safe(Next(config, sys, step))
  {
    match step
    case Create(kind) => CreateSafe(config, sys, kind);
    case Delete(n) => DeleteSafe(config, sys, n);
    case Begin(_, _, _) => BeginSafe(config, sys, step);
    case Advance(n) => AdvanceSafe(config, sys, n);
    case Sync(n) => SyncSafe(config, sys, n);
    case Snapshot(_, _) => SnapshotSafe(config, sys, step);
    case Remove(o) =>
      RemoveCollects(sys.repo, o, sys.horizon, sys.sweep.doomed);
      CollectSafe(sys, RemoveObject(sys.repo, o), sys.sweep.doomed, Some(o));
    case Forget =>
      ForgetCollects(sys.repo, sys.sweep.gone.value, sys.horizon, sys.sweep.doomed);
      CollectSafe(sys, ForgetObject(sys.repo, sys.sweep.gone.value), sys.sweep.doomed - {sys.sweep.gone.value}, None);
    case Purge =>
      PurgeCollects(sys.repo, sys.sweep.cutoff, sys.horizon, sys.sweep.doomed);
      CollectSafe(sys, PurgeVersions(sys.repo, sys.sweep.cutoff), sys.sweep.doomed, sys.sweep.gone);
    case Reconcile =>
      ReconcileCollects(sys.repo, sys.horizon, sys.sweep.doomed);
      CollectSafe(sys, ReconcileSizes(sys.repo), sys.sweep.doomed, sys.sweep.gone);
    case Tick(now) => TickSafe(config, sys, now);
    case Abort(_) => QuietStepSafe(config, sys, step);
    case Keep(_) => QuietStepSafe(config, sys, step);
    case StopSweep => QuietStepSafe(config, sys, step);
  }

  lemma QuietStepSafe(config: int, sys: System, step: Step)
    requires Safe(sys) && Enabled(sys, step) && (step.Abort? || step.Keep? || step.StopSweep?)
    ensures Safe(Next(config, sys, step))
  {
    var next := Next(config, sys, step);
    StoredFrame(sys.repo, sys.repo, sys.horizon, sys.horizon, Doomed(sys), Doomed(next));
  }

  // ----- runs -----

  ghost predicate Legal(config: int, sys: System, run: seq<Step>)
    decreases |run|
  {
    run == [] || (Enabled(sys, run[0]) && Legal(config, Next(config, sys, run[0]), run[1..]))
  }

  ghost function Run(config: int, sys: System, run: seq<Step>): System
    requires Legal(config, sys, run)
    decreases |run|
  {
    if run == [] then sys else Run(config, Next(config, sys, run[0]), run[1..])
  }

  lemma RunCons(config: int, sys: System, step: Step, rest: seq<Step>)
    requires Enabled(sys, step) && Legal(config, Next(config, sys, step), rest)
    ensures Legal(config, sys, [step] + rest) && Run(config, sys, [step] + rest) == Run(config, Next(config, sys, step), rest)
  {
    assert ([step] + rest)[1..] == rest;
  }

  lemma {:induction false} RunCat(config: int, sys: System, a: seq<Step>, b: seq<Step>)
    requires Legal(config, sys, a) && Legal(config, Run(config, sys, a), b)
    ensures Legal(config, sys, a + b) && Run(config, sys, a + b) == Run(config, Run(config, sys, a), b)
    decreases |a|
  {
    if a == [] {
      assert a + b == b;
    } else {
      RunCat(config, Next(config, sys, a[0]), a[1..], b);
      RunCons(config, sys, a[0], a[1..] + b);
      assert a + b == [a[0]] + (a[1..] + b);
    }
  }

  lemma {:induction false} RunSafe(config: int, sys: System, run: seq<Step>)
    requires Safe(sys) && Legal(config, sys, run)
    ensures Safe(Run(config, sys, run))
    decreases |run|
  {
    if run != [] {
      StepSafe(config, sys, run[0]);
      RunSafe(config, Next(config, sys, run[0]), run[1..]);
    }
  }

  const EMPTY: State := State(map[], map[], map[], map[], 0, 0, 0, 0)

  const START: System := System(EMPTY, map[], Idle, 0, {})

  /** No interleaving of writes, syncs, deletes and sweeps, cut off anywhere, ever takes an object
      away from the current version of an existing file. */
  lemma NoObjectLost(config: int, run: seq<Step>, n: NodeId, v: VersionId, k: int)
    requires Legal(config, START, run)
    requires var s := Run(config, START, run).repo;
             n in s.nodes && s.nodes[n].current == Some(v) && k in RowsOf(s, v)
    ensures var s := Run(config, START, run).repo; RowsOf(s, v)[k].obj in s.objects
  {
    RunSafe(config, START, run);
    var sys := Run(config, START, run);
    assert CurrentOk(sys.repo, n, v);
    assert Needed(sys.repo, sys.horizon, v);
  }
}
