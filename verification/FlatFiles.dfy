/** The whole server is a map of flat files.

    Whatever writes, syncs, deletions and collector steps are interleaved, a file that no write was
    cut off on reads as the zero-extended byte array its completed writes produce. */
module FlatFiles {
  import opened Bytes
  import opened Records
  import opened Files
  import opened WriteSteps
  import opened Interleaving

  type Disk = map<NodeId, seq<byte>>

  /** The specification: a write takes effect as a whole when it completes, nothing else has any. */
  function FlatStep(sys: System, disk: Disk, step: Step): Disk {
    match step
    case Create(kind) => disk[NodeId(sys.repo.nextNode) := []]
    case Advance(n) =>
      if n in sys.writers && sys.writers[n].phase.Closing? && n in disk then
        disk[n := FlatWrite(disk[n], sys.writers[n].offset, sys.writers[n].body)]
      else disk
    case _ => disk
  }

  predicate Promised(sys: System, n: NodeId) {
    n in sys.repo.nodes && sys.repo.nodes[n].kind == File && n !in sys.disturbed
  }

  ghost predicate FileOk(sys: System, disk: Disk, n: NodeId)
    requires n in sys.repo.nodes
  {
    && n in disk && Fresh(sys.repo, n, sys.horizon)
    && if n in sys.writers then Busy(sys.repo, n, disk[n], sys.writers[n]) else Quiet(View(sys.repo, n), disk[n])
  }

  ghost predicate Refines(sys: System, disk: Disk) {
    Safe(sys) && forall n :: Promised(sys, n) ==> FileOk(sys, disk, n)
  }

  // ----- the collector is invisible -----

  /** A sweep step leaves a version somebody needs exactly as it is. */
  lemma NeededKept(sys: System, t: State, v: VersionId)
    requires Safe(sys) && sys.sweep.Sweeping? && Collects(sys.repo, t, sys.horizon, sys.sweep.doomed)
    requires Needed(sys.repo, sys.horizon, v)
    ensures v in t.versions && ViewOf(t, v) == ViewOf(sys.repo, v) && RowsOf(t, v) == RowsOf(sys.repo, v)
  {
    var s, doomed := sys.repo, sys.sweep.doomed;
    if IsCurrent(s, v) { assert CurrentOk(t, s.versions[v].node, v); }
    assert v in t.versions && SubRows(t, s, v) && KeepsRows(s, t, doomed, v);
    assert forall k :: k in RowsOf(s, v) ==> RowsOf(s, v)[k].obj !in doomed && k in RowsOf(t, v);
    SameManifest(RowsOf(t, v), RowsOf(s, v));
    assert forall k :: k in RowsOf(s, v) ==> PartOf(s.objects, RowsOf(s, v)[k]) == PartOf(t.objects, RowsOf(s, v)[k]);
  }

  lemma CollectedView(sys: System, t: State, n: NodeId)
    requires Safe(sys) && sys.sweep.Sweeping? && Collects(sys.repo, t, sys.horizon, sys.sweep.doomed)
    requires n in sys.repo.nodes && t.nodes[n] == sys.repo.nodes[n] && Fresh(sys.repo, n, sys.horizon)
    ensures View(t, n) == View(sys.repo, n)
  {
    var s := sys.repo;
    forall v | Reaches(s, n, v)
      ensures Reaches(t, n, v) && ViewOf(s, v) == ViewOf(t, v)
    {
      assert Needed(s, sys.horizon, v);
      NeededKept(sys, t, v);
    }
    assert forall v :: Reaches(t, n, v) ==> Reaches(s, n, v);
    SameView(s, t, n);
  }

  lemma CollectFile(sys: System, t: State, doomed': set<ObjectId>, gone': Option<ObjectId>, disk: Disk, n: NodeId)
    requires Safe(sys) && sys.sweep.Sweeping? && Collects(sys.repo, t, sys.horizon, sys.sweep.doomed)
    requires n in sys.repo.nodes && t.nodes[n] == sys.repo.nodes[n] && FileOk(sys, disk, n)
    ensures FileOk(sys.(repo := t, sweep := sys.sweep.(doomed := doomed', gone := gone')), disk, n)
  {
    CollectedView(sys, t, n);
    assert forall v :: IsStagingOf(t, n, v) ==> IsStagingOf(sys.repo, n, v);
    if n in sys.writers {
      assert WriterSafe(sys.repo, sys.horizon, sys.sweep.doomed, n, sys.writers[n]);
    }
  }

  /** The size correction has nothing to correct on a file whose write was not abandoned. */
  lemma ReconcileIsNoop(sys: System, disk: Disk, n: NodeId)
    requires Safe(sys) && n in sys.repo.nodes && FileOk(sys, disk, n)
    ensures Reconciled(sys.repo, n) == sys.repo.nodes[n]
  {
    var s, view := sys.repo, View(sys.repo, n);
    if !HasStaging(s, n) {
      assert view.staged == map[];
    }
  }

  // ----- one step -----

  lemma CollectRefines(sys: System, t: State, doomed': set<ObjectId>, gone': Option<ObjectId>, disk: Disk)
    requires Refines(sys, disk) && sys.sweep.Sweeping? && Collects(sys.repo, t, sys.horizon, sys.sweep.doomed)
    requires doomed' <= sys.sweep.doomed && (gone'.Some? ==> gone'.value in doomed')
    requires forall n :: Promised(sys, n) ==> t.nodes[n] == sys.repo.nodes[n]
    requires forall n :: n in t.nodes ==> n in sys.repo.nodes && t.nodes[n].kind == sys.repo.nodes[n].kind
    ensures Refines(sys.(repo := t, sweep := sys.sweep.(doomed := doomed', gone := gone')), disk)
  {
    var next := sys.(repo := t, sweep := sys.sweep.(doomed := doomed', gone := gone'));
    CollectSafe(sys, t, doomed', gone');
    forall n | Promised(next, n) ensures FileOk(next, disk, n) {
      assert Promised(sys, n);
      CollectFile(sys, t, doomed', gone', disk, n);
    }
  }

  lemma SweepRefines(config: int, sys: System, disk: Disk, step: Step)
    requires Refines(sys, disk) && Enabled(sys, step)
    requires step.Remove? || step.Forget? || step.Purge? || step.Reconcile?
    ensures Refines(Next(config, sys, step), disk)
  {
    var s, sweep := sys.repo, sys.sweep;
    match step
    case Remove(o) =>
      RemoveCollects(s, o, sys.horizon, sweep.doomed);
      CollectRefines(sys, RemoveObject(s, o), sweep.doomed, Some(o), disk);
    case Forget =>
      ForgetCollects(s, sweep.gone.value, sys.horizon, sweep.doomed);
      CollectRefines(sys, ForgetObject(s, sweep.gone.value), sweep.doomed - {sweep.gone.value}, None, disk);
    case Purge =>
      PurgeCollects(s, sweep.cutoff, sys.horizon, sweep.doomed);
      CollectRefines(sys, PurgeVersions(s, sweep.cutoff), sweep.doomed, sweep.gone, disk);
    case Reconcile =>
      ReconcileCollects(s, sys.horizon, sweep.doomed);
      forall n | Promised(sys, n) ensures ReconcileSizes(s).nodes[n] == s.nodes[n] {
        ReconcileIsNoop(sys, disk, n);
      }
      CollectRefines(sys, ReconcileSizes(s), sweep.doomed, sweep.gone, disk);
  }

  /** A file not involved in a step keeps its view, its freshness and its writer. */
  lemma FileFrame(sys: System, next: System, disk: Disk, disk': Disk, n: NodeId)
    requires n in sys.repo.nodes && n in next.repo.nodes && FileOk(sys, disk, n)
    requires View(next.repo, n) == View(sys.repo, n) && n in disk' && disk'[n] == disk[n]
    requires n in next.writers <==> n in sys.writers
    requires n in sys.writers ==> next.writers[n] == sys.writers[n]
    requires Fresh(next.repo, n, next.horizon)
    requires n in sys.writers && sys.writers[n].phase.Attaching? ==>
               var o := sys.writers[n].phase.row.obj;
               o in sys.repo.objects ==> o in next.repo.objects && next.repo.objects[o] == sys.repo.objects[o]
    ensures FileOk(next, disk', n)
  {
  }

  /** A node's freshness is part of its view. */
  lemma FreshFrame(s: State, t: State, n: NodeId, horizon: Time)
    requires n in s.nodes && n in t.nodes && View(s, n) == View(t, n) && Fresh(s, n, horizon)
    ensures Fresh(t, n, horizon)
  {
    forall v | IsStagingOf(t, n, v) ensures t.versions[v].createdAt >= horizon {
      assert v in View(t, n).staged;
      assert v in View(s, n).staged;
      assert View(t, n).staged[v].rec == View(s, n).staged[v].rec;
    }
  }

  lemma CreatedIsQuiet(s: State, kind: Kind)
    requires StateOk(s)
    ensures var t, n := CreateNode(s, kind), NodeId(s.nextNode);
            StateOk(t) && (forall v :: !IsStagingOf(t, n, v)) && Quiet(View(t, n), [])
  {
    var t, n := CreateNode(s, kind), NodeId(s.nextNode);
    assert forall m, v :: IsStagingOf(t, m, v) ==> IsStagingOf(s, m, v);
    assert View(t, n).staged == map[];
  }

  lemma CreateRefines(config: int, sys: System, disk: Disk, kind: Kind)
    requires Refines(sys, disk)
    ensures Refines(Next(config, sys, Create(kind)), FlatStep(sys, disk, Create(kind)))
  {
    StepSafe(config, sys, Create(kind));
    var s, next := sys.repo, Next(config, sys, Create(kind));
    var t, disk' := next.repo, FlatStep(sys, disk, Create(kind));
    CreatedIsQuiet(s, kind);
    forall n | Promised(next, n) ensures FileOk(next, disk', n) {
      if n == NodeId(s.nextNode) {
        assert n !in sys.writers;
      } else {
        assert Promised(sys, n);
        OtherNode(s, t, n);
        FreshFrame(s, t, n, sys.horizon);
        FileFrame(sys, next, disk, disk', n);
      }
    }
  }

  lemma DeleteRefines(config: int, sys: System, disk: Disk, m: NodeId)
    requires Refines(sys, disk) && m in sys.repo.nodes
    ensures Refines(Next(config, sys, Delete(m)), disk)
  {
    StepSafe(config, sys, Delete(m));
    var next := Next(config, sys, Delete(m));
    forall n | Promised(next, n) ensures FileOk(next, disk, n) {
      assert Promised(sys, n);
      OtherNode(sys.repo, next.repo, n);
      FreshFrame(sys.repo, next.repo, n, sys.horizon);
      FileFrame(sys, next, disk, disk, n);
    }
  }

  lemma BeginRefines(config: int, sys: System, disk: Disk, step: Step)
    requires Refines(sys, disk) && step.Begin? && Enabled(sys, step)
    ensures Refines(Next(config, sys, step), disk)
  {
    StepSafe(config, sys, step);
    var next := Next(config, sys, step);
    forall n | Promised(next, n) ensures FileOk(next, disk, n) {
      assert Promised(sys, n);
      if n == step.n { BeginBusy(sys.repo, n, disk[n], next.writers[n]); }
    }
  }

  /** A write starts from the file as it stands. */
  lemma BeginBusy(s: State, n: NodeId, f: seq<byte>, wr: Writer)
    requires StateOk(s) && n in s.nodes && Quiet(View(s, n), f)
    requires wr.body != [] && wr.oldSize == Max(s.nodes[n].size, 0) && wr.phase == OpenPhase(s, n, OpenOf(s, n))
    ensures Busy(s, n, f, wr)
  {
    var view := View(s, n);
    OpenOfStaging(s, n);
    if OpenOf(s, n).Some? {
      assert OpenOf(s, n).value in view.staged;
      assert view.staged.Keys == {OpenOf(s, n).value};
    } else {
      assert view.staged == map[];
    }
  }

  lemma AdvanceRefines(config: int, sys: System, disk: Disk, m: NodeId)
    requires Refines(sys, disk) && Enabled(sys, Advance(m))
    ensures Refines(Next(config, sys, Advance(m)), FlatStep(sys, disk, Advance(m)))
  {
    StepSafe(config, sys, Advance(m));
    var s, wr, next := sys.repo, sys.writers[m], Next(config, sys, Advance(m));
    var disk' := FlatStep(sys, disk, Advance(m));
    assert WriterSafe(s, sys.horizon, Doomed(sys), m, wr);
    StepObjects(config, s, m, wr);
    StepNodes(config, s, m, wr);
    forall n | Promised(next, n) ensures FileOk(next, disk', n) {
      assert Promised(sys, n);
      if n == m {
        StepBusy(config, s, m, disk[m], wr);
        StepFresh(config, s, m, wr, sys.horizon);
        ClosesLast(config, s, m, wr);
      } else {
        StepOthers(config, s, m, wr, n);
        FreshFrame(s, next.repo, n, sys.horizon);
        FileFrame(sys, next, disk, disk', n);
      }
    }
  }

  lemma StepNodes(config: int, s: State, n: NodeId, wr: Writer)
    requires StateOk(s) && Engaged(s, n, wr) && CanStep(s, n, wr)
    ensures var t := WriterStep(config, s, n, wr).0;
            t.nodes.Keys == s.nodes.Keys && forall m :: m in s.nodes ==> t.nodes[m].kind == s.nodes[m].kind
  {
    if wr.phase.Closing? {
      if v :| IsOpen(s, n, v) { CommitOpenIs(s, n, v); }
    }
  }

  lemma StepFresh(config: int, s: State, n: NodeId, wr: Writer, horizon: Time)
    requires StateOk(s) && Engaged(s, n, wr) && CanStep(s, n, wr) && Fresh(s, n, horizon) && horizon <= s.now
    ensures Fresh(WriterStep(config, s, n, wr).0, n, horizon)
  {
    if wr.phase.Closing? {
      if v :| IsOpen(s, n, v) { CommitOpenIs(s, n, v); }
    }
  }

  /** Only the closing step ends a write. */
  lemma ClosesLast(config: int, s: State, n: NodeId, wr: Writer)
    requires CanStep(s, n, wr)
    ensures WriterStep(config, s, n, wr).1.None? <==> wr.phase.Closing?
  {
  }

  lemma SyncRefines(config: int, sys: System, disk: Disk, m: NodeId)
    requires Refines(sys, disk) && Enabled(sys, Sync(m))
    ensures Refines(Next(config, sys, Sync(m)), disk)
  {
    StepSafe(config, sys, Sync(m));
    var s, next := sys.repo, Next(config, sys, Sync(m));
    SyncKeeps(s, m);
    SyncNodes(s, m);
    forall n | Promised(next, n) ensures FileOk(next, disk, n) {
      assert Promised(sys, n);
      if n == m {
        CommitKeepsQuiet(s, m, disk[m]);
        NoneStaged(next.repo, m);
      } else {
        CommitOthers(s, m, n);
        FreshFrame(s, next.repo, n, sys.horizon);
        FileFrame(sys, next, disk, disk, n);
      }
    }
  }

  lemma NoneStaged(s: State, n: NodeId)
    requires n in s.nodes && View(s, n).staged == map[]
    ensures forall v :: !IsStagingOf(s, n, v)
  {
    forall v ensures !IsStagingOf(s, n, v) { assert v !in View(s, n).staged; }
  }

  lemma SyncNodes(s: State, n: NodeId)
    requires StateOk(s) && n in s.nodes
    ensures var t := CommitOpen(s, n);
            t.nodes.Keys == s.nodes.Keys && forall m :: m in s.nodes ==> t.nodes[m].kind == s.nodes[m].kind
  {
    if v :| IsOpen(s, n, v) { CommitOpenIs(s, n, v); }
  }

  lemma QuietRefines(config: int, sys: System, disk: Disk, step: Step)
    requires Refines(sys, disk) && Enabled(sys, step)
    requires step.Abort? || step.Keep? || step.StopSweep? || step.Tick? || step.Snapshot?
    ensures Refines(Next(config, sys, step), disk)
  {
    StepSafe(config, sys, step);
    var next := Next(config, sys, step);
    forall n | Promised(next, n) ensures FileOk(next, disk, n) {
      assert Promised(sys, n);
      assert View(next.repo, n) == View(sys.repo, n);
      FreshFrame(sys.repo, next.repo, n, sys.horizon);
      FileFrame(sys, next, disk, disk, n);
    }
  }

  lemma StepRefines(config: int, sys: System, disk: Disk, step: Step)
    requires Refines(sys, disk) && Enabled(sys, step)
    ensures Refines(Next(config, sys, step), FlatStep(sys, disk, step))
  {
    match step
    case Create(kind) => CreateRefines(config, sys, disk, kind);
    case Delete(n) => DeleteRefines(config, sys, disk, n);
    case Begin(_, _, _) => BeginRefines(config, sys, disk, step);
    case Advance(n) => AdvanceRefines(config, sys, disk, n);
    case Sync(n) => SyncRefines(config, sys, disk, n);
    case Remove(_) => SweepRefines(config, sys, disk, step);
    case Forget => SweepRefines(config, sys, disk, step);
    case Purge => SweepRefines(config, sys, disk, step);
    case Reconcile => SweepRefines(config, sys, disk, step);
    case _ => QuietRefines(config, sys, disk, step);
  }

  // ----- whole runs -----

  ghost function FlatRun(config: int, sys: System, disk: Disk, run: seq<Step>): Disk
    requires Legal(config, sys, run)
    decreases |run|
  {
    if run == [] then disk else FlatRun(config, Next(config, sys, run[0]), FlatStep(sys, disk, run[0]), run[1..])
  }

  lemma {:induction false} RunRefines(config: int, sys: System, disk: Disk, run: seq<Step>)
    requires Refines(sys, disk) && Legal(config, sys, run)
    ensures Refines(Run(config, sys, run), FlatRun(config, sys, disk, run))
    decreases |run|
  {
    if run != [] {
      StepRefines(config, sys, disk, run[0]);
      RunRefines(config, Next(config, sys, run[0]), FlatStep(sys, disk, run[0]), run[1..]);
    }
  }

  /** What a read of a flat file returns: from `offset` on, at most `size` bytes. */
  function Asked(f: seq<byte>, offset: Option<nat>, size: Option<nat>): seq<byte> {
    var from := if offset.Some? then offset.value else 0;
    Slice(f, from, if size.Some? then from + size.value else Max(from, |f|))
  }

  /** The version a quiet file is served from spells out the file. */
  lemma ServedHolds(s: State, n: NodeId, f: seq<byte>)
    requires StateOk(s) && n in s.nodes && Quiet(View(s, n), f)
    ensures var v := Served(s, n);
            if v.Some? then v.value in s.versions && VersionHolds(ViewOf(s, v.value), f) else f == []
  {
    var view := View(s, n);
    OpenOfStaging(s, n);
    if OpenOf(s, n).Some? {
      assert OpenOf(s, n).value in view.staged;
    } else {
      assert view.staged == map[];
    }
  }

  lemma HeldSlice(parts: Parts, cs: int, f: seq<byte>, from: nat, len: nat)
    requires Holds(parts, cs, f) && from + len <= |f|
    ensures BytesOf(parts, cs, from, len) == Slice(f, from, from + len)
  {
  }

  lemma QuietRead(s: State, n: NodeId, f: seq<byte>, offset: Option<nat>, size: Option<nat>)
    requires StateOk(s) && n in s.nodes && s.nodes[n].kind == File && Quiet(View(s, n), f)
    ensures ReadBytes(s, n, offset, size).Ok? && ReadBytes(s, n, offset, size).value.0 == Asked(f, offset, size)
  {
    ServedHolds(s, n, f);
    var from := if offset.Some? then offset.value else 0;
    var len := Min(if size.Some? then size.value else |f| - from, |f| - from);
    if from < |f| && len > 0 {
      var v := ViewOf(s, Served(s, n).value);
      HeldSlice(v.parts, ChunkSize(v.rec), f, from, len);
      assert Asked(f, offset, size) == f[from..from + len];
    }
  }

  /** After any interleaving, a read of a file with no write in progress and none cut off returns
      exactly the slice of the flat array its completed writes produce. */
  lemma ServerIsFlatFiles(config: int, run: seq<Step>, n: NodeId, offset: Option<nat>, size: Option<nat>)
    requires Legal(config, START, run)
    requires var sys := Run(config, START, run); Promised(sys, n) && n !in sys.writers
    ensures var disk := FlatRun(config, START, map[], run);
            var got := ReadBytes(Run(config, START, run).repo, n, offset, size);
            n in disk && got.Ok? && got.value.0 == Asked(disk[n], offset, size)
  {
    RunRefines(config, START, map[], run);
    var sys, disk := Run(config, START, run), FlatRun(config, START, map[], run);
    assert FileOk(sys, disk, n);
    QuietRead(sys.repo, n, disk[n], offset, size);
  }

  /** A write in progress on a file nobody disturbed always has a next step: it cannot fail. */
  lemma WritesNeverFail(config: int, run: seq<Step>, n: NodeId)
    requires Legal(config, START, run)
    requires var sys := Run(config, START, run); Promised(sys, n) && n in sys.writers
    ensures Enabled(Run(config, START, run), Advance(n))
  {
    RunRefines(config, START, map[], run);
    var sys, disk := Run(config, START, run), FlatRun(config, START, map[], run);
    assert FileOk(sys, disk, n);
    BusyCanStep(sys.repo, n, disk[n], sys.writers[n]);
  }

  /** One open write at a time, and while nobody is writing its recorded size is the file's size. */
  lemma SingleOpenWrite(config: int, run: seq<Step>, n: NodeId, u: VersionId, v: VersionId)
    requires Legal(config, START, run)
    requires var s := Run(config, START, run).repo; IsStagingOf(s, n, u) && IsStagingOf(s, n, v)
    ensures u == v
    ensures var sys := Run(config, START, run);
            Promised(sys, n) && n !in sys.writers ==> sys.repo.versions[v].size == sys.repo.nodes[n].size
  {
    RunRefines(config, START, map[], run);
    var sys, disk := Run(config, START, run), FlatRun(config, START, map[], run);
    if Promised(sys, n) {
      assert FileOk(sys, disk, n);
      assert v in View(sys.repo, n).staged;
    }
  }

  // ----- a disturbed file that is quiet again -----

  /** The system with the file no longer counted as disturbed. */
  function Again(sys: System, n: NodeId): System {
    sys.(disturbed := sys.disturbed - {n})
  }

  predicate Alike(a: System, b: System) {
    a.(disturbed := b.disturbed) == b
  }

  lemma NextAlike(config: int, a: System, b: System, disk: Disk, step: Step)
    requires Alike(a, b) && Enabled(a, step)
    ensures Enabled(b, step) && Alike(Next(config, a, step), Next(config, b, step)) && FlatStep(a, disk, step) == FlatStep(b, disk, step)
  {
  }

  /** What is disturbed has no influence on what happens. */
  lemma {:induction false} RunAlike(config: int, a: System, b: System, disk: Disk, run: seq<Step>)
    requires Alike(a, b) && Legal(config, a, run)
    ensures Legal(config, b, run) && Alike(Run(config, a, run), Run(config, b, run))
    ensures FlatRun(config, a, disk, run) == FlatRun(config, b, disk, run)
    decreases |run|
  {
    if run != [] {
      NextAlike(config, a, b, disk, run[0]);
      RunAlike(config, Next(config, a, run[0]), Next(config, b, run[0]), FlatStep(a, disk, run[0]), run[1..]);
    }
  }

  /** A file whose write was cut off can be promised again as soon as it is quiet, with what it reads as then. */
  lemma PromisedAgain(sys: System, disk: Disk, n: NodeId, g: seq<byte>)
    requires Refines(sys, disk) && n in sys.repo.nodes && n !in sys.writers
    requires Quiet(View(sys.repo, n), g) && Fresh(sys.repo, n, sys.horizon)
    ensures Refines(Again(sys, n), disk[n := g])
  {
    var next, disk' := Again(sys, n), disk[n := g];
    assert Doomed(next) == Doomed(sys);
    forall m | Promised(next, m) ensures FileOk(next, disk', m) {
      if m != n { assert Promised(sys, m) && FileOk(sys, disk, m); }
    }
  }

  /** From there on every run serves it as a flat file again. */
  lemma ServesAgain(config: int, run: seq<Step>, more: seq<Step>, n: NodeId, g: seq<byte>, offset: Option<nat>, size: Option<nat>)
    requires Legal(config, START, run)
    requires var sys := Run(config, START, run);
             && n in sys.repo.nodes && n !in sys.writers && Quiet(View(sys.repo, n), g) && Fresh(sys.repo, n, sys.horizon)
             && Legal(config, Again(sys, n), more)
    requires var end := Run(config, Again(Run(config, START, run), n), more); Promised(end, n) && n !in end.writers
    ensures Legal(config, START, run + more)
    ensures var disk := FlatRun(config, START, map[], run)[n := g];
            var file := FlatRun(config, Again(Run(config, START, run), n), disk, more);
            var got := ReadBytes(Run(config, START, run + more).repo, n, offset, size);
            n in file && got.Ok? && got.value.0 == Asked(file[n], offset, size)
  {
    var sys, disk := Run(config, START, run), FlatRun(config, START, map[], run);
    RunRefines(config, START, map[], run);
    PromisedAgain(sys, disk, n, g);
    var again := Again(sys, n);
    RunRefines(config, again, disk[n := g], more);
    RunAlike(config, again, sys, disk[n := g], more);
    RunCat(config, START, run, more);
    var end, file := Run(config, again, more), FlatRun(config, again, disk[n := g], more);
    assert FileOk(end, file, n);
    QuietRead(end.repo, n, file[n], offset, size);
  }
}
