/** Every part of a file but its last is as long as a part can be: a write that makes the file longer seals the part the
    old file ended in again. */
module WholeParts {
  import opened Bytes
  import opened Records
  import opened Files
  import opened WriteSteps
  import opened Interleaving
  import opened FlatFiles

  /** A part of a file of this size, as long as it can be. */
  predicate WholePart(row: Row, k: int, cs: int, size: int) {
    0 <= k && k * cs < size && row.size == Min(cs, size - k * cs)
  }

  predicate WholeParts(parts: Parts, cs: int, size: int) {
    forall k :: k in parts ==> WholePart(parts[k].row, k, cs, size)
  }

  predicate Whole(v: VersionView) {
    WholeParts(v.parts, ChunkSize(v.rec), v.rec.size)
  }

  ghost predicate WholeView(view: NodeView) {
    && (view.current.Some? ==> Whole(view.current.value))
    && (forall v :: v in view.staged ==> Whole(view.staged[v]))
  }

  // ----- in the middle of a write -----

  /** Parts still to be sealed are whole in the old file, all others in the new one. */
  predicate WholeBut(parts: Parts, cs: int, was: int, size: int, todo: seq<int>) {
    forall k :: k in parts ==> WholePart(parts[k].row, k, cs, if k in todo then was else size)
  }

  ghost predicate WholeWork(view: NodeView, wr: Writer, work: VersionId, todo: seq<int>) {
    work in view.staged && WholeBut(view.staged[work].parts, ChunkSize(view.staged[work].rec), wr.oldSize, wr.NewSize(), todo)
  }

  ghost predicate WholeBusy(view: NodeView, wr: Writer) {
    && (view.current.Some? ==> Whole(view.current.value))
    && match wr.phase
       case Opening(_) => true
       case Carrying(_, _) => true
       case Scanning(work) =>
         work in view.staged && WholeParts(view.staged[work].parts, ChunkSize(view.staged[work].rec), wr.oldSize)
       case Merging(work, todo, _) => WholeWork(view, wr, work, todo)
       case Attaching(work, todo, _, row) =>
         WholeWork(view, wr, work, todo) && todo != [] && row.index == todo[0] && WholePart(row, todo[0], ChunkSize(view.staged[work].rec), wr.NewSize())
       case Touching(work) => WholeWork(view, wr, work, [])
       case Resizing => WholeView(view)
       case Closing => WholeView(view)
  }

  /** A part the write does not seal again reaches to its end already. */
  lemma UntouchedIsFull(wr: Writer, cs: int, k: int)
    requires cs > 0 && 0 <= k && k * cs < wr.oldSize && k !in Touched(wr, cs) && wr.body != []
    ensures k * cs + cs <= wr.oldSize
  {
    if k * cs + cs > wr.oldSize {
      DivUnique(wr.oldSize, k, cs);
      CeilDivBounds(wr.NewSize(), cs);
      var count := CeilDiv(wr.NewSize(), cs);
      if k >= count { MulMono(count, k, cs); }
    }
  }

  lemma ScannedWhole(parts: Parts, cs: int, wr: Writer)
    requires cs > 0 && wr.body != [] && WholeParts(parts, cs, wr.oldSize)
    ensures WholeBut(parts, cs, wr.oldSize, wr.NewSize(), Touched(wr, cs))
  {
    forall k | k in parts && k !in Touched(wr, cs) ensures WholePart(parts[k].row, k, cs, wr.NewSize()) {
      assert WholePart(parts[k].row, k, cs, wr.oldSize);
      UntouchedIsFull(wr, cs, k);
    }
  }

  lemma OpeningWhole(config: int, s: State, n: NodeId, f: seq<byte>, wr: Writer)
    requires StateOk(s) && n in s.nodes && Busy(s, n, f, wr) && CanStep(s, n, wr) && wr.phase.Opening? && WholeBusy(View(s, n), wr)
    ensures var (t, next) := WriterStep(config, s, n, wr); n in t.nodes && WholeBusy(View(t, n), next.value)
  {
    var t := WriterStep(config, s, n, wr).0;
    if s.nodes[n].current.Some? {
      assert CurrentOk(s, n, s.nodes[n].current.value);
      assert ViewOf(t, s.nodes[n].current.value) == ViewOf(s, s.nodes[n].current.value);
    }
  }

  lemma CarryingWhole(config: int, s: State, n: NodeId, f: seq<byte>, wr: Writer)
    requires StateOk(s) && n in s.nodes && Busy(s, n, f, wr) && CanStep(s, n, wr) && wr.phase.Carrying? && WholeBusy(View(s, n), wr)
    ensures var (t, next) := WriterStep(config, s, n, wr); n in t.nodes && WholeBusy(View(t, n), next.value)
  {
    var t, base, w := WriterStep(config, s, n, wr).0, wr.phase.base, wr.phase.work;
    var a, b := View(s, n), View(t, n);
    assert w in a.staged && IsStagingOf(s, n, w) && IsStagingOf(t, n, w);
    assert RowsOf(s, w).Keys == a.staged[w].parts.Keys;
    if base.Some? {
      assert CurrentOk(s, n, base.value);
      CopiesAll(s, base.value, w, ChunkSize(s.versions[w]), wr.oldSize);
      assert b.staged[w].parts == a.current.value.parts;
      assert ViewOf(t, base.value) == ViewOf(s, base.value);
    }
  }

  lemma AttachingWhole(config: int, s: State, n: NodeId, f: seq<byte>, wr: Writer)
    requires StateOk(s) && n in s.nodes && Busy(s, n, f, wr) && CanStep(s, n, wr) && wr.phase.Attaching? && WholeBusy(View(s, n), wr)
    ensures var (t, next) := WriterStep(config, s, n, wr); n in t.nodes && WholeBusy(View(t, n), next.value)
  {
    assert wr.phase.work in View(s, n).staged;
    AttachedView(s, n, wr.phase.work, wr.phase.row);
    assert forall k :: k in wr.phase.todo <==> k in wr.phase.todo[1..] || k == wr.phase.todo[0];
    assert wr.phase.todo[0] !in wr.phase.todo[1..];
  }

  lemma SealedWhole(view: NodeView, f: seq<byte>, wr: Writer, row: Row)
    requires BusyView(view, f, wr) && wr.phase.Merging? && wr.phase.todo != [] && WholeBusy(view, wr)
    requires var k, cs := wr.phase.todo[0], ChunkSize(view.staged[wr.phase.work].rec);
             row.index == k && row.size == PartLen(wr, k * cs, cs)
    ensures WholeBusy(view, wr.(phase := Attaching(wr.phase.work, wr.phase.todo, wr.phase.prior, row)))
  {
    assert TodoOk(wr.phase.todo, wr, ChunkSize(view.staged[wr.phase.work].rec));
  }

  lemma MergingWhole(config: int, s: State, n: NodeId, f: seq<byte>, wr: Writer)
    requires StateOk(s) && n in s.nodes && Busy(s, n, f, wr) && CanStep(s, n, wr) && wr.phase.Merging? && WholeBusy(View(s, n), wr)
    ensures var (t, next) := WriterStep(config, s, n, wr); n in t.nodes && WholeBusy(View(t, n), next.value)
  {
    if wr.phase.todo != [] {
      var (t, next) := WriterStep(config, s, n, wr);
      var k, cs := wr.phase.todo[0], ChunkSize(s.versions[wr.phase.work]);
      SameAfterPut(s, n, Merged(wr, k * cs, cs, Existing(s, wr.phase.prior, k)));
      SealedWhole(View(s, n), f, wr, next.value.phase.row);
    }
  }

  lemma TouchingWhole(config: int, s: State, n: NodeId, f: seq<byte>, wr: Writer)
    requires StateOk(s) && n in s.nodes && Busy(s, n, f, wr) && wr.phase.Touching? && WholeBusy(View(s, n), wr)
    ensures var (t, next) := WriterStep(config, s, n, wr); n in t.nodes && WholeBusy(View(t, n), next.value)
  {
    assert wr.phase.work in View(s, n).staged;
    if s.nodes[n].current.Some? { assert CurrentOk(s, n, s.nodes[n].current.value); }
    TouchedView(s, n, wr.phase.work, wr.NewSize());
  }

  lemma ScanningWhole(config: int, s: State, n: NodeId, f: seq<byte>, wr: Writer)
    requires StateOk(s) && n in s.nodes && Busy(s, n, f, wr) && CanStep(s, n, wr) && wr.phase.Scanning? && WholeBusy(View(s, n), wr)
    ensures var (t, next) := WriterStep(config, s, n, wr); n in t.nodes && WholeBusy(View(t, n), next.value)
  {
    ScannedWhole(View(s, n).staged[wr.phase.work].parts, ChunkSize(s.versions[wr.phase.work]), wr);
  }

  lemma ResizingWhole(s: State, n: NodeId, size: int)
    requires n in s.nodes && WholeView(View(s, n))
    ensures WholeView(View(SetSize(s, n, size), n))
  {
    var t, a := SetSize(s, n, size), View(s, n);
    assert forall v :: IsStagingOf(t, n, v) <==> IsStagingOf(s, n, v);
    assert View(t, n).staged == a.staged && View(t, n).current == a.current;
  }

  lemma CommitWhole(s: State, n: NodeId)
    requires StateOk(s) && n in s.nodes && WholeView(View(s, n))
    ensures n in CommitOpen(s, n).nodes && WholeView(View(CommitOpen(s, n), n))
  {
    var t := CommitOpen(s, n);
    if v :| IsOpen(s, n, v) {
      CommitOpenIs(s, n, v);
      assert v in View(s, n).staged;
      assert ViewOf(t, v).parts == ViewOf(s, v).parts;
      assert forall u :: !IsStagingOf(t, n, u) by {
        assert forall u :: IsStagingOf(t, n, u) ==> IsStagingOf(s, n, u) && u != v;
      }
    }
  }

  lemma StepWhole(config: int, s: State, n: NodeId, f: seq<byte>, wr: Writer)
    requires StateOk(s) && n in s.nodes && Busy(s, n, f, wr) && CanStep(s, n, wr) && WholeBusy(View(s, n), wr)
    ensures var (t, next) := WriterStep(config, s, n, wr);
            n in t.nodes && if next.Some? then WholeBusy(View(t, n), next.value) else WholeView(View(t, n))
  {
    match wr.phase
    case Opening(_) => OpeningWhole(config, s, n, f, wr);
    case Carrying(_, _) => CarryingWhole(config, s, n, f, wr);
    case Scanning(_) => ScanningWhole(config, s, n, f, wr);
    case Merging(_, _, _) => MergingWhole(config, s, n, f, wr);
    case Attaching(_, _, _, _) => AttachingWhole(config, s, n, f, wr);
    case Touching(_) => TouchingWhole(config, s, n, f, wr);
    case Resizing => ResizingWhole(s, n, wr.NewSize());
    case Closing => CommitWhole(s, n);
  }

  // ----- in every run -----

  ghost predicate FileWhole(s: State, writers: map<NodeId, Writer>, n: NodeId)
    requires n in s.nodes
  {
    if n in writers then WholeBusy(View(s, n), writers[n]) else WholeView(View(s, n))
  }

  ghost predicate AllWhole(sys: System) {
    forall n :: Promised(sys, n) ==> FileWhole(sys.repo, sys.writers, n)
  }

  lemma SameWhole(s: State, writers: map<NodeId, Writer>, t: State, writers': map<NodeId, Writer>, n: NodeId)
    requires n in s.nodes && n in t.nodes && FileWhole(s, writers, n) && View(t, n) == View(s, n)
    requires (n in writers' <==> n in writers) && (n in writers ==> writers'[n] == writers[n])
    ensures FileWhole(t, writers', n)
  {
  }

  /** A write starts on whole parts. */
  lemma BeginWhole(s: State, n: NodeId, f: seq<byte>, wr: Writer)
    requires StateOk(s) && n in s.nodes && Quiet(View(s, n), f) && WholeView(View(s, n))
    requires wr.oldSize == Max(s.nodes[n].size, 0) && wr.phase == OpenPhase(s, n, OpenOf(s, n))
    ensures WholeBusy(View(s, n), wr)
  {
    OpenOfStaging(s, n);
    if OpenOf(s, n).Some? { assert OpenOf(s, n).value in View(s, n).staged; }
  }

  lemma AdvanceWhole(config: int, sys: System, disk: Disk, m: NodeId, n: NodeId)
    requires Refines(sys, disk) && Enabled(sys, Advance(m)) && Promised(sys, n) && FileWhole(sys.repo, sys.writers, n) && n in Next(config, sys, Advance(m)).repo.nodes
    ensures FileWhole(Next(config, sys, Advance(m)).repo, Next(config, sys, Advance(m)).writers, n)
  {
    var s, wr, next := sys.repo, sys.writers[m], Next(config, sys, Advance(m));
    assert FileOk(sys, disk, n);
    assert WriterSafe(s, sys.horizon, Doomed(sys), m, wr);
    if n == m {
      StepWhole(config, s, m, disk[m], wr);
    } else {
      StepOthers(config, s, m, wr, n);
      SameWhole(sys.repo, sys.writers, next.repo, next.writers, n);
    }
  }

  lemma SweepWhole(sys: System, t: State, n: NodeId)
    requires Safe(sys) && sys.sweep.Sweeping? && Collects(sys.repo, t, sys.horizon, sys.sweep.doomed)
    requires n in sys.repo.nodes && FileWhole(sys.repo, sys.writers, n) && t.nodes[n] == sys.repo.nodes[n] && Fresh(sys.repo, n, sys.horizon)
    ensures FileWhole(t, sys.writers, n)
  {
    CollectedView(sys, t, n);
    SameWhole(sys.repo, sys.writers, t, sys.writers, n);
  }

  lemma SweepStepWhole(config: int, sys: System, disk: Disk, step: Step, n: NodeId)
    requires Refines(sys, disk) && Enabled(sys, step) && Promised(sys, n) && FileWhole(sys.repo, sys.writers, n)
    requires step.Remove? || step.Forget? || step.Purge? || step.Reconcile?
    ensures n in Next(config, sys, step).repo.nodes && FileWhole(Next(config, sys, step).repo, Next(config, sys, step).writers, n)
  {
    assert FileOk(sys, disk, n);
    match step
    case Remove(o) =>
      RemoveCollects(sys.repo, o, sys.horizon, sys.sweep.doomed);
      SweepWhole(sys, RemoveObject(sys.repo, o), n);
    case Forget =>
      ForgetCollects(sys.repo, sys.sweep.gone.value, sys.horizon, sys.sweep.doomed);
      SweepWhole(sys, ForgetObject(sys.repo, sys.sweep.gone.value), n);
    case Purge =>
      PurgeCollects(sys.repo, sys.sweep.cutoff, sys.horizon, sys.sweep.doomed);
      SweepWhole(sys, PurgeVersions(sys.repo, sys.sweep.cutoff), n);
    case Reconcile =>
      ReconcileCollects(sys.repo, sys.horizon, sys.sweep.doomed);
      ReconcileIsNoop(sys, disk, n);
      SweepWhole(sys, ReconcileSizes(sys.repo), n);
  }

  lemma SyncWhole(config: int, sys: System, disk: Disk, m: NodeId, n: NodeId)
    requires Refines(sys, disk) && Enabled(sys, Sync(m)) && Promised(sys, n) && FileWhole(sys.repo, sys.writers, n) && n in Next(config, sys, Sync(m)).repo.nodes
    ensures FileWhole(Next(config, sys, Sync(m)).repo, Next(config, sys, Sync(m)).writers, n)
  {
    var next := Next(config, sys, Sync(m));
    if n == m {
      CommitWhole(sys.repo, m);
    } else {
      CommitOthers(sys.repo, m, n);
      SameWhole(sys.repo, sys.writers, next.repo, next.writers, n);
    }
  }

  lemma CreateWhole(config: int, sys: System, kind: Kind, n: NodeId)
    requires Safe(sys) && Promised(Next(config, sys, Create(kind)), n) && (n in sys.repo.nodes ==> FileWhole(sys.repo, sys.writers, n))
    ensures FileWhole(Next(config, sys, Create(kind)).repo, Next(config, sys, Create(kind)).writers, n)
  {
    var s, next := sys.repo, Next(config, sys, Create(kind));
    StepSafe(config, sys, Create(kind));
    CreatedIsQuiet(s, kind);
    if n in s.nodes {
      OtherNode(s, next.repo, n);
      SameWhole(sys.repo, sys.writers, next.repo, next.writers, n);
    } else {
      assert n !in sys.writers;
    }
  }

  lemma DeleteWhole(config: int, sys: System, m: NodeId, n: NodeId)
    requires Safe(sys) && Enabled(sys, Delete(m)) && n in sys.repo.nodes && n != m && FileWhole(sys.repo, sys.writers, n)
    ensures FileWhole(DeleteNode(sys.repo, m), sys.writers, n)
  {
    DeleteSafe(config, sys, m);
    OtherNode(sys.repo, DeleteNode(sys.repo, m), n);
    SameWhole(sys.repo, sys.writers, DeleteNode(sys.repo, m), sys.writers, n);
  }

  lemma BegunWhole(config: int, sys: System, disk: Disk, step: Step, n: NodeId)
    requires Refines(sys, disk) && Enabled(sys, step) && Promised(sys, n) && FileWhole(sys.repo, sys.writers, n) && step.Begin?
    ensures FileWhole(Next(config, sys, step).repo, Next(config, sys, step).writers, n)
  {
    var next := Next(config, sys, step);
    assert FileOk(sys, disk, n);
    if step.n == n { BeginWhole(sys.repo, n, disk[n], next.writers[n]); }
  }

  /** These leave the records of the file and its writer alone. */
  lemma OtherStepWhole(config: int, sys: System, step: Step, n: NodeId)
    requires Enabled(sys, step) && n in sys.repo.nodes && FileWhole(sys.repo, sys.writers, n) && Promised(Next(config, sys, step), n)
    requires step.Abort? || step.Keep? || step.StopSweep? || step.Tick? || step.Snapshot?
    ensures FileWhole(Next(config, sys, step).repo, Next(config, sys, step).writers, n)
  {
    var next := Next(config, sys, step);
    assert View(next.repo, n) == View(sys.repo, n);
    SameWhole(sys.repo, sys.writers, next.repo, next.writers, n);
  }

  lemma StepAllWhole(config: int, sys: System, disk: Disk, step: Step)
    requires Refines(sys, disk) && Enabled(sys, step) && AllWhole(sys)
    ensures AllWhole(Next(config, sys, step))
  {
    var next := Next(config, sys, step);
    forall n | Promised(next, n) ensures FileWhole(next.repo, next.writers, n) {
      match step
      case Create(kind) =>
        if n in sys.repo.nodes { assert Promised(sys, n); }
        CreateWhole(config, sys, kind, n);
      case Advance(m) =>
        AdvancePromised(config, sys, m, n);
        AdvanceWhole(config, sys, disk, m, n);
      case Sync(m) =>
        SyncNodes(sys.repo, m);
        SyncWhole(config, sys, disk, m, n);
      case Remove(_) => SweepStepWhole(config, sys, disk, step, n);
      case Forget => SweepStepWhole(config, sys, disk, step, n);
      case Purge => SweepStepWhole(config, sys, disk, step, n);
      case Reconcile => SweepStepWhole(config, sys, disk, step, n);
      case Delete(m) => DeleteWhole(config, sys, m, n);
      case Begin(_, _, _) => BegunWhole(config, sys, disk, step, n);
      case _ => OtherStepWhole(config, sys, step, n);
    }
  }

  lemma AdvancePromised(config: int, sys: System, m: NodeId, n: NodeId)
    requires Safe(sys) && Enabled(sys, Advance(m)) && Promised(Next(config, sys, Advance(m)), n)
    ensures Promised(sys, n)
  {
    assert WriterSafe(sys.repo, sys.horizon, Doomed(sys), m, sys.writers[m]);
    StepNodes(config, sys.repo, m, sys.writers[m]);
  }

  lemma {:induction false} RunAllWhole(config: int, sys: System, disk: Disk, run: seq<Step>)
    requires Refines(sys, disk) && AllWhole(sys) && Legal(config, sys, run)
    ensures AllWhole(Run(config, sys, run))
    decreases |run|
  {
    if run != [] {
      StepAllWhole(config, sys, disk, run[0]);
      StepRefines(config, sys, disk, run[0]);
      RunAllWhole(config, Next(config, sys, run[0]), FlatStep(sys, disk, run[0]), run[1..]);
    }
  }

  lemma WholeRow(s: State, n: NodeId, v: VersionId, k: int)
    requires StateOk(s) && n in s.nodes && WholeView(View(s, n)) && k in RowsOf(s, v)
    requires IsStagingOf(s, n, v) || s.nodes[n].current == Some(v)
    ensures v in s.versions && WholePart(RowsOf(s, v)[k], k, ChunkSize(s.versions[v]), s.versions[v].size)
  {
    if IsStagingOf(s, n, v) { assert v in View(s, n).staged; } else { assert CurrentOk(s, n, v); }
    assert ViewOf(s, v).parts[k].row == RowsOf(s, v)[k];
  }

  lemma WholeInRun(config: int, run: seq<Step>, n: NodeId)
    requires Legal(config, START, run)
    requires var sys := Run(config, START, run); Promised(sys, n) && n !in sys.writers
    ensures var s := Run(config, START, run).repo; StateOk(s) && WholeView(View(s, n))
  {
    var sys := Run(config, START, run);
    RunAllWhole(config, START, map[], run);
    RunRefines(config, START, map[], run);
    assert FileWhole(sys.repo, sys.writers, n);
  }

  /** In every run, in the open and in the committed version of an undisturbed file nobody is writing, every part there is
      lies inside the file and reaches to its own end or to the end of the file. */
  lemma PartsAreWhole(config: int, run: seq<Step>, n: NodeId, v: VersionId, k: int)
    requires Legal(config, START, run)
    requires var sys := Run(config, START, run);
             && Promised(sys, n) && n !in sys.writers
             && (IsStagingOf(sys.repo, n, v) || sys.repo.nodes[n].current == Some(v)) && k in RowsOf(sys.repo, v)
    ensures var s := Run(config, START, run).repo;
            v in s.versions && WholePart(RowsOf(s, v)[k], k, ChunkSize(s.versions[v]), s.versions[v].size)
  {
    WholeInRun(config, run, n);
    WholeRow(Run(config, START, run).repo, n, v, k);
  }
}
