/** Spread reads of a file nobody is writing: they are flat-file reads, unless a sync overtakes them. */
module RestingReads {
  import Bytes
  import opened Records
  import opened Files
  import opened WriteSteps
  import opened Interleaving
  import opened FlatFiles
  import opened Immutability
  import opened Stitching
  import opened SpreadReads

  // ----- the flat files along a run -----

  /** What the flat files hold after the first `i` steps. */
  ghost function FlatPoint(config: int, sys: System, disk: Disk, run: seq<Step>, i: nat): Disk
    requires Legal(config, sys, run) && i <= |run|
    decreases i
  {
    if i == 0 then disk else FlatPoint(config, Next(config, sys, run[0]), FlatStep(sys, disk, run[0]), run[1..], i - 1)
  }

  lemma {:induction false} FlatPointIsRun(config: int, sys: System, disk: Disk, run: seq<Step>, i: nat)
    requires Legal(config, sys, run) && i <= |run|
    ensures Legal(config, sys, run[..i]) && FlatRun(config, sys, disk, run[..i]) == FlatPoint(config, sys, disk, run, i)
    decreases i
  {
    if i > 0 {
      FlatPointIsRun(config, Next(config, sys, run[0]), FlatStep(sys, disk, run[0]), run[1..], i - 1);
      assert run[..i][1..] == run[1..][..i - 1];
    }
  }

  lemma {:induction false} PointRefines(config: int, sys: System, disk: Disk, run: seq<Step>, i: nat)
    requires Refines(sys, disk) && Legal(config, sys, run) && i <= |run|
    ensures Refines(Point(config, sys, run, i), FlatPoint(config, sys, disk, run, i))
    decreases i
  {
    if i > 0 {
      StepRefines(config, sys, disk, run[0]);
      PointRefines(config, Next(config, sys, run[0]), FlatStep(sys, disk, run[0]), run[1..], i - 1);
    }
  }

  lemma {:induction false} FlatPointNext(config: int, sys: System, disk: Disk, run: seq<Step>, i: nat)
    requires Legal(config, sys, run) && i < |run|
    ensures FlatPoint(config, sys, disk, run, i + 1) == FlatStep(Point(config, sys, run, i), FlatPoint(config, sys, disk, run, i), run[i])
    decreases i
  {
    if i > 0 { FlatPointNext(config, Next(config, sys, run[0]), FlatStep(sys, disk, run[0]), run[1..], i - 1); }
  }

  ghost function FlatAt(config: int, run: seq<Step>, i: nat): Disk
    requires Legal(config, START, run) && i <= |run|
  {
    FlatPoint(config, START, map[], run, i)
  }

  /** The version that holds the file: the open one, or the current one if none is open. */
  ghost predicate Holder(s: State, n: NodeId, w: VersionId) {
    w in s.versions && (IsStagingOf(s, n, w) || (Current(s, n, w) && forall v :: !IsStagingOf(s, n, v)))
  }

  /** It still does, with the same rows. */
  ghost predicate HeldOn(s: State, t: State, n: NodeId, w: VersionId) {
    Holder(t, n, w) && w in s.versions && t.versions[w].chunkSize == s.versions[w].chunkSize && RowsOf(t, w) == RowsOf(s, w)
  }

  lemma HolderFrame(s: State, t: State, n: NodeId, w: VersionId)
    requires SameVersionsOf(s, t, n) && n in s.nodes && n in t.nodes && t.nodes[n].current == s.nodes[n].current
    requires Holder(s, n, w) && s.versions[w].node == n
    ensures HeldOn(s, t, n, w)
  {
    assert forall v :: IsStagingOf(t, n, v) ==> IsStagingOf(s, n, v);
  }

  lemma SyncHolder(s: State, n: NodeId, w: VersionId)
    requires StateOk(s) && n in s.nodes && Holder(s, n, w)
    ensures HeldOn(s, CommitOpen(s, n), n, w)
  {
    var t := CommitOpen(s, n);
    if v :| IsOpen(s, n, v) {
      CommitOpenIs(s, n, v);
      OpenIsUnique(s, n, v);
      assert forall u :: IsStagingOf(t, n, u) ==> IsStagingOf(s, n, u) && u != v;
    }
  }

  lemma SweepHolder(sys: System, t: State, n: NodeId, w: VersionId)
    requires Safe(sys) && sys.sweep.Sweeping? && Collects(sys.repo, t, sys.horizon, sys.sweep.doomed)
    requires n in sys.repo.nodes && Holder(sys.repo, n, w) && Fresh(sys.repo, n, sys.horizon)
    ensures HeldOn(sys.repo, t, n, w)
  {
    var s := sys.repo;
    assert forall v :: IsStagingOf(t, n, v) ==> IsStagingOf(s, n, v);
    if !IsStagingOf(s, n, w) { assert CurrentOk(s, n, w) && CurrentOk(t, n, w); }
    NeededKept(sys, t, w);
  }

  lemma OtherWriterHolder(config: int, sys: System, m: NodeId, n: NodeId, w: VersionId)
    requires Safe(sys) && Enabled(sys, Advance(m)) && m != n && n in sys.repo.nodes && Holder(sys.repo, n, w)
    ensures var t := WriterStep(config, sys.repo, m, sys.writers[m]).0;
            HeldOn(sys.repo, t, n, w)
  {
    var s, wr := sys.repo, sys.writers[m];
    assert WriterSafe(s, sys.horizon, Doomed(sys), m, wr);
    assert Current(s, n, w) ==> CurrentOk(s, n, w);
    if wr.phase.Closing? { CommitFrame(s, m, n); } else { StepFrame(config, s, m, wr, n); }
    HolderFrame(s, WriterStep(config, s, m, wr).0, n, w);
  }

  lemma SweepStepHolder(config: int, sys: System, step: Step, n: NodeId, w: VersionId)
    requires Safe(sys) && Enabled(sys, step) && n in sys.repo.nodes && Fresh(sys.repo, n, sys.horizon) && Holder(sys.repo, n, w)
    requires step.Remove? || step.Forget? || step.Purge? || step.Reconcile?
    ensures var t := Next(config, sys, step).repo;
            HeldOn(sys.repo, t, n, w)
  {
    var s, sweep := sys.repo, sys.sweep;
    match step {
      case Remove(o) => RemoveCollects(s, o, sys.horizon, sweep.doomed);
      case Forget => ForgetCollects(s, sweep.gone.value, sys.horizon, sweep.doomed);
      case Purge => PurgeCollects(s, sweep.cutoff, sys.horizon, sweep.doomed);
      case Reconcile => ReconcileCollects(s, sys.horizon, sweep.doomed);
    }
    SweepHolder(sys, Next(config, sys, step).repo, n, w);
  }

  lemma SyncStepHolder(s: State, m: NodeId, n: NodeId, w: VersionId)
    requires StateOk(s) && m in s.nodes && n in s.nodes && Holder(s, n, w)
    ensures HeldOn(s, CommitOpen(s, m), n, w)
  {
    assert Current(s, n, w) ==> CurrentOk(s, n, w);
    if m == n {
      SyncHolder(s, n, w);
    } else {
      CommitFrame(s, m, n);
      HolderFrame(s, CommitOpen(s, m), n, w);
    }
  }

  lemma SameHolder(s: State, t: State, n: NodeId, w: VersionId)
    requires t.versions == s.versions && n in s.nodes && n in t.nodes && t.nodes[n].current == s.nodes[n].current
    requires Holder(s, n, w) && t.chunks == s.chunks
    ensures HeldOn(s, t, n, w)
  {
    assert forall v :: IsStagingOf(t, n, v) <==> IsStagingOf(s, n, v);
  }

  /** Nothing but a write to the file changes which version holds it. */
  lemma StepHolder(config: int, sys: System, step: Step, n: NodeId, w: VersionId)
    requires Safe(sys) && Enabled(sys, step) && n in sys.repo.nodes && n !in sys.writers && Fresh(sys.repo, n, sys.horizon)
    requires n in Next(config, sys, step).repo.nodes && n.id < sys.repo.nextNode && Holder(sys.repo, n, w)
    ensures var t := Next(config, sys, step).repo;
            HeldOn(sys.repo, t, n, w)
  {
    if step.Advance? {
      OtherWriterHolder(config, sys, step.n, n, w);
    } else if step.Sync? {
      SyncStepHolder(sys.repo, step.n, n, w);
    } else if step.Remove? || step.Forget? || step.Purge? || step.Reconcile? {
      SweepStepHolder(config, sys, step, n, w);
    } else {
      SameHolder(sys.repo, Next(config, sys, step).repo, n, w);
    }
  }

  lemma AtFileOk(config: int, run: seq<Step>, n: NodeId, i: nat)
    requires Legal(config, START, run) && i <= |run| && Promised(At(config, run, i), n)
    ensures Safe(At(config, run, i)) && FileOk(At(config, run, i), FlatAt(config, run, i), n)
  {
    PointRefines(config, START, map[], run, i);
  }

  ghost predicate RestsAt(config: int, run: seq<Step>, n: NodeId, i: nat)
    requires Legal(config, START, run) && i <= |run|
  {
    Promised(At(config, run, i), n) && n !in At(config, run, i).writers
  }

  /** From point `i` to point `j` the file exists, no write to it is under way and none was cut off. */
  ghost predicate AtRest(config: int, run: seq<Step>, n: NodeId, i: nat, j: nat)
    requires Legal(config, START, run) && j <= |run|
  {
    forall m :: i <= m <= j ==> RestsAt(config, run, n, m)
  }

  /** What a file at rest reads as. */
  lemma RestReads(config: int, run: seq<Step>, n: NodeId, i: nat)
    requires Legal(config, START, run) && i <= |run| && RestsAt(config, run, n, i)
    ensures var s := At(config, run, i).repo;
            && StateOk(s) && n in s.nodes && s.nodes[n].kind == File
            && n in FlatAt(config, run, i) && Quiet(View(s, n), FlatAt(config, run, i)[n])
  {
    AtFileOk(config, run, n, i);
  }

  lemma RestFacts(config: int, run: seq<Step>, n: NodeId, i: nat)
    requires Legal(config, START, run) && i <= |run| && RestsAt(config, run, n, i)
    ensures var sys := At(config, run, i);
            n in sys.repo.nodes && n.id < sys.repo.nextNode && Fresh(sys.repo, n, sys.horizon) && n in FlatAt(config, run, i)
  {
    AtFileOk(config, run, n, i);
  }

  lemma HolderNext(config: int, run: seq<Step>, n: NodeId, w: VersionId, i: nat)
    requires Legal(config, START, run) && i < |run| && RestsAt(config, run, n, i) && RestsAt(config, run, n, i + 1)
    requires Holder(At(config, run, i).repo, n, w)
    ensures HeldOn(At(config, run, i).repo, At(config, run, i + 1).repo, n, w)
  {
    AtNext(config, run, i);
    RestFacts(config, run, n, i);
    RestFacts(config, run, n, i + 1);
    StepHolder(config, At(config, run, i), run[i], n, w);
  }

  lemma {:induction false} HolderStays(config: int, run: seq<Step>, n: NodeId, w: VersionId, i: nat, j: nat)
    requires Legal(config, START, run) && i <= j <= |run| && AtRest(config, run, n, i, j) && Holder(At(config, run, i).repo, n, w)
    ensures HeldOn(At(config, run, i).repo, At(config, run, j).repo, n, w)
    decreases j - i
  {
    if i < j {
      HolderStays(config, run, n, w, i, j - 1);
      HolderNext(config, run, n, w, j - 1);
    }
  }

  lemma FlatRests(sys: System, disk: Disk, step: Step, n: NodeId)
    requires n in disk && n !in sys.writers && n.id < sys.repo.nextNode
    ensures n in FlatStep(sys, disk, step) && FlatStep(sys, disk, step)[n] == disk[n]
  {
  }

  lemma FlatNext(config: int, run: seq<Step>, n: NodeId, i: nat)
    requires Legal(config, START, run) && i < |run| && RestsAt(config, run, n, i)
    ensures n in FlatAt(config, run, i) && n in FlatAt(config, run, i + 1) && FlatAt(config, run, i + 1)[n] == FlatAt(config, run, i)[n]
  {
    RestFacts(config, run, n, i);
    FlatPointNext(config, START, map[], run, i);
    FlatRests(At(config, run, i), FlatAt(config, run, i), run[i], n);
  }

  lemma {:induction false} RestsFlat(config: int, run: seq<Step>, n: NodeId, i: nat, j: nat)
    requires Legal(config, START, run) && i <= j <= |run| && AtRest(config, run, n, i, j)
    ensures n in FlatAt(config, run, i) && n in FlatAt(config, run, j) && FlatAt(config, run, i)[n] == FlatAt(config, run, j)[n]
    decreases j - i
  {
    RestFacts(config, run, n, i);
    if i < j {
      RestsFlat(config, run, n, i, j - 1);
      FlatNext(config, run, n, j - 1);
    }
  }

  /** The write that was open when the node was read had been committed when it was looked for: the version
      the node named is not the file any more. */
  ghost predicate Overtaken(config: int, run: seq<Step>, n: NodeId, p: Points)
    requires Legal(config, START, run) && p.Within(|run|)
  {
    OpenOf(At(config, run, p.node).repo, n).Some? && OpenOf(At(config, run, p.open).repo, n).None?
  }

  lemma OpenIsHolder(s: State, n: NodeId)
    requires StateOk(s) && n in s.nodes
    ensures OpenOf(s, n).Some? ==> Holder(s, n, OpenOf(s, n).value)
    ensures OpenOf(s, n).None? && s.nodes[n].current.Some? ==> Holder(s, n, s.nodes[n].current.value)
  {
    OpenOfStaging(s, n);
    if s.nodes[n].current.Some? { assert CurrentOk(s, n, s.nodes[n].current.value); }
  }

  lemma HolderHolds(s: State, n: NodeId, w: VersionId, f: seq<Bytes.byte>)
    requires n in s.nodes && Quiet(View(s, n), f) && Holder(s, n, w)
    ensures VersionHolds(ViewOf(s, w), f)
  {
    var view := View(s, n);
    if IsStagingOf(s, n, w) {
      assert w in view.staged;
    } else {
      assert view.staged == map[];
    }
  }

  /** What a read of a file at rest finds if no sync overtakes it: the rows of the version that holds the file, or
      nothing if nothing was asked for. */
  ghost predicate FindsHolder(config: int, run: seq<Step>, n: NodeId, r: Read)
    requires Legal(config, START, run) && r.p.Within(|run|)
  {
    var s, t, f := At(config, run, r.p.node).repo, At(config, run, r.p.rows).repo, Found(config, run, n, r);
    && n in s.nodes
    && match Extent(s.nodes[n].size, r.offset, r.size)
       case None => f == Nothing
       case Some((from, len)) =>
         f.Rows? && f.from == from && f.len == len && Holder(t, n, f.v) && f.cs == ChunkSize(t.versions[f.v])
  }

  lemma HolderListed(version: State, rows: State, n: NodeId, w: VersionId, committed: bool, from: nat, len: nat)
    requires w in version.versions && len > 0 && HeldOn(version, rows, n, w) && StateOk(rows)
    ensures var f := Listed(version, rows, w, committed, from, len);
            f.Rows? && f.from == from && f.len == len && f.v == w && f.cs == ChunkSize(rows.versions[w])
  {
  }

  /** The open version, if there is one when it is looked for. */
  lemma RestFindsOpen(config: int, run: seq<Step>, n: NodeId, r: Read)
    requires Legal(config, START, run) && r.p.Within(|run|) && AtRest(config, run, n, r.p.node, r.p.rows)
    requires OpenOf(At(config, run, r.p.open).repo, n).Some?
    ensures FindsHolder(config, run, n, r)
  {
    var p := r.p;
    var s, open, t := At(config, run, p.node).repo, At(config, run, p.open).repo, At(config, run, p.rows).repo;
    assert RestsAt(config, run, n, p.node) && RestsAt(config, run, n, p.open);
    RestFacts(config, run, n, p.node);
    RestFacts(config, run, n, p.open);
    AtSafe(config, run, p.open);
    AtSafe(config, run, p.rows);
    if Extent(s.nodes[n].size, r.offset, r.size).Some? {
      var (from, len) := Extent(s.nodes[n].size, r.offset, r.size).value;
      var w := OpenOf(open, n).value;
      OpenIsHolder(open, n);
      HolderStays(config, run, n, w, p.open, p.rows);
      HolderListed(open, t, n, w, false, from, len);
    }
  }

  /** The version the node named, if there was no open one all along. */
  lemma RestFindsCurrent(config: int, run: seq<Step>, n: NodeId, r: Read)
    requires Legal(config, START, run) && r.p.Within(|run|) && AtRest(config, run, n, r.p.node, r.p.rows)
    requires OpenOf(At(config, run, r.p.node).repo, n).None? && OpenOf(At(config, run, r.p.open).repo, n).None?
    ensures FindsHolder(config, run, n, r)
  {
    var p := r.p;
    var s, version, t := At(config, run, p.node).repo, At(config, run, p.version).repo, At(config, run, p.rows).repo;
    assert RestsAt(config, run, n, p.node);
    RestReads(config, run, n, p.node);
    AtSafe(config, run, p.rows);
    if Extent(s.nodes[n].size, r.offset, r.size).Some? {
      var (from, len) := Extent(s.nodes[n].size, r.offset, r.size).value;
      NotEmptyIsCurrent(s, n, FlatAt(config, run, p.node)[n]);
      var w := s.nodes[n].current.value;
      OpenIsHolder(s, n);
      HolderStays(config, run, n, w, p.node, p.version);
      HolderStays(config, run, n, w, p.version, p.rows);
      HolderListed(version, t, n, w, true, from, len);
    }
  }

  lemma NotEmptyIsCurrent(s: State, n: NodeId, f: seq<Bytes.byte>)
    requires StateOk(s) && n in s.nodes && Quiet(View(s, n), f) && s.nodes[n].size > 0 && OpenOf(s, n).None?
    ensures s.nodes[n].current.Some?
  {
    OpenOfStaging(s, n);
    assert View(s, n).staged == map[];
  }

  /** Every object such a read needs is there when it is fetched. */
  lemma RestStored(config: int, run: seq<Step>, n: NodeId, i: nat, j: nat, w: VersionId, k: int)
    requires Legal(config, START, run) && i <= j <= |run| && AtRest(config, run, n, i, j)
    requires Holder(At(config, run, i).repo, n, w) && k in RowsOf(At(config, run, i).repo, w)
    ensures RowsOf(At(config, run, i).repo, w)[k].obj in At(config, run, j).repo.objects
  {
    HolderStays(config, run, n, w, i, j);
    assert RestsAt(config, run, n, j);
    RestReads(config, run, n, j);
    var t := At(config, run, j).repo;
    HolderHolds(t, n, w, FlatAt(config, run, j)[n]);
    assert PartOk(ViewOf(t, w).parts[k], k, ChunkSize(t.versions[w]), |FlatAt(config, run, j)[n]|);
  }

  /** The read is over by point `end`. */
  predicate Over(r: Read, end: nat) {
    r.p.rows <= end && forall k :: k in r.at ==> r.at[k] <= end
  }

  lemma RestNotBlocked(config: int, run: seq<Step>, n: NodeId, r: Read, end: nat)
    requires Made(config, run, n, r) && Over(r, end) && end <= |run| && AtRest(config, run, n, r.p.node, end)
    requires FindsHolder(config, run, n, r) && Found(config, run, n, r).Rows?
    ensures Returns(config, run, n, r)
  {
    var f, s := Found(config, run, n, r), At(config, run, r.p.rows).repo;
    forall k | k in f.rows ensures Fetched(config, run, n, r)[k].data.Some? {
      RestStored(config, run, n, r.p.rows, r.at[k], f.v, k);
    }
  }

  lemma AskedExtent(file: seq<Bytes.byte>, offset: Bytes.Option<nat>, size: Bytes.Option<nat>)
    ensures match Extent(|file|, offset, size)
            case None => Asked(file, offset, size) == []
            case Some((from, len)) => from + len <= |file| && Asked(file, offset, size) == file[from..from + len]
  {
  }

  lemma HeldSlice(view: VersionView, f: seq<Bytes.byte>, from: nat, len: nat)
    requires VersionHolds(view, f) && from + len <= |f|
    ensures BytesOf(view.parts, ChunkSize(view.rec), from, len) == f[from..from + len]
  {
    forall j | 0 <= j < len ensures BytesOf(view.parts, ChunkSize(view.rec), from, len)[j] == f[from..from + len][j] {
      HoldsEverywhere(view.parts, ChunkSize(view.rec), f, from + j);
    }
  }

  /** The version that holds the file spells it out. */
  lemma RestSpells(config: int, run: seq<Step>, n: NodeId, j: nat, w: VersionId, from: nat, len: nat)
    requires Legal(config, START, run) && j <= |run| && RestsAt(config, run, n, j) && Holder(At(config, run, j).repo, n, w)
    requires n in FlatAt(config, run, j) && from + len <= |FlatAt(config, run, j)[n]|
    ensures var cs := ChunkSize(At(config, run, j).repo.versions[w]);
            SpelledOut(config, run, j, w, cs, from, len) == FlatAt(config, run, j)[n][from..from + len]
  {
    var s, f := At(config, run, j).repo, FlatAt(config, run, j)[n];
    RestReads(config, run, n, j);
    HolderHolds(s, n, w, f);
    HeldSlice(ViewOf(s, w), f, from, len);
  }

  /** The bytes of a read that lists the rows of that version. */
  lemma RestGot(config: int, run: seq<Step>, n: NodeId, r: Read)
    requires Returns(config, run, n, r) && AtRest(config, run, n, r.p.node, r.p.rows) && FindsHolder(config, run, n, r)
    ensures n in FlatAt(config, run, r.p.node)
    ensures Got(config, run, n, r) == Asked(FlatAt(config, run, r.p.node)[n], r.offset, r.size)
  {
    assert RestsAt(config, run, n, r.p.node) && RestsAt(config, run, n, r.p.rows);
    RestReads(config, run, n, r.p.node);
    RestsFlat(config, run, n, r.p.node, r.p.rows);
    var f := Found(config, run, n, r);
    AskedExtent(FlatAt(config, run, r.p.node)[n], r.offset, r.size);
    GotAllThen(config, run, n, r);
    RestSpells(config, run, n, r.p.rows, f.v, f.from, f.len);
  }

  /** A read of a file at rest succeeds and returns exactly the asked slice of the flat file the writes so far make,
      wherever its lookups and fetches fall among syncs, sweeps and the writes to other files, unless a sync
      overtakes it. */
  lemma SpreadReadIsFlat(config: int, run: seq<Step>, n: NodeId, r: Read, end: nat)
    requires Made(config, run, n, r) && Over(r, end) && end <= |run|
    requires AtRest(config, run, n, r.p.node, end) && !Overtaken(config, run, n, r.p)
    ensures Legal(config, START, run[..r.p.node]) && n in FlatRun(config, START, map[], run[..r.p.node])
    ensures Answer(config, run, n, r).Ok?
    ensures Answer(config, run, n, r).value.0 == Asked(FlatRun(config, START, map[], run[..r.p.node])[n], r.offset, r.size)
  {
    assert RestsAt(config, run, n, r.p.node);
    FlatPointIsRun(config, START, map[], run, r.p.node);
    RestReads(config, run, n, r.p.node);
    if OpenOf(At(config, run, r.p.open).repo, n).Some? {
      RestFindsOpen(config, run, n, r);
    } else {
      RestFindsCurrent(config, run, n, r);
    }
    if Found(config, run, n, r).Rows? {
      RestNotBlocked(config, run, n, r, end);
      RestGot(config, run, n, r);
    } else {
      AskedExtent(FlatAt(config, run, r.p.node)[n], r.offset, r.size);
    }
  }

  /** One that is overtaken, in all its outcomes: nothing if the node named no version, an error if that version is
      gone, or else what is left of it, up to the size the file has now. */
  lemma OvertakenReadIs(config: int, run: seq<Step>, n: NodeId, r: Read)
    requires Made(config, run, n, r) && Overtaken(config, run, n, r.p)
    requires var s := At(config, run, r.p.node).repo; n in s.nodes && s.nodes[n].kind == File
    ensures var s, t, u := At(config, run, r.p.node).repo, At(config, run, r.p.version).repo, At(config, run, r.p.rows).repo;
            var f, answer := Found(config, run, n, r), Answer(config, run, n, r);
            && match Extent(s.nodes[n].size, r.offset, r.size)
               case None => answer == Ok(([], true))
               case Some((from, len)) =>
                 match s.nodes[n].current
                 case None => answer == Ok(([], true))
                 case Some(v) =>
                   if v !in t.versions || v !in u.chunks then answer == Err(Unreadable)
                   else
                     && f.Rows? && f.v == v && f.committed && f.from == from && f.len == len && f.cs > 0
                     && if AnyBlocked(Fetched(config, run, n, r), Span(from, len, f.cs)) then answer == Err(Unreadable)
                        else answer == Ok((SpelledOut(config, run, r.p.rows, v, f.cs, from, len), true))
  {
    if Returns(config, run, n, r) { GotAllThen(config, run, n, r); }
  }
}
