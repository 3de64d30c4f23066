/** No object is ever shared between two files: over every interleaving, all the rows that name an
    object are rows of versions of one file. */
module Ownership {
  import opened Bytes
  import opened Records
  import opened Files
  import opened WriteSteps
  import opened Interleaving
  import opened FlatFiles
  import opened Collector
  import opened MemoryRepository

  /** A write carries rows over only from a version of its own file. */
  ghost predicate BasesOwn(s: State, writers: map<NodeId, Writer>) {
    forall n :: n in writers && writers[n].phase.Carrying? ==> BaseOwn(s, n, writers[n].phase.base)
  }

  predicate BaseOwn(s: State, n: NodeId, base: Option<VersionId>) {
    base.Some? ==> base.value.id < s.nextVersion && (base.value in s.versions ==> s.versions[base.value].node == n)
  }

  /** Versions stay with their file, and only new ids appear. */
  ghost predicate Settled(s: State, t: State) {
    && s.nextVersion <= t.nextVersion
    && (forall v :: v in t.versions && v.id < s.nextVersion ==> v in s.versions && t.versions[v].node == s.versions[v].node)
  }

  lemma BasesFrame(s: State, t: State, before: map<NodeId, Writer>, after: map<NodeId, Writer>, n: NodeId)
    requires BasesOwn(s, before) && Settled(s, t)
    requires forall m :: m in after && m != n ==> m in before && after[m] == before[m]
    requires n in after && after[n].phase.Carrying? ==> BaseOwn(t, n, after[n].phase.base)
    ensures BasesOwn(t, after)
  {
    forall m | m in after && after[m].phase.Carrying? ensures BaseOwn(t, m, after[m].phase.base) {
      if m != n { assert BaseOwn(s, m, before[m].phase.base); }
    }
  }

  /** A step that takes rows and versions away, or leaves them alone. */
  lemma OwnedFrame(s: State, t: State, owner: map<ObjectId, NodeId>)
    requires Owned(s, owner) && StateOk(s) && StateOk(t) && Settled(s, t)
    requires forall v :: v in t.versions ==> v in s.versions && SubRows(t, s, v)
    ensures Owned(t, owner)
  {
    forall v, k | v in t.chunks && k in t.chunks[v]
      ensures v in t.versions && t.chunks[v][k].obj in owner && owner[t.chunks[v][k].obj] == t.versions[v].node
    {
      assert k in RowsOf(t, v);
      assert v in s.chunks && k in s.chunks[v];
    }
  }

  /** The file a step's new row belongs to. */
  function OwnerAfter(owner: map<ObjectId, NodeId>, n: NodeId, wr: Writer): map<ObjectId, NodeId> {
    if wr.phase.Attaching? then owner[wr.phase.row.obj := n] else owner
  }

  ghost predicate Shrinks(s: State, t: State) {
    Settled(s, t) && forall v :: v in t.versions ==> v in s.versions && SubRows(t, s, v)
  }

  lemma SyncShrinks(s: State, n: NodeId)
    requires StateOk(s) && n in s.nodes
    ensures Shrinks(s, CommitOpen(s, n))
  {
    if u :| IsOpen(s, n, u) { CommitOpenIs(s, n, u); }
  }

  lemma StepSettled(config: int, s: State, n: NodeId, wr: Writer)
    requires StateOk(s) && Engaged(s, n, wr) && CanStep(s, n, wr)
    ensures var (t, next) := WriterStep(config, s, n, wr);
            && Settled(s, t)
            && (forall v :: v in t.versions && v !in s.versions ==> t.versions[v].node == n && RowsOf(t, v) == map[])
  {
    if wr.phase.Closing? { SyncShrinks(s, n); } else { StepOnlyWork(config, s, n, wr); }
  }

  lemma StepBase(config: int, s: State, n: NodeId, wr: Writer)
    requires StateOk(s) && Engaged(s, n, wr) && CanStep(s, n, wr)
    ensures var (t, next) := WriterStep(config, s, n, wr);
            next.Some? && next.value.phase.Carrying? ==> BaseOwn(t, n, next.value.phase.base)
  {
    if wr.phase.Opening? && wr.phase.base.Some? { assert CurrentOk(s, n, wr.phase.base.value); }
  }

  lemma StepOwnsRow(config: int, s: State, n: NodeId, wr: Writer, owner: map<ObjectId, NodeId>, v: VersionId, k: int)
    requires StateOk(s) && Engaged(s, n, wr) && CanStep(s, n, wr) && Owned(s, owner)
    requires wr.phase.Attaching? ==> Unreferenced(s, wr.phase.row.obj)
    requires wr.phase.Carrying? ==> BaseOwn(s, n, wr.phase.base)
    requires var t := WriterStep(config, s, n, wr).0; v in t.versions && v in s.versions && k in RowsOf(t, v)
    ensures var t, owner' := WriterStep(config, s, n, wr).0, OwnerAfter(owner, n, wr);
            RowsOf(t, v)[k].obj in owner' && owner'[RowsOf(t, v)[k].obj] == s.versions[v].node
  {
    StepRows(config, s, n, wr, v, k);
    var row := RowsOf(WriterStep(config, s, n, wr).0, v)[k];
    if k in RowsOf(s, v) && row == RowsOf(s, v)[k] {
      assert s.chunks[v][k] == row;
    } else if wr.phase.Carrying? {
      var base := wr.phase.base.value;
      assert base in s.chunks && s.chunks[base][k] == row;
    }
  }

  lemma AdvanceOwned(config: int, s: State, n: NodeId, wr: Writer, owner: map<ObjectId, NodeId>)
    requires StateOk(s) && Engaged(s, n, wr) && CanStep(s, n, wr) && Owned(s, owner)
    requires wr.phase.Attaching? ==> Unreferenced(s, wr.phase.row.obj)
    requires wr.phase.Carrying? ==> BaseOwn(s, n, wr.phase.base)
    ensures Owned(WriterStep(config, s, n, wr).0, OwnerAfter(owner, n, wr))
  {
    var t, owner' := WriterStep(config, s, n, wr).0, OwnerAfter(owner, n, wr);
    StepStateOk(config, s, n, wr);
    StepSettled(config, s, n, wr);
    forall v, k | v in t.chunks && k in t.chunks[v]
      ensures v in t.versions && t.chunks[v][k].obj in owner' && owner'[t.chunks[v][k].obj] == t.versions[v].node
    {
      assert k in RowsOf(t, v) && RowsOf(t, v)[k] == t.chunks[v][k];
      StepOwnsRow(config, s, n, wr, owner, v, k);
    }
  }

  ghost predicate Kept(sys: System, owner: map<ObjectId, NodeId>) {
    Safe(sys) && Owned(sys.repo, owner) && BasesOwn(sys.repo, sys.writers)
  }

  lemma AdvanceKept(config: int, sys: System, n: NodeId, owner: map<ObjectId, NodeId>)
    requires Kept(sys, owner) && Enabled(sys, Advance(n))
    ensures Kept(Next(config, sys, Advance(n)), OwnerAfter(owner, n, sys.writers[n]))
  {
    var s, wr := sys.repo, sys.writers[n];
    assert WriterSafe(s, sys.horizon, Doomed(sys), n, wr);
    StepSafe(config, sys, Advance(n));
    AdvanceOwned(config, s, n, wr, owner);
    StepSettled(config, s, n, wr);
    StepBase(config, s, n, wr);
    BasesFrame(s, WriterStep(config, s, n, wr).0, sys.writers, Next(config, sys, Advance(n)).writers, n);
  }

  lemma CollectShrinks(s: State, o: ObjectId, cutoff: Time)
    requires StateOk(s)
    ensures Shrinks(s, ForgetObject(s, o)) && Shrinks(s, PurgeVersions(s, cutoff))
  {
  }

  lemma OtherSteps(config: int, sys: System, step: Step)
    requires Safe(sys) && Enabled(sys, step) && !step.Advance?
    ensures Shrinks(sys.repo, Next(config, sys, step).repo)
  {
    match step
    case Sync(n) => SyncShrinks(sys.repo, n);
    case Forget => CollectShrinks(sys.repo, sys.sweep.gone.value, 0);
    case Purge => CollectShrinks(sys.repo, ObjectId(0), sys.sweep.cutoff);
    case _ =>
  }

  lemma StepKept(config: int, sys: System, step: Step,
                 owner: map<ObjectId, NodeId>) returns (owner': map<ObjectId, NodeId>)
    requires Kept(sys, owner) && Enabled(sys, step)
    ensures Kept(Next(config, sys, step), owner')
  {
    if step.Advance? {
      AdvanceKept(config, sys, step.n, owner);
      owner' := OwnerAfter(owner, step.n, sys.writers[step.n]);
    } else {
      owner' := owner;
      StepSafe(config, sys, step);
      OtherSteps(config, sys, step);
      var next := Next(config, sys, step);
      OwnedFrame(sys.repo, next.repo, owner);
      BasesFrame(sys.repo, next.repo, sys.writers, next.writers, if step.Begin? then step.n else NodeId(0));
    }
  }

  lemma {:induction false} RunKept(config: int, sys: System, run: seq<Step>,
                                   owner: map<ObjectId, NodeId>) returns (owner': map<ObjectId, NodeId>)
    requires Kept(sys, owner) && Legal(config, sys, run)
    ensures Kept(Run(config, sys, run), owner')
    decreases |run|
  {
    owner' := owner;
    if run != [] {
      owner' := StepKept(config, sys, run[0], owner);
      owner' := RunKept(config, Next(config, sys, run[0]), run[1..], owner');
    }
  }

  /** In every run, two versions that name the same object are versions of the same file. */
  lemma NothingSharedBetweenFiles(config: int, run: seq<Step>, u: VersionId, v: VersionId, o: ObjectId)
    requires Legal(config, START, run)
    requires var s := Run(config, START, run).repo; Refers(s, u, o) && Refers(s, v, o)
    ensures var s := Run(config, START, run).repo;
            u in s.versions && v in s.versions && s.versions[u].node == s.versions[v].node
  {
    var owner := RunKept(config, START, run, map[]);
    SameOwner(Run(config, START, run).repo, owner, u, v, o);
  }

  /** At any point of any run, one complete sweep takes an abandoned write back exactly when it shares
      no object with the committed version. */
  lemma RolledBackInEveryRun(config: int, run: seq<Step>, cutoff: Time, doomed: seq<ObjectId>, fate: ObjectId -> Fate,
                             n: NodeId, v: VersionId, f: seq<byte>)
    requires Legal(config, START, run)
    requires var s := Run(config, START, run).repo; Abandoned(s, cutoff, n, v) && Complete(s, cutoff, doomed, fate, v)
    ensures var s := Run(config, START, run).repo; var t := Swept(s, cutoff, doomed, fate);
            && (v !in t.versions <==> !SharesWithCurrent(s, n, v))
            && (!SharesWithCurrent(s, n, v) ==>
                  && Restored(s, t, n) && (forall o :: Refers(s, v, o) ==> o !in t.objects)
                  && (CommittedHolds(s, n, f) ==> t.nodes[n].size == |f| && Quiet(View(t, n), f)))
  {
    var owner := RunKept(config, START, run, map[]);
    AbandonedWriteRolledBack(Run(config, START, run).repo, owner, cutoff, doomed, fate, n, v, f);
  }

  /** When it does share one, the file stays open and what the write had sealed reads as zeroes. */
  lemma SharedStaysInEveryRun(config: int, run: seq<Step>, cutoff: Time, doomed: seq<ObjectId>, fate: ObjectId -> Fate,
                              n: NodeId, v: VersionId, i: nat)
    requires Legal(config, START, run)
    requires var s := Run(config, START, run).repo;
             Abandoned(s, cutoff, n, v) && Complete(s, cutoff, doomed, fate, v) && SharesWithCurrent(s, n, v)
    ensures var s := Run(config, START, run).repo;
            var t, k, cs := Swept(s, cutoff, doomed, fate), i / ChunkSize(s.versions[v]), ChunkSize(s.versions[v]);
            && n in t.nodes && t.nodes[n] == s.nodes[n] && v in t.versions && Served(t, n) == Some(v) && v in s.chunks
            && ByteAt(ViewOf(t, v).parts, cs, i) ==
               (if k in s.chunks[v] && NamedByCurrent(s, n, s.chunks[v][k].obj) then ByteAt(ViewOf(s, v).parts, cs, i) else 0)
  {
    var owner := RunKept(config, START, run, map[]);
    SharedWriteStays(Run(config, START, run).repo, owner, cutoff, doomed, fate, n, v, i);
  }

  lemma AbandonedIdle(sys: System, cutoff: Time, n: NodeId, v: VersionId)
    requires Abandoned(sys.repo, cutoff, n, v) && forall m :: m in sys.writers ==> Fresh(sys.repo, m, cutoff)
    ensures n !in sys.writers
  {
  }

  /** A sweep nothing gets in the way of, as part of a run. */
  lemma SweepInRun(config: int, run: seq<Step>, cutoff: Time, doomed: seq<ObjectId>, fate: ObjectId -> Fate)
    requires Legal(config, START, run) && NoDuplicates(doomed)
    requires var sys := Run(config, START, run);
             && sys.sweep.Idle? && cutoff <= sys.repo.now && (forall m :: m in sys.writers ==> Fresh(sys.repo, m, cutoff))
             && (forall o :: o in doomed ==> IsCollectable(sys.repo, cutoff, o))
    ensures var more := run + ([Snapshot(cutoff, set o | o in doomed)] + SweepSteps(doomed, fate));
            && Legal(config, START, more) && Refines(Run(config, START, more), FlatRun(config, START, map[], more))
            && Run(config, START, more).repo == Swept(Run(config, START, run).repo, cutoff, doomed, fate)
            && Run(config, START, more).writers == Run(config, START, run).writers
  {
    var sweep := [Snapshot(cutoff, set o | o in doomed)] + SweepSteps(doomed, fate);
    SweepIsRun(config, Run(config, START, run), cutoff, doomed, fate);
    RunCat(config, START, run, sweep);
    RunRefines(config, START, map[], run + sweep);
  }

  /** A file taken back by a sweep is promised again, as the committed bytes. */
  lemma PromisedAfterRollback(config: int, run: seq<Step>, cutoff: Time, doomed: seq<ObjectId>, fate: ObjectId -> Fate,
                              n: NodeId, v: VersionId, f: seq<byte>)
    requires Legal(config, START, run) && NoDuplicates(doomed)
    requires var sys := Run(config, START, run);
             && sys.sweep.Idle? && cutoff <= sys.repo.now && (forall m :: m in sys.writers ==> Fresh(sys.repo, m, cutoff))
             && Abandoned(sys.repo, cutoff, n, v) && Complete(sys.repo, cutoff, doomed, fate, v)
             && !SharesWithCurrent(sys.repo, n, v) && CommittedHolds(sys.repo, n, f)
    ensures var more := run + ([Snapshot(cutoff, set o | o in doomed)] + SweepSteps(doomed, fate));
            && Legal(config, START, more)
            && Refines(Again(Run(config, START, more), n), FlatRun(config, START, map[], more)[n := f])
  {
    var more := run + ([Snapshot(cutoff, set o | o in doomed)] + SweepSteps(doomed, fate));
    AbandonedIdle(Run(config, START, run), cutoff, n, v);
    RolledBackInEveryRun(config, run, cutoff, doomed, fate, n, v, f);
    SweepInRun(config, run, cutoff, doomed, fate);
    PromisedAgain(Run(config, START, more), FlatRun(config, START, map[], more), n, f);
  }
}
