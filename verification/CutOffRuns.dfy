/** Runs in which a write is caught half way: the zero read, the emptied file and the torn file. */
module CutOffRuns {
  import opened Bytes
  import opened Records
  import opened Files
  import opened WriteSteps
  import opened Interleaving
  import opened FlatFiles
  import opened CutOffWrites
  import opened Completion

  // ----- a write caught half way -----

  /** A write under way on an undisturbed file. */
  ghost predicate Writing(config: int, run: seq<Step>, disk: Disk, n: NodeId) {
    && Legal(config, START, run)
    && var sys := Run(config, START, run);
       Refines(sys, disk) && Promised(sys, n) && n in sys.writers
  }

  lemma Begun(config: int, pre: seq<Step>, disk: Disk, n: NodeId, f: seq<byte>, offset: nat, body: seq<byte>)
    requires Calm(config, pre, disk, n, f) && body != []
    ensures var run := pre + [Begin(n, offset, body)]; var s := Run(config, START, pre).repo;
            && Writing(config, run, disk, n) && Run(config, START, run).repo == s
            && Run(config, START, run).writers[n] == Writer(offset, body, |f|, OpenPhase(s, n, OpenOf(s, n)))
  {
    var sys, step := Run(config, START, pre), Begin(n, offset, body);
    BeginAny(config, sys, disk, n, offset, body);
    RunCons(config, sys, step, []);
    RunCat(config, START, pre, [step]);
  }

  lemma Advanced(config: int, pre: seq<Step>, disk: Disk, n: NodeId)
    requires Writing(config, pre, disk, n) && !Run(config, START, pre).writers[n].phase.Closing?
    ensures var run, sys := pre + [Advance(n)], Run(config, START, pre);
            && Writing(config, run, disk, n) && CanStep(sys.repo, n, sys.writers[n])
            && Run(config, START, run).repo == WriterStep(config, sys.repo, n, sys.writers[n]).0
            && Some(Run(config, START, run).writers[n]) == WriterStep(config, sys.repo, n, sys.writers[n]).1
  {
    var sys := Run(config, START, pre);
    AdvanceOne(config, sys, disk, n);
    RunCons(config, sys, Advance(n), []);
    RunCat(config, START, pre, [Advance(n)]);
  }

  /** While the manifest is carried over the whole file reads as zeroes. */
  lemma CarryingReads(s: State, n: NodeId, f: seq<byte>, wr: Writer)
    requires StateOk(s) && n in s.nodes && s.nodes[n].kind == File && Busy(s, n, f, wr) && wr.phase.Carrying?
    ensures ReadBytes(s, n, None, None).Ok? && ReadBytes(s, n, None, None).value.0 == Zeros(|f|)
  {
    ServedWhileBusy(s, n, f, wr);
    var got := ReadBytes(s, n, None, None).value.0;
    ReadWhileBusy(s, n, f, wr, None, None, got);
    assert |got| == |f|;
  }

  lemma CarryingRemains(s: State, n: NodeId, f: seq<byte>, wr: Writer)
    requires n in s.nodes && Busy(s, n, f, wr) && wr.phase.Carrying? && Listed(s, wr)
    ensures Remains(s, f, wr) == []
  {
    WorkListed(s, n, f, wr);
  }

  /** Any file that was synced, whatever it holds, and any write to it: after the first effect of the write the
      file reads as zeroes, and if the write is cut off there, a sync empties the file. */
  lemma SyncedThenCutOff(config: int, pre: seq<Step>, disk: Disk, n: NodeId, v: VersionId, f: seq<byte>, offset: nat, body: seq<byte>)
      returns (run: seq<Step>)
    requires Calm(config, pre, disk, n, f) && Synced(Run(config, START, pre).repo, n, v, f) && body != []
    ensures run == pre + [Begin(n, offset, body)] + [Advance(n)]
    ensures Legal(config, START, run) && ReadsWhole(Run(config, START, run).repo, n, Zeros(|f|))
    ensures Legal(config, START, run + [Abort(n), Sync(n)])
    ensures ReadsWhole(Run(config, START, run + [Abort(n), Sync(n)]).repo, n, [])
  {
    Begun(config, pre, disk, n, f, offset, body);
    Advanced(config, pre + [Begin(n, offset, body)], disk, n);
    run := pre + [Begin(n, offset, body)] + [Advance(n)];
    var sys := Run(config, START, run);
    assert FileOk(sys, disk, n);
    CarryingReads(sys.repo, n, f, sys.writers[n]);
    CutOff(config, run, disk, n);
    CarryingRemains(sys.repo, n, f, sys.writers[n]);
  }

  /** Such a file exists: `[7]` reads as `[0]` for a moment, and is empty in the end. */
  lemma SevenIsLost(config: int) returns (run: seq<Step>)
    ensures Legal(config, START, run) && ReadsWhole(Run(config, START, run).repo, FIRST, [0])
    ensures Legal(config, START, run + [Abort(FIRST), Sync(FIRST)])
    ensures ReadsWhole(Run(config, START, run + [Abort(FIRST), Sync(FIRST)]).repo, FIRST, [])
  {
    var pre, disk, v := FirstSynced(config, 7);
    run := SyncedThenCutOff(config, pre, disk, FIRST, v, [7], 0, [9]);
    assert Zeros(1) == [0];
  }

  // ----- a write that joins an open version, cut off between two parts -----

  ghost predicate OneChunkSize(config: int, s: State) {
    forall v :: v in s.versions ==> ChunkSize(s.versions[v]) == Max(config, 1)
  }

  lemma StepChunkSize(config: int, sys: System, step: Step)
    requires Safe(sys) && Enabled(sys, step) && OneChunkSize(config, sys.repo)
    ensures OneChunkSize(config, Next(config, sys, step).repo)
  {
    var s := sys.repo;
    match step
    case Advance(n) =>
      assert WriterSafe(s, sys.horizon, Doomed(sys), n, sys.writers[n]);
      WriterChunkSize(config, s, n, sys.writers[n]);
    case Sync(n) => SyncChunkSize(config, s, n);
    case _ =>
  }

  lemma SyncChunkSize(config: int, s: State, n: NodeId)
    requires StateOk(s) && n in s.nodes && OneChunkSize(config, s)
    ensures OneChunkSize(config, CommitOpen(s, n))
  {
    if v :| IsOpen(s, n, v) { CommitOpenIs(s, n, v); }
  }

  lemma WriterChunkSize(config: int, s: State, n: NodeId, wr: Writer)
    requires StateOk(s) && Engaged(s, n, wr) && CanStep(s, n, wr) && OneChunkSize(config, s)
    ensures OneChunkSize(config, WriterStep(config, s, n, wr).0)
  {
    if wr.phase.Closing? { SyncChunkSize(config, s, n); } else { StepOnlyWork(config, s, n, wr); }
  }

  /** In one run all versions have the same chunk size. */
  lemma {:induction false} RunChunkSize(config: int, sys: System, run: seq<Step>)
    requires Safe(sys) && Legal(config, sys, run) && OneChunkSize(config, sys.repo)
    ensures OneChunkSize(config, Run(config, sys, run).repo)
    decreases |run|
  {
    if run != [] {
      StepChunkSize(config, sys, run[0]);
      StepSafe(config, sys, run[0]);
      RunChunkSize(config, Next(config, sys, run[0]), run[1..]);
    }
  }

  lemma ChunkSizes(config: int, run: seq<Step>)
    requires Legal(config, START, run)
    ensures OneChunkSize(config, Run(config, START, run).repo)
  {
    RunChunkSize(config, START, run);
  }

  lemma TouchedBoth(wr: Writer)
    requires wr.offset == 0 && |wr.body| == 2 && wr.oldSize == 2
    ensures Touched(wr, 1) == [0, 1]
  {
    assert Range(0, 1) == [0, 1];
  }

  lemma CalmIsQuiet(config: int, run: seq<Step>, disk: Disk, n: NodeId, f: seq<byte>)
    requires Calm(config, run, disk, n, f)
    ensures var s := Run(config, START, run).repo; StateOk(s) && n in s.nodes && Quiet(View(s, n), f)
  {
    assert FileOk(Run(config, START, run), disk, n);
  }

  lemma QuietIsOpen(s: State, n: NodeId, f: seq<byte>) returns (u: VersionId)
    requires StateOk(s) && n in s.nodes && Quiet(View(s, n), f) && f != [] && s.nodes[n].current == None
    ensures u in s.versions && OpenOf(s, n) == Some(u) && s.versions[u].size == |f|
  {
    u :| u in View(s, n).staged;
    OpenIsUnique(s, n, u);
    OpenOfStaging(s, n);
  }

  lemma FirstPartNew(wr: Writer)
    requires wr.offset == 0 && wr.body == [2, 2] && wr.phase.Merging? && wr.phase.todo == [1]
    ensures Overlaid([1, 1], wr, 1) == [2, 1]
  {
    assert !Written(wr, 1, 1) && Written(wr, 1, 0);
  }

  /** The file `[1, 1]`, open and not synced. */
  lemma OpenFile(config: int) returns (pre: seq<Step>, disk: Disk, u: VersionId)
    ensures Calm(config, pre, disk, FIRST, [1, 1])
    ensures var s := Run(config, START, pre).repo;
            u in s.versions && OpenOf(s, FIRST) == Some(u) && ChunkSize(s.versions[u]) == Max(config, 1) && s.versions[u].size == 2
  {
    var a, empty := CreateFirst(config);
    RunCons(config, START, Create(File), []);
    pre, disk := CalmWrite(config, [Create(File)], empty, FIRST, [], 0, [1, 1]);
    assert FlatWrite([], 0, [1, 1]) == [1, 1];
    CalmIsQuiet(config, pre, disk, FIRST, [1, 1]);
    u := QuietIsOpen(Run(config, START, pre).repo, FIRST, [1, 1]);
    ChunkSizes(config, pre);
  }

  /** The write of `body` at the start of the file has its open version `u` of size `size` and these parts to go. */
  ghost predicate ToGo(config: int, run: seq<Step>, n: NodeId, body: seq<byte>, u: VersionId, rec: Version, todo: seq<int>)
    requires Legal(config, START, run)
  {
    var sys := Run(config, START, run);
    && n in sys.writers && u in sys.repo.versions && sys.repo.versions[u] == rec
    && sys.writers[n].offset == 0 && sys.writers[n].body == body
    && sys.writers[n].phase.Merging? && sys.writers[n].phase.work == u && sys.writers[n].phase.todo == todo
  }

  lemma JoinStarts(config: int, pre: seq<Step>, disk: Disk, n: NodeId, f: seq<byte>, body: seq<byte>, u: VersionId)
    requires Calm(config, pre, disk, n, f) && body != []
    requires var s := Run(config, START, pre).repo; u in s.versions && OpenOf(s, n) == Some(u)
    ensures var run, rec := pre + [Begin(n, 0, body)] + [Advance(n)], Run(config, START, pre).repo.versions[u];
            Writing(config, run, disk, n) && ToGo(config, run, n, body, u, rec, Touched(Writer(0, body, |f|, Scanning(u)), ChunkSize(rec)))
  {
    Begun(config, pre, disk, n, f, 0, body);
    Advanced(config, pre + [Begin(n, 0, body)], disk, n);
  }

  lemma OnePartMore(config: int, pre: seq<Step>, disk: Disk, n: NodeId, body: seq<byte>, u: VersionId, rec: Version, todo: seq<int>)
    requires Writing(config, pre, disk, n) && ToGo(config, pre, n, body, u, rec, todo) && todo != []
    ensures var run := pre + [Advance(n)] + [Advance(n)];
            Writing(config, run, disk, n) && ToGo(config, run, n, body, u, rec, todo[1..])
  {
    Advanced(config, pre, disk, n);
    Advanced(config, pre + [Advance(n)], disk, n);
  }

  /** Written over with `[2, 2]` part by part, cut off after the first one and synced, it is `[2, 1]`: neither the
      old file nor the new one. */
  lemma TornBySync() returns (run: seq<Step>)
    ensures Legal(1, START, run) && ReadsWhole(Run(1, START, run).repo, FIRST, [2, 1])
  {
    var pre, disk, u := OpenFile(1);
    var rec := Run(1, START, pre).repo.versions[u];
    JoinStarts(1, pre, disk, FIRST, [1, 1], [2, 2], u);
    TouchedBoth(Writer(0, [2, 2], 2, Scanning(u)));
    var a := pre + [Begin(FIRST, 0, [2, 2])] + [Advance(FIRST)];
    OnePartMore(1, a, disk, FIRST, [2, 2], u, rec, [0, 1]);
    var b := a + [Advance(FIRST)] + [Advance(FIRST)];
    CutOff(1, b, disk, FIRST);
    run := b + [Abort(FIRST), Sync(FIRST)];
    FirstPartNew(Run(1, START, b).writers[FIRST]);
  }
}
