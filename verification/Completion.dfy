/** A write that is left alone runs to its end: legal runs exist and do what they should. */
module Completion {
  import opened Bytes
  import opened Records
  import opened Files
  import opened WriteSteps
  import opened Interleaving
  import opened FlatFiles
  import opened WholeWrites
  import opened CutOffWrites

  /** A step of the write to `n` that leaves it under way, or ends it with the flat-file write. */
  lemma AdvanceOne(config: int, sys: System, disk: Disk, n: NodeId)
    requires Refines(sys, disk) && Promised(sys, n) && n in sys.writers
    ensures Enabled(sys, Advance(n)) && n in disk
    ensures var next, disk' := Next(config, sys, Advance(n)), FlatStep(sys, disk, Advance(n));
            && Refines(next, disk') && Promised(next, n) && n in disk'
            && if n in next.writers then
                 && disk'[n] == disk[n] && next.writers[n] == sys.writers[n].(phase := next.writers[n].phase)
                 && next.writers[n] == WriterStep(config, sys.repo, n, sys.writers[n]).1.value
               else disk'[n] == FlatWrite(disk[n], sys.writers[n].offset, sys.writers[n].body)
  {
    assert FileOk(sys, disk, n);
    var wr := sys.writers[n];
    BusyCanStep(sys.repo, n, disk[n], wr);
    StepRefines(config, sys, disk, Advance(n));
    assert WriterSafe(sys.repo, sys.horizon, Doomed(sys), n, wr);
    StepKeepsKind(config, sys.repo, n, wr);
    if !wr.phase.Closing? { StepShape(config, sys.repo, n, wr); }
  }

  lemma FlatRunCons(config: int, sys: System, disk: Disk, step: Step, rest: seq<Step>)
    requires Enabled(sys, step) && Legal(config, Next(config, sys, step), rest)
    ensures Legal(config, sys, [step] + rest)
    ensures Run(config, sys, [step] + rest) == Run(config, Next(config, sys, step), rest)
    ensures FlatRun(config, sys, disk, [step] + rest) == FlatRun(config, Next(config, sys, step), FlatStep(sys, disk, step), rest)
  {
    RunCons(config, sys, step, rest);
    assert ([step] + rest)[1..] == rest;
  }

  /** A run that only advances one write. */
  predicate OnlyAdvances(run: seq<Step>, n: NodeId) {
    forall i :: 0 <= i < |run| ==> run[i] == Advance(n)
  }

  lemma OneMore(n: NodeId, rest: seq<Step>)
    requires OnlyAdvances(rest, n)
    ensures OnlyAdvances([Advance(n)] + rest, n)
  {
  }

  /** From any point of any run, advancing a write on an undisturbed file finishes it. */
  lemma {:induction false} WriteCompletes(config: int, sys: System, disk: Disk, n: NodeId) returns (more: seq<Step>)
    requires Refines(sys, disk) && Promised(sys, n) && n in sys.writers
    ensures Legal(config, sys, more) && OnlyAdvances(more, n)
    ensures var end, disk' := Run(config, sys, more), FlatRun(config, sys, disk, more);
            && Promised(end, n) && n !in end.writers && n in disk && n in disk'
            && disk'[n] == FlatWrite(disk[n], sys.writers[n].offset, sys.writers[n].body)
    decreases Stage(sys.writers[n].phase), Left(sys.writers[n].phase)
  {
    AdvanceOne(config, sys, disk, n);
    StepDecreases(config, sys.repo, n, sys.writers[n]);
    var next, disk' := Next(config, sys, Advance(n)), FlatStep(sys, disk, Advance(n));
    var rest: seq<Step> := [];
    if n in next.writers { rest := WriteCompletes(config, next, disk', n); }
    FlatRunCons(config, sys, disk, Advance(n), rest);
    OneMore(n, rest);
    more := [Advance(n)] + rest;
  }

  // ----- what a write leaves alone -----

  /** Clock, sweep and the record of disturbed files are as they were. */
  predicate Aside(sys: System, end: System) {
    && end.sweep == sys.sweep && end.horizon == sys.horizon && end.disturbed == sys.disturbed
    && end.repo.now == sys.repo.now
  }

  /** A write past its touch has just touched its version. */
  ghost predicate JustTouched(s: State, n: NodeId, phase: Phase) {
    phase.Resizing? || phase.Closing? ==> Fresh(s, n, s.now)
  }

  lemma StepTouches(config: int, s: State, n: NodeId, wr: Writer)
    requires StateOk(s) && Engaged(s, n, wr) && CanStep(s, n, wr) && JustTouched(s, n, wr.phase)
    ensures var (t, next) := WriterStep(config, s, n, wr);
            t.now == s.now && if next.Some? then JustTouched(t, n, next.value.phase) else Fresh(t, n, t.now)
  {
    StepObjects(config, s, n, wr);
    var t := WriterStep(config, s, n, wr).0;
    if wr.phase.Closing? { SyncFresh(s, n); }
    if wr.phase.Touching? || wr.phase.Resizing? { assert forall v :: IsStagingOf(t, n, v) ==> IsStagingOf(s, n, v); }
  }

  lemma SyncFresh(s: State, n: NodeId)
    requires StateOk(s) && n in s.nodes && Fresh(s, n, s.now)
    ensures Fresh(CommitOpen(s, n), n, s.now)
  {
    if v :| IsOpen(s, n, v) { CommitOpenIs(s, n, v); }
    assert forall v :: IsStagingOf(CommitOpen(s, n), n, v) ==> IsStagingOf(s, n, v);
  }

  lemma StepKeepsCurrent(config: int, s: State, n: NodeId, wr: Writer)
    requires StateOk(s) && Engaged(s, n, wr) && CanStep(s, n, wr) && n in s.nodes && !wr.Crosses()
    ensures var t := WriterStep(config, s, n, wr).0; n in t.nodes && t.nodes[n].current == s.nodes[n].current
  {
    if !wr.phase.Closing? { StepOnlyWork(config, s, n, wr); }
  }

  lemma AdvanceKeeps(config: int, sys: System, n: NodeId)
    requires Safe(sys) && Enabled(sys, Advance(n)) && JustTouched(sys.repo, n, sys.writers[n].phase) && n in sys.repo.nodes
    ensures var next := Next(config, sys, Advance(n));
            && Aside(sys, next) && n in next.repo.nodes && next.writers.Keys - {n} == sys.writers.Keys - {n}
            && (if n in next.writers then JustTouched(next.repo, n, next.writers[n].phase) else Fresh(next.repo, n, next.repo.now))
            && (n in next.writers ==> next.writers[n].Crosses() == sys.writers[n].Crosses())
            && (!sys.writers[n].Crosses() ==> next.repo.nodes[n].current == sys.repo.nodes[n].current)
  {
    var wr := sys.writers[n];
    assert WriterSafe(sys.repo, sys.horizon, Doomed(sys), n, wr);
    StepTouches(config, sys.repo, n, wr);
    StepKeepsKind(config, sys.repo, n, wr);
    if !wr.phase.Closing? { StepShape(config, sys.repo, n, wr); }
    if !wr.Crosses() { StepKeepsCurrent(config, sys.repo, n, wr); }
  }

  lemma {:induction false} AdvancesKeep(config: int, sys: System, n: NodeId, run: seq<Step>)
    requires Safe(sys) && n in sys.writers && n in sys.repo.nodes && JustTouched(sys.repo, n, sys.writers[n].phase)
    requires Legal(config, sys, run) && OnlyAdvances(run, n)
    ensures var end := Run(config, sys, run);
            && Aside(sys, end) && n in end.repo.nodes && end.writers.Keys - {n} == sys.writers.Keys - {n}
            && (n !in end.writers ==> Fresh(end.repo, n, end.repo.now))
            && (!sys.writers[n].Crosses() ==> end.repo.nodes[n].current == sys.repo.nodes[n].current)
    decreases |run|
  {
    if run != [] {
      assert run[0] == Advance(n);
      AdvanceKeeps(config, sys, n);
      StepSafe(config, sys, Advance(n));
      var next := Next(config, sys, Advance(n));
      assert |run| > 1 ==> run[1..][0] == Advance(n);
      if n in next.writers { AdvancesKeep(config, next, n, run[1..]); }
    }
  }

  /** What a whole write does. */
  ghost predicate Wrote(sys: System, disk: Disk, n: NodeId, offset: nat, body: seq<byte>, end: System, disk': Disk) {
    && Refines(end, disk') && Promised(end, n) && end.writers.Keys == sys.writers.Keys && Aside(sys, end)
    && Fresh(end.repo, n, end.repo.now)
    && n in disk && n in disk' && disk'[n] == FlatWrite(disk[n], offset, body)
    && n in sys.repo.nodes
    && (offset + |body| < COMMIT_EVERY_BYTES && |disk[n]| < COMMIT_EVERY_BYTES ==>
          end.repo.nodes[n].current == sys.repo.nodes[n].current)
  }

  lemma BeginAny(config: int, sys: System, disk: Disk, n: NodeId, offset: nat, body: seq<byte>)
    requires Refines(sys, disk) && Promised(sys, n) && n !in sys.writers && body != []
    ensures Enabled(sys, Begin(n, offset, body)) && n in disk
    ensures var next := Next(config, sys, Begin(n, offset, body));
            && Refines(next, disk) && Promised(next, n) && next == sys.(writers := next.writers)
            && n in next.writers && next.writers.Keys == sys.writers.Keys + {n}
            && next.writers[n] == Writer(offset, body, |disk[n]|, next.writers[n].phase) && JustTouched(next.repo, n, next.writers[n].phase)
  {
    assert FileOk(sys, disk, n);
    StepRefines(config, sys, disk, Begin(n, offset, body));
  }

  lemma SmallNeverCrosses(wr: Writer)
    requires wr.NewSize() < COMMIT_EVERY_BYTES
    ensures !wr.Crosses()
  {
  }

  lemma FinishAny(config: int, sys: System, disk: Disk, n: NodeId, b: System) returns (rest: seq<Step>)
    requires Refines(b, disk) && Promised(b, n) && n in b.writers && n in disk && |disk[n]| == b.writers[n].oldSize
    requires JustTouched(b.repo, n, b.writers[n].phase) && b == sys.(writers := b.writers) && b.writers.Keys - {n} == sys.writers.Keys
    ensures Legal(config, b, rest)
    ensures Wrote(sys, disk, n, b.writers[n].offset, b.writers[n].body, Run(config, b, rest), FlatRun(config, b, disk, rest))
  {
    rest := WriteCompletes(config, b, disk, n);
    RunRefines(config, b, disk, rest);
    AdvancesKeep(config, b, n, rest);
    assert Run(config, b, rest).writers.Keys == sys.writers.Keys;
    if b.writers[n].NewSize() < COMMIT_EVERY_BYTES { SmallNeverCrosses(b.writers[n]); }
  }

  /** So from any point of any run, a write to an undisturbed file nobody is writing can be made in full. */
  lemma DoWrite(config: int, sys: System, disk: Disk, n: NodeId, offset: nat, body: seq<byte>) returns (more: seq<Step>)
    requires Refines(sys, disk) && Promised(sys, n) && n !in sys.writers && body != []
    ensures Legal(config, sys, more)
    ensures Wrote(sys, disk, n, offset, body, Run(config, sys, more), FlatRun(config, sys, disk, more))
  {
    var step := Begin(n, offset, body);
    BeginAny(config, sys, disk, n, offset, body);
    var rest := FinishAny(config, sys, disk, n, Next(config, sys, step));
    FlatRunCons(config, sys, disk, step, rest);
    more := [step] + rest;
  }

  // ----- a first file -----

  const FIRST: NodeId := NodeId(0)

  lemma CreateFirst(config: int) returns (sys: System, disk: Disk)
    ensures sys == Next(config, START, Create(File)) && disk == map[FIRST := []] && Refines(sys, disk)
    ensures Promised(sys, FIRST) && sys.writers == map[] && forall v :: !IsStagingOf(sys.repo, FIRST, v)
  {
    sys, disk := Next(config, START, Create(File)), FlatStep(START, map[], Create(File));
    StepRefines(config, START, map[], Create(File));
  }

  lemma ReadsAs(sys: System, disk: Disk, n: NodeId)
    requires Refines(sys, disk) && Promised(sys, n) && n !in sys.writers && n in disk
    ensures ReadBytes(sys.repo, n, None, None).Ok? && ReadBytes(sys.repo, n, None, None).value.0 == disk[n]
  {
    assert FileOk(sys, disk, n);
    QuietRead(sys.repo, n, disk[n], None, None);
    assert Asked(disk[n], None, None) == disk[n];
  }

  /** So for every nonempty body there is a run that creates a file, writes it, and reads it back. */
  lemma WriteAndReadBack(config: int, body: seq<byte>) returns (run: seq<Step>)
    requires body != []
    ensures Legal(config, START, run)
    ensures var end := Run(config, START, run);
            && Promised(end, FIRST) && FIRST !in end.writers
            && ReadBytes(end.repo, FIRST, None, None).Ok? && ReadBytes(end.repo, FIRST, None, None).value.0 == body
  {
    var a, disk := CreateFirst(config);
    var more := DoWrite(config, a, disk, FIRST, 0, body);
    ReadsAs(Run(config, a, more), FlatRun(config, a, disk, more), FIRST);
    FlatRunCons(config, START, map[], Create(File), more);
    assert FlatWrite([], 0, body) == body;
    run := [Create(File)] + more;
  }

  // ----- a file left alone, and synced -----

  /** A read made at this moment returns `f`. */
  ghost predicate ReadsWhole(s: State, n: NodeId, f: seq<byte>) {
    ReadBytes(s, n, None, None).Ok? && ReadBytes(s, n, None, None).value.0 == f
  }

  /** A file nobody is writing and nothing has disturbed, with no other request under way. */
  ghost predicate Calm(config: int, run: seq<Step>, disk: Disk, n: NodeId, f: seq<byte>) {
    && Legal(config, START, run)
    && var sys := Run(config, START, run);
       Refines(sys, disk) && Promised(sys, n) && sys.writers == map[] && n in disk && disk[n] == f
  }

  /** Its committed version is the whole of it. */
  ghost predicate Synced(s: State, n: NodeId, v: VersionId, f: seq<byte>) {
    && n in s.nodes && s.nodes[n].current == Some(v) && s.nodes[n].size == |f| && v in s.versions
    && VersionHolds(ViewOf(s, v), f) && forall w :: !IsStagingOf(s, n, w)
  }

  lemma CalmWrite(config: int, pre: seq<Step>, disk: Disk, n: NodeId, f: seq<byte>, offset: nat, body: seq<byte>)
      returns (run: seq<Step>, disk': Disk)
    requires Calm(config, pre, disk, n, f) && body != []
    ensures Calm(config, run, disk', n, FlatWrite(f, offset, body)) && pre <= run
    ensures var s, t := Run(config, START, pre).repo, Run(config, START, run).repo;
            t.now == s.now && (|f| < COMMIT_EVERY_BYTES && offset + |body| < COMMIT_EVERY_BYTES ==> t.nodes[n].current == s.nodes[n].current)
  {
    var sys := Run(config, START, pre);
    var more := DoWrite(config, sys, disk, n, offset, body);
    disk' := FlatRun(config, sys, disk, more);
    RunCat(config, START, pre, more);
    run := pre + more;
    assert Run(config, START, run).writers.Keys == {};
  }

  lemma NothingStaged(s: State, n: NodeId)
    requires StateOk(s) && n in s.nodes
    ensures forall w :: !IsStagingOf(CommitOpen(s, n), n, w)
  {
    OpenOfStaging(s, n);
    if v :| IsOpen(s, n, v) { CommitOpenIs(s, n, v); OpenIsUnique(s, n, v); }
    assert forall w :: IsStagingOf(CommitOpen(s, n), n, w) ==> IsStagingOf(s, n, w);
  }

  lemma QuietSynced(s: State, n: NodeId, f: seq<byte>) returns (v: VersionId)
    requires StateOk(s) && n in s.nodes && Quiet(View(s, n), f) && f != [] && forall w :: !IsStagingOf(s, n, w)
    ensures Synced(s, n, v, f)
  {
    assert View(s, n).staged == map[];
    v := s.nodes[n].current.value;
  }

  lemma CalmSync(config: int, pre: seq<Step>, disk: Disk, n: NodeId, f: seq<byte>) returns (run: seq<Step>, v: VersionId)
    requires Calm(config, pre, disk, n, f) && f != []
    ensures Calm(config, run, disk, n, f) && run == pre + [Sync(n)] && Synced(Run(config, START, run).repo, n, v, f)
  {
    var sys := Run(config, START, pre);
    assert FileOk(sys, disk, n);
    StepRefines(config, sys, disk, Sync(n));
    var next := Next(config, sys, Sync(n));
    NothingStaged(sys.repo, n);
    assert Promised(next, n) by { CommitKind(sys.repo, n); }
    assert FileOk(next, disk, n);
    v := QuietSynced(next.repo, n, f);
    RunCons(config, sys, Sync(n), []);
    RunCat(config, START, pre, [Sync(n)]);
    run := pre + [Sync(n)];
  }

  lemma FirstSynced(config: int, b: byte) returns (run: seq<Step>, disk: Disk, v: VersionId)
    ensures Calm(config, run, disk, FIRST, [b]) && Synced(Run(config, START, run).repo, FIRST, v, [b])
  {
    var a, empty := CreateFirst(config);
    RunCons(config, START, Create(File), []);
    var write, disk' := CalmWrite(config, [Create(File)], empty, FIRST, [], 0, [b]);
    assert FlatWrite([], 0, [b]) == [b];
    run, v := CalmSync(config, write, disk', FIRST, [b]);
    disk := disk';
  }

  /** Nothing happens for a while. */
  lemma CalmTick(config: int, pre: seq<Step>, disk: Disk, n: NodeId, v: VersionId, f: seq<byte>, time: Time) returns (run: seq<Step>)
    requires Calm(config, pre, disk, n, f) && Synced(Run(config, START, pre).repo, n, v, f) && time >= Run(config, START, pre).repo.now
    ensures Calm(config, run, disk, n, f) && pre <= run
    ensures Run(config, START, run).repo == Run(config, START, pre).repo.(now := time) && Synced(Run(config, START, run).repo, n, v, f)
  {
    var sys := Run(config, START, pre);
    StepRefines(config, sys, disk, Tick(time));
    RunCons(config, sys, Tick(time), []);
    RunCat(config, START, pre, [Tick(time)]);
    run := pre + [Tick(time)];
    SyncedLater(sys.repo, n, v, f, time);
  }

  lemma SyncedLater(s: State, n: NodeId, v: VersionId, f: seq<byte>, time: Time)
    requires Synced(s, n, v, f)
    ensures Synced(s.(now := time), n, v, f)
  {
    assert forall w :: IsStagingOf(s.(now := time), n, w) ==> IsStagingOf(s, n, w);
  }
}
