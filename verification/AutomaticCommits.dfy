/** When a write commits by itself: whenever the file grows to or past another multiple of a gibibyte. */
module AutomaticCommits {
  import opened Bytes
  import opened Records
  import opened Files
  import opened WriteSteps
  import opened Interleaving
  import opened FlatFiles
  import opened WholeWrites
  import opened CutOffWrites
  import opened Completion

  /** The `k`th gibibyte is reached on the way from one size to the other. */
  predicate Reaches(from: nat, to: nat, k: nat) {
    from < k * (1024 * 1024 * 1024) <= to
  }

  ghost predicate ReachesAny(from: nat, to: nat) {
    exists k :: Reaches(from, to, k)
  }

  lemma CrossesExactly(wr: Writer)
    ensures wr.Crosses() <==> ReachesAny(wr.oldSize, wr.NewSize())
  {
    var gib, from, to := 1024 * 1024 * 1024, wr.oldSize, wr.NewSize();
    DivMod(from, gib);
    DivMod(to, gib);
    if wr.Crosses() {
      MulMono(from / gib + 1, to / gib, gib);
      assert Reaches(from, to, to / gib);
    }
    if k: nat :| Reaches(from, to, k) {
      DivUnique(k * gib, k, gib);
      DivMono(k * gib, to, gib);
      if from / gib >= k { MulMono(k, from / gib, gib); }
    }
  }

  // ----- one write -----

  /** The version the write works on, or is about to stage. */
  ghost predicate Works(s: State, n: NodeId, wr: Writer, work: VersionId) {
    if wr.phase.Opening? then work == VersionId(s.nextVersion) && forall v :: !IsStagingOf(s, n, v) else IsStagingOf(s, n, work)
  }

  lemma StepWorks(config: int, s: State, n: NodeId, wr: Writer, work: VersionId)
    requires StateOk(s) && Engaged(s, n, wr) && CanStep(s, n, wr) && n in s.nodes && !wr.phase.Closing? && Works(s, n, wr, work)
    ensures var (t, next) := WriterStep(config, s, n, wr);
            next.Some? && Works(t, n, next.value, work) && n in t.nodes && t.nodes[n].current == s.nodes[n].current
  {
  }

  /** The version is committed and nothing is open, or it is open and nothing is committed. */
  ghost predicate Ends(s: State, t: State, n: NodeId, work: VersionId, commits: bool) {
    && n in s.nodes && n in t.nodes
    && if commits then t.nodes[n].current == Some(work) && View(t, n).staged == map[]
       else t.nodes[n].current == s.nodes[n].current && View(t, n).staged.Keys == {work}
  }

  lemma CloseEnds(config: int, s: State, n: NodeId, wr: Writer, work: VersionId)
    requires StateOk(s) && n in s.nodes && wr.phase.Closing? && IsStagingOf(s, n, work)
    ensures CanStep(s, n, wr) && Ends(s, WriterStep(config, s, n, wr).0, n, work, wr.Crosses())
  {
    OpenIsUnique(s, n, work);
    assert IsOpen(s, n, work);
    CommitOpenIs(s, n, work);
    NothingStaged(s, n);
  }

  lemma {:induction false} RunEnds(config: int, s: State, n: NodeId, f: seq<byte>, wr: Writer, work: VersionId, commits: bool)
    requires StateOk(s) && n in s.nodes && Engaged(s, n, wr) && Busy(s, n, f, wr) && Works(s, n, wr, work) && commits == wr.Crosses()
    ensures Ends(s, RunWriter(config, s, n, wr).0, n, work, commits)
    decreases Stage(wr.phase), Left(wr.phase)
  {
    BusyCanStep(s, n, f, wr);
    if wr.phase.Closing? {
      CloseEnds(config, s, n, wr, work);
    } else {
      StepBusy(config, s, n, f, wr);
      StepStateOk(config, s, n, wr);
      StepEngaged(config, s, n, wr);
      StepWorks(config, s, n, wr, work);
      StepShape(config, s, n, wr);
      StepDecreases(config, s, n, wr);
      var (t, next) := WriterStep(config, s, n, wr);
      CrossesInAnyPhase(next.value, wr);
      RunEnds(config, t, n, f, next.value, work, commits);
    }
  }

  /** The version a write to this file goes to: the open one, or a new one. */
  ghost function WorkOf(s: State, n: NodeId): VersionId {
    if OpenOf(s, n).Some? then OpenOf(s, n).value else VersionId(s.nextVersion)
  }

  /** A whole write to a file that reads as `f` commits the version it worked on, and leaves nothing open, if the file
      reaches a multiple of a gibibyte it had not reached before; otherwise it leaves exactly that version open. */
  lemma CommitsByItself(config: int, s: State, n: NodeId, f: seq<byte>, offset: nat, body: seq<byte>)
    requires StateOk(s) && n in s.nodes && Quiet(View(s, n), f) && body != []
    ensures var t := RunWriter(config, s, n, StartWriter(s, n, offset, body)).0;
            Ends(s, t, n, WorkOf(s, n), ReachesAny(|f|, Max(|f|, offset + |body|)))
  {
    var wr := StartWriter(s, n, offset, body);
    StartHasSize(s, n, f, offset, body);
    OpenOfStaging(s, n);
    CrossesExactly(wr);
    RunEnds(config, s, n, f, wr, WorkOf(s, n), wr.Crosses());
  }

  lemma FlagOf(t: State, n: NodeId, s: State, work: VersionId, commits: bool, g: seq<byte>)
    requires StateOk(t) && Ends(s, t, n, work, commits) && t.nodes[n].kind == File && Quiet(View(t, n), g) && g != []
    ensures ReadBytes(t, n, None, None) == Ok((g, commits))
  {
    QuietRead(t, n, g, None, None);
    assert Asked(g, None, None) == g;
    OpenOfStaging(t, n);
    if !commits { assert work in View(t, n).staged && IsStagingOf(t, n, work); }
    if OpenOf(t, n).Some? { assert OpenOf(t, n).value in View(t, n).staged; }
  }

  /** So the next read of the file is flagged committed exactly then. */
  lemma CommittedAfterWrite(config: int, s: State, n: NodeId, f: seq<byte>, offset: nat, body: seq<byte>)
    requires StateOk(s) && n in s.nodes && s.nodes[n].kind == File && Quiet(View(s, n), f) && body != []
    ensures var t := RunWriter(config, s, n, StartWriter(s, n, offset, body)).0;
            ReadBytes(t, n, None, None) == Ok((FlatWrite(f, offset, body), ReachesAny(|f|, Max(|f|, offset + |body|))))
  {
    var wr, t := StartWriter(s, n, offset, body), RunWriter(config, s, n, StartWriter(s, n, offset, body)).0;
    StartHasSize(s, n, f, offset, body);
    CommitsByItself(config, s, n, f, offset, body);
    WriteIsFlatWrite(config, s, n, f, wr, n);
    RunKeepsKind(config, s, n, wr);
    FlagOf(t, n, s, WorkOf(s, n), ReachesAny(|f|, Max(|f|, offset + |body|)), FlatWrite(f, offset, body));
  }

  // ----- in every run -----

  /** The last effect of a write. */
  lemma LastEffect(config: int, s: State, n: NodeId, f: seq<byte>, wr: Writer) returns (work: VersionId)
    requires StateOk(s) && n in s.nodes && Busy(s, n, f, wr) && wr.phase.Closing?
    ensures CanStep(s, n, wr) && Ends(s, WriterStep(config, s, n, wr).0, n, work, ReachesAny(|f|, Max(|f|, wr.offset + |wr.body|)))
  {
    work :| work in View(s, n).staged;
    CloseEnds(config, s, n, wr, work);
    CrossesExactly(wr);
  }

  /** The write to `n` can make its last step, and it ends as a whole write does. */
  ghost predicate Closes(config: int, sys: System, n: NodeId, f: seq<byte>, work: VersionId) {
    && n in sys.writers && Enabled(sys, Advance(n))
    && var wr, next := sys.writers[n], Next(config, sys, Advance(n));
       n !in next.writers && Ends(sys.repo, next.repo, n, work, ReachesAny(|f|, Max(|f|, wr.offset + |wr.body|)))
  }

  lemma LastStepOfWrite(config: int, sys: System, n: NodeId, f: seq<byte>) returns (work: VersionId)
    requires n in sys.writers && StateOk(sys.repo) && n in sys.repo.nodes
    requires Busy(sys.repo, n, f, sys.writers[n]) && sys.writers[n].phase.Closing?
    ensures Closes(config, sys, n, f, work)
  {
    work := LastEffect(config, sys.repo, n, f, sys.writers[n]);
  }

  lemma FileBusy(sys: System, disk: Disk, n: NodeId)
    requires Refines(sys, disk) && Promised(sys, n) && n in sys.writers
    ensures n in disk && StateOk(sys.repo) && Busy(sys.repo, n, disk[n], sys.writers[n])
  {
    assert FileOk(sys, disk, n);
  }

  /** However it is interleaved with other requests and sweeps, a write to an undisturbed file ends in the same way. */
  lemma CommitsInEveryRun(config: int, run: seq<Step>, n: NodeId) returns (work: VersionId)
    requires Legal(config, START, run)
    requires var sys := Run(config, START, run); Promised(sys, n) && n in sys.writers && sys.writers[n].phase.Closing?
    ensures var disk := FlatRun(config, START, map[], run); n in disk && Closes(config, Run(config, START, run), n, disk[n], work)
  {
    RunRefines(config, START, map[], run);
    var sys, disk := Run(config, START, run), FlatRun(config, START, map[], run);
    FileBusy(sys, disk, n);
    work := LastStepOfWrite(config, sys, n, disk[n]);
  }
}
