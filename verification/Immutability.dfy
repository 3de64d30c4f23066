/** A version that stays current keeps its rows and bytes, and one that is replaced is never current again. */
module Immutability {
  import opened Bytes
  import opened Records
  import opened Files
  import opened WriteSteps
  import opened Interleaving
  import opened FlatFiles

  predicate Current(s: State, n: NodeId, v: VersionId) {
    n in s.nodes && s.nodes[n].current == Some(v)
  }

  /** A version that can no longer become the current one of `n`. */
  predicate Retired(s: State, n: NodeId, v: VersionId) {
    n.id < s.nextNode && v.id < s.nextVersion && !Current(s, n, v) && (v in s.versions ==> s.versions[v].state != Staging)
  }

  lemma CommitKeepsRetired(s: State, m: NodeId, n: NodeId, v: VersionId)
    requires StateOk(s) && m in s.nodes && Retired(s, n, v)
    ensures Retired(CommitOpen(s, m), n, v)
  {
    if u :| IsOpen(s, m, u) { CommitOpenIs(s, m, u); }
  }

  lemma StepKeepsRetired(config: int, sys: System, step: Step, n: NodeId, v: VersionId)
    requires Safe(sys) && Enabled(sys, step) && Retired(sys.repo, n, v)
    ensures Retired(Next(config, sys, step).repo, n, v)
  {
    if step.Sync? {
      CommitKeepsRetired(sys.repo, step.n, n, v);
    } else if step.Advance? {
      AdvanceKeepsRetired(config, sys, step.n, n, v);
    }
  }

  lemma AdvanceKeepsRetired(config: int, sys: System, m: NodeId, n: NodeId, v: VersionId)
    requires Safe(sys) && Enabled(sys, Advance(m)) && Retired(sys.repo, n, v)
    ensures Retired(WriterStep(config, sys.repo, m, sys.writers[m]).0, n, v)
  {
    assert WriterSafe(sys.repo, sys.horizon, Doomed(sys), m, sys.writers[m]);
    if sys.writers[m].phase.Closing? {
      CommitKeepsRetired(sys.repo, m, n, v);
    } else {
      StepOnlyWork(config, sys.repo, m, sys.writers[m]);
    }
  }

  lemma {:induction false} RetiredForGood(config: int, sys: System, run: seq<Step>, n: NodeId, v: VersionId)
    requires Safe(sys) && Legal(config, sys, run) && Retired(sys.repo, n, v)
    ensures Retired(Run(config, sys, run).repo, n, v)
    decreases |run|
  {
    if run != [] {
      StepSafe(config, sys, run[0]);
      StepKeepsRetired(config, sys, run[0], n, v);
      RetiredForGood(config, Next(config, sys, run[0]), run[1..], n, v);
    }
  }

  /** A commit that leaves `v` current was no commit at all. */
  lemma CommitReplaces(s: State, n: NodeId, v: VersionId)
    requires StateOk(s) && Current(s, n, v) && Current(CommitOpen(s, n), n, v)
    ensures CommitOpen(s, n) == s
  {
    assert CurrentOk(s, n, v);
    if u :| IsOpen(s, n, u) { CommitOpenIs(s, n, u); }
  }

  lemma WriterKeepsCurrent(config: int, s: State, m: NodeId, wr: Writer, n: NodeId, v: VersionId)
    requires StateOk(s) && Engaged(s, m, wr) && CanStep(s, m, wr) && Current(s, n, v)
    requires Current(WriterStep(config, s, m, wr).0, n, v)
    ensures v in s.versions
    ensures var t := WriterStep(config, s, m, wr).0; v in t.versions && ViewOf(t, v) == ViewOf(s, v)
  {
    var t := WriterStep(config, s, m, wr).0;
    assert CurrentOk(s, n, v);
    if m != n {
      StepOthers(config, s, m, wr, n);
      StepStateOk(config, s, m, wr);
      assert View(t, n).current == View(s, n).current;
    } else if wr.phase.Closing? {
      if wr.Crosses() { CommitReplaces(s, n, v); }
    } else {
      StepObjects(config, s, m, wr);
      SameParts(s, t, RowsOf(s, v));
    }
  }

  lemma SweepKeepsCurrent(config: int, sys: System, step: Step, n: NodeId, v: VersionId)
    requires Safe(sys) && Enabled(sys, step) && Current(sys.repo, n, v)
    requires step.Remove? || step.Forget? || step.Purge? || step.Reconcile?
    ensures v in sys.repo.versions
    ensures var t := Next(config, sys, step).repo; v in t.versions && ViewOf(t, v) == ViewOf(sys.repo, v)
  {
    var s, sweep := sys.repo, sys.sweep;
    assert CurrentOk(s, n, v);
    match step {
    case Remove(o) => RemoveCollects(s, o, sys.horizon, sweep.doomed);
    case Forget => ForgetCollects(s, sweep.gone.value, sys.horizon, sweep.doomed);
    case Purge => PurgeCollects(s, sweep.cutoff, sys.horizon, sweep.doomed);
    case Reconcile => ReconcileCollects(s, sys.horizon, sweep.doomed);
    }
    NeededKept(sys, Next(config, sys, step).repo, v);
  }

  lemma StepKeepsCurrent(config: int, sys: System, step: Step, n: NodeId, v: VersionId)
    requires Safe(sys) && Enabled(sys, step) && Current(sys.repo, n, v) && Current(Next(config, sys, step).repo, n, v)
    ensures v in sys.repo.versions
    ensures var t := Next(config, sys, step).repo; v in t.versions && ViewOf(t, v) == ViewOf(sys.repo, v)
  {
    assert CurrentOk(sys.repo, n, v);
    if step.Advance? {
      assert WriterSafe(sys.repo, sys.horizon, Doomed(sys), step.n, sys.writers[step.n]);
      WriterKeepsCurrent(config, sys.repo, step.n, sys.writers[step.n], n, v);
    } else if step.Sync? {
      if step.n == n { CommitReplaces(sys.repo, n, v); } else { SyncOther(sys.repo, step.n, n, v); }
    } else if step.Remove? || step.Forget? || step.Purge? || step.Reconcile? {
      SweepKeepsCurrent(config, sys, step, n, v);
    }
  }

  lemma SyncOther(s: State, m: NodeId, n: NodeId, v: VersionId)
    requires StateOk(s) && m in s.nodes && m != n && Current(s, n, v) && v in s.versions
    ensures var t := CommitOpen(s, m); v in t.versions && ViewOf(t, v) == ViewOf(s, v)
  {
    assert CurrentOk(s, n, v);
    CommitOthers(s, m, n);
    CommitOpenStateOk(s, m);
    CommitFrame(s, m, n);
    assert CurrentOk(CommitOpen(s, m), n, v);
    assert View(CommitOpen(s, m), n).current == View(s, n).current;
  }

  /** A version that is current before and after a run holds the same rows and bytes. */
  lemma {:induction false} RunKeepsCurrent(config: int, sys: System, run: seq<Step>, n: NodeId, v: VersionId)
    requires Safe(sys) && Legal(config, sys, run)
    requires Current(sys.repo, n, v) && Current(Run(config, sys, run).repo, n, v)
    ensures v in sys.repo.versions && v in Run(config, sys, run).repo.versions
    ensures ViewOf(Run(config, sys, run).repo, v) == ViewOf(sys.repo, v)
    decreases |run|
  {
    assert CurrentOk(sys.repo, n, v);
    if run != [] {
      var next := Next(config, sys, run[0]);
      StepSafe(config, sys, run[0]);
      if !Current(next.repo, n, v) {
        LeavesForGood(config, sys, run[0], n, v);
        RetiredForGood(config, next, run[1..], n, v);
      } else {
        StepKeepsCurrent(config, sys, run[0], n, v);
        RunKeepsCurrent(config, next, run[1..], n, v);
      }
    }
  }

  /** A version that stops being current is retired. */
  lemma LeavesForGood(config: int, sys: System, step: Step, n: NodeId, v: VersionId)
    requires Safe(sys) && Enabled(sys, step) && Current(sys.repo, n, v) && !Current(Next(config, sys, step).repo, n, v)
    ensures Retired(Next(config, sys, step).repo, n, v)
  {
    assert CurrentOk(sys.repo, n, v);
    if step.Sync? {
      CommitNotStaging(sys.repo, step.n, v);
    } else if step.Advance? {
      WriterNotStaging(config, sys, step.n, v);
    }
  }

  lemma WriterNotStaging(config: int, sys: System, m: NodeId, v: VersionId)
    requires Safe(sys) && Enabled(sys, Advance(m)) && v in sys.repo.versions && sys.repo.versions[v].state != Staging
    ensures var t := WriterStep(config, sys.repo, m, sys.writers[m]).0;
            && v in t.versions && t.versions[v].state != Staging
            && t.nextVersion >= sys.repo.nextVersion && t.nextNode == sys.repo.nextNode
  {
    assert WriterSafe(sys.repo, sys.horizon, Doomed(sys), m, sys.writers[m]);
    if sys.writers[m].phase.Closing? {
      CommitNotStaging(sys.repo, m, v);
    } else {
      StepOnlyWork(config, sys.repo, m, sys.writers[m]);
    }
  }

  lemma CommitNotStaging(s: State, m: NodeId, v: VersionId)
    requires StateOk(s) && m in s.nodes && v in s.versions && s.versions[v].state != Staging
    ensures var t := CommitOpen(s, m);
            v in t.versions && t.versions[v].state != Staging && t.nextVersion == s.nextVersion && t.nextNode == s.nextNode
  {
    if u :| IsOpen(s, m, u) { CommitOpenIs(s, m, u); }
  }

  /** Once it has stopped being current, no run makes it current again. */
  lemma {:induction false} NeverCurrentAgain(config: int, sys: System, run: seq<Step>, more: seq<Step>, n: NodeId, v: VersionId)
    requires Safe(sys) && Legal(config, sys, run) && Legal(config, Run(config, sys, run), more)
    requires Current(sys.repo, n, v) && !Current(Run(config, sys, run).repo, n, v)
    ensures !Current(Run(config, Run(config, sys, run), more).repo, n, v)
    decreases |run|
  {
    var next := Next(config, sys, run[0]);
    StepSafe(config, sys, run[0]);
    if Current(next.repo, n, v) {
      NeverCurrentAgain(config, next, run[1..], more, n, v);
    } else {
      LeavesForGood(config, sys, run[0], n, v);
      RetiredForGood(config, next, run[1..], n, v);
      RunSafe(config, next, run[1..]);
      RetiredForGood(config, Run(config, next, run[1..]), more, n, v);
    }
  }
}
