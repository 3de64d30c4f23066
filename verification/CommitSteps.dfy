/** A commit as the server makes it: the open version is looked up, then the node is read for the guard,
    then the guarded commit is sent, and anything may happen in between.

    Whoever commits holds the file lock throughout: `commits` is the set of files locked for that, in
    addition to the `writers` of the system underneath. A run at this grain is a run of that system with
    the lookups left out, so everything proved of its runs holds here. */
module CommitSteps {
  import opened Bytes
  import opened Records
  import opened Files
  import opened WriteSteps
  import opened Interleaving

  datatype Commit = Looking | Found(v: VersionId, size: int) | Guarded(g: CommitGuard, size: int)

  datatype Fine = Fine(sys: System, commits: map<NodeId, Commit>)

  datatype FineStep =
    | Other(step: Step)                             // anything but a commit
    | Lock(n: NodeId)                               // a sync takes the file lock
    | Turn(n: NodeId)                               // a write that crossed a boundary turns to its commit
    | Find(n: NodeId, found: Option<VersionId>)
    | ReadGuard(n: NodeId)
    | TryCommit(n: NodeId)
    | Drop(n: NodeId)                               // the request is cut off

  /** A write whose last effect is a commit. */
  predicate Owes(sys: System, n: NodeId) {
    n in sys.writers && sys.writers[n].phase.Closing? && sys.writers[n].Crosses()
  }

  /** The lock keeps writes and other commits off a file that is being committed; as everywhere, no sweep
      starts with a cutoff that makes the version being committed an abandoned one. */
  ghost predicate Admits(f: Fine, step: Step) {
    match step
    case Begin(n, _, _) => n !in f.commits
    case Advance(n) => n !in f.commits && !Owes(f.sys, n)
    case Abort(n) => n !in f.commits
    case Sync(_) => false
    case Snapshot(cutoff, _) => forall n :: n in f.commits ==> Fresh(f.sys.repo, n, cutoff)
    case _ => true
  }

  ghost predicate FineEnabled(f: Fine, step: FineStep) {
    var s := f.sys.repo;
    match step
    case Other(step) => Enabled(f.sys, step) && Admits(f, step)
    case Lock(n) => n.id < s.nextNode && n !in f.sys.writers && n !in f.commits && Fresh(s, n, f.sys.horizon)
    case Turn(n) => Owes(f.sys, n) && n !in f.commits
    case Find(n, found) =>
      && n in f.commits && f.commits[n].Looking?
      && if found.Some? then IsOpen(s, n, found.value) else forall v :: !IsStagingOf(s, n, v)
    case ReadGuard(n) => n in f.commits && f.commits[n].Found? && n in s.nodes
    case TryCommit(n) => n in f.commits && f.commits[n].Guarded?
    case Drop(n) => n in f.commits
  }

  /** The request on `n` is over: its lock is free, and its write, if it was one, has ended. */
  function Done(f: Fine, n: NodeId, repo: State): Fine {
    Fine(f.sys.(repo := repo, writers := f.sys.writers - {n}), f.commits - {n})
  }

  /** The request on `n` gives up. */
  function Fails(f: Fine, n: NodeId): Fine {
    Fine(if n in f.sys.writers then f.sys.(writers := f.sys.writers - {n}, disturbed := f.sys.disturbed + {n}) else f.sys,
         f.commits - {n})
  }

  ghost function FineNext(config: int, f: Fine, step: FineStep): Fine
    requires FineEnabled(f, step)
  {
    var s := f.sys.repo;
    match step
    case Other(step) => f.(sys := Next(config, f.sys, step))
    case Lock(n) => f.(commits := f.commits[n := Looking])
    case Turn(n) => f.(commits := f.commits[n := Looking])
    case Find(n, found) =>
      if found.Some? then f.(commits := f.commits[n := Found(found.value, s.versions[found.value].size)])
      else if n in s.nodes then Done(f, n, s)
      else Fails(f, n)
    case ReadGuard(n) =>
      var guard := CommitGuard(n, f.commits[n].v, s.nodes[n].generation, s.nodes[n].current);
      f.(commits := f.commits[n := Guarded(guard, f.commits[n].size)])
    case TryCommit(n) =>
      var guard := f.commits[n].g;
      if CommitRefusal(s, guard).Some? then Fails(f, n) else Done(f, n, Records.Commit(s, guard, f.commits[n].size))
    case Drop(n) => Fails(f, n)
  }

  // ----- what the lock keeps in place -----

  /** The version looked up is still open, and as long as it was. */
  predicate StillOpen(s: State, n: NodeId, v: VersionId, size: int) {
    IsStagingOf(s, n, v) && s.versions[v].size == size
  }

  /** The node, if it still exists, is as the guard says. */
  predicate StillMatches(s: State, n: NodeId, g: CommitGuard) {
    g.node == n && (n in s.nodes ==> s.nodes[n].generation == g.generation && s.nodes[n].current == g.current)
  }

  predicate Kept(s: State, n: NodeId, c: Commit) {
    match c
    case Looking => true
    case Found(v, size) => StillOpen(s, n, v, size)
    case Guarded(g, size) => StillOpen(s, n, g.version, size) && StillMatches(s, n, g)
  }

  ghost predicate Locked(sys: System, n: NodeId, c: Commit) {
    && n.id < sys.repo.nextNode && Fresh(sys.repo, n, sys.horizon)
    && (n in sys.writers ==> Owes(sys, n)) && Kept(sys.repo, n, c)
  }

  ghost predicate FineOk(f: Fine) {
    Safe(f.sys) && forall n :: n in f.commits ==> Locked(f.sys, n, f.commits[n])
  }

  /** Nothing about `n` that a commit relies on differs. */
  ghost predicate Untouched(s: State, t: State, n: NodeId) {
    && s.nextNode <= t.nextNode
    && (n in t.nodes ==> n in s.nodes && t.nodes[n].generation == s.nodes[n].generation && t.nodes[n].current == s.nodes[n].current)
    && (forall v :: IsStagingOf(t, n, v) ==> IsStagingOf(s, n, v) && t.versions[v].createdAt == s.versions[v].createdAt)
    && (forall v :: IsStagingOf(s, n, v) ==> IsStagingOf(t, n, v) && t.versions[v].size == s.versions[v].size)
  }

  lemma UntouchedKeeps(s: State, t: State, n: NodeId, horizon: Time, c: Commit)
    requires Untouched(s, t, n) && n.id < s.nextNode && Fresh(s, n, horizon) && Kept(s, n, c)
    ensures n.id < t.nextNode && Fresh(t, n, horizon) && Kept(t, n, c)
  {
  }

  lemma AdvanceUntouched(config: int, sys: System, m: NodeId, n: NodeId)
    requires Safe(sys) && Enabled(sys, Advance(m)) && m != n && !Owes(sys, m)
    ensures Untouched(sys.repo, WriterStep(config, sys.repo, m, sys.writers[m]).0, n)
  {
    var s, wr := sys.repo, sys.writers[m];
    assert WriterSafe(s, sys.horizon, Doomed(sys), m, wr);
    StepObjects(config, s, m, wr);
    if !wr.phase.Closing? { StepFrame(config, s, m, wr, n); }
  }

  lemma CommitUntouched(s: State, m: NodeId, n: NodeId)
    requires StateOk(s) && m in s.nodes && m != n
    ensures Untouched(s, CommitOpen(s, m), n)
  {
    CommitFrame(s, m, n);
    SyncKeeps(s, m);
  }

  lemma PurgeUntouched(s: State, cutoff: Time, horizon: Time, n: NodeId)
    requires StateOk(s) && cutoff <= horizon && Fresh(s, n, horizon)
    ensures Untouched(s, PurgeVersions(s, cutoff), n)
  {
  }

  lemma OtherUntouched(config: int, f: Fine, step: Step, n: NodeId)
    requires FineOk(f) && Enabled(f.sys, step) && Admits(f, step) && n in f.commits
    ensures Untouched(f.sys.repo, Next(config, f.sys, step).repo, n)
  {
    assert Locked(f.sys, n, f.commits[n]);
    match step
    case Advance(m) => AdvanceUntouched(config, f.sys, m, n);
    case Purge => PurgeUntouched(f.sys.repo, f.sys.sweep.cutoff, f.sys.horizon, n);
    case _ =>
  }

  lemma OtherOk(config: int, f: Fine, step: Step)
    requires FineOk(f) && Enabled(f.sys, step) && Admits(f, step)
    ensures FineOk(f.(sys := Next(config, f.sys, step)))
  {
    StepSafe(config, f.sys, step);
    var next := Next(config, f.sys, step);
    forall n | n in f.commits ensures Locked(next, n, f.commits[n]) {
      assert Locked(f.sys, n, f.commits[n]);
      OtherUntouched(config, f, step, n);
      UntouchedKeeps(f.sys.repo, next.repo, n, f.sys.horizon, f.commits[n]);
    }
  }

  /** The guard read under the lock is refused exactly if the node is gone by then, and then as missing;
      otherwise the commit is the commit of the open version as it stands. */
  lemma GuardHolds(f: Fine, n: NodeId)
    requires FineOk(f) && n in f.commits && f.commits[n].Guarded?
    ensures var s, g := f.sys.repo, f.commits[n].g;
            && CommitRefusal(s, g) == (if n in s.nodes then None else Some(NotFound))
            && (n in s.nodes ==> Records.Commit(s, g, f.commits[n].size) == CommitOpen(s, n))
  {
    assert Locked(f.sys, n, f.commits[n]);
    var s, v := f.sys.repo, f.commits[n].g.version;
    OpenIsUnique(s, n, v);
    if n in s.nodes { CommitOpenIs(s, n, v); }
  }

  /** Ending a request leaves all other commits as they were. */
  lemma OthersStay(f: Fine, n: NodeId, next: Fine)
    requires FineOk(f) && Safe(next.sys) && next.commits == f.commits - {n}
    requires next.sys.horizon == f.sys.horizon
    requires forall m :: m != n && m in next.sys.writers ==> m in f.sys.writers && next.sys.writers[m] == f.sys.writers[m]
    requires forall m :: m in next.commits ==> Untouched(f.sys.repo, next.sys.repo, m)
    ensures FineOk(next)
  {
    forall m | m in next.commits ensures Locked(next.sys, m, next.commits[m]) {
      assert Locked(f.sys, m, f.commits[m]);
      UntouchedKeeps(f.sys.repo, next.sys.repo, m, f.sys.horizon, f.commits[m]);
    }
  }

  lemma FailsOk(config: int, f: Fine, n: NodeId) returns (seg: seq<Step>)
    requires FineOk(f) && n in f.commits
    ensures FineOk(Fails(f, n)) && |seg| <= 1 && Legal(config, f.sys, seg) && Run(config, f.sys, seg) == Fails(f, n).sys
  {
    if n in f.sys.writers {
      StepSafe(config, f.sys, Abort(n));
      OneStepRun(config, f.sys, Abort(n));
      seg := [Abort(n)];
    } else {
      seg := [];
    }
    OthersStay(f, n, Fails(f, n));
  }

  lemma OneStepRun(config: int, sys: System, step: Step)
    requires Enabled(sys, step)
    ensures Legal(config, sys, [step]) && Run(config, sys, [step]) == Next(config, sys, step)
  {
    RunCons(config, sys, step, []);
    assert [step] + [] == [step];
  }

  /** A commit that goes through is the last effect of the write, or a sync, of the system underneath. */
  lemma DoneOk(config: int, f: Fine, n: NodeId) returns (seg: seq<Step>)
    requires FineOk(f) && n in f.commits && n in f.sys.repo.nodes
    ensures var next := Done(f, n, CommitOpen(f.sys.repo, n));
            FineOk(next) && |seg| <= 1 && Legal(config, f.sys, seg) && Run(config, f.sys, seg) == next.sys
  {
    assert Locked(f.sys, n, f.commits[n]);
    var next := Done(f, n, CommitOpen(f.sys.repo, n));
    var step := if n in f.sys.writers then Advance(n) else Sync(n);
    assert n !in f.sys.writers ==> f.sys.writers - {n} == f.sys.writers;
    assert Enabled(f.sys, step) && Next(config, f.sys, step) == next.sys;
    StepSafe(config, f.sys, step);
    OneStepRun(config, f.sys, step);
    seg := [step];
    forall m | m in next.commits ensures Untouched(f.sys.repo, next.sys.repo, m) { CommitUntouched(f.sys.repo, n, m); }
    OthersStay(f, n, next);
  }

  lemma FindOk(config: int, f: Fine, n: NodeId, found: Option<VersionId>) returns (seg: seq<Step>)
    requires FineOk(f) && FineEnabled(f, Find(n, found))
    ensures var next := FineNext(config, f, Find(n, found));
            FineOk(next) && |seg| <= 1 && Legal(config, f.sys, seg) && Run(config, f.sys, seg) == next.sys
  {
    assert Locked(f.sys, n, f.commits[n]);
    seg := [];
    if found.None? {
      if n in f.sys.repo.nodes {
        assert CommitOpen(f.sys.repo, n) == f.sys.repo;
        seg := DoneOk(config, f, n);
      } else {
        seg := FailsOk(config, f, n);
      }
    }
  }

  /** Every step at this grain keeps the invariant, and is at most one step of the system underneath. */
  lemma FineStepOk(config: int, f: Fine, step: FineStep) returns (seg: seq<Step>)
    requires FineOk(f) && FineEnabled(f, step)
    ensures var next := FineNext(config, f, step);
            FineOk(next) && |seg| <= 1 && Legal(config, f.sys, seg) && Run(config, f.sys, seg) == next.sys
  {
    seg := [];
    match step
    case Other(step) => {
      OtherOk(config, f, step);
      OneStepRun(config, f.sys, step);
      seg := [step];
    }
    case Turn(n) => assert WriterSafe(f.sys.repo, f.sys.horizon, Doomed(f.sys), n, f.sys.writers[n]);
    case Find(n, found) => seg := FindOk(config, f, n, found);
    case ReadGuard(n) => assert Locked(f.sys, n, f.commits[n]);
    case TryCommit(n) => {
      GuardHolds(f, n);
      if n in f.sys.repo.nodes { seg := DoneOk(config, f, n); } else { seg := FailsOk(config, f, n); }
    }
    case Drop(n) => seg := FailsOk(config, f, n);
    case Lock(n) =>
  }

  // ----- runs -----

  ghost predicate FineLegal(config: int, f: Fine, run: seq<FineStep>)
    decreases |run|
  {
    run == [] || (FineEnabled(f, run[0]) && FineLegal(config, FineNext(config, f, run[0]), run[1..]))
  }

  ghost function FineRun(config: int, f: Fine, run: seq<FineStep>): Fine
    requires FineLegal(config, f, run)
    decreases |run|
  {
    if run == [] then f else FineRun(config, FineNext(config, f, run[0]), run[1..])
  }

  const FINE_START: Fine := Fine(START, map[])

  /** A run with its commits taken apart is a run: what holds after every run holds after it. */
  lemma {:induction false} FineRunIsRun(config: int, f: Fine, run: seq<FineStep>) returns (whole: seq<Step>)
    requires FineOk(f) && FineLegal(config, f, run)
    ensures FineOk(FineRun(config, f, run))
    ensures Legal(config, f.sys, whole) && Run(config, f.sys, whole) == FineRun(config, f, run).sys
    decreases |run|
  {
    whole := [];
    if run != [] {
      var seg := FineStepOk(config, f, run[0]);
      var rest := FineRunIsRun(config, FineNext(config, f, run[0]), run[1..]);
      RunCat(config, f.sys, seg, rest);
      whole := seg + rest;
    }
  }

  /** Over every run: the commit of a write or a sync is never answered with a conflict. It is answered
      with success exactly as long as the node exists, and with missing otherwise. */
  lemma CommitNeverConflicts(config: int, run: seq<FineStep>, n: NodeId)
    requires FineLegal(config, FINE_START, run)
    requires var f := FineRun(config, FINE_START, run); n in f.commits && f.commits[n].Guarded?
    ensures var f := FineRun(config, FINE_START, run);
            CommitRefusal(f.sys.repo, f.commits[n].g) == if n in f.sys.repo.nodes then None else Some(NotFound)
  {
    var whole := FineRunIsRun(config, FINE_START, run);
    GuardHolds(FineRun(config, FINE_START, run), n);
  }

  /** Over every run with its commits taken apart, no object is lost. */
  lemma NoObjectLostAtThisGrain(config: int, run: seq<FineStep>, n: NodeId, v: VersionId, k: int)
    requires FineLegal(config, FINE_START, run)
    requires var s := FineRun(config, FINE_START, run).sys.repo;
             n in s.nodes && s.nodes[n].current == Some(v) && k in RowsOf(s, v)
    ensures var s := FineRun(config, FINE_START, run).sys.repo; RowsOf(s, v)[k].obj in s.objects
  {
    var whole := FineRunIsRun(config, FINE_START, run);
    NoObjectLost(config, whole, n, v, k);
  }
}
