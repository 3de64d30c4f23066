/** The rule by which objects are collected, against the rule the repository documents and the retention period
    the collector promises. */
module Retention {
  import opened Bytes
  import opened Records
  import opened Files
  import opened WriteSteps
  import opened Interleaving
  import opened FlatFiles
  import opened Immutability
  import opened Completion
  import opened LateReads
  import opened Ownership

  // ----- the documented rule -----

  /** A version that names the object and no longer counts. */
  ghost predicate DeadReferrer(s: State, cutoff: Time, v: VersionId, o: ObjectId) {
    v in s.versions && Refers(s, v, o) && !Live(s, cutoff, v)
  }

  /** No live version names the object, some dead one does, and all that do are older than the cutoff. */
  ghost predicate Documented(s: State, cutoff: Time, o: ObjectId) {
    && (exists v :: DeadReferrer(s, cutoff, v, o))
    && (forall v :: Live(s, cutoff, v) ==> !Refers(s, v, o))
    && (forall v :: DeadReferrer(s, cutoff, v, o) ==> s.versions[v].Since() < cutoff)
  }

  /** No live version names the object, and of the dead ones that do some are older than the cutoff and some not. */
  ghost predicate Straddles(s: State, cutoff: Time, o: ObjectId) {
    && (forall v :: Live(s, cutoff, v) ==> !Refers(s, v, o))
    && (exists v :: DeadReferrer(s, cutoff, v, o) && s.versions[v].Since() < cutoff)
    && (exists v :: DeadReferrer(s, cutoff, v, o) && s.versions[v].Since() >= cutoff)
  }

  /** Whatever the documented rule allows is collected; the sweep keeps to the rule for an object exactly when
      its dead versions are not on both sides of the cutoff. */
  lemma CollectableVersusDocumented(s: State, cutoff: Time, o: ObjectId)
    ensures Documented(s, cutoff, o) ==> IsCollectable(s, cutoff, o)
    ensures (IsCollectable(s, cutoff, o) <==> Documented(s, cutoff, o)) <==> !Straddles(s, cutoff, o)
  {
    assert forall v :: v in s.versions && Refers(s, v, o) && !Live(s, cutoff, v) ==> DeadReferrer(s, cutoff, v, o);
    if Straddles(s, cutoff, o) {
      var v :| DeadReferrer(s, cutoff, v, o) && s.versions[v].Since() < cutoff;
      assert IsCollectable(s, cutoff, o);
    }
    if Documented(s, cutoff, o) {
      var v :| DeadReferrer(s, cutoff, v, o);
      assert Refers(s, v, o) && !Live(s, cutoff, v) && s.versions[v].Since() < cutoff;
    }
  }

  const O: ObjectId := ObjectId(0)

  /** Two superseded versions, committed at 0 and at 100, share an object that the current one does not name. */
  const OLD_AND_RECENT: State := State(
    map[NodeId(0) := Node(File, 1, Some(VersionId(2)), 3)],
    map[VersionId(0) := Version(NodeId(0), None, Superseded, 1, 1, 0, Some(0)),
        VersionId(1) := Version(NodeId(0), Some(VersionId(0)), Superseded, 1, 1, 100, Some(100)),
        VersionId(2) := Version(NodeId(0), Some(VersionId(1)), Committed, 1, 1, 100, Some(100))],
    map[VersionId(0) := map[0 := Row(0, 0, 1, Digest([7]), O)],
        VersionId(1) := map[0 := Row(0, 0, 1, Digest([7]), O)],
        VersionId(2) := map[0 := Row(0, 0, 1, Digest([9]), ObjectId(1))]],
    map[O := [7], ObjectId(1) := [9]],
    1, 3, 2, 100)

  lemma OldAndRecentRows()
    ensures var s := OLD_AND_RECENT; forall v, k :: v in s.chunks && k in s.chunks[v] ==> s.chunks[v][k].obj.id < s.nextObject
  {
  }

  lemma OldAndRecentIds()
    ensures IdsOk(OLD_AND_RECENT)
  {
    OldAndRecentRows();
    var s := OLD_AND_RECENT;
    assert s.versions.Keys == s.chunks.Keys == {VersionId(0), VersionId(1), VersionId(2)};
  }

  lemma OldAndRecentLinks()
    ensures LinksOk(OLD_AND_RECENT)
  {
    assert forall v :: v in OLD_AND_RECENT.versions ==> OLD_AND_RECENT.versions[v].state != Staging;
  }

  /** With the cutoff in between the object is collected although the younger version is not old enough. */
  lemma CollectedTooEarly()
    ensures StateOk(OLD_AND_RECENT) && IsCollectable(OLD_AND_RECENT, 50, O) && !Documented(OLD_AND_RECENT, 50, O)
  {
    OldAndRecentIds();
    OldAndRecentLinks();
    var s := OLD_AND_RECENT;
    assert s.chunks[VersionId(0)][0].obj == O && s.chunks[VersionId(1)][0].obj == O;
    assert Refers(s, VersionId(0), O) && !Live(s, 50, VersionId(0)) && s.versions[VersionId(0)].Since() < 50;
    assert DeadReferrer(s, 50, VersionId(1), O) && s.versions[VersionId(1)].Since() >= 50;
    forall v | Live(s, 50, v) ensures !Refers(s, v, O) { assert v == VersionId(2); }
  }

  // ----- the retention period -----

  lemma DeadAfter(s: State, t: State, n: NodeId, v: VersionId, u: VersionId, o: ObjectId, cutoff: Time)
    requires Replacing(s, n, v, u, o) && ReplacedBy(s, t, n, v, u)
    ensures IsCollectable(t, cutoff, o) <==> exists w :: Refers(s, w, o) && w in s.versions && s.versions[w].Since() < cutoff
  {
    assert forall w :: Refers(t, w, o) <==> Refers(s, w, o);
    forall w | Refers(s, w, o) ensures !Live(t, cutoff, w) && t.versions[w].Since() == s.versions[w].Since() {
      assert w in s.versions && w != u && !IsStagingOf(t, n, w);
    }
    if w :| Refers(s, w, o) && w in s.versions && s.versions[w].Since() < cutoff {
      assert Refers(t, w, o) && w in t.versions && !Live(t, cutoff, w) && t.versions[w].Since() < cutoff;
    }
  }

  /** An object that was named by the current version until this very sync: it is collectable at once, for a given
      cutoff, exactly if one of the versions that name it was committed before that cutoff. */
  lemma CollectableAtDeath(s: State, n: NodeId, v: VersionId, u: VersionId, o: ObjectId, cutoff: Time)
    requires StateOk(s) && Replacing(s, n, v, u, o)
    ensures Live(s, cutoff, v) && Refers(s, v, o)
    ensures IsCollectable(CommitOpen(s, n), cutoff, o) <==> exists w :: Refers(s, w, o) && w in s.versions && s.versions[w].Since() < cutoff
  {
    assert CurrentOk(s, n, v);
    SyncReplaces(s, n, v, u, o);
    DeadAfter(s, CommitOpen(s, n), n, v, u, o, cutoff);
  }

  /** An open version that still counts names the object. */
  ghost predicate OpenNames(s: State, cutoff: Time, o: ObjectId) {
    exists w :: Refers(s, w, o) && w in s.versions && s.versions[w].state == Staging && s.versions[w].createdAt >= cutoff
  }

  /** The same for the deletion of a file whose versions alone name the object: one of them must date from before the
      cutoff and no open one from after it. */
  lemma CollectableAtDeletion(s: State, n: NodeId, o: ObjectId, cutoff: Time)
    requires forall w :: Refers(s, w, o) ==> w in s.versions && s.versions[w].node == n
    ensures IsCollectable(DeleteNode(s, n), cutoff, o) <==>
            (exists w :: Refers(s, w, o) && w in s.versions && s.versions[w].Since() < cutoff) && !OpenNames(s, cutoff, o)
  {
    var t := DeleteNode(s, n);
    assert forall w :: Refers(t, w, o) <==> Refers(s, w, o);
    forall w | Refers(s, w, o)
      ensures Live(t, cutoff, w) <==> s.versions[w].state == Staging && s.versions[w].createdAt >= cutoff
    {
      assert !IsCurrent(t, w);
    }
    if w :| Refers(s, w, o) && w in s.versions && s.versions[w].Since() < cutoff && !OpenNames(s, cutoff, o) {
      assert Refers(t, w, o) && w in t.versions && !Live(t, cutoff, w) && t.versions[w].Since() < cutoff;
    }
  }

  /** The object is named by a current version, and one step later, at the same time, it may be swept. */
  ghost predicate SweptAtOnce(config: int, run: seq<Step>, step: Step, retention: nat, o: ObjectId) {
    && Legal(config, START, run) && Legal(config, START, run + [step])
    && var s, t := Run(config, START, run).repo, Run(config, START, run + [step]).repo;
       && t.now == s.now && o in s.objects && (exists v :: IsCurrent(s, v) && Refers(s, v, o))
       && IsCollectable(t, t.now - retention, o)
  }

  lemma SyncOnce(config: int, run: seq<Step>, n: NodeId)
    requires Legal(config, START, run)
    requires var sys := Run(config, START, run); Promised(sys, n) && n !in sys.writers
    ensures Legal(config, START, run + [Sync(n)])
    ensures Run(config, START, run + [Sync(n)]).repo == CommitOpen(Run(config, START, run).repo, n)
    ensures Safe(Run(config, START, run))
  {
    var sys := Run(config, START, run);
    RunRefines(config, START, map[], run);
    FileFresh(sys, FlatRun(config, START, map[], run), n);
    RunCons(config, sys, Sync(n), []);
    RunCat(config, START, run, [Sync(n)]);
    assert [Sync(n)] + [] == [Sync(n)];
  }

  lemma SweptAfter(sys: System, n: NodeId, v: VersionId, u: VersionId, o: ObjectId, cutoff: Time)
    requires Safe(sys) && Replacing(sys.repo, n, v, u, o) && v in sys.repo.versions && sys.repo.versions[v].Since() < cutoff
    ensures o in sys.repo.objects && IsCurrent(sys.repo, v) && Refers(sys.repo, v, o)
    ensures CommitOpen(sys.repo, n).now == sys.repo.now && IsCollectable(CommitOpen(sys.repo, n), cutoff, o)
  {
    CollectableAtDeath(sys.repo, n, v, u, o, cutoff);
    SyncReplaces(sys.repo, n, v, u, o);
    CurrentStored(sys, n, v);
    assert CurrentOk(sys.repo, n, v);
  }

  /** So it is whenever a version older than the retention period is replaced. */
  lemma ReplacedAfterRetention(config: int, run: seq<Step>, n: NodeId, v: VersionId, u: VersionId, o: ObjectId, retention: nat)
    requires AboutTo(config, run, n, v, u, o)
    requires var s := Run(config, START, run).repo; s.versions[v].Since() + retention < s.now
    ensures SweptAtOnce(config, run, Sync(n), retention, o)
  {
    var sys := Run(config, START, run);
    SyncOnce(config, run, n);
    SweptAfter(sys, n, v, u, o, sys.repo.now - retention);
  }

  /** However long the retention period, there is such a run. */
  lemma RetentionNotKept(config: int, retention: nat) returns (run: seq<Step>, o: ObjectId)
    ensures SweptAtOnce(config, run, Sync(FIRST), retention, o)
  {
    var first, disk, v, u;
    first, run, disk, v := Overwritten(config, 7, 9, retention);
    u, o := OverwrittenIsAboutTo(config, run, disk, FIRST, v, 7, 9);
    ReplacedAfterRetention(config, run, FIRST, v, u, o, retention);
  }

  lemma DeleteOnce(config: int, run: seq<Step>, n: NodeId)
    requires Legal(config, START, run) && n in Run(config, START, run).repo.nodes
    ensures Legal(config, START, run + [Delete(n)]) && Safe(Run(config, START, run))
    ensures Run(config, START, run + [Delete(n)]).repo == DeleteNode(Run(config, START, run).repo, n)
  {
    var sys := Run(config, START, run);
    RunRefines(config, START, map[], run);
    RunCons(config, sys, Delete(n), []);
    RunCat(config, START, run, [Delete(n)]);
    assert [Delete(n)] + [] == [Delete(n)];
  }

  lemma OnlyOneFileNames(config: int, run: seq<Step>, v: VersionId, o: ObjectId)
    requires Legal(config, START, run)
    requires var s := Run(config, START, run).repo; v in s.versions && Refers(s, v, o)
    ensures var s := Run(config, START, run).repo;
            forall w :: Refers(s, w, o) ==> w in s.versions && s.versions[w].node == s.versions[v].node
  {
    forall w | Refers(Run(config, START, run).repo, w, o)
      ensures var s := Run(config, START, run).repo; w in s.versions && s.versions[w].node == s.versions[v].node
    {
      NothingSharedBetweenFiles(config, run, w, v, o);
    }
  }

  /** And whenever a file is deleted whose version is older than the retention period, unless a younger open version
      still names the object. */
  lemma DeletedAfterRetention(config: int, run: seq<Step>, n: NodeId, v: VersionId, o: ObjectId, retention: nat)
    requires Legal(config, START, run)
    requires var s := Run(config, START, run).repo; Current(s, n, v) && v in s.versions && Refers(s, v, o)
    requires var s := Run(config, START, run).repo; s.versions[v].Since() + retention < s.now && !OpenNames(s, s.now - retention, o)
    ensures SweptAtOnce(config, run, Delete(n), retention, o)
  {
    var sys := Run(config, START, run);
    DeleteOnce(config, run, n);
    CurrentStored(sys, n, v);
    assert CurrentOk(sys.repo, n, v) && IsCurrent(sys.repo, v);
    OnlyOneFileNames(config, run, v, o);
    CollectableAtDeletion(sys.repo, n, o, sys.repo.now - retention);
  }

  /** However long the retention period, there is a run that ends so. */
  lemma DeletionNotKept(config: int, retention: nat) returns (run: seq<Step>, o: ObjectId)
    ensures SweptAtOnce(config, run, Delete(FIRST), retention, o)
  {
    var synced, disk, v := FirstSynced(config, 7);
    var s := Run(config, START, synced).repo;
    run := CalmTick(config, synced, disk, FIRST, v, [7], 1 + retention + Max(s.now, s.versions[v].Since()));
    s := Run(config, START, run).repo;
    FirstPart(ViewOf(s, v), 7);
    assert 0 in RowsOf(s, v);
    o := s.chunks[v][0].obj;
    assert Refers(s, v, o);
    OnlyOneFileNames(config, run, v, o);
    assert forall w :: Refers(s, w, o) ==> !IsStagingOf(s, FIRST, w);
    DeletedAfterRetention(config, run, FIRST, v, o, retention);
  }
}
