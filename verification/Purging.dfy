/** Which versions a sweep purges, whatever state they are in. */
module Purging {
  import opened Bytes
  import opened Records
  import opened Files
  import opened WriteSteps
  import opened Interleaving
  import opened Immutability
  import opened Collector
  import opened Ownership
  import opened LateReads

  /** When a version was committed, or created if it never was. */
  function Dated(rec: Version): Time {
    match rec.committedAt
    case Some(time) => time
    case None => rec.createdAt
  }

  /** The version is the current one of a file that exists, or an open one touched since the cutoff. */
  predicate Protects(s: State, cutoff: Time, w: VersionId)
    requires w in s.versions
  {
    var rec := s.versions[w];
    (rec.node in s.nodes && s.nodes[rec.node].current == Some(w)) || (rec.state == Staging && rec.createdAt >= cutoff)
  }

  /** The object is named by a version that stays. */
  ghost predicate Protected(s: State, cutoff: Time, o: ObjectId) {
    exists w :: Refers(s, w, o) && w in s.versions && Protects(s, cutoff, w)
  }

  lemma ProtectsIsLive(s: State, cutoff: Time, w: VersionId)
    requires w in s.versions
    ensures Protects(s, cutoff, w) <==> Live(s, cutoff, w)
  {
  }

  /** The object of an aged version that is not current is collectable exactly if no version protects it. */
  lemma AgedCollectable(s: State, cutoff: Time, v: VersionId, o: ObjectId)
    requires StateOk(s) && v in s.versions && !Protects(s, cutoff, v) && Dated(s.versions[v]) < cutoff && Refers(s, v, o)
    ensures IsCollectable(s, cutoff, o) <==> !Protected(s, cutoff, o)
  {
    ProtectsIsLive(s, cutoff, v);
    assert s.versions[v].Since() < cutoff;
    if Protected(s, cutoff, o) {
      var w :| Refers(s, w, o) && w in s.versions && Protects(s, cutoff, w);
      ProtectsIsLive(s, cutoff, w);
    } else {
      forall w | Live(s, cutoff, w) ensures !Refers(s, w, o) { ProtectsIsLive(s, cutoff, w); }
    }
  }

  /** Every object the version names is named by no version that stays. */
  ghost predicate Unprotected(s: State, cutoff: Time, v: VersionId) {
    forall o :: Refers(s, v, o) ==> !Protected(s, cutoff, o)
  }

  lemma EmptiedExactly(s: State, cutoff: Time, doomed: seq<ObjectId>, fate: ObjectId -> Fate, v: VersionId)
    requires StateOk(s) && v in s.versions && !Protects(s, cutoff, v) && Dated(s.versions[v]) < cutoff
    requires Complete(s, cutoff, doomed, fate, v)
    ensures RowsOf(SweepAll(s, doomed, fate), v) == map[] <==> Unprotected(s, cutoff, v)
  {
    var rows := RowsOf(SweepAll(s, doomed, fate), v);
    SweepAllIs(s, doomed, fate);
    if Unprotected(s, cutoff, v) {
      forall k ensures Lookup(rows, k) == Lookup(map[], k) {
        if k in s.chunks[v] {
          assert Refers(s, v, s.chunks[v][k].obj);
          AgedCollectable(s, cutoff, v, s.chunks[v][k].obj);
        }
      }
      SameManifest(rows, map[]);
    } else {
      var o :| Refers(s, v, o) && Protected(s, cutoff, o);
      AgedCollectable(s, cutoff, v, o);
      var k :| k in s.chunks[v] && s.chunks[v][k].obj == o;
      assert Lookup(rows, k).Some?;
    }
  }

  /** After one complete sweep a version is gone if and only if it is not the current one of an existing file, was
      committed (or else created) before the cutoff, and names no object that a version that stays names. */
  lemma PurgedExactly(s: State, cutoff: Time, doomed: seq<ObjectId>, fate: ObjectId -> Fate, v: VersionId)
    requires StateOk(s) && v in s.versions && Complete(s, cutoff, doomed, fate, v)
    ensures v !in Swept(s, cutoff, doomed, fate).versions <==>
            && !(s.versions[v].node in s.nodes && s.nodes[s.versions[v].node].current == Some(v))
            && Dated(s.versions[v]) < cutoff && Unprotected(s, cutoff, v)
  {
    SweepAllIs(s, doomed, fate);
    if !(s.versions[v].node in s.nodes && s.nodes[s.versions[v].node].current == Some(v)) && Dated(s.versions[v]) < cutoff {
      EmptiedExactly(s, cutoff, doomed, fate, v);
    }
  }

  // ----- a version replaced by a sync -----

  lemma ReplacedAfterSync(s: State, n: NodeId, v: VersionId, u: VersionId)
    requires StateOk(s) && n in s.nodes && s.nodes[n].current == Some(v) && IsStagingOf(s, n, u)
    ensures v in s.versions && ReplacedBy(s, CommitOpen(s, n), n, v, u)
  {
    assert CurrentOk(s, n, v);
    OpenIsUnique(s, n, u);
    assert IsOpen(s, n, u);
    CommitOpenIs(s, n, u);
    LateReads.CommitReplaces(s, n, v, u);
  }

  ghost predicate Share(s: State, v: VersionId, u: VersionId) {
    exists o :: Refers(s, v, o) && Refers(s, u, o)
  }

  /** After the sync only the new version protects objects of the old one. */
  lemma ProtectedAfterSync(s: State, t: State, owner: map<ObjectId, NodeId>, n: NodeId, v: VersionId, u: VersionId, cutoff: Time)
    requires StateOk(s) && Owned(s, owner) && ReplacedBy(s, t, n, v, u) && IsStagingOf(s, n, u) && s.versions[v].node == n
    ensures Unprotected(t, cutoff, v) <==> !Share(s, v, u)
  {
    assert forall w, o :: Refers(t, w, o) <==> Refers(s, w, o);
    assert u in t.versions && Protects(t, cutoff, u);
    if Unprotected(t, cutoff, v) {
      forall o | Refers(s, v, o) ensures !Refers(s, u, o) { assert Refers(t, v, o) && !Protected(t, cutoff, o); }
    } else {
      var o :| Refers(t, v, o) && Protected(t, cutoff, o);
      var w :| Refers(t, w, o) && w in t.versions && Protects(t, cutoff, w);
      SameOwner(s, owner, w, v, o);
      assert t.versions[w].state == Staging ==> IsStagingOf(t, n, w);
    }
  }

  lemma PurgedAfterSync(s: State, owner: map<ObjectId, NodeId>, n: NodeId, v: VersionId, u: VersionId, cutoff: Time,
                        doomed: seq<ObjectId>, fate: ObjectId -> Fate)
    requires StateOk(s) && Owned(s, owner) && Current(s, n, v) && IsStagingOf(s, n, u) && v in s.versions
    requires Complete(CommitOpen(s, n), cutoff, doomed, fate, v)
    ensures v !in Swept(CommitOpen(s, n), cutoff, doomed, fate).versions <==> Dated(s.versions[v]) < cutoff && !Share(s, v, u)
  {
    var t := CommitOpen(s, n);
    CommitOpenStateOk(s, n);
    ReplacedAfterSync(s, n, v, u);
    assert CurrentOk(s, n, v);
    ProtectedAfterSync(s, t, owner, n, v, u, cutoff);
    PurgedExactly(t, cutoff, doomed, fate, v);
  }

  /** A version that a sync replaces is gone after one complete sweep exactly if it was committed before the cutoff and
      shares no object with the version that replaced it. */
  lemma ReplacedIsPurged(config: int, run: seq<Step>, n: NodeId, v: VersionId, u: VersionId, cutoff: Time, doomed: seq<ObjectId>,
                         fate: ObjectId -> Fate)
    requires Legal(config, START, run)
    requires var s := Run(config, START, run).repo;
             Current(s, n, v) && IsStagingOf(s, n, u) && v in s.versions && Complete(CommitOpen(s, n), cutoff, doomed, fate, v)
    ensures var s := Run(config, START, run).repo;
            v !in Swept(CommitOpen(s, n), cutoff, doomed, fate).versions <==> Dated(s.versions[v]) < cutoff && !Share(s, v, u)
  {
    var owner := RunKept(config, START, run, map[]);
    PurgedAfterSync(Run(config, START, run).repo, owner, n, v, u, cutoff, doomed, fate);
  }

  // ----- a deleted file -----

  /** An open version touched since the cutoff. */
  predicate YoungOpen(s: State, n: NodeId, cutoff: Time, w: VersionId) {
    IsStagingOf(s, n, w) && s.versions[w].createdAt >= cutoff
  }

  lemma ProtectedAfterDelete(s: State, owner: map<ObjectId, NodeId>, n: NodeId, v: VersionId, cutoff: Time)
    requires Owned(s, owner) && v in s.versions && s.versions[v].node == n
    ensures Unprotected(DeleteNode(s, n), cutoff, v) <==> forall w :: YoungOpen(s, n, cutoff, w) ==> !Share(s, v, w)
  {
    var t := DeleteNode(s, n);
    assert forall w, o :: Refers(t, w, o) <==> Refers(s, w, o);
    if w :| YoungOpen(s, n, cutoff, w) && Share(s, v, w) {
      var o :| Refers(s, v, o) && Refers(s, w, o);
      assert Refers(t, v, o) && Refers(t, w, o) && Protects(t, cutoff, w);
    }
    if !Unprotected(t, cutoff, v) {
      var o :| Refers(t, v, o) && Protected(t, cutoff, o);
      var w :| Refers(t, w, o) && w in t.versions && Protects(t, cutoff, w);
      SameOwner(s, owner, w, v, o);
      assert YoungOpen(s, n, cutoff, w) && Share(s, v, w);
    }
  }

  lemma DeleteStateOk(s: State, n: NodeId)
    requires StateOk(s)
    ensures StateOk(DeleteNode(s, n))
  {
    var t := DeleteNode(s, n);
    assert forall m, v :: IsStagingOf(t, m, v) ==> IsStagingOf(s, m, v);
    assert forall m, v :: CurrentOk(s, m, v) ==> CurrentOk(t, m, v);
  }

  /** A version of a deleted file is gone after one complete sweep exactly if it dates from before the cutoff and shares
      no object with an open version touched since. */
  lemma DeletedIsPurged(config: int, run: seq<Step>, n: NodeId, v: VersionId, cutoff: Time, doomed: seq<ObjectId>, fate: ObjectId -> Fate)
    requires Legal(config, START, run)
    requires var s := Run(config, START, run).repo;
             v in s.versions && s.versions[v].node == n && Complete(DeleteNode(s, n), cutoff, doomed, fate, v)
    ensures var s := Run(config, START, run).repo;
            v !in Swept(DeleteNode(s, n), cutoff, doomed, fate).versions <==>
            Dated(s.versions[v]) < cutoff && forall w :: YoungOpen(s, n, cutoff, w) ==> !Share(s, v, w)
  {
    var s := Run(config, START, run).repo;
    var owner := RunKept(config, START, run, map[]);
    DeleteStateOk(s, n);
    ProtectedAfterDelete(s, owner, n, v, cutoff);
    PurgedExactly(DeleteNode(s, n), cutoff, doomed, fate, v);
  }
}
