/** One complete sweep, and what it does to an abandoned write. */
module Collector {
  import opened Bytes
  import opened Records
  import opened Files
  import opened WriteSteps
  import opened Interleaving
  import opened MemoryRepository
  import opened ByteApi

  /** The most objects a single sweep takes on. */
  const BATCH: int := 500

  /** What the object store answers to a delete; an object that is already gone counts as deleted. */
  datatype Fate = Gone | Retained | Unreachable

  datatype Report = Report(deleted: nat, kept: nat, purged: nat)

  // ----- the sweep as a function -----

  function SweepOne(s: State, o: ObjectId, fate: Fate): State {
    if fate == Gone then ForgetObject(RemoveObject(s, o), o) else s
  }

  function SweepAll(s: State, doomed: seq<ObjectId>, fate: ObjectId -> Fate): State
    decreases |doomed|
  {
    if doomed == [] then s else SweepAll(SweepOne(s, doomed[0], fate(doomed[0])), doomed[1..], fate)
  }

  function Swept(s: State, cutoff: Time, doomed: seq<ObjectId>, fate: ObjectId -> Fate): State {
    ReconcileSizes(PurgeVersions(SweepAll(s, doomed, fate), cutoff))
  }

  /** Whether the sweep takes this object. */
  predicate Takes(doomed: seq<ObjectId>, fate: ObjectId -> Fate, o: ObjectId) {
    o in doomed && fate(o) == Gone
  }

  /** The loop takes exactly the doomed objects the store gave up, with every row that names them. */
  lemma {:induction false} SweepAllIs(s: State, doomed: seq<ObjectId>, fate: ObjectId -> Fate)
    ensures var t := SweepAll(s, doomed, fate);
            && t == s.(objects := t.objects, chunks := t.chunks)
            && (forall o :: o in t.objects <==> o in s.objects && !Takes(doomed, fate, o))
            && (forall o :: o in t.objects ==> t.objects[o] == s.objects[o])
            && t.chunks.Keys == s.chunks.Keys
            && (forall v, k :: v in s.chunks ==>
                  Lookup(t.chunks[v], k) == if k in s.chunks[v] && !Takes(doomed, fate, s.chunks[v][k].obj) then Lookup(s.chunks[v], k) else None)
    decreases |doomed|
  {
    if doomed != [] {
      SweepAllIs(SweepOne(s, doomed[0], fate(doomed[0])), doomed[1..], fate);
      assert forall o :: o in doomed <==> o == doomed[0] || o in doomed[1..];
    }
  }

  // ----- the sweep as it runs -----

  /** How many of the first `k` doomed objects met this fate. */
  function Tally(doomed: seq<ObjectId>, fate: ObjectId -> Fate, met: Fate, k: nat): nat
    requires k <= |doomed|
  {
    if k == 0 then 0 else Tally(doomed, fate, met, k - 1) + if fate(doomed[k - 1]) == met then 1 else 0
  }

  lemma SweepNext(s: State, doomed: seq<ObjectId>, fate: ObjectId -> Fate, k: nat)
    requires k < |doomed|
    ensures SweepAll(s, doomed[k..], fate) == SweepAll(SweepOne(s, doomed[k], fate(doomed[k])), doomed[k + 1..], fate)
  {
    assert doomed[k..][1..] == doomed[k + 1..];
  }

  lemma CollectableAnyStore(s: State, t: State, cutoff: Time, o: ObjectId)
    requires s.nodes == t.nodes && s.versions == t.versions && s.chunks == t.chunks
    ensures IsCollectable(s, cutoff, o) <==> IsCollectable(t, cutoff, o)
  {
    assert forall v :: Live(s, cutoff, v) <==> Live(t, cutoff, v);
    assert forall v :: Refers(s, v, o) <==> Refers(t, v, o);
  }

  /** The versions a purge drops. */
  function PurgedBy(s: State, cutoff: Time): set<VersionId> {
    set v | v in s.versions && EmptyAndDead(s, cutoff, v)
  }

  lemma PurgeAnyStore(s: State, t: State, cutoff: Time)
    requires t == s.(objects := t.objects, nextObject := t.nextObject)
    ensures PurgedBy(t, cutoff) == PurgedBy(s, cutoff)
    ensures PurgeVersions(t, cutoff) == PurgeVersions(s, cutoff).(objects := t.objects, nextObject := t.nextObject)
  {
  }

  lemma ReconcileAnyStore(s: State, t: State)
    requires t == s.(objects := t.objects, nextObject := t.nextObject)
    ensures ReconcileSizes(t) == ReconcileSizes(s).(objects := t.objects, nextObject := t.nextObject)
  {
    assert forall n, v :: IsStagingOf(s, n, v) <==> IsStagingOf(t, n, v);
    assert forall n :: n in s.nodes ==> Reconciled(s, n) == Reconciled(t, n);
  }

  /** The cutoff of a sweep at time `now`, and the objects it starts out with. */
  method FindDoomed(server: Server, now: Time, retention: nat) returns (cutoff: Time, doomed: seq<ObjectId>)
    requires server.Sound() && now >= server.Abs().now
    modifies server.repo
    ensures server.Sound() && server.Abs() == old(server.Abs()).(now := now) && cutoff == now - retention
    ensures NoDuplicates(doomed) && |doomed| <= BATCH
    ensures forall o :: o in doomed ==> IsCollectable(server.Abs(), cutoff, o)
    ensures |doomed| < BATCH ==> forall o :: IsCollectable(server.Abs(), cutoff, o) ==> o in doomed
  {
    cutoff := now - retention;
    server.repo.Elapse(now);
    doomed := server.repo.Collectable(cutoff, BATCH);
    forall o ensures IsCollectable(server.repo.Meta(), cutoff, o) <==> IsCollectable(server.Abs(), cutoff, o) {
      CollectableAnyStore(server.repo.Meta(), server.Abs(), cutoff, o);
    }
  }

  /** Delete the doomed objects one by one, from the store first and then from every manifest. */
  method DeleteDoomed(server: Server, doomed: seq<ObjectId>, fate: ObjectId -> Fate) returns (deleted: nat, kept: nat)
    requires server.Sound()
    modifies server, server.repo
    ensures server.Sound() && server.Abs() == SweepAll(old(server.Abs()), doomed, fate)
    ensures deleted == Tally(doomed, fate, Gone, |doomed|) && kept == Tally(doomed, fate, Retained, |doomed|)
  {
    deleted, kept := 0, 0;
    ghost var now := server.Abs();
    assert doomed[0..] == doomed;
    for i := 0 to |doomed|
      invariant server.Sound() && server.Abs() == now
      invariant SweepAll(now, doomed[i..], fate) == old(SweepAll(server.Abs(), doomed, fate))
      invariant deleted == Tally(doomed, fate, Gone, i) && kept == Tally(doomed, fate, Retained, i)
    {
      SweepNext(now, doomed, fate, i);
      var o := doomed[i];
      match fate(o) {
        case Gone =>
          server.DeleteObject(o);
          server.repo.Forget(o);
          deleted := deleted + 1;
        case Retained => kept := kept + 1;
        case Unreachable =>
      }
      now := SweepOne(now, o, fate(o));
    }
  }

  /** Purge what the loop emptied and put sizes right. */
  method Tidy(server: Server, cutoff: Time) returns (purged: nat)
    requires server.Sound()
    modifies server.repo
    ensures server.Sound() && server.Abs() == ReconcileSizes(PurgeVersions(old(server.Abs()), cutoff))
    ensures purged == |PurgedBy(old(server.Abs()), cutoff)|
  {
    ghost var purge := PurgeVersions(server.Abs(), cutoff);
    PurgeAnyStore(server.repo.Meta(), server.Abs(), cutoff);
    purged := server.repo.PurgeEmptyDead(cutoff);
    ghost var meta := server.repo.Meta();
    server.repo.Reconcile();
    ReconcileAnyStore(meta, purge);
  }

  lemma SweptStateOk(s: State, cutoff: Time, doomed: seq<ObjectId>, fate: ObjectId -> Fate)
    requires StateOk(s)
    ensures StateOk(Swept(s, cutoff, doomed, fate))
  {
    SweepAllStateOk(s, doomed, fate);
    PurgeStateOk(SweepAll(s, doomed, fate), cutoff);
    ReconcileCollects(PurgeVersions(SweepAll(s, doomed, fate), cutoff), 0, {});
  }

  lemma PurgedKeys(s: State, cutoff: Time, doomed: seq<ObjectId>, fate: ObjectId -> Fate)
    ensures PurgedBy(SweepAll(s, doomed, fate), cutoff) == s.versions.Keys - Swept(s, cutoff, doomed, fate).versions.Keys
  {
    SweepAllIs(s, doomed, fate);
  }

  lemma LaterStateOk(s: State, now: Time)
    requires StateOk(s)
    ensures StateOk(s.(now := now))
  {
    var t := s.(now := now);
    assert forall n, v :: IsStagingOf(t, n, v) ==> IsStagingOf(s, n, v);
    assert forall n, v :: CurrentOk(s, n, v) ==> CurrentOk(t, n, v);
  }

  /** One sweep at time `now`. */
  method CollectOnce(server: Server, now: Time, retention: nat, fate: ObjectId -> Fate)
      returns (report: Report, ghost s: State, ghost cutoff: Time, ghost doomed: seq<ObjectId>)
    requires server.Valid() && now >= server.Abs().now
    modifies server, server.repo
    ensures s == old(server.Abs()).(now := now) && cutoff == now - retention
    ensures server.Valid() && NoDuplicates(doomed) && |doomed| <= 500
    ensures forall o :: o in doomed ==> IsCollectable(s, cutoff, o)
    ensures |doomed| < 500 ==> forall o :: IsCollectable(s, cutoff, o) ==> o in doomed
    ensures server.Abs() == Swept(s, cutoff, doomed, fate)
    ensures report.deleted == Tally(doomed, fate, Gone, |doomed|) && report.kept == Tally(doomed, fate, Retained, |doomed|)
    ensures report.purged == |s.versions.Keys - server.Abs().versions.Keys|
  {
    LaterStateOk(server.Abs(), now);
    var limit, found := FindDoomed(server, now, retention);
    s, cutoff, doomed := server.Abs(), limit, found;
    SweptStateOk(s, cutoff, doomed, fate);
    var deleted, kept := DeleteDoomed(server, found, fate);
    var purged := Tidy(server, limit);
    report := Report(deleted, kept, purged);
    PurgedKeys(s, cutoff, doomed, fate);
  }

  // ----- an abandoned write -----

  /** Every object a row names belongs to one file. */
  ghost predicate Owned(s: State, owner: map<ObjectId, NodeId>) {
    forall v, k :: v in s.chunks && k in s.chunks[v] ==>
      v in s.versions && s.chunks[v][k].obj in owner && owner[s.chunks[v][k].obj] == s.versions[v].node
  }

  /** An open write nobody has touched since the cutoff. */
  predicate Abandoned(s: State, cutoff: Time, n: NodeId, v: VersionId) {
    n in s.nodes && s.nodes[n].kind == File && IsStagingOf(s, n, v) && s.versions[v].createdAt < cutoff
  }

  ghost predicate SharesWithCurrent(s: State, n: NodeId, v: VersionId)
    requires n in s.nodes
  {
    s.nodes[n].current.Some? && exists o :: Refers(s, v, o) && Refers(s, s.nodes[n].current.value, o)
  }

  /** The sweep saw everything there was to collect, and the store gave up every object of `v`. */
  ghost predicate Complete(s: State, cutoff: Time, doomed: seq<ObjectId>, fate: ObjectId -> Fate, v: VersionId) {
    && (forall o :: o in doomed <==> IsCollectable(s, cutoff, o))
    && (forall o :: o in doomed && Refers(s, v, o) ==> fate(o) == Gone)
  }

  lemma SameOwner(s: State, owner: map<ObjectId, NodeId>, u: VersionId, v: VersionId, o: ObjectId)
    requires Owned(s, owner) && Refers(s, u, o) && Refers(s, v, o)
    ensures u in s.versions && v in s.versions && s.versions[u].node == s.versions[v].node
  {
  }

  /** What an abandoned write does not share with the committed version is collectable, the rest is not. */
  lemma AbandonedCollectable(s: State, owner: map<ObjectId, NodeId>, cutoff: Time, n: NodeId, v: VersionId, o: ObjectId)
    requires StateOk(s) && Owned(s, owner) && Abandoned(s, cutoff, n, v) && Refers(s, v, o)
    ensures IsCollectable(s, cutoff, o) <==> !(s.nodes[n].current.Some? && Refers(s, s.nodes[n].current.value, o))
  {
    assert s.nodes[n].current != Some(v) by {
      if s.nodes[n].current.Some? { assert CurrentOk(s, n, s.nodes[n].current.value); }
    }
    assert !Live(s, cutoff, v) && s.versions[v].Since() < cutoff;
    if s.nodes[n].current.Some? && Refers(s, s.nodes[n].current.value, o) {
      assert CurrentOk(s, n, s.nodes[n].current.value);
      assert Live(s, cutoff, s.nodes[n].current.value);
    } else {
      forall u | Live(s, cutoff, u) ensures !Refers(s, u, o) {
        if Refers(s, u, o) {
          SameOwner(s, owner, u, v, o);
          assert s.versions[u].state == Staging ==> IsStagingOf(s, n, u);
        }
      }
    }
  }

  /** Whether the committed version of the file names this object too. */
  ghost predicate NamedByCurrent(s: State, n: NodeId, o: ObjectId)
    requires n in s.nodes
  {
    s.nodes[n].current.Some? && Refers(s, s.nodes[n].current.value, o)
  }

  /** Of the manifest of `v` the loop leaves exactly the rows whose objects the committed version names too. */
  lemma RowsLeft(s: State, owner: map<ObjectId, NodeId>, cutoff: Time, doomed: seq<ObjectId>,
                 fate: ObjectId -> Fate, n: NodeId, v: VersionId, k: int)
    requires StateOk(s) && Owned(s, owner) && Abandoned(s, cutoff, n, v) && Complete(s, cutoff, doomed, fate, v)
    ensures Lookup(RowsOf(SweepAll(s, doomed, fate), v), k) ==
            if k in s.chunks[v] && NamedByCurrent(s, n, s.chunks[v][k].obj) then Lookup(s.chunks[v], k) else None
  {
    SweepAllIs(s, doomed, fate);
    if k in s.chunks[v] {
      assert Refers(s, v, s.chunks[v][k].obj);
      AbandonedCollectable(s, owner, cutoff, n, v, s.chunks[v][k].obj);
    }
  }

  /** So nothing is left exactly if it shares nothing. */
  lemma EmptiedOut(s: State, owner: map<ObjectId, NodeId>, cutoff: Time, doomed: seq<ObjectId>,
                   fate: ObjectId -> Fate, n: NodeId, v: VersionId)
    requires StateOk(s) && Owned(s, owner) && Abandoned(s, cutoff, n, v) && Complete(s, cutoff, doomed, fate, v)
    ensures RowsOf(SweepAll(s, doomed, fate), v) == map[] <==> !SharesWithCurrent(s, n, v)
  {
    var rows := RowsOf(SweepAll(s, doomed, fate), v);
    forall k
      ensures Lookup(rows, k) == if k in s.chunks[v] && NamedByCurrent(s, n, s.chunks[v][k].obj) then Lookup(s.chunks[v], k) else None
    {
      RowsLeft(s, owner, cutoff, doomed, fate, n, v, k);
    }
    if SharesWithCurrent(s, n, v) {
      var o :| Refers(s, v, o) && Refers(s, s.nodes[n].current.value, o);
      var k :| k in s.chunks[v] && s.chunks[v][k].obj == o;
      assert Lookup(rows, k).Some?;
    } else {
      forall k ensures Lookup(rows, k) == Lookup(map[], k) {
        if k in s.chunks[v] { assert Refers(s, v, s.chunks[v][k].obj); }
      }
      SameManifest(rows, map[]);
    }
  }

  lemma CurrentNotTaken(s: State, cutoff: Time, doomed: seq<ObjectId>, n: NodeId, c: VersionId, k: int)
    requires StateOk(s) && n in s.nodes && s.nodes[n].current == Some(c) && k in RowsOf(s, c)
    requires forall o :: o in doomed ==> IsCollectable(s, cutoff, o)
    ensures RowsOf(s, c)[k].obj !in doomed
  {
    assert CurrentOk(s, n, c);
    assert Live(s, cutoff, c) && Refers(s, c, RowsOf(s, c)[k].obj);
  }

  function PartAt(objects: map<ObjectId, seq<byte>>, rows: Manifest, k: int): Option<Part> {
    if k in rows then Some(PartOf(objects, rows[k])) else None
  }

  lemma SamePartsOf(a: map<ObjectId, seq<byte>>, b: map<ObjectId, seq<byte>>, rows: Manifest)
    requires forall k :: PartAt(a, rows, k) == PartAt(b, rows, k)
    ensures PartsOf(a, rows) == PartsOf(b, rows)
  {
    assert (map k | k in rows && PartAt(a, rows, k) == PartAt(b, rows, k) :: PartOf(a, rows[k])) == PartsOf(a, rows);
    assert (map k | k in rows && PartAt(a, rows, k) == PartAt(b, rows, k) :: PartOf(b, rows[k])) == PartsOf(b, rows);
    assert (map k | k in rows && PartAt(a, rows, k) == PartAt(b, rows, k) :: PartOf(a, rows[k])) ==
           (map k | k in rows && PartAt(a, rows, k) == PartAt(b, rows, k) :: PartOf(b, rows[k]));
  }

  lemma SameVersionView(s: State, t: State, c: VersionId)
    requires c in s.versions && c in t.versions && s.versions[c] == t.versions[c]
    requires forall k :: Lookup(RowsOf(t, c), k) == Lookup(RowsOf(s, c), k)
    requires forall k :: k in RowsOf(s, c) ==> PartOf(t.objects, RowsOf(s, c)[k]) == PartOf(s.objects, RowsOf(s, c)[k])
    ensures ViewOf(t, c) == ViewOf(s, c)
  {
    SameManifest(RowsOf(t, c), RowsOf(s, c));
    SamePartsOf(t.objects, s.objects, RowsOf(s, c));
  }

  /** The committed version is not affected by the loop. */
  lemma CurrentUntouched(s: State, cutoff: Time, doomed: seq<ObjectId>, fate: ObjectId -> Fate, n: NodeId, c: VersionId)
    requires StateOk(s) && n in s.nodes && s.nodes[n].current == Some(c)
    requires forall o :: o in doomed ==> IsCollectable(s, cutoff, o)
    ensures c in s.versions && c in SweepAll(s, doomed, fate).versions && ViewOf(SweepAll(s, doomed, fate), c) == ViewOf(s, c)
  {
    SweepAllIs(s, doomed, fate);
    assert CurrentOk(s, n, c);
    forall k | k in RowsOf(s, c) ensures RowsOf(s, c)[k].obj !in doomed { CurrentNotTaken(s, cutoff, doomed, n, c, k); }
    SameVersionView(s, SweepAll(s, doomed, fate), c);
  }

  /** Purging drops the abandoned write exactly when the loop emptied it. */
  lemma PurgedOut(s: State, cutoff: Time, n: NodeId, v: VersionId)
    requires StateOk(s) && Abandoned(s, cutoff, n, v)
    ensures v !in PurgeVersions(s, cutoff).versions <==> RowsOf(s, v) == map[]
    ensures forall u :: IsStagingOf(PurgeVersions(s, cutoff), n, u) ==> u == v
  {
    assert !IsCurrent(s, v) by {
      if s.nodes[n].current.Some? { assert CurrentOk(s, n, s.nodes[n].current.value); }
    }
    assert s.versions[v].Since() < cutoff;
    forall u | IsStagingOf(PurgeVersions(s, cutoff), n, u) ensures u == v {
      assert IsStagingOf(s, n, u) && IsStagingOf(s, n, v);
    }
  }

  lemma PurgeKeepsCurrent(s: State, cutoff: Time, n: NodeId, c: VersionId)
    requires StateOk(s) && n in s.nodes && s.nodes[n].current == Some(c)
    ensures c in s.versions && c in PurgeVersions(s, cutoff).versions
    ensures ViewOf(PurgeVersions(s, cutoff), c) == ViewOf(s, c)
  {
    assert CurrentOk(s, n, c) && IsCurrent(s, c);
  }

  lemma SweepAllStateOk(s: State, doomed: seq<ObjectId>, fate: ObjectId -> Fate)
    requires StateOk(s)
    ensures StateOk(SweepAll(s, doomed, fate))
  {
    SweepAllIs(s, doomed, fate);
    var t := SweepAll(s, doomed, fate);
    forall v, k | v in t.chunks && k in t.chunks[v] ensures t.chunks[v][k].obj.id < t.nextObject {
      assert Lookup(t.chunks[v], k) == Lookup(s.chunks[v], k);
      assert v in s.chunks && k in s.chunks[v];
    }
    assert forall n, u :: IsStagingOf(t, n, u) <==> IsStagingOf(s, n, u);
  }

  /** What the file's committed version holds. */
  ghost predicate CommittedHolds(s: State, n: NodeId, f: seq<byte>)
    requires n in s.nodes
  {
    if CurrentView(s, n).Some? then VersionHolds(CurrentView(s, n).value, f) else s.nodes[n].current.None? && f == []
  }

  /** The file as it was before the write was opened: its committed version, at that version's size. */
  ghost predicate Restored(s: State, t: State, n: NodeId)
    requires n in s.nodes
  {
    && n in t.nodes && t.nodes[n] == s.nodes[n].(size := CommittedSize(s, n))
    && CurrentView(t, n) == CurrentView(s, n) && forall u :: !IsStagingOf(t, n, u)
  }

  lemma RestoredQuiet(s: State, t: State, n: NodeId, f: seq<byte>)
    requires n in s.nodes && Restored(s, t, n) && CommittedHolds(s, n, f)
    ensures t.nodes[n].size == |f| && Quiet(View(t, n), f)
  {
    assert View(t, n).staged == map[];
  }

  lemma ReconciledRestored(s: State, n: NodeId)
    requires n in s.nodes && s.nodes[n].kind == File && forall u :: !IsStagingOf(s, n, u)
    ensures Restored(s, ReconcileSizes(s), n)
  {
    var t := ReconcileSizes(s);
    assert forall u :: IsStagingOf(t, n, u) <==> IsStagingOf(s, n, u);
    assert t.nodes[n].current == s.nodes[n].current;
  }

  /** The loop and the purge leave the committed version as it is. */
  lemma SweepKeepsCommitted(s: State, cutoff: Time, doomed: seq<ObjectId>, fate: ObjectId -> Fate, n: NodeId)
    requires StateOk(s) && n in s.nodes && forall o :: o in doomed ==> IsCollectable(s, cutoff, o)
    ensures var p := PurgeVersions(SweepAll(s, doomed, fate), cutoff);
            p.nodes == s.nodes && CurrentView(p, n) == CurrentView(s, n) && CommittedSize(p, n) == CommittedSize(s, n)
  {
    SweepAllIs(s, doomed, fate);
    SweepAllStateOk(s, doomed, fate);
    if s.nodes[n].current.Some? {
      CurrentUntouched(s, cutoff, doomed, fate, n, s.nodes[n].current.value);
      PurgeKeepsCurrent(SweepAll(s, doomed, fate), cutoff, n, s.nodes[n].current.value);
    }
  }

  lemma StillAbandoned(s: State, cutoff: Time, doomed: seq<ObjectId>, fate: ObjectId -> Fate, n: NodeId, v: VersionId)
    requires StateOk(s) && Abandoned(s, cutoff, n, v)
    ensures StateOk(SweepAll(s, doomed, fate)) && Abandoned(SweepAll(s, doomed, fate), cutoff, n, v)
  {
    SweepAllIs(s, doomed, fate);
    SweepAllStateOk(s, doomed, fate);
  }

  /** One complete sweep undoes an abandoned write exactly when that write shares no object with the
      committed version; then its objects are gone and the file is restored. */
  lemma AbandonedWriteRolledBack(s: State, owner: map<ObjectId, NodeId>, cutoff: Time, doomed: seq<ObjectId>,
                                 fate: ObjectId -> Fate, n: NodeId, v: VersionId, f: seq<byte>)
    requires StateOk(s) && Owned(s, owner) && Abandoned(s, cutoff, n, v) && Complete(s, cutoff, doomed, fate, v)
    ensures var t := Swept(s, cutoff, doomed, fate);
            && (v !in t.versions <==> !SharesWithCurrent(s, n, v))
            && (!SharesWithCurrent(s, n, v) ==>
                  && Restored(s, t, n) && (forall o :: Refers(s, v, o) ==> o !in t.objects)
                  && (CommittedHolds(s, n, f) ==> t.nodes[n].size == |f| && Quiet(View(t, n), f)))
  {
    var m := SweepAll(s, doomed, fate);
    var p := PurgeVersions(m, cutoff);
    StillAbandoned(s, cutoff, doomed, fate, n, v);
    EmptiedOut(s, owner, cutoff, doomed, fate, n, v);
    PurgedOut(m, cutoff, n, v);
    if !SharesWithCurrent(s, n, v) {
      SweepAllIs(s, doomed, fate);
      forall o | Refers(s, v, o) ensures o !in p.objects { AbandonedCollectable(s, owner, cutoff, n, v, o); }
      SweepKeepsCommitted(s, cutoff, doomed, fate, n);
      ReconciledRestored(p, n);
      if CommittedHolds(s, n, f) { RestoredQuiet(s, ReconcileSizes(p), n, f); }
    }
  }

  // ----- an abandoned write that shares an object -----

  lemma SharedStaysOpen(s: State, owner: map<ObjectId, NodeId>, cutoff: Time, doomed: seq<ObjectId>,
                        fate: ObjectId -> Fate, n: NodeId, v: VersionId)
    requires StateOk(s) && Owned(s, owner) && Abandoned(s, cutoff, n, v) && Complete(s, cutoff, doomed, fate, v)
    requires SharesWithCurrent(s, n, v)
    ensures var t := Swept(s, cutoff, doomed, fate);
            && n in t.nodes && t.nodes[n] == s.nodes[n] && IsStagingOf(t, n, v) && t.versions[v] == s.versions[v]
            && t.objects == SweepAll(s, doomed, fate).objects && RowsOf(t, v) == RowsOf(SweepAll(s, doomed, fate), v)
  {
    var m := SweepAll(s, doomed, fate);
    var p := PurgeVersions(m, cutoff);
    StillAbandoned(s, cutoff, doomed, fate, n, v);
    EmptiedOut(s, owner, cutoff, doomed, fate, n, v);
    PurgedOut(m, cutoff, n, v);
    SweepAllIs(s, doomed, fate);
    assert IsStagingOf(p, n, v);
  }

  /** Otherwise the node record does not change, the version stays open and the file is still served from it:
      a part reads as it did if the committed version names its object, and as zeroes if the write sealed it. */
  lemma SharedWriteStays(s: State, owner: map<ObjectId, NodeId>, cutoff: Time, doomed: seq<ObjectId>,
                         fate: ObjectId -> Fate, n: NodeId, v: VersionId, i: nat)
    requires StateOk(s) && Owned(s, owner) && Abandoned(s, cutoff, n, v) && Complete(s, cutoff, doomed, fate, v)
    requires SharesWithCurrent(s, n, v)
    ensures var t, k, cs := Swept(s, cutoff, doomed, fate), i / ChunkSize(s.versions[v]), ChunkSize(s.versions[v]);
            && n in t.nodes && t.nodes[n] == s.nodes[n] && v in t.versions && t.versions[v] == s.versions[v] && Served(t, n) == Some(v)
            && Lookup(RowsOf(t, v), k) ==
               (if k in s.chunks[v] && NamedByCurrent(s, n, s.chunks[v][k].obj) then Lookup(s.chunks[v], k) else None)
            && ByteAt(ViewOf(t, v).parts, cs, i) ==
               (if k in s.chunks[v] && NamedByCurrent(s, n, s.chunks[v][k].obj) then ByteAt(ViewOf(s, v).parts, cs, i) else 0)
  {
    var t, k := Swept(s, cutoff, doomed, fate), i / ChunkSize(s.versions[v]);
    SharedStaysOpen(s, owner, cutoff, doomed, fate, n, v);
    SweptStateOk(s, cutoff, doomed, fate);
    OpenIsUnique(t, n, v);
    OpenOfStaging(t, n);
    RowsLeft(s, owner, cutoff, doomed, fate, n, v, k);
    if k in s.chunks[v] && NamedByCurrent(s, n, s.chunks[v][k].obj) {
      SweepAllIs(s, doomed, fate);
      assert Refers(s, v, s.chunks[v][k].obj);
      AbandonedCollectable(s, owner, cutoff, n, v, s.chunks[v][k].obj);
    }
  }

  /** Why writes and syncs may not pick up a version older than the cutoff: a sync of an abandoned write
      that falls between the snapshot and the delete commits a version that then loses its object. */
  lemma StaleSyncLosesObject(s: State, owner: map<ObjectId, NodeId>, cutoff: Time, n: NodeId, v: VersionId, o: ObjectId)
    requires StateOk(s) && Owned(s, owner) && Abandoned(s, cutoff, n, v) && Refers(s, v, o)
    requires s.nodes[n].current.Some? ==> !Refers(s, s.nodes[n].current.value, o)
    ensures IsCollectable(s, cutoff, o)
    ensures var t := RemoveObject(CommitOpen(s, n), o);
            n in t.nodes && t.nodes[n].current == Some(v) && Refers(t, v, o) && o !in t.objects
  {
    AbandonedCollectable(s, owner, cutoff, n, v, o);
    OpenIsUnique(s, n, v);
    CommitOpenIs(s, n, v);
    var k :| k in s.chunks[v] && s.chunks[v][k].obj == o;
    assert CommitOpen(s, n).chunks[v][k].obj == o;
  }

  // ----- the sweep as a run of the interleaved system -----

  const TIDY: seq<Step> := [Purge, Reconcile, StopSweep]

  /** The steps of a sweep after its snapshot. */
  function SweepSteps(doomed: seq<ObjectId>, fate: ObjectId -> Fate): seq<Step>
    decreases |doomed|
  {
    if doomed == [] then TIDY
    else (if fate(doomed[0]) == Gone then [Remove(doomed[0]), Interleaving.Forget] else [Keep(doomed[0])]) + SweepSteps(doomed[1..], fate)
  }

  lemma {:induction false} SweepStepsRun(config: int, sys: System, doomed: seq<ObjectId>, fate: ObjectId -> Fate)
    requires sys.sweep.Sweeping? && sys.sweep.gone.None? && NoDuplicates(doomed) && forall o :: o in doomed ==> o in sys.sweep.doomed
    ensures Legal(config, sys, SweepSteps(doomed, fate))
    ensures Run(config, sys, SweepSteps(doomed, fate)) ==
            sys.(repo := ReconcileSizes(PurgeVersions(SweepAll(sys.repo, doomed, fate), sys.sweep.cutoff)), sweep := Idle)
    decreases |doomed|
  {
    if doomed == [] {
      var purged := Next(config, sys, Purge);
      var reconciled := Next(config, purged, Interleaving.Reconcile);
      assert Legal(config, Next(config, reconciled, StopSweep), []);
      RunCons(config, reconciled, StopSweep, []);
      RunCons(config, purged, Interleaving.Reconcile, [StopSweep] + []);
      RunCons(config, sys, Purge, [Interleaving.Reconcile] + ([StopSweep] + []));
      assert TIDY == [Purge] + ([Interleaving.Reconcile] + ([StopSweep] + []));
    } else {
      var o, rest := doomed[0], SweepSteps(doomed[1..], fate);
      assert o !in doomed[1..];
      if fate(o) == Gone {
        var removed := Next(config, sys, Remove(o));
        var forgotten := Next(config, removed, Interleaving.Forget);
        SweepStepsRun(config, forgotten, doomed[1..], fate);
        RunCons(config, removed, Interleaving.Forget, rest);
        RunCons(config, sys, Remove(o), [Interleaving.Forget] + rest);
        assert SweepSteps(doomed, fate) == [Remove(o)] + ([Interleaving.Forget] + rest);
      } else {
        SweepStepsRun(config, Next(config, sys, Keep(o)), doomed[1..], fate);
        RunCons(config, sys, Keep(o), rest);
      }
    }
  }

  /** What one sweep does, the interleaved system can do: everything proved of its runs holds after it. */
  lemma SweepIsRun(config: int, sys: System, cutoff: Time, doomed: seq<ObjectId>, fate: ObjectId -> Fate)
    requires sys.sweep.Idle? && cutoff <= sys.repo.now && NoDuplicates(doomed)
    requires forall o :: o in doomed ==> IsCollectable(sys.repo, cutoff, o)
    requires forall n :: n in sys.writers ==> Fresh(sys.repo, n, cutoff)
    ensures var run := [Snapshot(cutoff, set o | o in doomed)] + SweepSteps(doomed, fate);
            && Legal(config, sys, run) && Run(config, sys, run).repo == Swept(sys.repo, cutoff, doomed, fate)
            && Run(config, sys, run).writers == sys.writers
  {
    var first := Snapshot(cutoff, set o | o in doomed);
    SweepStepsRun(config, Next(config, sys, first), doomed, fate);
    RunCons(config, sys, first, SweepSteps(doomed, fate));
  }
}
