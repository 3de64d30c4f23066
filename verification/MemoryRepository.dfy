/** The in-memory metadata repository: maps updated in place, one sorted row vector per version.
    Each method is proved to have the effect the Records module gives it. */
module MemoryRepository {
  import opened Bytes
  import opened Records

  ghost predicate Sorted(rows: seq<Row>) {
    forall i, j :: 0 <= i < j < |rows| ==> rows[i].index < rows[j].index
  }

  /** The manifest a row vector stands for. */
  function ManifestOf(rows: seq<Row>): Manifest {
    if rows == [] then map[] else ManifestOf(rows[..|rows| - 1])[rows[|rows| - 1].index := rows[|rows| - 1]]
  }

  lemma {:induction false} ManifestHas(rows: seq<Row>, i: nat)
    requires Sorted(rows) && i < |rows|
    ensures Lookup(ManifestOf(rows), rows[i].index) == Some(rows[i])
    decreases |rows|
  {
    if i < |rows| - 1 { ManifestHas(rows[..|rows| - 1], i); }
  }

  lemma {:induction false} ManifestHasNot(rows: seq<Row>, k: int)
    requires forall i :: 0 <= i < |rows| ==> rows[i].index != k
    ensures Lookup(ManifestOf(rows), k) == None
    decreases |rows|
  {
    if rows != [] { ManifestHasNot(rows[..|rows| - 1], k); }
  }

  /** Every row of a manifest sits somewhere in the vector. */
  lemma {:induction false} ManifestFrom(rows: seq<Row>, k: int) returns (i: nat)
    requires Sorted(rows) && k in ManifestOf(rows)
    ensures i < |rows| && rows[i].index == k && ManifestOf(rows)[k] == rows[i]
    decreases |rows|
  {
    if k == rows[|rows| - 1].index { i := |rows| - 1; } else { i := ManifestFrom(rows[..|rows| - 1], k); }
  }

  /** `binary_search_by_key` on the row index. */
  method BinarySearch(rows: seq<Row>, k: int) returns (found: bool, at: nat)
    requires Sorted(rows)
    ensures at <= |rows|
    ensures found ==> at < |rows| && rows[at].index == k
    ensures !found ==> forall i :: 0 <= i < |rows| ==> (rows[i].index < k <==> i < at) && rows[i].index != k
  {
    var lo, hi := 0, |rows|;
    while lo < hi
      invariant 0 <= lo <= hi <= |rows|
      invariant forall i :: 0 <= i < lo ==> rows[i].index < k
      invariant forall i :: hi <= i < |rows| ==> rows[i].index > k
    {
      var mid := (lo + hi) / 2;
      if rows[mid].index == k { return true, mid; }
      if rows[mid].index < k { lo := mid + 1; } else { hi := mid; }
    }
    found, at := false, lo;
  }

  lemma Replaced(rows: seq<Row>, at: nat, row: Row)
    requires Sorted(rows) && at < |rows| && rows[at].index == row.index
    ensures Sorted(rows[at := row]) && ManifestOf(rows[at := row]) == ManifestOf(rows)[row.index := row]
  {
    var after := rows[at := row];
    forall k ensures Lookup(ManifestOf(after), k) == Lookup(ManifestOf(rows)[row.index := row], k) {
      if i :| 0 <= i < |rows| && rows[i].index == k {
        ManifestHas(rows, i);
        ManifestHas(after, i);
      } else {
        ManifestHasNot(rows, k);
        ManifestHasNot(after, k);
      }
    }
    SameManifest(ManifestOf(after), ManifestOf(rows)[row.index := row]);
  }

  /** `after` is `rows` with `row` squeezed in at a position. */
  ghost predicate Squeezed(rows: seq<Row>, at: nat, row: Row, after: seq<Row>) {
    && at <= |rows| && |after| == |rows| + 1 && after[at] == row
    && (forall i :: 0 <= i < at ==> after[i] == rows[i])
    && (forall i :: at < i < |after| ==> after[i] == rows[i - 1])
  }

  lemma SqueezedSorted(rows: seq<Row>, at: nat, row: Row, after: seq<Row>)
    requires Sorted(rows) && Squeezed(rows, at, row, after)
    requires forall i :: 0 <= i < |rows| ==> if i < at then rows[i].index < row.index else row.index < rows[i].index
    ensures Sorted(after)
  {
  }

  lemma SqueezedAt(rows: seq<Row>, at: nat, row: Row, after: seq<Row>, k: int)
    requires Sorted(rows) && Sorted(after) && Squeezed(rows, at, row, after)
    ensures Lookup(ManifestOf(after), k) == Lookup(ManifestOf(rows)[row.index := row], k)
  {
    if k == row.index {
      ManifestHas(after, at);
    } else if i :| 0 <= i < |rows| && rows[i].index == k {
      ManifestHas(rows, i);
      if i < at { ManifestHas(after, i); } else { ManifestHas(after, i + 1); }
    } else {
      ManifestHasNot(rows, k);
      SqueezedHasNot(rows, at, row, after, k);
    }
  }

  lemma SqueezedHasNot(rows: seq<Row>, at: nat, row: Row, after: seq<Row>, k: int)
    requires Squeezed(rows, at, row, after) && Sorted(after) && k != row.index && forall i :: 0 <= i < |rows| ==> rows[i].index != k
    ensures Lookup(ManifestOf(after), k) == None
  {
    forall i | 0 <= i < |after| ensures after[i].index != k {
      if i < at { assert after[i] == rows[i]; } else if i > at { assert after[i] == rows[i - 1]; }
    }
    ManifestHasNot(after, k);
  }

  lemma SqueezedIn(rows: seq<Row>, at: nat, row: Row)
    requires at <= |rows|
    ensures Squeezed(rows, at, row, rows[..at] + [row] + rows[at..])
  {
  }

  lemma Inserted(rows: seq<Row>, at: nat, row: Row)
    requires Sorted(rows) && at <= |rows|
    requires forall i :: 0 <= i < |rows| ==> (rows[i].index < row.index <==> i < at) && rows[i].index != row.index
    ensures Sorted(rows[..at] + [row] + rows[at..])
    ensures ManifestOf(rows[..at] + [row] + rows[at..]) == ManifestOf(rows)[row.index := row]
    ensures row.index !in ManifestOf(rows)
  {
    var after := rows[..at] + [row] + rows[at..];
    SqueezedIn(rows, at, row);
    SqueezedSorted(rows, at, row, after);
    forall k ensures Lookup(ManifestOf(after), k) == Lookup(ManifestOf(rows)[row.index := row], k) {
      SqueezedAt(rows, at, row, after, k);
    }
    SameManifest(ManifestOf(after), ManifestOf(rows)[row.index := row]);
    ManifestHasNot(rows, row.index);
  }

  /** The row with a given index, if there is one. */
  method FindRow(rows: seq<Row>, k: int) returns (r: Option<Row>)
    requires Sorted(rows)
    ensures r == Lookup(ManifestOf(rows), k)
  {
    for i := 0 to |rows|
      invariant forall j :: 0 <= j < i ==> rows[j].index != k
    {
      if rows[i].index == k {
        ManifestHas(rows, i);
        return Some(rows[i]);
      }
    }
    ManifestHasNot(rows, k);
    r := None;
  }

  ghost predicate Below(rows: seq<Row>, bound: int) {
    forall i :: 0 <= i < |rows| ==> rows[i].index < bound
  }

  lemma Extended(rows: seq<Row>, row: Row)
    requires Sorted(rows) && Below(rows, row.index)
    ensures Sorted(rows + [row]) && ManifestOf(rows + [row]) == ManifestOf(rows)[row.index := row]
    ensures forall bound :: row.index < bound ==> Below(rows + [row], bound)
    ensures row.index !in ManifestOf(rows)
  {
    assert (rows + [row])[..|rows|] == rows;
    ManifestHasNot(rows, row.index);
  }

  /** A prefix of a sorted vector lies below the next row. */
  lemma Prefix(rows: seq<Row>, i: nat)
    requires Sorted(rows) && i < |rows|
    ensures rows[..i + 1] == rows[..i] + [rows[i]] && Sorted(rows[..i]) && Below(rows[..i], rows[i].index)
    ensures i + 1 < |rows| ==> rows[i].index < rows[i + 1].index
  {
  }

  /** Rows with an index in a range, in order. */
  method SelectRange(rows: seq<Row>, first: int, last: int) returns (r: seq<Row>)
    requires Sorted(rows)
    ensures Sorted(r) && ManifestOf(r) == InRange(ManifestOf(rows), first, last)
  {
    r := [];
    for i := 0 to |rows|
      invariant Sorted(r) && (i < |rows| ==> Below(r, rows[i].index))
      invariant ManifestOf(r) == InRange(ManifestOf(rows[..i]), first, last)
    {
      Prefix(rows, i);
      Extended(rows[..i], rows[i]);
      RangeStep(ManifestOf(rows[..i]), rows[i], first, last);
      if first <= rows[i].index <= last {
        Extended(r, rows[i]);
        r := r + [rows[i]];
      }
    }
    assert rows[..|rows|] == rows;
  }

  lemma RangeStep(m: Manifest, row: Row, first: int, last: int)
    requires row.index !in m
    ensures InRange(m[row.index := row], first, last) ==
            if first <= row.index <= last then InRange(m, first, last)[row.index := row] else InRange(m, first, last)
  {
    var a, b := InRange(m[row.index := row], first, last), InRange(m, first, last);
    if first <= row.index <= last {
      assert forall k :: Lookup(a, k) == Lookup(b[row.index := row], k);
      SameManifest(a, b[row.index := row]);
    } else {
      assert forall k :: Lookup(a, k) == Lookup(b, k);
      SameManifest(a, b);
    }
  }

  /** Insert a row unless its index is taken. */
  method InsertIfAbsent(rows: seq<Row>, row: Row) returns (r: seq<Row>)
    requires Sorted(rows)
    ensures Sorted(r)
    ensures ManifestOf(r) == if row.index in ManifestOf(rows) then ManifestOf(rows) else ManifestOf(rows)[row.index := row]
  {
    var found, at := BinarySearch(rows, row.index);
    if found {
      ManifestHas(rows, at);
      r := rows;
    } else {
      Inserted(rows, at, row);
      r := rows[..at] + [row] + rows[at..];
    }
  }

  /** Carry rows over into a manifest that keeps its own. */
  method Merge(carried: seq<Row>, target: seq<Row>) returns (r: seq<Row>)
    requires Sorted(carried) && Sorted(target)
    ensures Sorted(r) && ManifestOf(r) == ManifestOf(carried) + ManifestOf(target)
  {
    r := target;
    assert ManifestOf(carried[..0]) + ManifestOf(target) == ManifestOf(target);
    for i := 0 to |carried|
      invariant Sorted(r) && ManifestOf(r) == ManifestOf(carried[..i]) + ManifestOf(target)
    {
      Prefix(carried, i);
      Extended(carried[..i], carried[i]);
      MergeStep(ManifestOf(carried[..i]), ManifestOf(target), carried[i]);
      r := InsertIfAbsent(r, carried[i]);
    }
    assert carried[..|carried|] == carried;
  }

  lemma MergeStep(m: Manifest, target: Manifest, row: Row)
    ensures m[row.index := row] + target == if row.index in target then m + target else (m + target)[row.index := row]
  {
    var a, b := m[row.index := row] + target, if row.index in target then m + target else (m + target)[row.index := row];
    assert forall k :: Lookup(a, k) == Lookup(b, k);
    SameManifest(a, b);
  }

  method WithoutRows(rows: seq<Row>, o: ObjectId) returns (r: seq<Row>)
    requires Sorted(rows)
    ensures Sorted(r) && ManifestOf(r) == WithoutObject(ManifestOf(rows), o)
  {
    r := [];
    for i := 0 to |rows|
      invariant Sorted(r) && (i < |rows| ==> Below(r, rows[i].index))
      invariant ManifestOf(r) == WithoutObject(ManifestOf(rows[..i]), o)
    {
      Prefix(rows, i);
      Extended(rows[..i], rows[i]);
      WithoutStep(ManifestOf(rows[..i]), rows[i], o);
      if rows[i].obj != o {
        Extended(r, rows[i]);
        r := r + [rows[i]];
      }
    }
    assert rows[..|rows|] == rows;
  }

  lemma WithoutStep(m: Manifest, row: Row, o: ObjectId)
    requires row.index !in m
    ensures WithoutObject(m[row.index := row], o) == if row.obj != o then WithoutObject(m, o)[row.index := row] else WithoutObject(m, o)
  {
    var a, b := WithoutObject(m[row.index := row], o), if row.obj != o then WithoutObject(m, o)[row.index := row] else WithoutObject(m, o);
    assert forall k :: Lookup(a, k) == Lookup(b, k);
    SameManifest(a, b);
  }

  // ----- collectable objects -----

  type Tables = map<VersionId, seq<Row>>

  ghost predicate AllSorted(chunks: Tables) {
    forall v :: v in chunks ==> Sorted(chunks[v])
  }

  function ManifestsOf(chunks: Tables): map<VersionId, Manifest> {
    map v | v in chunks :: ManifestOf(chunks[v])
  }

  ghost predicate Holds(chunks: Tables, v: VersionId, o: ObjectId) {
    v in chunks && exists i :: 0 <= i < |chunks[v]| && chunks[v][i].obj == o
  }

  lemma HoldsRefers(s: State, chunks: Tables, v: VersionId, o: ObjectId)
    requires AllSorted(chunks) && s.chunks == ManifestsOf(chunks)
    ensures Holds(chunks, v, o) <==> Refers(s, v, o)
  {
    if v in chunks {
      if i :| 0 <= i < |chunks[v]| && chunks[v][i].obj == o {
        ManifestHas(chunks[v], i);
        assert chunks[v][i].index in s.chunks[v] && s.chunks[v][chunks[v][i].index].obj == o;
      }
      if k :| k in ManifestOf(chunks[v]) && ManifestOf(chunks[v])[k].obj == o {
        var i := ManifestFrom(chunks[v], k);
        assert chunks[v][i].obj == o;
      }
    }
  }

  /** A version the sweep may take objects from. */
  predicate Sweepable(s: State, cutoff: Time, v: VersionId) {
    v in s.versions && !Live(s, cutoff, v) && s.versions[v].Since() < cutoff
  }

  /** The objects of one dead version that no live version refers to, added to `found` until the limit. */
  method AddObjects(rows: seq<Row>, protected: set<ObjectId>, found: seq<ObjectId>, limit: int)
    returns (r: seq<ObjectId>, full: bool)
    requires NoDuplicates(found)
    ensures NoDuplicates(r) && found <= r
    ensures forall o :: o in r ==> o in found || (o !in protected && exists i :: 0 <= i < |rows| && rows[i].obj == o)
    ensures !full ==> Taken(rows, protected, r)
    ensures |found| < limit ==> if full then |r| == limit else |r| < limit
    ensures full ==> |r| >= limit
  {
    r, full := found, false;
    for i := 0 to |rows|
      invariant NoDuplicates(r) && found <= r
      invariant forall o :: o in r ==> o in found || (o !in protected && exists j :: 0 <= j < i && rows[j].obj == o)
      invariant forall j :: 0 <= j < i ==> rows[j].obj in protected || rows[j].obj in r
      invariant |found| < limit ==> |r| < limit
    {
      if rows[i].obj !in protected && rows[i].obj !in r {
        r := r + [rows[i].obj];
        if |r| >= limit { return r, true; }
      }
    }
  }

  /** Every unprotected object of the version is in the list. */
  ghost predicate Taken(rows: seq<Row>, protected: set<ObjectId>, r: seq<ObjectId>) {
    forall i :: 0 <= i < |rows| ==> rows[i].obj in protected || rows[i].obj in r
  }

  ghost predicate Protects(s: State, cutoff: Time, protected: set<ObjectId>) {
    forall o :: o in protected <==> exists v :: Live(s, cutoff, v) && Refers(s, v, o)
  }

  lemma AddedAreCollectable(s: State, chunks: Tables, cutoff: Time, protected: set<ObjectId>, v: VersionId, o: ObjectId)
    requires AllSorted(chunks) && s.chunks == ManifestsOf(chunks) && Protects(s, cutoff, protected)
    requires Sweepable(s, cutoff, v) && Holds(chunks, v, o) && o !in protected
    ensures IsCollectable(s, cutoff, o)
  {
    HoldsRefers(s, chunks, v, o);
  }

  lemma AllTaken(s: State, chunks: Tables, cutoff: Time, protected: set<ObjectId>, r: seq<ObjectId>, o: ObjectId)
    requires AllSorted(chunks) && s.chunks == ManifestsOf(chunks) && Protects(s, cutoff, protected)
    requires forall v :: v in chunks && Sweepable(s, cutoff, v) ==> Taken(chunks[v], protected, r)
    requires IsCollectable(s, cutoff, o)
    ensures o in r
  {
    var v :| Refers(s, v, o) && v in s.versions && !Live(s, cutoff, v) && s.versions[v].Since() < cutoff;
    HoldsRefers(s, chunks, v, o);
    assert Sweepable(s, cutoff, v) && Taken(chunks[v], protected, r);
  }

  method CollectableObjects(s: State, chunks: Tables, cutoff: Time, limit: int) returns (r: seq<ObjectId>)
    requires AllSorted(chunks) && s.chunks == ManifestsOf(chunks)
    ensures NoDuplicates(r)
    ensures forall o :: o in r ==> IsCollectable(s, cutoff, o)
    ensures |r| < limit ==> forall o :: IsCollectable(s, cutoff, o) ==> o in r
    ensures limit > 0 ==> |r| <= limit
  {
    var live := set v | v in s.versions && Live(s, cutoff, v);
    var protected := set v, i | v in live && v in chunks && 0 <= i < |chunks[v]| :: chunks[v][i].obj;
    ProtectedRefers(s, chunks, cutoff, protected);
    r := [];
    var todo := chunks.Keys;
    while todo != {}
      invariant todo <= chunks.Keys
      invariant NoDuplicates(r) && forall o :: o in r ==> IsCollectable(s, cutoff, o)
      invariant forall v :: v in chunks && v !in todo && Sweepable(s, cutoff, v) ==> Taken(chunks[v], protected, r)
      invariant limit > 0 ==> |r| < limit
      decreases |todo|
    {
      var v :| v in todo;
      todo := todo - {v};
      if Sweepable(s, cutoff, v) {
        ghost var before := r;
        var full;
        r, full := AddObjects(chunks[v], protected, r, limit);
        forall o | o in r ensures IsCollectable(s, cutoff, o) {
          if o !in before { AddedAreCollectable(s, chunks, cutoff, protected, v, o); }
        }
        if full { return; }
      }
    }
    forall o | IsCollectable(s, cutoff, o) ensures o in r {
      AllTaken(s, chunks, cutoff, protected, r, o);
    }
  }

  lemma ProtectedRefers(s: State, chunks: Tables, cutoff: Time, protected: set<ObjectId>)
    requires AllSorted(chunks) && s.chunks == ManifestsOf(chunks)
    requires forall o :: o in protected <==> exists v, i :: v in chunks && Live(s, cutoff, v) && 0 <= i < |chunks[v]| && chunks[v][i].obj == o
    ensures Protects(s, cutoff, protected)
  {
    forall o ensures o in protected <==> exists v :: Live(s, cutoff, v) && Refers(s, v, o) {
      if o in protected {
        var v, i :| v in chunks && Live(s, cutoff, v) && 0 <= i < |chunks[v]| && chunks[v][i].obj == o;
        HoldsRefers(s, chunks, v, o);
      }
      if v :| Live(s, cutoff, v) && Refers(s, v, o) {
        HoldsRefers(s, chunks, v, o);
      }
    }
  }

  method WithoutEverywhere(chunks: Tables, o: ObjectId) returns (done: Tables)
    requires AllSorted(chunks)
    ensures AllSorted(done) && ManifestsOf(done) == map v | v in ManifestsOf(chunks) :: WithoutObject(ManifestsOf(chunks)[v], o)
  {
    done := map[];
    var todo := chunks.Keys;
    while todo != {}
      invariant todo <= chunks.Keys && done.Keys == chunks.Keys - todo
      invariant AllSorted(done) && forall v :: v in done ==> ManifestOf(done[v]) == WithoutObject(ManifestOf(chunks[v]), o)
      decreases |todo|
    {
      var v :| v in todo;
      var rows := WithoutRows(chunks[v], o);
      done := done[v := rows];
      todo := todo - {v};
    }
  }

  method ReconciledNodes(s: State) returns (done: map<NodeId, Node>)
    ensures done == ReconcileSizes(s).nodes
  {
    done := map[];
    var todo := s.nodes.Keys;
    while todo != {}
      invariant todo <= s.nodes.Keys && done.Keys == s.nodes.Keys - todo
      invariant forall n :: n in done ==> done[n] == Reconciled(s, n)
      decreases |todo|
    {
      var n :| n in todo;
      done := done[n := Reconciled(s, n)];
      todo := todo - {n};
    }
  }

  // ----- the repository -----

  lemma ManifestsUpdated(chunks: Tables, v: VersionId, rows: seq<Row>)
    ensures ManifestsOf(chunks[v := rows]) == ManifestsOf(chunks)[v := ManifestOf(rows)]
  {
  }

  class Repository {
    var nodes: map<NodeId, Node>
    var versions: map<VersionId, Version>
    var chunks: Tables
    var nextNode: int
    var nextVersion: int
    var clock: Time

    ghost predicate Valid()
      reads this
    {
      AllSorted(chunks)
    }

    /** The metadata as a value; the object store is not part of it. */
    function Meta(): State
      reads this
    {
      State(nodes, versions, ManifestsOf(chunks), map[], nextNode, nextVersion, 0, clock)
    }

    constructor ()
      ensures Valid() && Meta() == State(map[], map[], map[], map[], 0, 0, 0, 0)
    {
      nodes, versions, chunks := map[], map[], map[];
      nextNode, nextVersion, clock := 0, 0, 0;
    }

    /** Time passes; the clock does not run backwards. */
    method Elapse(now: Time)
      requires Valid() && now >= clock
      modifies this
      ensures Valid() && Meta() == old(Meta()).(now := now)
    {
      clock := now;
    }

    method AddNode(kind: Kind) returns (n: NodeId)
      requires Valid()
      modifies this
      ensures Valid() && Meta() == CreateNode(old(Meta()), kind) && n == NodeId(old(nextNode))
    {
      n := NodeId(nextNode);
      nodes := nodes[n := Node(kind, 0, None, 0)];
      nextNode := nextNode + 1;
    }

    method RemoveNode(n: NodeId) returns (r: Result<(), RepositoryError>)
      requires Valid()
      modifies this
      ensures Valid() && (r.Ok? <==> n in old(nodes)) && (r.Err? ==> r.error == NotFound)
      ensures Meta() == if r.Ok? then DeleteNode(old(Meta()), n) else old(Meta())
    {
      if n !in nodes { return Err(NotFound); }
      nodes := nodes - {n};
      r := Ok(());
    }

    method UpdateSize(n: NodeId, size: int) returns (r: Result<(), RepositoryError>)
      requires Valid()
      modifies this
      ensures Valid() && (r.Ok? <==> n in old(nodes)) && (r.Err? ==> r.error == NotFound)
      ensures Meta() == if n in old(nodes) then SetSize(old(Meta()), n, size) else old(Meta())
    {
      if n !in nodes { return Err(NotFound); }
      nodes := nodes[n := nodes[n].(size := size)];
      r := Ok(());
    }

    method CreateStagingVersion(n: NodeId, base: Option<VersionId>, chunkSize: int)
      returns (r: Result<VersionId, RepositoryError>)
      requires Valid()
      modifies this
      ensures Valid() && (r.Ok? <==> n in old(nodes)) && (r.Err? ==> r.error == NotFound)
      ensures r.Ok? ==> r.value == VersionId(old(nextVersion))
      ensures Meta() == if n in old(nodes) then CreateStaging(old(Meta()), n, base, chunkSize) else old(Meta())
    {
      if n !in nodes { return Err(NotFound); }
      var v := VersionId(nextVersion);
      nodes := nodes[n := nodes[n].(generation := nodes[n].generation + 1)];
      versions := versions[v := Version(n, base, Staging, 0, chunkSize, clock, None)];
      ManifestsUpdated(chunks, v, []);
      chunks := chunks[v := []];
      nextVersion := nextVersion + 1;
      r := Ok(v);
    }

    /** An open version that no other one of this node was touched after. */
    method FindOpenStaging(n: NodeId) returns (r: Option<VersionId>)
      requires Valid()
      ensures r.Some? ==> IsOpen(Meta(), n, r.value)
      ensures r.Some? ==> r.value in versions && forall v :: IsStagingOf(Meta(), n, v) ==> versions[v].createdAt <= versions[r.value].createdAt
      ensures r.None? ==> forall v :: !IsStagingOf(Meta(), n, v)
    {
      r := None;
      var todo := versions.Keys;
      while todo != {}
        invariant todo <= versions.Keys
        invariant r.Some? ==> IsStagingOf(Meta(), n, r.value)
        invariant forall v :: v !in todo && IsStagingOf(Meta(), n, v) ==>
                    r.Some? && versions[v].createdAt <= versions[r.value].createdAt
        decreases |todo|
      {
        var v :| v in todo;
        todo := todo - {v};
        if versions[v].node == n && versions[v].state == Staging {
          if r.None? || versions[v].createdAt >= versions[r.value].createdAt { r := Some(v); }
        }
      }
    }

    method TouchStaging(v: VersionId, size: int)
      requires Valid()
      modifies this
      ensures Valid() && Meta() == Touch(old(Meta()), v, size) && versions.Keys == old(versions).Keys
      ensures forall u :: u in versions ==>
                if u == v && old(versions)[u].state == Staging then versions[u] == old(versions)[u].(size := size, createdAt := old(clock))
                else versions[u] == old(versions)[u]
    {
      if v in versions && versions[v].state == Staging {
        versions := versions[v := versions[v].(size := size, createdAt := clock)];
      }
    }

    method AttachChunk(v: VersionId, row: Row) returns (r: Result<(), RepositoryError>)
      requires Valid()
      modifies this
      ensures Valid() && (r.Ok? <==> v in old(chunks)) && (r.Err? ==> r.error == NotFound)
      ensures Meta() == if v in old(chunks) then Attach(old(Meta()), v, row) else old(Meta())
    {
      if v !in chunks { return Err(NotFound); }
      var rows := chunks[v];
      var found, at := BinarySearch(rows, row.index);
      var after;
      if found {
        Replaced(rows, at, row);
        after := rows[at := row];
      } else {
        Inserted(rows, at, row);
        after := rows[..at] + [row] + rows[at..];
      }
      ManifestsUpdated(chunks, v, after);
      chunks := chunks[v := after];
      r := Ok(());
    }

    method GetChunkRange(v: VersionId, first: int, last: int) returns (r: Result<seq<Row>, RepositoryError>)
      requires Valid()
      ensures r.Ok? <==> v in chunks
      ensures r.Err? ==> r.error == NotFound
      ensures r.Ok? ==> Sorted(r.value) && ManifestOf(r.value) == InRange(RowsOf(Meta(), v), first, last)
    {
      if v !in chunks { return Err(NotFound); }
      var rows := SelectRange(chunks[v], first, last);
      r := Ok(rows);
    }

    method CopyChunkRange(from: VersionId, to: VersionId, first: int, last: int)
      requires Valid()
      modifies this
      ensures Valid() && Meta() == CopyRows(old(Meta()), from, to, first, last)
      ensures forall k :: Lookup(RowsOf(Meta(), to), k) ==
                if k in RowsOf(old(Meta()), to) || !(first <= k <= last) then Lookup(RowsOf(old(Meta()), to), k)
                else Lookup(RowsOf(old(Meta()), from), k)
    {
      if first > last { return; }
      var source := if from in chunks then chunks[from] else [];
      var target := if to in chunks then chunks[to] else [];
      var carried := SelectRange(source, first, last);
      var after := Merge(carried, target);
      ManifestsUpdated(chunks, to, after);
      chunks := chunks[to := after];
    }

    /** Switch a node to a version if nothing moved since the guard was taken. */
    method CommitVersion(g: CommitGuard, size: int) returns (r: Result<(), RepositoryError>)
      requires Valid()
      modifies this
      ensures Valid()
      ensures r.Err? <==> CommitRefusal(old(Meta()), g).Some?
      ensures r.Err? ==> CommitRefusal(old(Meta()), g) == Some(r.error) && Meta() == old(Meta())
      ensures r.Ok? ==> Meta() == Commit(old(Meta()), g, size)
    {
      if g.node !in nodes { return Err(NotFound); }
      var node := nodes[g.node];
      if node.generation != g.generation { return Err(Conflict); }
      if node.current != g.current { return Err(Conflict); }
      if g.version !in versions { return Err(NotFound); }
      if node.current.Some? && node.current.value in versions && versions[node.current.value].state == Committed {
        versions := versions[node.current.value := versions[node.current.value].(state := Superseded)];
      }
      versions := versions[g.version := versions[g.version].(state := Committed, size := size, committedAt := Some(clock))];
      nodes := nodes[g.node := node.(current := Some(g.version), size := size)];
      r := Ok(());
    }

    method Collectable(cutoff: Time, limit: int) returns (r: seq<ObjectId>)
      requires Valid()
      ensures NoDuplicates(r) && forall o :: o in r ==> IsCollectable(Meta(), cutoff, o)
      ensures |r| < limit ==> forall o :: IsCollectable(Meta(), cutoff, o) ==> o in r
      ensures limit > 0 ==> |r| <= limit
    {
      r := CollectableObjects(Meta(), chunks, cutoff, limit);
    }

    /** No manifest names the object afterwards, and every other row is still there. */
    method Forget(o: ObjectId)
      requires Valid()
      modifies this`chunks
      ensures Valid() && Meta() == ForgetObject(old(Meta()), o)
    {
      var after := WithoutEverywhere(chunks, o);
      chunks := after;
    }

    method PurgeEmptyDead(cutoff: Time) returns (purged: nat)
      requires Valid()
      modifies this
      ensures Valid() && Meta() == PurgeVersions(old(Meta()), cutoff)
      ensures purged == |set v | v in old(versions) && EmptyAndDead(old(Meta()), cutoff, v)|
    {
      var doomed := set v | v in versions && EmptyAndDead(Meta(), cutoff, v);
      versions := versions - doomed;
      chunks := chunks - doomed;
      purged := |doomed|;
    }

    method Reconcile()
      requires Valid()
      modifies this`nodes
      ensures Valid() && Meta() == ReconcileSizes(old(Meta())) && nodes.Keys == old(nodes).Keys
      ensures forall n :: n in nodes ==>
                if old(nodes)[n].kind == Directory || exists v :: IsStagingOf(old(Meta()), n, v) then nodes[n] == old(nodes)[n]
                else nodes[n] == old(nodes)[n].(size := CommittedSize(old(Meta()), n))
    {
      var after := ReconciledNodes(Meta());
      nodes := after;
    }
  }
}
