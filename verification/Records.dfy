/** The metadata records, the object store, and the effect of each repository call on them.

    A state keeps a version's manifest as a map from part index to row; the sorted row vectors of
    the in-memory repository are proved to implement it in module MemoryRepository. Identifiers are
    drawn from counters, which is what "ids are fresh" means here. */
module Records {
  import opened Bytes

  datatype NodeId = NodeId(id: int)
  datatype VersionId = VersionId(id: int)
  datatype ObjectId = ObjectId(id: int)
  type Time = int

  datatype Kind = File | Directory

  datatype Node = Node(kind: Kind, size: int, current: Option<VersionId>, generation: int)

  datatype VersionState = Staging | Committed | Superseded | Garbage

  datatype Version = Version(node: NodeId, base: Option<VersionId>, state: VersionState, size: int,
                             chunkSize: int, createdAt: Time, committedAt: Option<Time>)
  {
    /** The instant a version's age is measured from. */
    function Since(): Time {
      if committedAt.Some? then committedAt.value else createdAt
    }
  }

  /** An injective hash: it remembers what it was computed from. */
  datatype Digest = Digest(of: seq<byte>)

  datatype Row = Row(index: int, offset: int, size: int, hash: Digest, obj: ObjectId)

  type Manifest = map<int, Row>

  datatype CommitGuard = CommitGuard(node: NodeId, version: VersionId, generation: int,
                                     current: Option<VersionId>)

  datatype RepositoryError = NotFound | AlreadyExists | Conflict

  datatype Result<+T, +E> = Ok(value: T) | Err(error: E)

  datatype State = State(
    nodes: map<NodeId, Node>,
    versions: map<VersionId, Version>,
    chunks: map<VersionId, Manifest>,
    objects: map<ObjectId, seq<byte>>,
    nextNode: int, nextVersion: int, nextObject: int,
    now: Time)

  // ----- nodes -----

  function CreateNode(s: State, kind: Kind): State {
    s.(nodes := s.nodes[NodeId(s.nextNode) := Node(kind, 0, None, 0)], nextNode := s.nextNode + 1)
  }

  function DeleteNode(s: State, n: NodeId): State {
    s.(nodes := s.nodes - {n})
  }

  function SetSize(s: State, n: NodeId, size: int): State
    requires n in s.nodes
  {
    s.(nodes := s.nodes[n := s.nodes[n].(size := size)])
  }

  // ----- versions -----

  predicate IsStagingOf(s: State, n: NodeId, v: VersionId) {
    v in s.versions && s.versions[v].node == n && s.versions[v].state == Staging
  }

  /** The newest open write of a node. */
  ghost predicate IsOpen(s: State, n: NodeId, v: VersionId) {
    IsStagingOf(s, n, v) && forall u :: IsStagingOf(s, n, u) ==> s.versions[u].createdAt <= s.versions[v].createdAt
  }

  function CreateStaging(s: State, n: NodeId, base: Option<VersionId>, chunkSize: int): State
    requires n in s.nodes
  {
    s.(nodes := s.nodes[n := s.nodes[n].(generation := s.nodes[n].generation + 1)],
       versions := s.versions[VersionId(s.nextVersion) := Version(n, base, Staging, 0, chunkSize, s.now, None)],
       chunks := s.chunks[VersionId(s.nextVersion) := map[]],
       nextVersion := s.nextVersion + 1)
  }

  function Touch(s: State, v: VersionId, size: int): State {
    if v in s.versions && s.versions[v].state == Staging then
      s.(versions := s.versions[v := s.versions[v].(size := size, createdAt := s.now)])
    else s
  }

  /** Why a guarded commit is refused, if it is. */
  function CommitRefusal(s: State, g: CommitGuard): Option<RepositoryError> {
    if g.node !in s.nodes then Some(NotFound)
    else if s.nodes[g.node].generation != g.generation || s.nodes[g.node].current != g.current then Some(Conflict)
    else if g.version !in s.versions then Some(NotFound)
    else None
  }

  function Supersede(versions: map<VersionId, Version>, previous: Option<VersionId>): map<VersionId, Version> {
    if previous.Some? && previous.value in versions && versions[previous.value].state == Committed then
      versions[previous.value := versions[previous.value].(state := Superseded)]
    else versions
  }

  function Commit(s: State, g: CommitGuard, size: int): State
    requires CommitRefusal(s, g) == None
  {
    var versions := Supersede(s.versions, s.nodes[g.node].current);
    s.(versions := versions[g.version := versions[g.version].(state := Committed, size := size, committedAt := Some(s.now))],
       nodes := s.nodes[g.node := s.nodes[g.node].(current := Some(g.version), size := size)])
  }

  // ----- manifests -----

  function Attach(s: State, v: VersionId, row: Row): State
    requires v in s.chunks
  {
    s.(chunks := s.chunks[v := s.chunks[v][row.index := row]])
  }

  function RowsOf(s: State, v: VersionId): Manifest {
    if v in s.chunks then s.chunks[v] else map[]
  }

  function InRange(rows: Manifest, first: int, last: int): Manifest {
    map k | k in rows && first <= k <= last :: rows[k]
  }

  /** Rows already present in the target win over the ones carried over. */
  function CopyRows(s: State, from: VersionId, to: VersionId, first: int, last: int): State {
    if first > last then s
    else s.(chunks := s.chunks[to := InRange(RowsOf(s, from), first, last) + RowsOf(s, to)])
  }

  function Lookup(rows: Manifest, k: int): Option<Row> {
    if k in rows then Some(rows[k]) else None
  }

  /** Manifests are equal when they agree at every index. */
  lemma SameManifest(a: Manifest, b: Manifest)
    requires forall k :: Lookup(a, k) == Lookup(b, k)
    ensures a == b
  {
    assert (map k | k in a && Lookup(a, k) == Lookup(b, k) :: a[k]) == a;
    assert (map k | k in b && Lookup(a, k) == Lookup(b, k) :: b[k]) == b;
    assert (map k | k in a && Lookup(a, k) == Lookup(b, k) :: a[k]) == (map k | k in b && Lookup(a, k) == Lookup(b, k) :: b[k]);
  }

  // ----- objects -----

  function Put(s: State, data: seq<byte>): State {
    s.(objects := s.objects[ObjectId(s.nextObject) := data], nextObject := s.nextObject + 1)
  }

  function RemoveObject(s: State, o: ObjectId): State {
    s.(objects := s.objects - {o})
  }

  // ----- collection -----

  predicate IsCurrent(s: State, v: VersionId) {
    v in s.versions && s.versions[v].node in s.nodes && s.nodes[s.versions[v].node].current == Some(v)
  }

  /** Versions whose rows the sweep must leave alone. */
  predicate Live(s: State, cutoff: Time, v: VersionId) {
    v in s.versions && ((s.versions[v].state == Staging && s.versions[v].createdAt >= cutoff) || IsCurrent(s, v))
  }

  ghost predicate Refers(s: State, v: VersionId, o: ObjectId) {
    v in s.chunks && exists k :: k in s.chunks[v] && s.chunks[v][k].obj == o
  }

  /** An object some aged dead version refers to and no live version does. */
  ghost predicate IsCollectable(s: State, cutoff: Time, o: ObjectId) {
    && (exists v :: Refers(s, v, o) && v in s.versions && !Live(s, cutoff, v) && s.versions[v].Since() < cutoff)
    && (forall v :: Live(s, cutoff, v) ==> !Refers(s, v, o))
  }

  function WithoutObject(rows: Manifest, o: ObjectId): Manifest {
    map k | k in rows && rows[k].obj != o :: rows[k]
  }

  function ForgetObject(s: State, o: ObjectId): State {
    s.(chunks := map v | v in s.chunks :: WithoutObject(s.chunks[v], o))
  }

  predicate EmptyAndDead(s: State, cutoff: Time, v: VersionId) {
    v in s.versions && s.versions[v].Since() < cutoff && !IsCurrent(s, v) && RowsOf(s, v) == map[]
  }

  function PurgeVersions(s: State, cutoff: Time): State {
    var doomed := set v | v in s.versions && EmptyAndDead(s, cutoff, v);
    s.(versions := s.versions - doomed, chunks := s.chunks - doomed)
  }

  predicate HasStaging(s: State, n: NodeId) {
    exists v :: v in s.versions && IsStagingOf(s, n, v)
  }

  function CommittedSize(s: State, n: NodeId): int
    requires n in s.nodes
  {
    var current := s.nodes[n].current;
    if current.Some? && current.value in s.versions then s.versions[current.value].size else 0
  }

  function Reconciled(s: State, n: NodeId): Node
    requires n in s.nodes
  {
    if s.nodes[n].kind != File || HasStaging(s, n) then s.nodes[n] else s.nodes[n].(size := CommittedSize(s, n))
  }

  function ReconcileSizes(s: State): State {
    s.(nodes := map n | n in s.nodes :: Reconciled(s, n))
  }
}
