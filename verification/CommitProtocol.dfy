/** Optimistic commits: any number of clients stage versions and commit them under a guard.

    Each database transaction is one atomic step; a step that is refused changes nothing. */
module CommitProtocol {
  import opened Bytes
  import opened Records

  /** The transitions a version's state may make. */
  predicate CanTransition(from: VersionState, to: VersionState) {
    match (from, to)
    case (Staging, Committed) => true
    case (Staging, Garbage) => true
    case (Committed, Superseded) => true
    case (Superseded, Garbage) => true
    case _ => false
  }

  datatype Db = Db(nodes: map<NodeId, Node>, versions: map<VersionId, Version>, nextNode: int, nextVersion: int, now: Time)

  // ----- the transactions -----

  function Stage(db: Db, n: NodeId, base: Option<VersionId>, chunkSize: int): Db
    requires n in db.nodes
  {
    db.(nodes := db.nodes[n := db.nodes[n].(generation := db.nodes[n].generation + 1)],
        versions := db.versions[VersionId(db.nextVersion) := Version(n, base, Staging, 0, chunkSize, db.now, None)],
        nextVersion := db.nextVersion + 1)
  }

  function Refusal(db: Db, g: CommitGuard): Option<RepositoryError> {
    if g.node !in db.nodes then Some(NotFound)
    else if db.nodes[g.node].generation != g.generation || db.nodes[g.node].current != g.current then Some(Conflict)
    else if g.version !in db.versions || db.versions[g.version].state != Staging then Some(NotFound)
    else None
  }

  function Committing(db: Db, g: CommitGuard, size: int): Db
    requires Refusal(db, g) == None
  {
    var committed := db.versions[g.version].(state := Committed, size := size, committedAt := Some(db.now));
    db.(versions := Supersede(db.versions[g.version := committed], db.nodes[g.node].current),
        nodes := db.nodes[g.node := db.nodes[g.node].(current := Some(g.version), size := size)])
  }

  class Database {
    var nodes: map<NodeId, Node>
    var versions: map<VersionId, Version>
    var nextNode: int
    var nextVersion: int
    var now: Time

    function Rows(): Db
      reads this
    {
      Db(nodes, versions, nextNode, nextVersion, now)
    }

    method CreateStagingVersion(n: NodeId, base: Option<VersionId>,
                                chunkSize: int) returns (r: Result<VersionId, RepositoryError>)
      modifies this
      ensures n !in old(nodes) ==> r == Err(NotFound) && Rows() == old(Rows())
      ensures n in old(nodes) ==> r == Ok(VersionId(old(nextVersion))) && Rows() == Stage(old(Rows()), n, base, chunkSize)
    {
      if n !in nodes { return Err(NotFound); }
      nodes := nodes[n := nodes[n].(generation := nodes[n].generation + 1)];
      var id := VersionId(nextVersion);
      nextVersion := nextVersion + 1;
      versions := versions[id := Version(n, base, Staging, 0, chunkSize, now, None)];
      r := Ok(id);
    }

    method CommitVersion(g: CommitGuard, size: int) returns (r: Result<(), RepositoryError>)
      modifies this
      ensures match Refusal(old(Rows()), g)
              case Some(error) => r == Err(error) && Rows() == old(Rows())
              case None => r == Ok(()) && Rows() == Committing(old(Rows()), g, size)
      ensures r == Err(Conflict) <==>
                g.node in old(nodes) && (old(nodes)[g.node].generation != g.generation || old(nodes)[g.node].current != g.current)
      ensures r == Err(NotFound) <==>
                || g.node !in old(nodes)
                || (old(nodes)[g.node].generation == g.generation && old(nodes)[g.node].current == g.current &&
                    (g.version !in old(versions) || old(versions)[g.version].state != Staging))
    {
      if g.node !in nodes { return Err(NotFound); }
      var node := nodes[g.node];
      if node.generation != g.generation || node.current != g.current { return Err(Conflict); }
      if g.version !in versions || versions[g.version].state != Staging { return Err(NotFound); }
      versions := versions[g.version := versions[g.version].(state := Committed, size := size, committedAt := Some(now))];
      if node.current.Some? && node.current.value in versions && versions[node.current.value].state == Committed {
        versions := versions[node.current.value := versions[node.current.value].(state := Superseded)];
      }
      nodes := nodes[g.node := node.(current := Some(g.version), size := size)];
      r := Ok(());
    }
  }

  // ----- runs -----

  datatype Step =
    | Create(kind: Kind)
    | Delete(n: NodeId)
    | Open(n: NodeId, base: Option<VersionId>, chunkSize: int)
    | TryCommit(g: CommitGuard, size: int)
    | Purge(dead: set<VersionId>)
    | Tick(now: Time)

  /** A purge never takes a current version; every other step may be tried at any time. */
  ghost predicate Enabled(db: Db, step: Step) {
    step.Purge? ==> forall n :: n in db.nodes && db.nodes[n].current.Some? ==> db.nodes[n].current.value !in step.dead
  }

  predicate Succeeds(db: Db, step: Step) {
    match step
    case Open(n, _, _) => n in db.nodes
    case TryCommit(g, _) => Refusal(db, g) == None
    case _ => true
  }

  function Next(db: Db, step: Step): Db {
    if !Succeeds(db, step) then db
    else
      match step
      case Create(kind) => db.(nodes := db.nodes[NodeId(db.nextNode) := Node(kind, 0, None, 0)], nextNode := db.nextNode + 1)
      case Delete(n) => db.(nodes := db.nodes - {n})
      case Open(n, base, chunkSize) => Stage(db, n, base, chunkSize)
      case TryCommit(g, size) => Committing(db, g, size)
      case Purge(dead) => db.(versions := db.versions - dead)
      case Tick(now) => db.(now := now)
  }

  ghost predicate Legal(db: Db, run: seq<Step>)
    decreases |run|
  {
    run == [] || (Enabled(db, run[0]) && Legal(Next(db, run[0]), run[1..]))
  }

  function Run(db: Db, run: seq<Step>): Db
    decreases |run|
  {
    if run == [] then db else Run(Next(db, run[0]), run[1..])
  }

  /** Whether this step is a commit to `n` that succeeds. */
  predicate Lands(db: Db, step: Step, n: NodeId) {
    step.TryCommit? && step.g.node == n && Succeeds(db, step)
  }

  /** The guards of the commits to one node that succeeded, in order. */
  function Commits(db: Db, run: seq<Step>, n: NodeId): seq<CommitGuard>
    decreases |run|
  {
    if run == [] then []
    else
      var rest := Commits(Next(db, run[0]), run[1..], n);
      if Lands(db, run[0], n) then [run[0].g] + rest else rest
  }

  // ----- what every step keeps -----

  ghost predicate Good(db: Db) {
    && (forall n :: n in db.nodes ==> n.id < db.nextNode)
    && (forall v :: v in db.versions ==> v.id < db.nextVersion)
    && (forall n :: n in db.nodes && db.nodes[n].current.Some? ==>
          db.nodes[n].current.value in db.versions && db.versions[db.nodes[n].current.value].state == Committed)
    && (forall m, n :: m in db.nodes && n in db.nodes && db.nodes[m].current.Some? && db.nodes[m].current == db.nodes[n].current ==> m == n)
  }

  lemma StepGood(db: Db, step: Step)
    requires Good(db) && Enabled(db, step)
    ensures Good(Next(db, step))
  {
  }

  /** The allowed transitions are these four. */
  lemma TransitionTable(from: VersionState, to: VersionState)
    ensures CanTransition(from, to) <==>
            (from, to) in {(Staging, Committed), (Staging, Garbage), (Committed, Superseded), (Superseded, Garbage)}
  {
  }

  /** A version changes state by at most one allowed transition per step; of these a step makes the two that a commit
      makes. */
  lemma TransitionsAllowed(db: Db, step: Step, v: VersionId)
    requires Good(db) && Enabled(db, step) && v in db.versions && v in Next(db, step).versions
    ensures var before, after := db.versions[v].state, Next(db, step).versions[v].state;
            before == after || (CanTransition(before, after) && after != Garbage)
  {
  }

  // ----- whose version it is -----

  /** Every current version is a version of its own node. */
  ghost predicate OwnVersions(db: Db) {
    forall n :: n in db.nodes && db.nodes[n].current.Some? && db.nodes[n].current.value in db.versions ==>
      db.versions[db.nodes[n].current.value].node == n
  }

  /** The commit does not land, or lands a version that was staged for that node. */
  predicate LandsOwn(db: Db, step: Step) {
    step.TryCommit? && Succeeds(db, step) ==> db.versions[step.g.version].node == step.g.node
  }

  /** The transaction does not compare the version's node with the guard's: current versions stay their own nodes' exactly
      if no commit lands a version staged for another node. */
  lemma OwnVersionsExactly(db: Db, step: Step)
    requires Good(db) && Enabled(db, step) && OwnVersions(db)
    ensures OwnVersions(Next(db, step)) <==> LandsOwn(db, step)
  {
    var next := Next(db, step);
    if LandsOwn(db, step) {
      forall n | n in next.nodes && next.nodes[n].current.Some? && next.nodes[n].current.value in next.versions
        ensures next.versions[next.nodes[n].current.value].node == n
      {
        if n in db.nodes && next.nodes[n].current == db.nodes[n].current { assert db.nodes[n].current.value in db.versions; }
      }
    } else {
      assert next.nodes[step.g.node].current == Some(step.g.version) && next.versions[step.g.version].node != step.g.node;
    }
  }

  const EMPTY: Db := Db(map[], map[], 0, 0, 0)
  const TWO_FILES: Db := Db(map[NodeId(0) := Node(File, 0, None, 0), NodeId(1) := Node(File, 0, None, 0)], map[], 2, 0, 0)

  /** A version staged for one file and committed to another. */
  lemma ForeignVersionLands()
    ensures Good(TWO_FILES) && OwnVersions(TWO_FILES) && TWO_FILES == Run(EMPTY, [Create(File)] + [Create(File)])
    ensures var staged, step := Next(TWO_FILES, Open(NodeId(0), None, 1)), TryCommit(CommitGuard(NodeId(1), VersionId(0), 0, None), 0);
            Enabled(staged, step) && CurrentAt(Next(staged, step), NodeId(1)) == Some(VersionId(0)) && !OwnVersions(Next(staged, step))
  {
    var one := Next(EMPTY, Create(File));
    assert ([Create(File)] + [Create(File)])[1..] == [Create(File)] && [Create(File)][1..] == [];
    assert Next(one, Create(File)) == TWO_FILES;
    var staged, step := Next(TWO_FILES, Open(NodeId(0), None, 1)), TryCommit(CommitGuard(NodeId(1), VersionId(0), 0, None), 0);
    assert Good(staged) && OwnVersions(staged);
    OwnVersionsExactly(staged, step);
  }

  ghost predicate AllLandOwn(db: Db, run: seq<Step>)
    decreases |run|
  {
    run == [] || (LandsOwn(db, run[0]) && AllLandOwn(Next(db, run[0]), run[1..]))
  }

  /** So in every run whose commits land only versions of their own nodes. */
  lemma {:induction false} CurrentIsOwn(db: Db, run: seq<Step>)
    requires Good(db) && Legal(db, run) && OwnVersions(db) && AllLandOwn(db, run)
    ensures OwnVersions(Run(db, run))
    decreases |run|
  {
    if run != [] {
      StepGood(db, run[0]);
      OwnVersionsExactly(db, run[0]);
      CurrentIsOwn(Next(db, run[0]), run[1..]);
    }
  }

  /** Staging adds one version, of that node and with that base and chunk size, and raises its generation; committing it
      under the guard of that moment lands it. */
  lemma StagedThenLands(db: Db, n: NodeId, base: Option<VersionId>, chunkSize: int, size: int)
    requires Good(db) && n in db.nodes
    ensures var v, t := VersionId(db.nextVersion), Next(db, Open(n, base, chunkSize));
            var g := CommitGuard(n, v, db.nodes[n].generation + 1, db.nodes[n].current);
            && v !in db.versions && t.versions.Keys == db.versions.Keys + {v} && (forall w :: w in db.versions ==> t.versions[w] == db.versions[w])
            && t.versions[v] == Version(n, base, Staging, 0, chunkSize, db.now, None)
            && LandsOwn(t, TryCommit(g, size)) && Lands(t, TryCommit(g, size), n)
            && var u := Next(t, TryCommit(g, size));
               && CurrentAt(u, n) == Some(v) && u.nodes[n].size == size
               && u.versions[v] == t.versions[v].(state := Committed, size := size, committedAt := Some(db.now))
  {
  }

  /** A version that is not waiting to be committed never is again. */
  predicate Spent(db: Db, v: VersionId) {
    v.id < db.nextVersion && (v in db.versions ==> db.versions[v].state != Staging)
  }

  lemma {:induction false} NeverAgain(db: Db, run: seq<Step>, n: NodeId, v: VersionId)
    requires Legal(db, run) && Spent(db, v)
    ensures forall i :: 0 <= i < |Commits(db, run, n)| ==> Commits(db, run, n)[i].version != v
    decreases |run|
  {
    if run != [] { NeverAgain(Next(db, run[0]), run[1..], n, v); }
  }

  // ----- no lost update -----

  function CurrentAt(db: Db, n: NodeId): Option<VersionId> {
    if n in db.nodes then db.nodes[n].current else None
  }

  /** Each commit names the version the one before it put in place. */
  predicate Chained(start: Option<VersionId>, guards: seq<CommitGuard>)
    decreases |guards|
  {
    guards == [] || (guards[0].current == start && Chained(Some(guards[0].version), guards[1..]))
  }

  function Last(start: Option<VersionId>, guards: seq<CommitGuard>): Option<VersionId> {
    if guards == [] then start else Some(guards[|guards| - 1].version)
  }

  /** A deleted node takes no more commits. */
  lemma {:induction false} GoneForGood(db: Db, run: seq<Step>, n: NodeId)
    requires n !in db.nodes && n.id < db.nextNode
    ensures Commits(db, run, n) == [] && n !in Run(db, run).nodes
    decreases |run|
  {
    if run != [] { GoneForGood(Next(db, run[0]), run[1..], n); }
  }

  lemma CurrentMoves(db: Db, step: Step, n: NodeId)
    requires Good(db) && Enabled(db, step)
    ensures var next := Next(db, step);
            || (n !in next.nodes && n.id < next.nextNode)
            || CurrentAt(next, n) == CurrentAt(db, n)
            || (Lands(db, step, n) && step.g.current == CurrentAt(db, n) && CurrentAt(next, n) == Some(step.g.version))
  {
  }

  /** The current version's history is a chain: every successful commit expected exactly the version
      it replaced, and the last one is what the node ends up with. */
  lemma {:induction false} HistoryIsChain(db: Db, run: seq<Step>, n: NodeId)
    requires Good(db) && Legal(db, run)
    ensures Chained(CurrentAt(db, n), Commits(db, run, n))
    ensures n in Run(db, run).nodes ==> Run(db, run).nodes[n].current == Last(CurrentAt(db, n), Commits(db, run, n))
    decreases |run|
  {
    if run != [] {
      var next, rest := Next(db, run[0]), run[1..];
      StepGood(db, run[0]);
      HistoryIsChain(next, rest, n);
      CurrentMoves(db, run[0], n);
      if n !in next.nodes && n.id < next.nextNode {
        GoneForGood(next, rest, n);
      } else if Lands(db, run[0], n) {
        assert Commits(db, run, n)[1..] == Commits(next, rest, n);
      }
    }
  }

  /** No version becomes current twice, on any node. */
  lemma {:induction false} NoVersionRecurs(db: Db, run: seq<Step>, m: NodeId, n: NodeId, i: nat, j: nat)
    requires Good(db) && Legal(db, run)
    requires i < |Commits(db, run, m)| && j < |Commits(db, run, n)|
    requires Commits(db, run, m)[i].version == Commits(db, run, n)[j].version
    ensures m == n && i == j
    decreases |run|
  {
    var next, rest := Next(db, run[0]), run[1..];
    StepGood(db, run[0]);
    var a, b := if Lands(db, run[0], m) then 1 else 0, if Lands(db, run[0], n) then 1 else 0;
    if i >= a && j >= b {
      NoVersionRecurs(next, rest, m, n, i - a, j - b);
    } else {
      var v := run[0].g.version;
      assert Spent(next, v);
      NeverAgain(next, rest, m, v);
      NeverAgain(next, rest, n, v);
    }
  }

  /** Equal guards succeed at most once. */
  lemma GuardUsedOnce(db: Db, run: seq<Step>, n: NodeId, i: nat, j: nat)
    requires Good(db) && Legal(db, run) && i < j < |Commits(db, run, n)|
    ensures Commits(db, run, n)[i] != Commits(db, run, n)[j]
  {
    if Commits(db, run, n)[i] == Commits(db, run, n)[j] { NoVersionRecurs(db, run, n, n, i, j); }
  }

  /** A guard read before someone else's commit is refused after it, and the refused commit changes nothing. */
  lemma NoLostUpdate(db: Db, run: seq<Step>, g: CommitGuard, size: int)
    requires Good(db) && Legal(db, run) && g.node in db.nodes && g.current == db.nodes[g.node].current
    requires Commits(db, run, g.node) != []
    ensures Refusal(Run(db, run), g).Some? && Next(Run(db, run), TryCommit(g, size)) == Run(db, run)
  {
    HistoryIsChain(db, run, g.node);
    if g.current.Some? { NeverAgain(db, run, g.node, g.current.value); }
  }

  /** The same goes for a guard read before someone else staged a version. */
  lemma {:induction false} GenerationGrows(db: Db, run: seq<Step>, n: NodeId)
    requires n in Run(db, run).nodes && n in db.nodes && n.id < db.nextNode
    ensures Run(db, run).nodes[n].generation >= db.nodes[n].generation
    ensures run != [] && run[0].Open? && run[0].n == n ==> Run(db, run).nodes[n].generation > db.nodes[n].generation
    decreases |run|
  {
    if run != [] {
      var next, rest := Next(db, run[0]), run[1..];
      if n in next.nodes { GenerationGrows(next, rest, n); } else { GoneForGood(next, rest, n); }
    }
  }

  lemma StagingInvalidatesGuards(db: Db, run: seq<Step>, g: CommitGuard, base: Option<VersionId>, chunkSize: int)
    requires Good(db) && g.node in db.nodes && g.generation <= db.nodes[g.node].generation
    ensures Refusal(Run(db, [Open(g.node, base, chunkSize)] + run), g).Some?
  {
    var all := [Open(g.node, base, chunkSize)] + run;
    if g.node in Run(db, all).nodes { GenerationGrows(db, all, g.node); }
  }

  // ----- the in-memory repository -----

  function RowsOf(s: State): Db {
    Db(s.nodes, s.versions, s.nextNode, s.nextVersion, s.now)
  }

  /** Both repositories stage alike. */
  lemma MemoryStages(s: State, n: NodeId, base: Option<VersionId>, chunkSize: int)
    requires n in s.nodes
    ensures RowsOf(CreateStaging(s, n, base, chunkSize)) == Stage(RowsOf(s), n, base, chunkSize)
  {
  }

  /** The in-memory commit does not look at the version's state: it agrees with the database exactly
      when both refuse or the version is waiting to be committed. */
  lemma MemoryAgrees(s: State, g: CommitGuard, size: int)
    requires Good(RowsOf(s))
    ensures CommitRefusal(s, g) == Refusal(RowsOf(s), g) <==>
            CommitRefusal(s, g).Some? || s.versions[g.version].state == Staging
    ensures Refusal(RowsOf(s), g) == None ==> RowsOf(Commit(s, g, size)) == Committing(RowsOf(s), g, size)
  {
    if Refusal(RowsOf(s), g) == None {
      assert s.nodes[g.node].current != Some(g.version);
      assert RowsOf(Commit(s, g, size)).versions == Committing(RowsOf(s), g, size).versions;
    }
  }

  /** So it makes only allowed transitions exactly when the version is staged or already committed. */
  lemma MemoryTransitions(s: State, g: CommitGuard, size: int)
    requires CommitRefusal(s, g) == None
    ensures (forall v :: v in s.versions ==>
               var before, after := s.versions[v].state, Commit(s, g, size).versions[v].state;
               before == after || CanTransition(before, after)) <==>
            s.versions[g.version].state == Staging || s.versions[g.version].state == Committed
  {
    var after := Commit(s, g, size).versions;
    assert after[g.version].state == Committed;
  }
}
