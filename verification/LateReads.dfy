/** Reads overtaken by a sync: what a read returns when the node is looked up before a sync and the rest after
    it, and a run in which that goes wrong. */
module LateReads {
  import opened Bytes
  import opened Records
  import opened Files
  import opened WriteSteps
  import opened Interleaving
  import opened FlatFiles
  import opened Immutability
  import opened Completion
  import opened Ownership
  import SpreadReads
  import RestingReads

  // ----- points of a run put together from two -----

  lemma {:induction false} PointCat(config: int, sys: System, a: seq<Step>, b: seq<Step>, i: nat, j: nat)
    requires Legal(config, sys, a) && Legal(config, Run(config, sys, a), b) && i <= |b| && j == |a| + i
    ensures Legal(config, sys, a + b)
    ensures SpreadReads.Point(config, sys, a + b, j) == SpreadReads.Point(config, Run(config, sys, a), b, i)
    decreases |a|
  {
    RunCat(config, sys, a, b);
    if a == [] {
      assert a + b == b;
    } else {
      PointCat(config, Next(config, sys, a[0]), a[1..], b, i, j - 1);
      assert (a + b)[1..] == a[1..] + b;
    }
  }

  lemma {:induction false} PointPrefix(config: int, sys: System, a: seq<Step>, b: seq<Step>)
    requires Legal(config, sys, a) && Legal(config, sys, a + b)
    ensures SpreadReads.Point(config, sys, a + b, |a|) == Run(config, sys, a)
  {
    SpreadReads.PointRun(config, sys, a + b, |a|);
    assert (a + b)[..|a|] == a;
  }

  /** Systems that follow one another step by step are the points of a run. */
  ghost predicate Chain(config: int, steps: seq<Step>, chain: seq<System>) {
    && |chain| == |steps| + 1
    && forall i :: 0 <= i < |steps| ==> Enabled(chain[i], steps[i]) && Next(config, chain[i], steps[i]) == chain[i + 1]
  }

  lemma {:induction false} ChainIsRun(config: int, steps: seq<Step>, chain: seq<System>, i: nat)
    requires Chain(config, steps, chain) && i <= |steps|
    ensures Legal(config, chain[0], steps) && SpreadReads.Point(config, chain[0], steps, i) == chain[i]
    decreases |steps|
  {
    if steps != [] {
      assert Enabled(chain[0], steps[0]) && Next(config, chain[0], steps[0]) == chain[1];
      var rest := chain[1..];
      forall j | 0 <= j < |steps[1..]|
        ensures Enabled(rest[j], steps[1..][j]) && Next(config, rest[j], steps[1..][j]) == rest[j + 1]
      {
        assert rest[j] == chain[j + 1] && steps[1..][j] == steps[j + 1];
      }
      ChainIsRun(config, steps[1..], rest, if i > 0 then i - 1 else 0);
    }
  }

  // ----- a committed version that is replaced loses its rows -----

  /** `v` is about to be replaced by the open version `u`, and the object `o` of `v` is not among those of `u`. */
  ghost predicate Replacing(s: State, n: NodeId, v: VersionId, u: VersionId, o: ObjectId) {
    && n in s.nodes && s.nodes[n].current == Some(v) && IsStagingOf(s, n, u)
    && Refers(s, v, o) && !Refers(s, u, o)
    && forall w :: Refers(s, w, o) ==> w in s.versions && s.versions[w].node == n
  }

  /** The records after a commit that replaces `v` by `u`. */
  ghost predicate ReplacedBy(s: State, t: State, n: NodeId, v: VersionId, u: VersionId) {
    && t == s.(nodes := t.nodes, versions := t.versions)
    && t.nodes.Keys == s.nodes.Keys && n in s.nodes && t.nodes[n] == s.nodes[n].(current := Some(u), size := t.nodes[n].size) && u != v
    && t.versions.Keys == s.versions.Keys && (forall w :: w in s.versions ==> t.versions[w].node == s.versions[w].node)
    && (forall w :: w in s.versions && w != u ==> t.versions[w].Since() == s.versions[w].Since())
    && v in s.versions && t.versions[v] == s.versions[v].(state := Superseded)
    && forall w :: !IsStagingOf(t, n, w)
  }

  lemma CommitReplaces(s: State, n: NodeId, v: VersionId, u: VersionId)
    requires n in s.nodes && s.nodes[n].current == Some(v) && CurrentOk(s, n, v)
    requires IsStagingOf(s, n, u) && forall w :: IsStagingOf(s, n, w) ==> w == u
    ensures ReplacedBy(s, Commit(s, CommitOpenGuard(s, n, u), s.versions[u].size), n, v, u)
  {
    var t := Commit(s, CommitOpenGuard(s, n, u), s.versions[u].size);
    assert t.nodes.Keys == s.nodes.Keys && t.versions.Keys == s.versions.Keys;
    assert forall w :: IsStagingOf(t, n, w) ==> IsStagingOf(s, n, w);
  }

  lemma SyncReplaces(s: State, n: NodeId, v: VersionId, u: VersionId, o: ObjectId)
    requires StateOk(s) && Replacing(s, n, v, u, o)
    ensures ReplacedBy(s, CommitOpen(s, n), n, v, u)
  {
    OpenIsUnique(s, n, u);
    assert IsOpen(s, n, u);
    CommitOpenIs(s, n, u);
    CommitReplaces(s, n, v, u);
  }

  /** A time after both this moment and the commit of `v`. */
  function LongAfter(s: State, v: VersionId): Time
    requires v in s.versions
  {
    1 + Max(s.now, s.versions[v].Since())
  }

  lemma ReplacedIsCollectable(s: State, t: State, n: NodeId, v: VersionId, u: VersionId, o: ObjectId)
    requires Replacing(s, n, v, u, o) && ReplacedBy(s, t, n, v, u)
    ensures IsCollectable(t.(now := LongAfter(s, v)), LongAfter(s, v), o)
  {
    var late := t.(now := LongAfter(s, v));
    assert forall w :: Refers(late, w, o) <==> Refers(s, w, o);
    assert Refers(late, v, o) && !Live(late, late.now, v) && late.versions[v].Since() < late.now;
    forall w | Live(late, late.now, w) ensures !Refers(late, w, o) {
      assert !IsStagingOf(t, n, w);
    }
  }

  /** A sync, and a sweep long after it. */
  function Sweeps(n: NodeId, o: ObjectId, time: Time): seq<Step> {
    [Sync(n), StopSweep, Tick(time), Snapshot(time, {o}), Remove(o), Forget]
  }

  ghost function Sweep(config: int, sys: System, n: NodeId, o: ObjectId, time: Time, i: nat): System
    requires n in sys.repo.nodes && i <= 6
  {
    var s := CommitOpen(sys.repo, n);
    var late := s.(now := time);
    var disturbed := sys.disturbed + set m | m in late.nodes && !Fresh(late, m, time);
    if i == 0 then sys
    else if i == 1 then sys.(repo := s)
    else if i == 2 then sys.(repo := s, sweep := Idle)
    else if i == 3 then sys.(repo := late, sweep := Idle)
    else if i == 4 then System(late, sys.writers, Sweeping(time, {o}, None), Max(sys.horizon, time), disturbed)
    else if i == 5 then System(RemoveObject(late, o), sys.writers, Sweeping(time, {o}, Some(o)), Max(sys.horizon, time), disturbed)
    else System(ForgetObject(RemoveObject(late, o), o), sys.writers, Sweeping(time, {o} - {o}, None), Max(sys.horizon, time), disturbed)
  }

  lemma SweepStep(config: int, sys: System, n: NodeId, o: ObjectId, time: Time, i: nat)
    requires n in sys.repo.nodes && Fresh(sys.repo, n, sys.horizon) && sys.writers == map[] && CommitOpen(sys.repo, n).now <= time && i < 6
    requires IsCollectable(CommitOpen(sys.repo, n).(now := time), time, o)
    ensures var at := Sweep(config, sys, n, o, time, i);
            Enabled(at, Sweeps(n, o, time)[i]) && Next(config, at, Sweeps(n, o, time)[i]) == Sweep(config, sys, n, o, time, i + 1)
  {
  }

  /** The sync and the sweep can be made, and pass through these systems. */
  lemma SweepLegal(config: int, sys: System, n: NodeId, v: VersionId, u: VersionId, o: ObjectId, i: nat)
    requires Safe(sys) && Fresh(sys.repo, n, sys.horizon) && sys.writers == map[] && Replacing(sys.repo, n, v, u, o) && i <= 6
    ensures v in sys.repo.versions
    ensures var time := LongAfter(sys.repo, v);
            Legal(config, sys, Sweeps(n, o, time)) && SpreadReads.Point(config, sys, Sweeps(n, o, time), i) == Sweep(config, sys, n, o, time, i)
  {
    SyncReplaces(sys.repo, n, v, u, o);
    ReplacedIsCollectable(sys.repo, CommitOpen(sys.repo, n), n, v, u, o);
    var time := LongAfter(sys.repo, v);
    var chain := seq(7, j requires 0 <= j < 7 => Sweep(config, sys, n, o, time, j));
    forall j | 0 <= j < 6
      ensures Enabled(chain[j], Sweeps(n, o, time)[j]) && Next(config, chain[j], Sweeps(n, o, time)[j]) == chain[j + 1]
    {
      SweepStep(config, sys, n, o, time, j);
    }
    ChainIsRun(config, Sweeps(n, o, time), chain, i);
  }

  /** No file is made and no write goes on. */
  predicate NoWrites(run: seq<Step>) {
    forall j :: 0 <= j < |run| ==> !run[j].Create? && !run[j].Advance?
  }

  /** Such a run changes what no file holds. */
  lemma {:induction false} FlatIdle(config: int, sys: System, disk: Disk, run: seq<Step>, i: nat)
    requires Refines(sys, disk) && Legal(config, sys, run) && i <= |run| && NoWrites(run)
    ensures Refines(SpreadReads.Point(config, sys, run, i), disk)
    decreases i
  {
    if i > 0 {
      assert !run[0].Create? && !run[0].Advance?;
      assert forall j :: 0 <= j < |run[1..]| ==> run[1..][j] == run[j + 1];
      StepRefines(config, sys, disk, run[0]);
      FlatIdle(config, Next(config, sys, run[0]), disk, run[1..], i - 1);
    }
  }

  lemma FileFresh(sys: System, disk: Disk, n: NodeId)
    requires Refines(sys, disk) && Promised(sys, n)
    ensures n in disk && Fresh(sys.repo, n, sys.horizon) && Safe(sys)
  {
    assert FileOk(sys, disk, n);
  }

  lemma SweepPromised(config: int, sys: System, n: NodeId, v: VersionId, u: VersionId, o: ObjectId, time: Time, i: nat)
    requires Promised(sys, n) && ReplacedBy(sys.repo, CommitOpen(sys.repo, n), n, v, u) && i <= 6
    ensures Promised(Sweep(config, sys, n, o, time, i), n) && Sweep(config, sys, n, o, time, i).writers == sys.writers
  {
    var late := CommitOpen(sys.repo, n).(now := time);
    assert Fresh(late, n, time) by {
      assert forall w :: IsStagingOf(late, n, w) ==> IsStagingOf(CommitOpen(sys.repo, n), n, w);
    }
  }

  lemma SweepRefines(config: int, sys: System, disk: Disk, n: NodeId, v: VersionId, u: VersionId, o: ObjectId, i: nat)
    requires Refines(sys, disk) && Promised(sys, n) && sys.writers == map[] && Replacing(sys.repo, n, v, u, o) && i <= 6
    ensures v in sys.repo.versions && n in disk
    ensures Refines(Sweep(config, sys, n, o, LongAfter(sys.repo, v), i), disk)
  {
    FileFresh(sys, disk, n);
    SweepLegal(config, sys, n, v, u, o, i);
    FlatIdle(config, sys, disk, Sweeps(n, o, LongAfter(sys.repo, v)), i);
  }

  /** The file is there and reads the same all along. */
  lemma SweepReads(config: int, sys: System, disk: Disk, n: NodeId, v: VersionId, u: VersionId, o: ObjectId, i: nat)
    requires Refines(sys, disk) && Promised(sys, n) && sys.writers == map[] && Replacing(sys.repo, n, v, u, o) && i <= 6
    ensures v in sys.repo.versions && n in disk
    ensures var t := Sweep(config, sys, n, o, LongAfter(sys.repo, v), i);
            Promised(t, n) && n !in t.writers && ReadsWhole(t.repo, n, disk[n])
  {
    SweepRefines(config, sys, disk, n, v, u, o, i);
    SyncReplaces(sys.repo, n, v, u, o);
    SweepPromised(config, sys, n, v, u, o, LongAfter(sys.repo, v), i);
    ReadsAs(Sweep(config, sys, n, o, LongAfter(sys.repo, v), i), disk, n);
  }

  // ----- reads that look the node up before the sync and the rest after it -----

  /** A read whose rows all have their objects returns. */
  lemma Reading(config: int, run: seq<Step>, n: NodeId, p: SpreadReads.Points) returns (r: SpreadReads.Read)
    requires Legal(config, START, run) && p.Within(|run|)
    requires var f := SpreadReads.LookUpAt(config, run, p, n, None, None);
             f.Rows? && forall k :: k in f.rows ==> f.rows[k].obj in SpreadReads.At(config, run, p.rows).repo.objects
    ensures SpreadReads.Returns(config, run, n, r) && r.p == p && r.offset == None && r.size == None
  {
    var f, s := SpreadReads.LookUpAt(config, run, p, n, None, None), SpreadReads.At(config, run, p.rows).repo;
    r := SpreadReads.Read(p, None, None, map k | k in f.rows :: p.rows);
    assert SpreadReads.Found(config, run, n, r) == f;
    forall k | k in f.rows ensures SpreadReads.Fetched(config, run, n, r)[k].data.Some? {
      assert f.rows[k].obj in s.objects;
    }
  }

  lemma LateLookUp(s: State, t: State, n: NodeId, v: VersionId)
    requires n in s.nodes && s.nodes[n].kind == File && s.nodes[n].current == Some(v) && s.nodes[n].size > 0
    requires (forall w :: !IsStagingOf(t, n, w)) && v in t.versions && v in t.chunks
    ensures var f := SpreadReads.LookUp(s, t, t, t, n, None, None);
            && f.Rows? && f.v == v && f.committed && f.cs == ChunkSize(t.versions[v]) && f.from == 0 && f.len == s.nodes[n].size
            && forall k :: k in f.rows ==> k in t.chunks[v] && f.rows[k] == t.chunks[v][k]
  {
  }

  /** A run after which the file's committed version `v` is about to be replaced. */
  ghost predicate AboutTo(config: int, pre: seq<Step>, n: NodeId, v: VersionId, u: VersionId, o: ObjectId) {
    && Legal(config, START, pre)
    && var sys := Run(config, START, pre);
       Promised(sys, n) && sys.writers == map[] && Replacing(sys.repo, n, v, u, o) && v in sys.repo.versions
  }

  ghost function Replaced(config: int, pre: seq<Step>, n: NodeId, v: VersionId, u: VersionId, o: ObjectId): seq<Step>
    requires AboutTo(config, pre, n, v, u, o)
  {
    pre + Sweeps(n, o, LongAfter(Run(config, START, pre).repo, v))
  }

  lemma ReplacedPoint(config: int, pre: seq<Step>, disk: Disk, n: NodeId, v: VersionId, u: VersionId, o: ObjectId, i: nat, j: nat)
    requires AboutTo(config, pre, n, v, u, o) && i <= 6 && j == |pre| + i && Refines(Run(config, START, pre), disk)
    ensures var run, sys := Replaced(config, pre, n, v, u, o), Run(config, START, pre);
            && Legal(config, START, run) && Safe(sys) && n in disk
            && SpreadReads.At(config, run, j) == Sweep(config, sys, n, o, LongAfter(sys.repo, v), i)
            && RestingReads.RestsAt(config, run, n, j)
            && ReadsWhole(SpreadReads.At(config, run, j).repo, n, disk[n])
  {
    var sys := Run(config, START, pre);
    FileFresh(sys, disk, n);
    SweepLegal(config, sys, n, v, u, o, i);
    SweepReads(config, sys, disk, n, v, u, o, i);
    PointCat(config, START, pre, Sweeps(n, o, LongAfter(sys.repo, v)), i, j);
  }

  lemma ReplacedAt(config: int, pre: seq<Step>, n: NodeId, v: VersionId, u: VersionId, o: ObjectId, i: nat, j: nat)
    requires AboutTo(config, pre, n, v, u, o) && i <= 6 && j == |pre| + i
    ensures var run, sys := Replaced(config, pre, n, v, u, o), Run(config, START, pre);
            && Legal(config, START, run) && Safe(sys)
            && SpreadReads.At(config, run, j) == Sweep(config, sys, n, o, LongAfter(sys.repo, v), i)
  {
    RunRefines(config, START, map[], pre);
    ReplacedPoint(config, pre, FlatRun(config, START, map[], pre), n, v, u, o, i, j);
  }

  /** From point `i` on the file is at rest and reads as `f`. */
  ghost predicate AllAlong(config: int, run: seq<Step>, n: NodeId, i: nat, f: seq<byte>)
    requires Legal(config, START, run)
  {
    forall j :: i <= j <= |run| ==> RestingReads.RestsAt(config, run, n, j) && ReadsWhole(SpreadReads.At(config, run, j).repo, n, f)
  }

  lemma ReplacedRests(config: int, pre: seq<Step>, disk: Disk, n: NodeId, v: VersionId, u: VersionId, o: ObjectId, j: nat)
    requires AboutTo(config, pre, n, v, u, o) && Refines(Run(config, START, pre), disk)
    requires Legal(config, START, Replaced(config, pre, n, v, u, o)) && |pre| <= j <= |Replaced(config, pre, n, v, u, o)|
    ensures n in disk && RestingReads.RestsAt(config, Replaced(config, pre, n, v, u, o), n, j)
    ensures ReadsWhole(SpreadReads.At(config, Replaced(config, pre, n, v, u, o), j).repo, n, disk[n])
  {
    ReplacedPoint(config, pre, disk, n, v, u, o, j - |pre|, j);
  }

  lemma ReplacedAllAlong(config: int, pre: seq<Step>, disk: Disk, n: NodeId, v: VersionId, u: VersionId, o: ObjectId)
    requires AboutTo(config, pre, n, v, u, o) && Refines(Run(config, START, pre), disk)
    ensures Legal(config, START, Replaced(config, pre, n, v, u, o)) && n in disk
    ensures AllAlong(config, Replaced(config, pre, n, v, u, o), n, |pre|, disk[n])
  {
    ReplacedAt(config, pre, n, v, u, o, 0, |pre|);
    FileFresh(Run(config, START, pre), disk, n);
    var run := Replaced(config, pre, n, v, u, o);
    forall j: nat | |pre| <= j <= |run|
      ensures RestingReads.RestsAt(config, run, n, j) && ReadsWhole(SpreadReads.At(config, run, j).repo, n, disk[n])
    {
      ReplacedRests(config, pre, disk, n, v, u, o, j);
    }
  }

  /** Right after the sync, or after the whole sweep, the old version is still listed, without the rows of `o`
      in the latter case. */
  lemma OldVersionThen(config: int, sys: System, n: NodeId, v: VersionId, u: VersionId, o: ObjectId, time: Time, i: nat)
    requires n in sys.repo.nodes && ReplacedBy(sys.repo, CommitOpen(sys.repo, n), n, v, u) && v in sys.repo.chunks && (i == 1 || i == 6)
    requires forall k :: k in sys.repo.chunks[v] ==> sys.repo.chunks[v][k].obj in sys.repo.objects
    ensures var t := Sweep(config, sys, n, o, time, i).repo;
            && (forall w :: !IsStagingOf(t, n, w)) && v in t.versions && ChunkSize(t.versions[v]) == ChunkSize(sys.repo.versions[v])
            && v in t.chunks && t.chunks[v] == (if i == 1 then sys.repo.chunks[v] else WithoutObject(sys.repo.chunks[v], o))
            && t.objects == (if i == 1 then sys.repo.objects else sys.repo.objects - {o})
            && forall k :: k in t.chunks[v] ==> t.chunks[v][k].obj in t.objects
  {
    var t := Sweep(config, sys, n, o, time, i).repo;
    assert forall w :: IsStagingOf(t, n, w) ==> IsStagingOf(CommitOpen(sys.repo, n), n, w);
  }

  lemma CurrentStored(sys: System, n: NodeId, v: VersionId)
    requires Safe(sys) && n in sys.repo.nodes && sys.repo.nodes[n].current == Some(v)
    ensures v in sys.repo.versions && v in sys.repo.chunks
    ensures forall k :: k in sys.repo.chunks[v] ==> sys.repo.chunks[v][k].obj in sys.repo.objects
  {
    assert CurrentOk(sys.repo, n, v);
    assert Needed(sys.repo, sys.horizon, v);
    assert RowsOf(sys.repo, v) == sys.repo.chunks[v];
  }

  lemma LateFacts(config: int, sys: System, n: NodeId, v: VersionId, u: VersionId, o: ObjectId, i: nat)
    requires Safe(sys) && Promised(sys, n) && Replacing(sys.repo, n, v, u, o) && (i == 1 || i == 6) && sys.repo.nodes[n].size > 0
    ensures v in sys.repo.versions
    ensures var s, t := sys.repo, Sweep(config, sys, n, o, LongAfter(sys.repo, v), i).repo;
            var f := SpreadReads.LookUp(s, t, t, t, n, None, None);
            && f.Rows? && f.v == v && f.committed && f.from == 0 && f.len == s.nodes[n].size && f.cs == ChunkSize(s.versions[v])
            && forall k :: k in f.rows ==> f.rows[k].obj in t.objects
  {
    SyncReplaces(sys.repo, n, v, u, o);
    CurrentStored(sys, n, v);
    OldVersionThen(config, sys, n, v, u, o, LongAfter(sys.repo, v), i);
    LateLookUp(sys.repo, Sweep(config, sys, n, o, LongAfter(sys.repo, v), i).repo, n, v);
  }

  /** A read that looks the node up just before the sync, and everything else just after it (`i == 1`) or after
      the sweep (`i == 6`), is flagged committed and served from the old version. */
  ghost predicate IsLate(config: int, pre: seq<Step>, n: NodeId, v: VersionId, u: VersionId, o: ObjectId, i: nat, r: SpreadReads.Read)
    requires AboutTo(config, pre, n, v, u, o)
  {
    var run, s := Replaced(config, pre, n, v, u, o), Run(config, START, pre).repo;
    && Legal(config, START, run) && r.p == SpreadReads.Points(|pre|, |pre| + i, |pre| + i, |pre| + i)
    && SpreadReads.ReadsCommitted(config, run, n, v, r)
    && var f := SpreadReads.Found(config, run, n, r);
       f.from == 0 && f.len == s.nodes[n].size && f.cs == ChunkSize(s.versions[v])
  }

  lemma LateRead(config: int, pre: seq<Step>, n: NodeId, v: VersionId, u: VersionId, o: ObjectId, i: nat) returns (r: SpreadReads.Read)
    requires AboutTo(config, pre, n, v, u, o) && (i == 1 || i == 6) && Run(config, START, pre).repo.nodes[n].size > 0
    ensures IsLate(config, pre, n, v, u, o, i, r)
  {
    var run, sys := Replaced(config, pre, n, v, u, o), Run(config, START, pre);
    ReplacedAt(config, pre, n, v, u, o, 0, |pre|);
    ReplacedAt(config, pre, n, v, u, o, i, |pre| + i);
    LateFacts(config, sys, n, v, u, o, i);
    r := Reading(config, run, n, SpreadReads.Points(|pre|, |pre| + i, |pre| + i, |pre| + i));
  }

  lemma OldByteThen(config: int, sys: System, n: NodeId, v: VersionId, u: VersionId, o: ObjectId, i: nat, j: nat)
    requires Safe(sys) && Replacing(sys.repo, n, v, u, o) && (i == 1 || i == 6) && v in sys.repo.versions && v in sys.repo.chunks
    ensures var s, t, k := sys.repo, Sweep(config, sys, n, o, LongAfter(sys.repo, v), i).repo, j / ChunkSize(sys.repo.versions[v]);
            ByteAt(PartsOf(t.objects, RowsOf(t, v)), ChunkSize(s.versions[v]), j) ==
            if i == 6 && k in s.chunks[v] && s.chunks[v][k].obj == o then 0 else ByteAt(ViewOf(s, v).parts, ChunkSize(s.versions[v]), j)
  {
    SyncReplaces(sys.repo, n, v, u, o);
    CurrentStored(sys, n, v);
    OldVersionThen(config, sys, n, v, u, o, LongAfter(sys.repo, v), i);
  }

  /** It returns the old bytes, and zeroes for the parts the sweep has taken. */
  lemma LateByte(config: int, pre: seq<Step>, n: NodeId, v: VersionId, u: VersionId, o: ObjectId, i: nat, r: SpreadReads.Read, j: nat)
    requires AboutTo(config, pre, n, v, u, o) && (i == 1 || i == 6) && IsLate(config, pre, n, v, u, o, i, r)
    requires j < Run(config, START, pre).repo.nodes[n].size
    ensures var run, s := Replaced(config, pre, n, v, u, o), Run(config, START, pre).repo;
            && SpreadReads.Covers(config, run, n, r, j) && v in s.chunks
            && var cs := ChunkSize(s.versions[v]);
               SpreadReads.GotAt(config, run, n, r, j) ==
               if i == 6 && j / cs in s.chunks[v] && s.chunks[v][j / cs].obj == o then 0 else ByteAt(ViewOf(s, v).parts, cs, j)
  {
    var run, sys := Replaced(config, pre, n, v, u, o), Run(config, START, pre);
    ReplacedAt(config, pre, n, v, u, o, i, |pre| + i);
    CurrentStored(sys, n, v);
    OldByteThen(config, sys, n, v, u, o, i, j);
    SpreadReads.GotIsThen(config, run, n, r, j);
  }

  // ----- one such run, from the empty repository -----

  /** Two versions of one byte each that hold different bytes share no object. */
  lemma DifferentParts(s: State, v: VersionId, u: VersionId, b: byte, c: byte)
    requires v in s.versions && u in s.versions && b != c && b != 0
    requires VersionHolds(ViewOf(s, v), [b]) && VersionHolds(ViewOf(s, u), [c])
    ensures v in s.chunks && 0 in s.chunks[v]
    ensures !Refers(s, u, s.chunks[v][0].obj)
  {
    FirstPart(ViewOf(s, v), b);
    assert 0 in RowsOf(s, v);
    var o := s.chunks[v][0].obj;
    if Refers(s, u, o) {
      var k :| k in s.chunks[u] && s.chunks[u][k].obj == o;
      OnlyPart(ViewOf(s, u), k, c, b);
    }
  }

  lemma FirstPart(v: VersionView, b: byte)
    requires VersionHolds(v, [b]) && b != 0
    ensures 0 in v.parts && v.parts[0].data == Some([b])
  {
    var cs := ChunkSize(v.rec);
    assert 0 / cs == 0 && 0 % cs == 0;
    assert ByteAt(v.parts, cs, 0) == b;
    assert PartOk(v.parts[0], 0, cs, 1);
    var data := v.parts[0].data.value;
    assert |data| == 1 && data[0] == b;
    assert data == [b];
  }

  lemma OnlyPart(v: VersionView, k: int, c: byte, b: byte)
    requires VersionHolds(v, [c]) && k in v.parts && v.parts[k].data == Some([b])
    ensures b == c
  {
    var cs := ChunkSize(v.rec);
    assert PartOk(v.parts[k], k, cs, 1);
    if k > 0 { MulMono(1, k, cs); }
    assert ByteAt(v.parts, cs, 0) == c;
  }

  lemma StagedThen(s: State, n: NodeId, v: VersionId, f: seq<byte>, g: seq<byte>) returns (u: VersionId)
    requires StateOk(s) && n in s.nodes && s.nodes[n].current == Some(v) && v in s.versions
    requires VersionHolds(ViewOf(s, v), f) && Quiet(View(s, n), g) && |f| == |g| && f != g
    ensures IsStagingOf(s, n, u) && VersionHolds(ViewOf(s, u), g)
  {
    if View(s, n).staged == map[] {
      SameBytes(ViewOf(s, v), f, g);
      assert false;
    }
    u :| u in View(s, n).staged;
  }

  lemma SameBytes(v: VersionView, f: seq<byte>, g: seq<byte>)
    requires VersionHolds(v, f) && VersionHolds(v, g)
    ensures f == g
  {
    assert forall i :: 0 <= i < |f| ==> f[i] == ByteAt(v.parts, ChunkSize(v.rec), i) == g[i];
  }

  /** A current version at two points of a run is the same at both. */
  lemma SameAtBoth(config: int, first: seq<Step>, run: seq<Step>, n: NodeId, v: VersionId)
    requires Legal(config, START, first) && Legal(config, START, run) && first <= run
    requires Current(Run(config, START, first).repo, n, v) && Current(Run(config, START, run).repo, n, v)
    ensures var s, t := Run(config, START, first).repo, Run(config, START, run).repo;
            v in s.versions && v in t.versions && ViewOf(s, v) == ViewOf(t, v)
  {
    var rest := run[|first|..];
    assert run == first + rest;
    PointPrefix(config, START, first, rest);
    assert run == run + [];
    PointPrefix(config, START, run, []);
    SpreadReads.CurrentKeepsRows(config, run, n, v, |first|, |run|);
  }

  /** The file is committed as `[b]`, and more than `wait` later it is open as `[c]`. */
  lemma Overwritten(config: int, b: byte, c: byte, wait: nat) returns (first: seq<Step>, pre: seq<Step>, disk: Disk, v: VersionId)
    requires b != c
    ensures Legal(config, START, first) && first <= pre && Synced(Run(config, START, first).repo, FIRST, v, [b])
    ensures Calm(config, pre, disk, FIRST, [c]) && Promised(Run(config, START, first), FIRST)
    ensures var s := Run(config, START, pre).repo; s.nodes[FIRST].current == Some(v) && v in s.versions && VersionHolds(ViewOf(s, v), [b])
    ensures var s := Run(config, START, pre).repo; s.versions[v].Since() + wait < s.now
  {
    var synced, disk0;
    synced, disk0, v := FirstSynced(config, b);
    var s := Run(config, START, synced).repo;
    first := CalmTick(config, synced, disk0, FIRST, v, [b], 1 + wait + Max(s.now, s.versions[v].Since()));
    pre, disk := CalmWrite(config, first, disk0, FIRST, [b], 0, [c]);
    assert FlatWrite([b], 0, [c]) == [c];
    SameAtBoth(config, first, pre, FIRST, v);
  }

  lemma OverwrittenIsAboutTo(config: int, pre: seq<Step>, disk: Disk, n: NodeId, v: VersionId, b: byte, c: byte)
      returns (u: VersionId, o: ObjectId)
    requires Calm(config, pre, disk, n, [c]) && b != c && b != 0
    requires var s := Run(config, START, pre).repo; s.nodes[n].current == Some(v) && v in s.versions && VersionHolds(ViewOf(s, v), [b])
    ensures AboutTo(config, pre, n, v, u, o)
    ensures var s := Run(config, START, pre).repo; v in s.chunks && 0 in s.chunks[v] && s.chunks[v][0].obj == o && s.nodes[n].size == 1
  {
    var sys := Run(config, START, pre);
    assert FileOk(sys, disk, n);
    u := StagedThen(sys.repo, n, v, [b], [c]);
    DifferentParts(sys.repo, v, u, b, c);
    o := sys.repo.chunks[v][0].obj;
    assert Refers(sys.repo, v, o);
    assert CurrentOk(sys.repo, n, v);
    forall w | Refers(sys.repo, w, o) ensures w in sys.repo.versions && sys.repo.versions[w].node == n {
      NothingSharedBetweenFiles(config, pre, w, v, o);
    }
  }

  lemma SyncedLookUp(sys: System, n: NodeId, v: VersionId, b: byte)
    requires Safe(sys) && Promised(sys, n) && Synced(sys.repo, n, v, [b])
    ensures var s := sys.repo; var f := SpreadReads.LookUp(s, s, s, s, n, None, None);
            && f.Rows? && f.v == v && f.committed && f.from == 0 && f.len == 1 && f.cs == ChunkSize(s.versions[v])
            && (forall k :: k in f.rows ==> f.rows[k].obj in s.objects)
            && ByteAt(PartsOf(s.objects, RowsOf(s, v)), f.cs, 0) == b
  {
    CurrentStored(sys, n, v);
    LateLookUp(sys.repo, sys.repo, n, v);
  }

  /** A read of a synced file, all at one point. */
  lemma SyncedRead(config: int, run: seq<Step>, i: nat, n: NodeId, v: VersionId, b: byte) returns (r: SpreadReads.Read)
    requires Legal(config, START, run) && i <= |run|
    requires var sys := SpreadReads.At(config, run, i); Promised(sys, n) && Synced(sys.repo, n, v, [b])
    ensures r.p == SpreadReads.Points(i, i, i, i)
    ensures SpreadReads.ReadsCommitted(config, run, n, v, r) && SpreadReads.Got(config, run, n, r) == [b]
  {
    SpreadReads.AtSafe(config, run, i);
    SyncedLookUp(SpreadReads.At(config, run, i), n, v, b);
    r := Reading(config, run, n, SpreadReads.Points(i, i, i, i));
    SpreadReads.GotIsThen(config, run, n, r, 0);
    assert SpreadReads.GotAt(config, run, n, r, 0) == b;
  }

  /** A one-byte file whose version `v` keeps the byte `b` in the object `o`. */
  ghost predicate NamesFirst(s: State, n: NodeId, v: VersionId, b: byte, o: ObjectId) {
    && n in s.nodes && s.nodes[n].size == 1 && v in s.versions && VersionHolds(ViewOf(s, v), [b])
    && v in s.chunks && 0 in s.chunks[v] && s.chunks[v][0].obj == o
  }

  /** The bytes a late read of a one-byte file returns. */
  lemma LateGot(config: int, pre: seq<Step>, n: NodeId, v: VersionId, u: VersionId, o: ObjectId, b: byte, i: nat, r: SpreadReads.Read)
    requires AboutTo(config, pre, n, v, u, o) && (i == 1 || i == 6) && IsLate(config, pre, n, v, u, o, i, r)
    requires NamesFirst(Run(config, START, pre).repo, n, v, b, o)
    ensures SpreadReads.Got(config, Replaced(config, pre, n, v, u, o), n, r) == [if i == 6 then 0 else b]
  {
    LateByte(config, pre, n, v, u, o, i, r, 0);
    var s := Run(config, START, pre).repo;
    assert 0 / ChunkSize(s.versions[v]) == 0;
    assert ByteAt(ViewOf(s, v).parts, ChunkSize(s.versions[v]), 0) == b;
  }

  /** The one-byte file `[7]`, synced after `i` steps, is written over with `[9]`. */
  ghost predicate Prepared(config: int, pre: seq<Step>, i: nat, v: VersionId, u: VersionId, o: ObjectId) {
    && AboutTo(config, pre, FIRST, v, u, o) && i <= |pre|
    && NamesFirst(Run(config, START, pre).repo, FIRST, v, 7, o)
    && var run := Replaced(config, pre, FIRST, v, u, o);
       && Legal(config, START, run) && AllAlong(config, run, FIRST, |pre|, [9])
       && Promised(SpreadReads.At(config, run, i), FIRST) && Synced(SpreadReads.At(config, run, i).repo, FIRST, v, [7])
  }

  lemma Prepare(config: int) returns (pre: seq<Step>, i: nat, v: VersionId, u: VersionId, o: ObjectId)
    ensures Prepared(config, pre, i, v, u, o)
  {
    var first, disk;
    first, pre, disk, v := Overwritten(config, 7, 9, 0);
    u, o := OverwrittenIsAboutTo(config, pre, disk, FIRST, v, 7, 9);
    ReplacedAllAlong(config, pre, disk, FIRST, v, u, o);
    i := |first|;
    AtPrefix(config, first, Replaced(config, pre, FIRST, v, u, o));
  }

  lemma AtPrefix(config: int, first: seq<Step>, run: seq<Step>)
    requires Legal(config, START, first) && Legal(config, START, run) && first <= run
    ensures SpreadReads.At(config, run, |first|) == Run(config, START, first)
  {
    assert run == first + run[|first|..];
    PointPrefix(config, START, first, run[|first|..]);
  }

  /** Three reads of one committed version in one run. `good` looks everything up while the version is current.
      `stale` and `lost` look the node up when a newer write is already open, and the rest after a sync, or after
      a sync and a sweep: although the file reads as `[9]` all along, `stale` returns the bytes before that write
      and `lost` returns zeroes, each flagged committed. */
  lemma CommittedReadsDisagree(config: int)
      returns (run: seq<Step>, v: VersionId, good: SpreadReads.Read, stale: SpreadReads.Read, lost: SpreadReads.Read)
    ensures Legal(config, START, run)
    ensures SpreadReads.ReadsCommitted(config, run, FIRST, v, good) && SpreadReads.Got(config, run, FIRST, good) == [7]
    ensures SpreadReads.ReadsCommitted(config, run, FIRST, v, stale) && SpreadReads.Got(config, run, FIRST, stale) == [7]
    ensures SpreadReads.ReadsCommitted(config, run, FIRST, v, lost) && SpreadReads.Got(config, run, FIRST, lost) == [0]
    ensures stale.p.node == lost.p.node && AllAlong(config, run, FIRST, lost.p.node, [9])
  {
    var pre, i, u, o;
    pre, i, v, u, o := Prepare(config);
    run := Replaced(config, pre, FIRST, v, u, o);
    stale := LateRead(config, pre, FIRST, v, u, o, 1);
    LateGot(config, pre, FIRST, v, u, o, 7, 1, stale);
    lost := LateRead(config, pre, FIRST, v, u, o, 6);
    LateGot(config, pre, FIRST, v, u, o, 7, 6, lost);
    good := SyncedRead(config, run, i, FIRST, v, 7);
  }

  // ----- the first sync of a file -----

  lemma OpenFirst(sys: System, disk: Disk, n: NodeId, f: seq<byte>)
    requires Refines(sys, disk) && Promised(sys, n) && n !in sys.writers && n in disk && disk[n] == f && f != []
    requires sys.repo.nodes[n].current.None?
    ensures sys.repo.nodes[n].size == |f| && OpenOf(sys.repo, n).Some?
  {
    assert FileOk(sys, disk, n);
    OpenOfStaging(sys.repo, n);
    if View(sys.repo, n).staged != map[] {
      var u :| u in View(sys.repo, n).staged;
      assert IsStagingOf(sys.repo, n, u);
    }
  }

  lemma CalmReads(config: int, pre: seq<Step>, run: seq<Step>, disk: Disk, n: NodeId, f: seq<byte>)
    requires Calm(config, pre, disk, n, f) && Legal(config, START, run) && pre <= run
    ensures SpreadReads.At(config, run, |pre|) == Run(config, START, pre)
    ensures RestingReads.RestsAt(config, run, n, |pre|) && ReadsWhole(Run(config, START, pre).repo, n, f)
  {
    AtPrefix(config, pre, run);
    ReadsAs(Run(config, START, pre), disk, n);
  }

  lemma BothPoints(config: int, run: seq<Step>, n: NodeId, i: nat, f: seq<byte>)
    requires Legal(config, START, run) && i + 1 == |run|
    requires RestingReads.RestsAt(config, run, n, i) && ReadsWhole(SpreadReads.At(config, run, i).repo, n, f)
    requires RestingReads.RestsAt(config, run, n, |run|) && ReadsWhole(SpreadReads.At(config, run, |run|).repo, n, f)
    ensures AllAlong(config, run, n, i, f)
  {
  }

  lemma NothingFound(s: State, t: State, n: NodeId)
    requires n in s.nodes && s.nodes[n].kind == File && s.nodes[n].current.None? && forall w :: !IsStagingOf(t, n, w)
    ensures SpreadReads.LookUp(s, t, t, t, n, None, None) == SpreadReads.Nothing && OpenOf(t, n).None?
  {
  }

  /** A read that looks the node up just before the first sync of a file, and the open version after it, answers that
      the file is empty and committed, whatever it holds before and after. */
  lemma FirstSyncHides(config: int, pre: seq<Step>, disk: Disk, n: NodeId, f: seq<byte>) returns (run: seq<Step>, r: SpreadReads.Read)
    requires Calm(config, pre, disk, n, f) && f != [] && Run(config, START, pre).repo.nodes[n].current.None?
    ensures run == pre + [Sync(n)] && SpreadReads.Made(config, run, n, r) && r.p.node == |pre|
    ensures RestingReads.Overtaken(config, run, n, r.p) && AllAlong(config, run, n, |pre|, f)
    ensures SpreadReads.Answer(config, run, n, r) == Ok(([], true))
  {
    var v;
    run, v := CalmSync(config, pre, disk, n, f);
    CalmReads(config, pre, run, disk, n, f);
    CalmReads(config, run, run, disk, n, f);
    BothPoints(config, run, n, |pre|, f);
    NothingFound(Run(config, START, pre).repo, Run(config, START, run).repo, n);
    OpenFirst(Run(config, START, pre), disk, n, f);
    r := SpreadReads.Read(SpreadReads.Points(|pre|, |run|, |run|, |run|), None, None, map[]);
  }

  /** One such run: a file is made, `[7]` is written to it, and it is synced for the first time. */
  lemma FirstSyncReadsEmpty(config: int) returns (run: seq<Step>, r: SpreadReads.Read)
    ensures SpreadReads.Made(config, run, FIRST, r) && AllAlong(config, run, FIRST, r.p.node, [7])
    ensures SpreadReads.Answer(config, run, FIRST, r) == Ok(([], true))
  {
    var a, empty := CreateFirst(config);
    RunCons(config, START, Create(File), []);
    var pre, disk := CalmWrite(config, [Create(File)], empty, FIRST, [], 0, [7]);
    assert FlatWrite([], 0, [7]) == [7];
    run, r := FirstSyncHides(config, pre, disk, FIRST, [7]);
  }
}
