/** The durable record of buffered writes, and the arithmetic of replaying it.

    Replayed runs may overlap and may be replayed any number of times; what makes that harmless is
    that the last writer of every byte stays the same. */
module WriteLog {
  import opened Bytes
  import opened Records

  datatype Path = Path(id: int)

  /** A run of bytes for a file, buffered or already sent. */
  datatype Write = Write(node: NodeId, offset: nat, data: seq<byte>)
  {
    function End(): nat { offset + |data| }
    predicate Covers(n: NodeId, i: int) { node == n && offset <= i < offset + |data| }
  }

  datatype Entry = Entry(node: NodeId, offset: nat, path: Path)

  /** An append-only journal, and the run files it names. */
  datatype Log = Log(journal: seq<Entry>, files: map<Path, seq<byte>>)

  // ----- landing writes on a file -----

  /** What one request does to the file it is for. */
  function Apply(f: seq<byte>, w: Write): seq<byte> {
    FlatWrite(f, w.offset, w.data)
  }

  /** The bytes of file `n` after these writes, in order. */
  function Land(f: seq<byte>, runs: seq<Write>, n: NodeId): seq<byte> {
    if runs == [] then f
    else
      var before, w := Land(f, runs[..|runs| - 1], n), runs[|runs| - 1];
      if w.node == n then Apply(before, w) else before
  }

  /** The byte the last write to cover `i` left there. */
  function LastAt(runs: seq<Write>, n: NodeId, i: nat): Option<byte> {
    if runs == [] then None
    else
      var w := runs[|runs| - 1];
      if w.Covers(n, i) then Some(w.data[i - w.offset]) else LastAt(runs[..|runs| - 1], n, i)
  }

  function Reach(runs: seq<Write>, n: NodeId): nat {
    if runs == [] then 0
    else
      var before, w := Reach(runs[..|runs| - 1], n), runs[|runs| - 1];
      if w.node == n && w.data != [] then Max(before, w.End()) else before
  }

  lemma ApplyAt(f: seq<byte>, w: Write, n: NodeId, i: nat)
    requires w.node == n
    ensures At(Apply(f, w), i) == if w.Covers(n, i) then w.data[i - w.offset] else At(f, i)
    ensures |Apply(f, w)| == if w.data == [] then |f| else Max(|f|, w.End())
  {
  }

  /** Landing is decided byte by byte by the last writer. */
  lemma {:induction false} LandAt(f: seq<byte>, runs: seq<Write>, n: NodeId, i: nat)
    ensures |Land(f, runs, n)| == Max(|f|, Reach(runs, n))
    ensures At(Land(f, runs, n), i) == if LastAt(runs, n, i).Some? then LastAt(runs, n, i).value else At(f, i)
    decreases |runs|
  {
    if runs != [] {
      LandAt(f, runs[..|runs| - 1], n, i);
      if runs[|runs| - 1].node == n { ApplyAt(Land(f, runs[..|runs| - 1], n), runs[|runs| - 1], n, i); }
    }
  }

  lemma SameBytes(a: seq<byte>, b: seq<byte>)
    requires |a| == |b| && forall i: nat :: At(a, i) == At(b, i)
    ensures a == b
  {
    forall i | 0 <= i < |a| ensures a[i] == b[i] { assert At(a, i) == At(b, i); }
  }

  lemma {:induction false} LandCat(f: seq<byte>, a: seq<Write>, b: seq<Write>, n: NodeId)
    ensures Land(f, a + b, n) == Land(Land(f, a, n), b, n)
    decreases |b|
  {
    if b == [] {
      assert a + b == a;
    } else {
      assert (a + b)[..|a + b| - 1] == a + b[..|b| - 1];
      LandCat(f, a, b[..|b| - 1], n);
    }
  }

  lemma LandFirst(f: seq<byte>, runs: seq<Write>, n: NodeId)
    requires runs != []
    ensures Land(f, runs, n) == Land(if runs[0].node == n then Apply(f, runs[0]) else f, runs[1..], n)
  {
    assert runs == runs[..1] + runs[1..];
    LandCat(f, runs[..1], runs[1..], n);
    assert runs[..1][..0] == [];
  }

  /** A byte no run covers is a byte none of them covers. */
  lemma {:induction false} NotCovered(runs: seq<Write>, n: NodeId, i: nat, k: nat)
    requires k < |runs|
    ensures LastAt(runs, n, i).None? ==> !runs[k].Covers(n, i)
    ensures runs[k].node == n && runs[k].data != [] ==> runs[k].End() <= Reach(runs, n)
    decreases |runs|
  {
    if k < |runs| - 1 { NotCovered(runs[..|runs| - 1], n, i, k); }
  }

  /** Replaying one of the runs first changes nothing: replay may be cut off and start over. */
  lemma ReplayAgain(f: seq<byte>, runs: seq<Write>, n: NodeId, k: nat)
    requires k < |runs| && runs[k].node == n
    ensures Land(Apply(f, runs[k]), runs, n) == Land(f, runs, n)
  {
    var a, b := Land(Apply(f, runs[k]), runs, n), Land(f, runs, n);
    forall i: nat ensures At(a, i) == At(b, i) && |a| == |b| {
      LandAt(Apply(f, runs[k]), runs, n, i);
      LandAt(f, runs, n, i);
      NotCovered(runs, n, i, k);
      ApplyAt(f, runs[k], n, i);
    }
    assert At(a, 0) == At(b, 0);
    SameBytes(a, b);
  }

  lemma {:induction false} LastOfTail(runs: seq<Write>, n: NodeId, i: nat)
    requires runs != []
    ensures LastAt(runs[1..], n, i).Some? ==> LastAt(runs[1..], n, i) == LastAt(runs, n, i)
    ensures Reach(runs[1..], n) <= Reach(runs, n)
    decreases |runs|
  {
    if |runs| > 1 {
      var front := runs[..|runs| - 1];
      assert runs[1..][..|runs| - 2] == front[1..];
      LastOfTail(front, n, i);
    }
  }

  /** A file that already holds all the runs still holds all but the first. */
  lemma FixedByTail(f: seq<byte>, runs: seq<Write>, n: NodeId)
    requires runs != [] && Land(f, runs, n) == f
    ensures Land(f, runs[1..], n) == f
  {
    var g := Land(f, runs[1..], n);
    forall i: nat ensures At(g, i) == At(f, i) && |g| == |f| {
      LandAt(f, runs, n, i);
      LandAt(f, runs[1..], n, i);
      LastOfTail(runs, n, i);
    }
    assert At(g, 0) == At(f, 0);
    SameBytes(g, f);
  }

  /** A run sent in two pieces is the run. */
  lemma ApplyJoin(f: seq<byte>, n: NodeId, offset: nat, a: seq<byte>, b: seq<byte>)
    ensures Apply(Apply(f, Write(n, offset, a)), Write(n, offset + |a|, b)) == Apply(f, Write(n, offset, a + b))
  {
    var w, x, y := Write(n, offset, a + b), Write(n, offset, a), Write(n, offset + |a|, b);
    forall i: nat ensures At(Apply(Apply(f, x), y), i) == At(Apply(f, w), i) && |Apply(Apply(f, x), y)| == |Apply(f, w)| {
      ApplyAt(f, w, n, i);
      ApplyAt(f, x, n, i);
      ApplyAt(Apply(f, x), y, n, i);
    }
    assert At(Apply(Apply(f, x), y), 0) == At(Apply(f, w), 0);
    SameBytes(Apply(Apply(f, x), y), Apply(f, w));
  }

  lemma ApplyTwice(f: seq<byte>, w: Write)
    ensures Apply(Apply(f, w), w) == Apply(f, w)
  {
  }

  // ----- the log -----

  /** The run a journal line stands for, if its file is still there and not empty. */
  function RunOf(e: Entry, files: map<Path, seq<byte>>): seq<Write> {
    if e.path in files && files[e.path] != [] then [Write(e.node, e.offset, files[e.path])] else []
  }

  /** Everything left unsent, oldest first. */
  function Pending(journal: seq<Entry>, files: map<Path, seq<byte>>): seq<Write> {
    if journal == [] then [] else Pending(journal[..|journal| - 1], files) + RunOf(journal[|journal| - 1], files)
  }

  predicate DistinctPaths(journal: seq<Entry>) {
    forall i, j :: 0 <= i < j < |journal| ==> journal[i].path != journal[j].path
  }

  /** Whether line `j` is a line for file `n` whose run is still there. */
  predicate Present(log: Log, n: NodeId, j: int) {
    0 <= j < |log.journal| && log.journal[j].node == n && RunOf(log.journal[j], log.files) != []
  }

  lemma {:induction false} PendingCat(a: seq<Entry>, b: seq<Entry>, files: map<Path, seq<byte>>)
    ensures Pending(a + b, files) == Pending(a, files) + Pending(b, files)
    decreases |b|
  {
    if b == [] {
      assert a + b == a;
    } else {
      assert (a + b)[..|a + b| - 1] == a + b[..|b| - 1];
      PendingCat(a, b[..|b| - 1], files);
    }
  }

  /** Files no line names play no part. */
  lemma {:induction false} PendingFrame(journal: seq<Entry>, files: map<Path, seq<byte>>, files': map<Path, seq<byte>>)
    requires forall i :: 0 <= i < |journal| ==> RunOf(journal[i], files) == RunOf(journal[i], files')
    ensures Pending(journal, files) == Pending(journal, files')
    decreases |journal|
  {
    if journal != [] { PendingFrame(journal[..|journal| - 1], files, files'); }
  }

  lemma {:induction false} PendingNone(journal: seq<Entry>, files: map<Path, seq<byte>>)
    requires forall i :: 0 <= i < |journal| ==> journal[i].path !in files
    ensures Pending(journal, files) == []
    decreases |journal|
  {
    if journal != [] { PendingNone(journal[..|journal| - 1], files); }
  }

  lemma PendingSplit(journal: seq<Entry>, files: map<Path, seq<byte>>, i: nat)
    requires i < |journal|
    ensures Pending(journal, files) == Pending(journal[..i], files) + RunOf(journal[i], files) + Pending(journal[i + 1..], files)
  {
    var upto := journal[..i + 1];
    assert journal == upto + journal[i + 1..] && upto[..i] == journal[..i];
    PendingCat(upto, journal[i + 1..], files);
  }

  lemma NothingBefore(a: seq<Write>, b: seq<Write>, c: seq<Write>)
    requires a == []
    ensures a + b + c == b + c
  {
  }

  lemma Leading(journal: seq<Entry>, files: map<Path, seq<byte>>, i: nat, rest: seq<Entry>)
    requires i < |journal| && rest == journal[i + 1..] && forall j :: 0 <= j < i ==> journal[j].path !in files
    ensures Pending(journal, files) == RunOf(journal[i], files) + Pending(rest, files)
  {
    PendingSplit(journal, files, i);
    PendingNone(journal[..i], files);
    NothingBefore(Pending(journal[..i], files), RunOf(journal[i], files), Pending(rest, files));
  }

  lemma RestSame(journal: seq<Entry>, files: map<Path, seq<byte>>, i: nat, rest: seq<Entry>)
    requires i < |journal| && rest == journal[i + 1..] && DistinctPaths(journal)
    ensures Pending(rest, files) == Pending(rest, files - {journal[i].path})
  {
    forall k | 0 <= k < |rest| ensures rest[k].path != journal[i].path { assert rest[k] == journal[i + 1 + k]; }
    PendingFrame(rest, files, files - {journal[i].path});
  }

  /** Removing run files in journal order takes runs off the front of what is left to replay. */
  lemma RemoveInOrder(journal: seq<Entry>, files: map<Path, seq<byte>>, i: nat)
    requires i < |journal| && DistinctPaths(journal) && forall j :: 0 <= j < i ==> journal[j].path !in files
    ensures Pending(journal, files) == RunOf(journal[i], files) + Pending(journal, files - {journal[i].path})
  {
    var fewer, rest := files - {journal[i].path}, journal[i + 1..];
    RestSame(journal, files, i, rest);
    Leading(journal, files, i, rest);
    Leading(journal, fewer, i, rest);
    assert RunOf(journal[i], fewer) == [];
    assert Pending(journal, fewer) == Pending(rest, fewer);
  }

  // ----- a run file that could not be removed -----

  /** No later write put a different byte where the run had one. */
  ghost predicate Undisturbed(r: Write, later: seq<Write>, n: NodeId) {
    forall i: nat :: r.Covers(n, i) && LastAt(later, n, i).Some? ==> LastAt(later, n, i).value == r.data[i - r.offset]
  }

  /** Replaying a run that was left behind after it was sent is harmless exactly if later writes left
      its bytes alone. */
  lemma LeftoverHarmless(f: seq<byte>, r: Write, later: seq<Write>, n: NodeId)
    requires r.node == n
    ensures var g := Land(Apply(f, r), later, n); Apply(g, r) == g <==> Undisturbed(r, later, n)
  {
    var g := Land(Apply(f, r), later, n);
    forall i: nat
      ensures |Apply(g, r)| == |g|
      ensures r.Covers(n, i) ==> At(g, i) == if LastAt(later, n, i).Some? then LastAt(later, n, i).value else r.data[i - r.offset]
      ensures At(Apply(g, r), i) == if r.Covers(n, i) then r.data[i - r.offset] else At(g, i)
    {
      LandAt(Apply(f, r), later, n, i);
      ApplyAt(f, r, n, i);
      ApplyAt(g, r, n, i);
    }
    assert |Apply(g, r)| == |g| by { LandAt(Apply(f, r), later, n, 0); ApplyAt(f, r, n, 0); ApplyAt(g, r, n, 0); }
    if Undisturbed(r, later, n) { SameBytes(Apply(g, r), g); }
  }

  /** So it is not always harmless: here it undoes the later write. */
  lemma LeftoverOverwrites(n: NodeId)
    ensures var r, later := Write(n, 0, [1]), [Write(n, 0, [2])];
            Land([], [r] + later, n) == [2] && Apply(Land([], [r] + later, n), r) == [1]
  {
    var r, w := Write(n, 0, [1]), Write(n, 0, [2]);
    assert ([r] + [w])[..1] == [r] && [r][..0] == [];
    assert Land([], [r], n) == Apply([], r) == [1];
    assert Apply([1], w) == [2] && Apply([2], r) == [1];
  }
}
