/** What a reader sees while a write is under way, and what is left of a file when one is cut off. */
module CutOffWrites {
  import opened Bytes
  import opened Records
  import opened Files
  import opened WriteSteps
  import opened Interleaving
  import opened FlatFiles
  import opened WholeWrites

  /** Byte `i` is what the file held, or what the write puts there. */
  predicate OldOrNew(f: seq<byte>, wr: Writer, i: nat, b: byte) {
    b == At(f, i) || (wr.Covers(i) && b == wr.body[i - wr.offset])
  }

  /** The version a reader is served from while the write is under way. */
  lemma ServedWhileBusy(s: State, n: NodeId, f: seq<byte>, wr: Writer)
    requires StateOk(s) && n in s.nodes && Busy(s, n, f, wr)
    ensures Served(s, n).Some? ==> Served(s, n).value in s.versions
    ensures View(s, n).staged != map[] ==> Served(s, n).Some? && View(s, n).staged.Keys == {Served(s, n).value}
    ensures View(s, n).staged == map[] ==> Served(s, n) == s.nodes[n].current && OpenOf(s, n).None?
  {
    OpenOfStaging(s, n);
    if OpenOf(s, n).Some? {
      var v := OpenOf(s, n).value;
      assert v in View(s, n).staged;
      assert forall u :: u in View(s, n).staged ==> IsStagingOf(s, n, u) && IsStagingOf(s, n, v);
    } else {
      assert forall u :: u !in View(s, n).staged;
      if s.nodes[n].current.Some? { assert CurrentOk(s, n, s.nodes[n].current.value); }
    }
  }

  lemma MergedOldOrNew(v: VersionView, f: seq<byte>, wr: Writer, todo: seq<int>, i: nat)
    requires MergeOk(v, f, wr, todo)
    ensures OldOrNew(f, wr, i, ByteAt(v.parts, ChunkSize(v.rec), i))
  {
  }

  lemma HeldOldOrNew(v: VersionView, f: seq<byte>, wr: Writer, g: seq<byte>, i: nat)
    requires Holds(v.parts, ChunkSize(v.rec), g) && (g == f || g == FlatWrite(f, wr.offset, wr.body))
    ensures OldOrNew(f, wr, i, ByteAt(v.parts, ChunkSize(v.rec), i))
  {
    HoldsEverywhere(v.parts, ChunkSize(v.rec), g, i);
  }

  /** A byte of the version served while a write is under way. */
  lemma ByteWhileBusy(s: State, n: NodeId, f: seq<byte>, wr: Writer, i: nat)
    requires StateOk(s) && n in s.nodes && Busy(s, n, f, wr) && Served(s, n).Some? && Served(s, n).value in s.versions
    ensures var v := ViewOf(s, Served(s, n).value);
            var b := ByteAt(v.parts, ChunkSize(v.rec), i);
            if wr.phase.Carrying? then b == 0 else OldOrNew(f, wr, i, b)
  {
    ServedWhileBusy(s, n, f, wr);
    var view, v := View(s, n), Served(s, n).value;
    match wr.phase
    case Opening(_) => HeldOldOrNew(view.current.value, f, wr, f, i);
    case Carrying(_, _) =>
    case Scanning(work) => HeldOldOrNew(view.staged[work], f, wr, f, i);
    case Merging(work, todo, _) => MergedOldOrNew(view.staged[work], f, wr, todo, i);
    case Attaching(work, todo, _, _) => MergedOldOrNew(view.staged[work], f, wr, todo, i);
    case Touching(work) => MergedOldOrNew(view.staged[work], f, wr, [], i);
    case Resizing => HeldOldOrNew(view.staged[v], f, wr, FlatWrite(f, wr.offset, wr.body), i);
    case Closing => HeldOldOrNew(view.staged[v], f, wr, FlatWrite(f, wr.offset, wr.body), i);
  }

  function From(offset: Option<nat>): nat {
    if offset.Some? then offset.value else 0
  }

  /** Every byte of a read is an old or a new one. */
  ghost predicate Untorn(f: seq<byte>, wr: Writer, from: nat, got: seq<byte>) {
    forall j :: 0 <= j < |got| ==> OldOrNew(f, wr, from + j, got[j])
  }

  /** A read is the bytes of the version it is served from. */
  lemma ReadIsServed(s: State, n: NodeId, offset: Option<nat>, size: Option<nat>, j: nat)
    requires n in s.nodes && s.nodes[n].kind == File && j < |ReadBytes(s, n, offset, size).value.0|
    ensures Served(s, n).Some? && Served(s, n).value in s.versions
    ensures var v := ViewOf(s, Served(s, n).value);
            ReadBytes(s, n, offset, size).value.0[j] == ByteAt(v.parts, ChunkSize(v.rec), From(offset) + j)
  {
  }

  lemma ReadByteWhileBusy(s: State, n: NodeId, f: seq<byte>, wr: Writer, offset: Option<nat>, size: Option<nat>, j: nat)
    requires StateOk(s) && n in s.nodes && s.nodes[n].kind == File && Busy(s, n, f, wr)
    requires j < |ReadBytes(s, n, offset, size).value.0|
    ensures var b := ReadBytes(s, n, offset, size).value.0[j];
            if wr.phase.Carrying? then b == 0 else OldOrNew(f, wr, From(offset) + j, b)
  {
    ReadIsServed(s, n, offset, size, j);
    ByteWhileBusy(s, n, f, wr, From(offset) + j);
  }

  ghost predicate AllZero(got: seq<byte>) {
    forall j :: 0 <= j < |got| ==> got[j] == 0
  }

  lemma ReadWhileBusy(s: State, n: NodeId, f: seq<byte>, wr: Writer, offset: Option<nat>, size: Option<nat>,
                      got: seq<byte>)
    requires StateOk(s) && n in s.nodes && s.nodes[n].kind == File && Busy(s, n, f, wr)
    requires got == ReadBytes(s, n, offset, size).value.0
    ensures if wr.phase.Carrying? then AllZero(got) else Untorn(f, wr, From(offset), got)
  {
    forall j | 0 <= j < |got| ensures if wr.phase.Carrying? then got[j] == 0 else OldOrNew(f, wr, From(offset) + j, got[j]) {
      ReadByteWhileBusy(s, n, f, wr, offset, size, j);
    }
  }

  /** In any run, a read that meets a write under way sees only old and new bytes, exactly unless it falls
      between staging the version and carrying the manifest over and the range has other than zeroes. */
  lemma ReadWhileWriting(config: int, run: seq<Step>, n: NodeId, offset: Option<nat>, size: Option<nat>, got: seq<byte>)
    requires Legal(config, START, run)
    requires var sys := Run(config, START, run);
             Promised(sys, n) && n in sys.writers && got == ReadBytes(sys.repo, n, offset, size).value.0
    ensures var sys, disk := Run(config, START, run), FlatRun(config, START, map[], run);
            && n in disk
            && (Untorn(disk[n], sys.writers[n], From(offset), got) <==>
                !sys.writers[n].phase.Carrying? || Untorn(disk[n], sys.writers[n], From(offset), Zeros(|got|)))
  {
    RunRefines(config, START, map[], run);
    var sys, disk := Run(config, START, run), FlatRun(config, START, map[], run);
    assert FileOk(sys, disk, n);
    ReadWhileBusy(sys.repo, n, disk[n], sys.writers[n], offset, size, got);
    if sys.writers[n].phase.Carrying? { assert got == Zeros(|got|); }
  }

  // ----- a write that stops half way, and a sync after it -----

  /** Byte `i` is written: its part is attached to the open version. */
  predicate Written(wr: Writer, cs: int, i: int)
    requires cs > 0
  {
    wr.Covers(i) && match wr.phase
                    case Merging(_, todo, _) => i / cs !in todo
                    case Attaching(_, todo, _, _) => i / cs !in todo
                    case Touching(_) => true
                    case _ => false
  }

  /** The written bytes over the old ones, at the old length. */
  function Overlaid(f: seq<byte>, wr: Writer, cs: int): seq<byte>
    requires cs > 0
  {
    seq<byte>(|f|, i requires 0 <= i < |f| => if Written(wr, cs, i) then wr.body[i - wr.offset] else f[i])
  }

  predicate Listed(s: State, wr: Writer) {
    WorkOf(wr.phase).Some? ==> WorkOf(wr.phase).value in s.versions
  }

  /** What a sync makes of a file whose write stopped here. */
  function Remains(s: State, f: seq<byte>, wr: Writer): seq<byte>
    requires Listed(s, wr)
  {
    match WorkOf(wr.phase)
    case None => if wr.phase.Opening? then f else FlatWrite(f, wr.offset, wr.body)
    case Some(work) => if s.versions[work].size == 0 then [] else Overlaid(f, wr, ChunkSize(s.versions[work]))
  }

  /** The write changes none of the bytes it has written so far. */
  ghost predicate WrittenSame(f: seq<byte>, wr: Writer, cs: int)
    requires cs > 0
  {
    forall i :: 0 <= i < |f| && Written(wr, cs, i) ==> wr.body[i - wr.offset] == f[i]
  }

  /** It changes none of those it has not written, and does not make the file longer. */
  ghost predicate LeftSame(f: seq<byte>, wr: Writer, cs: int)
    requires cs > 0
  {
    wr.NewSize() == |f| && forall i :: 0 <= i < |f| && wr.Covers(i) && !Written(wr, cs, i) ==> wr.body[i - wr.offset] == f[i]
  }

  ghost predicate Survives(s: State, f: seq<byte>, wr: Writer)
    requires Listed(s, wr)
  {
    match WorkOf(wr.phase)
    case None => true
    case Some(work) =>
      if s.versions[work].size == 0 then f == []
      else WrittenSame(f, wr, ChunkSize(s.versions[work])) || LeftSame(f, wr, ChunkSize(s.versions[work]))
  }

  lemma OverlaidAt(f: seq<byte>, wr: Writer, cs: int, i: nat)
    requires cs > 0 && wr.NewSize() == |f| == wr.oldSize && i < |f|
    ensures Overlaid(f, wr, cs)[i] == FlatWrite(f, wr.offset, wr.body)[i] <==>
            (wr.Covers(i) && !Written(wr, cs, i) ==> wr.body[i - wr.offset] == f[i])
  {
  }

  lemma OverlaidIsNew(f: seq<byte>, wr: Writer, cs: int)
    requires cs > 0 && wr.oldSize == |f| && wr.body != []
    ensures Overlaid(f, wr, cs) == FlatWrite(f, wr.offset, wr.body) <==> LeftSame(f, wr, cs)
  {
    if wr.NewSize() == |f| {
      var a, b := Overlaid(f, wr, cs), FlatWrite(f, wr.offset, wr.body);
      assert |a| == |b|;
      forall i | 0 <= i < |f|
        ensures a[i] == b[i] <==> (wr.Covers(i) && !Written(wr, cs, i) ==> wr.body[i - wr.offset] == f[i])
      {
        OverlaidAt(f, wr, cs, i);
      }
      if LeftSame(f, wr, cs) { assert forall i :: 0 <= i < |f| ==> a[i] == b[i]; }
    }
  }

  /** The old or the new file is left exactly when the write changes nothing it has written, or nothing it has
      not: in particular never when it opened the version of a nonempty file and did not get to record the size. */
  lemma SurvivesExactly(s: State, f: seq<byte>, wr: Writer)
    requires Listed(s, wr) && wr.body != [] && wr.oldSize == |f|
    ensures Remains(s, f, wr) == f || Remains(s, f, wr) == FlatWrite(f, wr.offset, wr.body) <==> Survives(s, f, wr)
  {
    if WorkOf(wr.phase).Some? {
      var cs := ChunkSize(s.versions[WorkOf(wr.phase).value]);
      OverlaidIsNew(f, wr, cs);
      var a := Overlaid(f, wr, cs);
      if WrittenSame(f, wr, cs) { assert a == f; }
      if a == f { assert forall i :: 0 <= i < |f| && Written(wr, cs, i) ==> wr.body[i - wr.offset] == a[i] == f[i]; }
    }
  }

  /** A byte of the version being written. */
  lemma WorkByte(view: NodeView, f: seq<byte>, wr: Writer, i: nat)
    requires BusyView(view, f, wr) && WorkOf(wr.phase).Some? && !wr.phase.Carrying? && i < |f|
    ensures var v := view.staged[WorkOf(wr.phase).value];
            ByteAt(v.parts, ChunkSize(v.rec), i) == Overlaid(f, wr, ChunkSize(v.rec))[i]
  {
  }

  lemma WorkListed(s: State, n: NodeId, f: seq<byte>, wr: Writer)
    requires n in s.nodes && BusyView(View(s, n), f, wr) && WorkOf(wr.phase).Some?
    ensures var w := WorkOf(wr.phase).value;
            IsStagingOf(s, n, w) && (s.versions[w].size == 0 || (s.versions[w].size == |f| && !wr.phase.Carrying?))
  {
    assert WorkOf(wr.phase).value in View(s, n).staged;
  }

  ghost predicate SyncedAs(s: State, n: NodeId, g: seq<byte>) {
    && n in s.nodes && n in CommitOpen(s, n).nodes
    && ReadBytes(CommitOpen(s, n), n, None, None).Ok? && ReadBytes(CommitOpen(s, n), n, None, None).value.0 == g
  }

  lemma CommitKind(s: State, n: NodeId)
    requires StateOk(s) && n in s.nodes
    ensures n in CommitOpen(s, n).nodes && CommitOpen(s, n).nodes[n].kind == s.nodes[n].kind
  {
    if v :| IsOpen(s, n, v) { CommitOpenIs(s, n, v); }
  }

  /** Committing the open version makes it the file, at the size it records. */
  lemma SyncReads(s: State, n: NodeId, w: VersionId)
    requires StateOk(s) && n in s.nodes && s.nodes[n].kind == File && IsStagingOf(s, n, w) && s.versions[w].size >= 0
    ensures SyncedAs(s, n, BytesOf(ViewOf(s, w).parts, ChunkSize(s.versions[w]), 0, s.versions[w].size))
  {
    OpenIsUnique(s, n, w);
    CommitOpenIs(s, n, w);
    var t := CommitOpen(s, n);
    assert forall v :: IsStagingOf(t, n, v) ==> IsStagingOf(s, n, v) && v != w;
    assert ViewOf(t, w).parts == ViewOf(s, w).parts;
  }

  lemma SyncWork(s: State, n: NodeId, f: seq<byte>, wr: Writer)
    requires StateOk(s) && n in s.nodes && s.nodes[n].kind == File && BusyView(View(s, n), f, wr) && WorkOf(wr.phase).Some?
    ensures Listed(s, wr) && SyncedAs(s, n, Remains(s, f, wr))
  {
    WorkListed(s, n, f, wr);
    var w := WorkOf(wr.phase).value;
    SyncReads(s, n, w);
    var got := BytesOf(ViewOf(s, w).parts, ChunkSize(s.versions[w]), 0, s.versions[w].size);
    if s.versions[w].size != 0 {
      forall i | 0 <= i < |f| ensures got[i] == Overlaid(f, wr, ChunkSize(s.versions[w]))[i] {
        WorkByte(View(s, n), f, wr, i);
      }
    }
    assert got == Remains(s, f, wr);
  }

  /** A commit takes the size of the version, not of the node. */
  lemma CommitIgnoresSize(s: State, n: NodeId, size: int, v: VersionId)
    requires StateOk(s) && n in s.nodes && IsStagingOf(s, n, v)
    ensures CommitOpen(SetSize(s, n, size), n) == CommitOpen(s, n)
  {
    var t := SetSize(s, n, size);
    SetSizeStateOk(s, n, size);
    OpenIsUnique(s, n, v);
    assert IsStagingOf(t, n, v);
    OpenIsUnique(t, n, v);
    CommitOpenIs(s, n, v);
    CommitOpenIs(t, n, v);
  }

  lemma SyncedFile(s: State, n: NodeId, g: seq<byte>)
    requires StateOk(s) && n in s.nodes && s.nodes[n].kind == File && Quiet(View(s, n), g)
    ensures SyncedAs(s, n, g)
  {
    CommitKeepsQuiet(s, n, g);
    CommitOpenStateOk(s, n);
    CommitKind(s, n);
    QuietRead(CommitOpen(s, n), n, g, None, None);
    assert Asked(g, None, None) == g;
  }

  lemma SyncResizing(config: int, s: State, n: NodeId, f: seq<byte>, wr: Writer)
    requires StateOk(s) && n in s.nodes && s.nodes[n].kind == File && Busy(s, n, f, wr) && wr.phase.Resizing?
    ensures SyncedAs(s, n, FlatWrite(f, wr.offset, wr.body))
  {
    var sized := SetSize(s, n, wr.NewSize());
    StepBusy(config, s, n, f, wr);
    SetSizeStateOk(s, n, wr.NewSize());
    SyncedFile(sized, n, FlatWrite(f, wr.offset, wr.body));
    var v :| v in View(s, n).staged;
    CommitIgnoresSize(s, n, wr.NewSize(), v);
  }

  /** Wherever a write stops, this is the file a sync leaves. */
  lemma SyncAfterCut(config: int, s: State, n: NodeId, f: seq<byte>, wr: Writer)
    requires StateOk(s) && n in s.nodes && s.nodes[n].kind == File && Busy(s, n, f, wr)
    ensures Listed(s, wr) && SyncedAs(s, n, Remains(s, f, wr))
  {
    if WorkOf(wr.phase).Some? {
      SyncWork(s, n, f, wr);
    } else if wr.phase.Resizing? {
      SyncResizing(config, s, n, f, wr);
    } else {
      SyncedFile(s, n, Remains(s, f, wr));
    }
  }

  // ----- a write that opens a version, and one that finds it open -----

  /** Where a write stands after `k` effects. */
  ghost function After(config: int, s: State, n: NodeId, wr: Writer, k: nat): Option<(State, Writer)>
    decreases k
  {
    if k == 0 then Some((s, wr))
    else if !CanStep(s, n, wr) then None
    else
      var (t, next) := WriterStep(config, s, n, wr);
      if next.None? then None else After(config, t, n, next.value, k - 1)
  }

  /** The version being written, if it is there yet, records `size`; one still to be opened will record none. */
  predicate HasSize(s: State, wr: Writer, size: int) {
    match WorkOf(wr.phase)
    case Some(work) => work in s.versions && s.versions[work].size == size
    case None => wr.phase.Opening? ==> size == 0
  }

  lemma StepHasSize(config: int, s: State, n: NodeId, wr: Writer, size: int)
    requires CanStep(s, n, wr) && HasSize(s, wr, size)
    ensures var (t, next) := WriterStep(config, s, n, wr);
            next.Some? ==> HasSize(t, next.value, size) && next.value == wr.(phase := next.value.phase)
  {
  }

  /** It stays that way until the write records the new size. */
  lemma {:induction false} AfterBusy(config: int, s: State, n: NodeId, f: seq<byte>, wr: Writer, size: int, k: nat)
    requires StateOk(s) && n in s.nodes && Engaged(s, n, wr) && Busy(s, n, f, wr) && HasSize(s, wr, size)
    requires After(config, s, n, wr, k).Some?
    ensures var (t, now) := After(config, s, n, wr, k).value;
            && StateOk(t) && n in t.nodes && t.nodes[n].kind == s.nodes[n].kind && Busy(t, n, f, now)
            && HasSize(t, now, size) && now == wr.(phase := now.phase)
    decreases k
  {
    if k > 0 {
      StepHasSize(config, s, n, wr, size);
      StepStateOk(config, s, n, wr);
      StepEngaged(config, s, n, wr);
      StepKeepsKind(config, s, n, wr);
      StepBusy(config, s, n, f, wr);
      var (t, next) := WriterStep(config, s, n, wr);
      AfterBusy(config, t, n, f, next.value, size, k - 1);
    }
  }

  lemma StartHasSize(s: State, n: NodeId, f: seq<byte>, offset: nat, body: seq<byte>)
    requires StateOk(s) && n in s.nodes && Quiet(View(s, n), f) && body != []
    ensures var wr := StartWriter(s, n, offset, body);
            Engaged(s, n, wr) && Busy(s, n, f, wr) && HasSize(s, wr, if OpenOf(s, n).Some? then |f| else 0)
  {
    OpenOfStaging(s, n);
    BeginBusy(s, n, f, StartWriter(s, n, offset, body));
    if OpenOf(s, n).Some? { assert OpenOf(s, n).value in View(s, n).staged; }
  }

  /** A write to a quiet file that stops anywhere, and a sync after it. If the write opened the version the file
      is empty unless it got as far as recording the size; if it found the version open, the file keeps its
      length and holds the new bytes of the parts written so far. */
  lemma CutOffWrite(config: int, s: State, n: NodeId, f: seq<byte>, offset: nat, body: seq<byte>, k: nat)
    requires StateOk(s) && n in s.nodes && s.nodes[n].kind == File && Quiet(View(s, n), f) && body != []
    requires After(config, s, n, StartWriter(s, n, offset, body), k).Some?
    ensures var (t, now) := After(config, s, n, StartWriter(s, n, offset, body), k).value;
            && now == StartWriter(s, n, offset, body).(phase := now.phase)
            && HasSize(t, now, if OpenOf(s, n).Some? then |f| else 0)
            && Listed(t, now) && SyncedAs(t, n, Remains(t, f, now))
            && (Remains(t, f, now) == f || Remains(t, f, now) == FlatWrite(f, offset, body) <==> Survives(t, f, now))
  {
    var wr := StartWriter(s, n, offset, body);
    StartHasSize(s, n, f, offset, body);
    AfterBusy(config, s, n, f, wr, if OpenOf(s, n).Some? then |f| else 0, k);
    var (t, now) := After(config, s, n, wr, k).value;
    SyncAfterCut(config, t, n, f, now);
    SurvivesExactly(t, f, now);
  }

  /** In particular a write that finds no open version, stops after at least one effect and before it records
      the new size, and is followed by a sync, leaves the file empty, whatever it held. */
  lemma CutOffThenSync(config: int, s: State, n: NodeId, f: seq<byte>, offset: nat, body: seq<byte>, k: nat)
    requires StateOk(s) && n in s.nodes && s.nodes[n].kind == File && Quiet(View(s, n), f) && body != [] && OpenOf(s, n).None?
    requires var a := After(config, s, n, StartWriter(s, n, offset, body), k); a.Some? && WorkOf(a.value.1.phase).Some?
    ensures SyncedAs(After(config, s, n, StartWriter(s, n, offset, body), k).value.0, n, [])
  {
    CutOffWrite(config, s, n, f, offset, body, k);
  }

  // ----- in every run -----

  lemma AbortThenSync(config: int, sys: System, n: NodeId)
    requires n in sys.writers && n in sys.repo.nodes && Fresh(sys.repo, n, sys.horizon)
    ensures Legal(config, sys, [Abort(n), Sync(n)]) && Run(config, sys, [Abort(n), Sync(n)]).repo == CommitOpen(sys.repo, n)
  {
    var next := Next(config, sys, Abort(n));
    RunCons(config, next, Sync(n), []);
    RunCons(config, sys, Abort(n), [Sync(n)]);
    assert [Sync(n)] + [] == [Sync(n)];
    assert [Abort(n)] + [Sync(n)] == [Abort(n), Sync(n)];
  }

  lemma CutOff(config: int, run: seq<Step>, disk: Disk, n: NodeId)
    requires Legal(config, START, run) && Refines(Run(config, START, run), disk)
    requires var sys := Run(config, START, run); Promised(sys, n) && n in sys.writers
    ensures Legal(config, START, run + [Abort(n), Sync(n)]) && n in disk
    ensures var sys := Run(config, START, run);
            var wr, end := sys.writers[n], Run(config, START, run + [Abort(n), Sync(n)]).repo;
            && Listed(sys.repo, wr) && wr.body != [] && wr.oldSize == |disk[n]| && ReadBytes(end, n, None, None).Ok?
            && ReadBytes(end, n, None, None).value.0 == Remains(sys.repo, disk[n], wr)
  {
    var sys := Run(config, START, run);
    assert FileOk(sys, disk, n);
    SyncAfterCut(config, sys.repo, n, disk[n], sys.writers[n]);
    AbortThenSync(config, sys, n);
    RunCat(config, START, run, [Abort(n), Sync(n)]);
  }

  /** Whatever else went on before, a write under way on an undisturbed file can be cut off and the file synced,
      and this is what is left; it is the old or the new file exactly if the write survives here. */
  lemma CutOffInEveryRun(config: int, run: seq<Step>, n: NodeId)
    requires Legal(config, START, run)
    requires var sys := Run(config, START, run); Promised(sys, n) && n in sys.writers
    ensures Legal(config, START, run + [Abort(n), Sync(n)]) && n in FlatRun(config, START, map[], run)
    ensures var sys, f := Run(config, START, run), FlatRun(config, START, map[], run)[n];
            var wr, end := sys.writers[n], Run(config, START, run + [Abort(n), Sync(n)]).repo;
            && Listed(sys.repo, wr) && ReadBytes(end, n, None, None).Ok?
            && ReadBytes(end, n, None, None).value.0 == Remains(sys.repo, f, wr)
            && (Remains(sys.repo, f, wr) == f || Remains(sys.repo, f, wr) == FlatWrite(f, wr.offset, wr.body) <==>
                Survives(sys.repo, f, wr))
  {
    RunRefines(config, START, map[], run);
    CutOff(config, run, FlatRun(config, START, map[], run), n);
    var sys := Run(config, START, run);
    SurvivesExactly(sys.repo, FlatRun(config, START, map[], run)[n], sys.writers[n]);
  }
}
