/** A write run from start to finish, the way one request executes it under the file lock. */
module WholeWrites {
  import opened Bytes
  import opened Records
  import opened Files
  import opened WriteSteps

  function Stage(phase: Phase): nat {
    match phase
    case Opening(_) => 6
    case Carrying(_, _) => 5
    case Scanning(_) => 4
    case Merging(_, _, _) => 3
    case Attaching(_, _, _, _) => 3
    case Touching(_) => 2
    case Resizing => 1
    case Closing => 0
  }

  function Left(phase: Phase): nat {
    match phase
    case Merging(_, todo, _) => 2 * |todo| + 1
    case Attaching(_, todo, _, _) => 2 * |todo|
    case _ => 0
  }

  /** The state a write leaves behind, and whether it succeeded. */
  ghost function RunWriter(config: int, s: State, n: NodeId, wr: Writer): (State, bool)
    decreases Stage(wr.phase), Left(wr.phase)
  {
    if !CanStep(s, n, wr) then (s, false)
    else
      var (t, next) := WriterStep(config, s, n, wr);
      if next.None? then (t, true) else RunWriter(config, t, n, next.value)
  }

  /** Every effect of a write brings it closer to its end. */
  lemma StepDecreases(config: int, s: State, n: NodeId, wr: Writer)
    requires CanStep(s, n, wr)
    ensures var next := WriterStep(config, s, n, wr).1;
            next.Some? ==> Stage(next.value.phase) < Stage(wr.phase) ||
                           (Stage(next.value.phase) == Stage(wr.phase) && Left(next.value.phase) < Left(wr.phase))
  {
  }

  /** One request on a file that reads as `f` makes it read as the flat-file write, changes no other
      file and cannot fail. */
  lemma {:induction false} WriteIsFlatWrite(config: int, s: State, n: NodeId, f: seq<byte>, wr: Writer, m: NodeId)
    requires StateOk(s) && n in s.nodes && m in s.nodes && Busy(s, n, f, wr)
    ensures var (t, ok) := RunWriter(config, s, n, wr);
            && ok && StateOk(t) && n in t.nodes && m in t.nodes
            && Quiet(View(t, n), FlatWrite(f, wr.offset, wr.body))
            && (m != n ==> View(t, m) == View(s, m))
    decreases Stage(wr.phase), Left(wr.phase)
  {
    BusyCanStep(s, n, f, wr);
    StepBusy(config, s, n, f, wr);
    StepStateOk(config, s, n, wr);
    if m != n { StepOthers(config, s, n, wr, m); }
    StepDecreases(config, s, n, wr);
    var (t, next) := WriterStep(config, s, n, wr);
    if next.Some? { WriteIsFlatWrite(config, t, n, f, next.value, m); }
  }

  lemma StepKeepsKind(config: int, s: State, n: NodeId, wr: Writer)
    requires StateOk(s) && Engaged(s, n, wr) && CanStep(s, n, wr) && n in s.nodes
    ensures var t := WriterStep(config, s, n, wr).0; n in t.nodes && t.nodes[n].kind == s.nodes[n].kind
  {
  }

  lemma {:induction false} RunKeepsKind(config: int, s: State, n: NodeId, wr: Writer)
    requires StateOk(s) && Engaged(s, n, wr) && n in s.nodes
    ensures var t := RunWriter(config, s, n, wr).0; n in t.nodes && t.nodes[n].kind == s.nodes[n].kind
    decreases Stage(wr.phase), Left(wr.phase)
  {
    if CanStep(s, n, wr) {
      StepKeepsKind(config, s, n, wr);
      StepStateOk(config, s, n, wr);
      StepEngaged(config, s, n, wr);
      var (t, next) := WriterStep(config, s, n, wr);
      if next.Some? { RunKeepsKind(config, t, n, next.value); }
    }
  }

  /** A write that fails half way still leaves a well-formed repository. */
  lemma {:induction false} WriteStateOk(config: int, s: State, n: NodeId, wr: Writer)
    requires StateOk(s) && Engaged(s, n, wr)
    ensures StateOk(RunWriter(config, s, n, wr).0)
    decreases Stage(wr.phase), Left(wr.phase)
  {
    if CanStep(s, n, wr) {
      StepStateOk(config, s, n, wr);
      StepEngaged(config, s, n, wr);
      var (t, next) := WriterStep(config, s, n, wr);
      if next.Some? { WriteStateOk(config, t, n, next.value); }
    }
  }

  // ----- the same run, loop by loop -----

  /** The run up to the point where the write decides whether to commit. */
  ghost function RunParts(config: int, s: State, n: NodeId, wr: Writer): (State, bool)
    decreases Stage(wr.phase), Left(wr.phase)
  {
    if wr.phase.Closing? then (s, true)
    else if !CanStep(s, n, wr) then (s, false)
    else
      var (t, next) := WriterStep(config, s, n, wr);
      RunParts(config, t, n, next.value)
  }

  /** What the write has been asked to do stays the same from step to step. */
  lemma StepShape(config: int, s: State, n: NodeId, wr: Writer)
    requires CanStep(s, n, wr) && !wr.phase.Closing?
    ensures var (t, next) := WriterStep(config, s, n, wr);
            && next.Some? && next.value == wr.(phase := next.value.phase)
            && (next.value.phase.Closing? ==> n in t.nodes)
  {
  }

  lemma OneStep(config: int, s: State, n: NodeId, wr: Writer, t: State, next: Writer)
    requires CanStep(s, n, wr) && !wr.phase.Closing? && WriterStep(config, s, n, wr) == (t, Some(next))
    ensures RunWriter(config, s, n, wr) == RunWriter(config, t, n, next)
    ensures RunParts(config, s, n, wr) == RunParts(config, t, n, next)
  {
  }

  lemma LastStep(config: int, s: State, n: NodeId, wr: Writer)
    requires wr.phase.Closing? && n in s.nodes
    ensures RunParts(config, s, n, wr) == (s, true)
    ensures RunWriter(config, s, n, wr) == (if wr.Crosses() then CommitOpen(s, n) else s, true)
  {
  }

  /** What is left of a write once its parts are in place. */
  ghost function AfterParts(n: NodeId, commits: bool, parts: (State, bool)): (State, bool)
    requires parts.1 ==> n in parts.0.nodes
  {
    (if parts.1 && commits then CommitOpen(parts.0, n) else parts.0, parts.1)
  }

  lemma CrossesInAnyPhase(a: Writer, b: Writer)
    requires a == b.(phase := a.phase)
    ensures a.Crosses() == b.Crosses()
  {
  }

  /** A write is its parts followed by the commit it may owe. */
  lemma {:induction false} PartsThenCommit(config: int, s: State, n: NodeId, wr: Writer, commits: bool)
    requires StateOk(s) && Engaged(s, n, wr) && (wr.phase.Closing? ==> n in s.nodes) && commits == wr.Crosses()
    ensures StateOk(RunParts(config, s, n, wr).0)
    ensures RunParts(config, s, n, wr).1 ==> n in RunParts(config, s, n, wr).0.nodes
    ensures RunWriter(config, s, n, wr) == AfterParts(n, commits, RunParts(config, s, n, wr))
    decreases Stage(wr.phase), Left(wr.phase)
  {
    if wr.phase.Closing? {
      LastStep(config, s, n, wr);
    } else if CanStep(s, n, wr) {
      StepStateOk(config, s, n, wr);
      StepEngaged(config, s, n, wr);
      StepShape(config, s, n, wr);
      var (t, next) := WriterStep(config, s, n, wr);
      OneStep(config, s, n, wr, t, next.value);
      StepDecreases(config, s, n, wr);
      CrossesInAnyPhase(next.value, wr);
      PartsThenCommit(config, t, n, next.value, commits);
    }
  }

  /** Seal one part, store it and record it in the working version. */
  function AddPart(s: State, wr: Writer, work: VersionId, cs: int, prior: Manifest, k: int): State
    requires cs > 0 && 0 <= k * cs <= wr.NewSize() && work in s.chunks
  {
    var plain := Merged(wr, k * cs, cs, Existing(s, prior, k));
    Attach(Put(s, plain), work, Row(k, k * cs, |plain|, Digest(plain), ObjectId(s.nextObject)))
  }

  predicate Fetchable(s: State, wr: Writer, cs: int, prior: Manifest, k: int) {
    k in prior && !Replaces(wr, k * cs, cs) ==> Readable(s, prior[k])
  }

  predicate Inside(wr: Writer, cs: int, todo: seq<int>) {
    forall i :: 0 <= i < |todo| ==> 0 <= todo[i] * cs <= wr.NewSize()
  }

  /** The loop over the touched parts; it stops at the first part that cannot be read back. */
  ghost function MergeAll(s: State, wr: Writer, work: VersionId, cs: int, todo: seq<int>, prior: Manifest): (State,
                          bool)
    requires cs > 0 && work in s.chunks && Inside(wr, cs, todo)
    decreases |todo|
  {
    if todo == [] then (s, true)
    else if !Fetchable(s, wr, cs, prior, todo[0]) then (s, false)
    else MergeAll(AddPart(s, wr, work, cs, prior, todo[0]), wr, work, cs, todo[1..], prior)
  }

  lemma MergeNext(s: State, wr: Writer, work: VersionId, cs: int, todo: seq<int>, i: nat, prior: Manifest)
    requires cs > 0 && work in s.chunks && Inside(wr, cs, todo) && i < |todo|
    ensures MergeAll(s, wr, work, cs, todo[i..], prior) ==
            if Fetchable(s, wr, cs, prior, todo[i])
            then MergeAll(AddPart(s, wr, work, cs, prior, todo[i]), wr, work, cs, todo[i + 1..], prior)
            else (s, false)
  {
    assert todo[i..][1..] == todo[i + 1..];
  }

  lemma MergedInAnyPhase(a: Writer, b: Writer, start: int, cs: int, existing: seq<byte>)
    requires cs > 0 && 0 <= start <= b.NewSize() && a == b.(phase := a.phase)
    ensures Replaces(a, start, cs) == Replaces(b, start, cs) && Merged(a, start, cs, existing) == Merged(b, start, cs, existing)
  {
    var x, y := Merged(a, start, cs, existing), Merged(b, start, cs, existing);
    assert |x| == |y|;
    forall j | 0 <= j < |x| ensures x[j] == y[j] { assert a.Covers(start + j) == b.Covers(start + j); }
  }

  lemma SealStep(config: int, s: State, n: NodeId, wr: Writer, work: VersionId, cs: int, todo: seq<int>,
                 prior: Manifest, row: Row, plain: seq<byte>)
    requires work in s.versions && ChunkSize(s.versions[work]) == cs && cs > 0
    requires todo != [] && 0 <= todo[0] * cs <= wr.NewSize() && Fetchable(s, wr, cs, prior, todo[0])
    requires plain == Merged(wr, todo[0] * cs, cs, Existing(s, prior, todo[0]))
    requires row == Row(todo[0], todo[0] * cs, |plain|, Digest(plain), ObjectId(s.nextObject))
    ensures RunParts(config, s, n, wr.(phase := Merging(work, todo, prior))) ==
            RunParts(config, Put(s, plain), n, wr.(phase := Attaching(work, todo, prior, row)))
  {
    var now := wr.(phase := Merging(work, todo, prior));
    MergedInAnyPhase(now, wr, todo[0] * cs, cs, Existing(s, prior, todo[0]));
    OneStep(config, s, n, now, Put(s, plain), wr.(phase := Attaching(work, todo, prior, row)));
  }

  lemma AttachStep(config: int, s: State, n: NodeId, wr: Writer, work: VersionId, todo: seq<int>, prior: Manifest,
                   row: Row)
    requires work in s.chunks && todo != []
    ensures RunParts(config, s, n, wr.(phase := Attaching(work, todo, prior, row))) ==
            RunParts(config, Attach(s, work, row), n, wr.(phase := Merging(work, todo[1..], prior)))
  {
  }

  lemma PartIsTwoSteps(config: int, s: State, n: NodeId, wr: Writer, work: VersionId, cs: int, todo: seq<int>,
                       prior: Manifest)
    requires work in s.chunks && work in s.versions && ChunkSize(s.versions[work]) == cs && cs > 0
    requires todo != [] && 0 <= todo[0] * cs <= wr.NewSize() && Fetchable(s, wr, cs, prior, todo[0])
    ensures RunParts(config, s, n, wr.(phase := Merging(work, todo, prior))) ==
            RunParts(config, AddPart(s, wr, work, cs, prior, todo[0]), n, wr.(phase := Merging(work, todo[1..], prior)))
  {
    var plain := Merged(wr, todo[0] * cs, cs, Existing(s, prior, todo[0]));
    var row := Row(todo[0], todo[0] * cs, |plain|, Digest(plain), ObjectId(s.nextObject));
    SealStep(config, s, n, wr, work, cs, todo, prior, row, plain);
    AttachStep(config, Put(s, plain), n, wr, work, todo, prior, row);
  }

  lemma {:induction false} MergeRuns(config: int, s: State, n: NodeId, wr: Writer, work: VersionId, cs: int,
                                     todo: seq<int>, prior: Manifest)
    requires work in s.chunks && work in s.versions && ChunkSize(s.versions[work]) == cs && cs > 0 && Inside(wr, cs, todo)
    ensures RunParts(config, s, n, wr.(phase := Merging(work, todo, prior))) ==
            if MergeAll(s, wr, work, cs, todo, prior).1
            then RunParts(config, MergeAll(s, wr, work, cs, todo, prior).0, n, wr.(phase := Touching(work)))
            else MergeAll(s, wr, work, cs, todo, prior)
    decreases |todo|
  {
    if todo == [] {
      OneStep(config, s, n, wr.(phase := Merging(work, todo, prior)), s, wr.(phase := Touching(work)));
    } else {
      if Fetchable(s, wr, cs, prior, todo[0]) {
        PartIsTwoSteps(config, s, n, wr, work, cs, todo, prior);
        MergeRuns(config, AddPart(s, wr, work, cs, prior, todo[0]), n, wr, work, cs, todo[1..], prior);
      }
    }
  }

  /** The first two effects: a new staging version, then the rows of the base in it. */
  function Staged(config: int, s: State, n: NodeId, base: Option<VersionId>, oldSize: nat): State
    requires n in s.nodes
  {
    var work, chunkSize := VersionId(s.nextVersion), StagedChunkSize(config, s, base);
    var t := CreateStaging(s, n, base, chunkSize);
    if base.Some? then CopyRows(t, base.value, work, 0, CeilDiv(oldSize, Max(chunkSize, 1))) else t
  }

  lemma OpenRuns(config: int, s: State, n: NodeId, wr: Writer, base: Option<VersionId>)
    requires n in s.nodes && (base.Some? ==> base.value in s.versions) && wr.phase == Opening(base)
    ensures RunParts(config, s, n, wr) ==
            RunParts(config, Staged(config, s, n, base, wr.oldSize), n, wr.(phase := Scanning(VersionId(s.nextVersion))))
  {
    var work := VersionId(s.nextVersion);
    var t := CreateStaging(s, n, base, StagedChunkSize(config, s, base));
    OneStep(config, s, n, wr, t, wr.(phase := Carrying(base, work)));
    OneStep(config, t, n, wr.(phase := Carrying(base, work)), Staged(config, s, n, base, wr.oldSize), wr.(phase := Scanning(work)));
  }

  lemma ScanRuns(config: int, s: State, n: NodeId, wr: Writer, work: VersionId, todo: seq<int>)
    requires work in s.versions && work in s.chunks && todo == Touched(wr, ChunkSize(s.versions[work]))
    ensures RunParts(config, s, n, wr.(phase := Scanning(work))) ==
            RunParts(config, s, n, wr.(phase := Merging(work, todo, Prior(s.chunks[work], todo))))
  {
    var now := wr.(phase := Scanning(work));
    assert Touched(now, ChunkSize(s.versions[work])) == todo;
    OneStep(config, s, n, now, s, wr.(phase := Merging(work, todo, Prior(s.chunks[work], todo))));
  }

  lemma FinishRuns(config: int, s: State, n: NodeId, wr: Writer, work: VersionId)
    requires n in s.nodes
    ensures RunParts(config, s, n, wr.(phase := Touching(work))) ==
            (SetSize(Touch(s, work, wr.NewSize()), n, wr.NewSize()), true)
  {
    var t := Touch(s, work, wr.NewSize());
    OneStep(config, s, n, wr.(phase := Touching(work)), t, wr.(phase := Resizing));
    OneStep(config, t, n, wr.(phase := Resizing), SetSize(t, n, wr.NewSize()), wr.(phase := Closing));
  }

  lemma TouchedInside(wr: Writer, cs: int)
    requires cs > 0 && wr.body != []
    ensures Inside(wr, cs, Touched(wr, cs))
  {
    TouchedCovers(wr, cs);
  }

  lemma {:induction false} MergeKeepsNodes(s: State, wr: Writer, work: VersionId, cs: int, todo: seq<int>,
                                           prior: Manifest)
    requires cs > 0 && work in s.chunks && Inside(wr, cs, todo)
    ensures MergeAll(s, wr, work, cs, todo, prior).0.nodes == s.nodes
    decreases |todo|
  {
    if todo != [] && Fetchable(s, wr, cs, prior, todo[0]) {
      MergeKeepsNodes(AddPart(s, wr, work, cs, prior, todo[0]), wr, work, cs, todo[1..], prior);
    }
  }

  /** Once there is a working version, a write is the loop over its parts and the two size updates. */
  lemma WorkingRuns(config: int, s: State, n: NodeId, wr: Writer, work: VersionId, cs: int, merged: (State, bool))
    requires n in s.nodes && work in s.versions && work in s.chunks && wr.body != [] && cs == ChunkSize(s.versions[work])
    requires Inside(wr, cs, Touched(wr, cs))
    requires merged == MergeAll(s, wr, work, cs, Touched(wr, cs), Prior(s.chunks[work], Touched(wr, cs)))
    ensures n in merged.0.nodes
    ensures RunParts(config, s, n, wr.(phase := Scanning(work))) ==
            if merged.1 then (SetSize(Touch(merged.0, work, wr.NewSize()), n, wr.NewSize()), true) else merged
  {
    var todo := Touched(wr, cs);
    ScanRuns(config, s, n, wr, work, todo);
    MergeRuns(config, s, n, wr, work, cs, todo, Prior(s.chunks[work], todo));
    MergeKeepsNodes(s, wr, work, cs, todo, Prior(s.chunks[work], todo));
    if merged.1 { FinishRuns(config, merged.0, n, wr, work); }
  }
}
