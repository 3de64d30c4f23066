/** Buffered writes, their log, and a process that may die at any point, including while it recovers.

    The buffer's lock is held for the whole of a write or a flush, so one operation runs at a time and
    its single effects are the steps here. A request either reaches the server or the process dies;
    file operations on the log succeed, except that an append may be cut short by the process dying:
    an append to a run file after any byte, a journal line before its newline or earlier. A line is ASCII.

    A journal that does not end in a newline swallows the next line written to it. */
module CrashRecovery {
  import opened Bytes
  import opened Records
  import opened WriteLog

  const WRITE_BUFFER_BYTES: int := 4 * 1024 * 1024

  /** A run waiting in memory, and the file that holds the same bytes. */
  datatype Buffered = Buffered(offset: nat, data: seq<byte>, path: Path)
  {
    function End(): nat { offset + |data| }
    function For(n: NodeId): Write { Write(n, offset, data) }
    /** The run stops at a multiple of the chunk size, or is twice as large as a buffer should be. */
    predicate Full(chunkSize: int) {
      (chunkSize > 0 && End() % chunkSize == 0) || |data| >= Max(chunkSize, WRITE_BUFFER_BYTES) * 2
    }
  }

  /** Where an operation goes on once a run it sent is off its hands. */
  datatype Onward = Restart(w: Write) | Finish(w: Write) | Return

  datatype Phase =
    | Ready
    | Started(w: Write)                      // accepted, nothing recorded yet
    | Created(w: Write, path: Path)          // the run file is written, not journalled
    | Recorded(w: Write)                     // in memory and in the log
    | Done(w: Write)
    | Sent(n: NodeId, b: Buffered, next: Onward)   // a run has been sent, its file is still there
    | Dying                                  // an append was cut short
    | Down                                   // no process
    | Replaying(runs: seq<Write>, k: nat)
    | Resetting(i: nat)

  /** How the journal ends: with a newline, with a whole line that lacks it, or with less than that. */
  datatype Tail = Ended | Unended | Fragment

  /** How much of a journal line is written before the process dies, if it does. */
  datatype Cut = Whole | NoNewline | Part

  /** A write that has reached the log; `acked` once the caller has been told so. */
  datatype Landed = Landed(write: Write, acked: bool)

  datatype Sys = Sys(server: map<NodeId, seq<byte>>, log: Log, tail: Tail, nextPath: int, pending: map<NodeId, Buffered>,
                     phase: Phase, history: seq<Landed>, crashes: nat)

  datatype Step =
    | Begin(w: Write)
    | Extend(k: nat)      // append `k` bytes of the write to the run file
    | SendBroken          // a seek ends the buffered run
    | Create(k: nat)      // put `k` bytes of the write into a new run file
    | Journal(cut: Cut)
    | SendFull
    | Keep
    | Flush(n: NodeId)
    | Drop                // remove the file of the run just sent
    | Ack
    | Crash
    | Mount
    | Replay
    | Reset
    | Unlink
    | Clear

  function Content(server: map<NodeId, seq<byte>>, n: NodeId): seq<byte> {
    if n in server then server[n] else []
  }

  /** What a request does to the server's files. */
  function Store(server: map<NodeId, seq<byte>>, w: Write): map<NodeId, seq<byte>> {
    server[w.node := Apply(Content(server, w.node), w)]
  }

  /** Whether the write carries on where the buffered run ends. */
  predicate Continues(pending: map<NodeId, Buffered>, w: Write) {
    w.node in pending && pending[w.node].End() == w.offset
  }

  predicate Breaks(pending: map<NodeId, Buffered>, w: Write) {
    w.node in pending && pending[w.node].End() != w.offset
  }

  predicate Enabled(chunkSize: int, sys: Sys, step: Step) {
    match step
    case Begin(_) => sys.phase.Ready?
    case Extend(k) => sys.phase.Started? && Continues(sys.pending, sys.phase.w) && k <= |sys.phase.w.data|
    case SendBroken => sys.phase.Started? && Breaks(sys.pending, sys.phase.w)
    case Create(k) => sys.phase.Started? && sys.phase.w.node !in sys.pending && k <= |sys.phase.w.data|
    case Journal(_) => sys.phase.Created?
    case SendFull => sys.phase.Recorded? && sys.phase.w.node in sys.pending && sys.pending[sys.phase.w.node].Full(chunkSize)
    case Keep => sys.phase.Recorded? && sys.phase.w.node in sys.pending && !sys.pending[sys.phase.w.node].Full(chunkSize)
    case Ack => sys.phase.Done? && sys.history != []
    case Flush(n) => sys.phase.Ready? && n in sys.pending
    case Drop => sys.phase.Sent?
    case Crash => true
    case Mount => sys.phase.Down?
    case Replay => sys.phase.Replaying? && sys.phase.k < |sys.phase.runs|
    case Reset => sys.phase.Replaying? && sys.phase.k == |sys.phase.runs|
    case Unlink => sys.phase.Resetting? && sys.phase.i < |sys.log.journal|
    case Clear => sys.phase.Resetting? && sys.phase.i == |sys.log.journal|
  }

  /** The lines that can be read back once a line for `e` was written, and how the journal ends then. */
  function Lined(journal: seq<Entry>, tail: Tail, e: Entry, cut: Cut): (seq<Entry>, Tail) {
    match tail
    case Ended =>
      (match cut
       case Whole => (journal + [e], Ended)
       case NoNewline => (journal + [e], Unended)
       case Part => (journal, Fragment))
    case Unended => (journal[..Max(0, |journal| - 1)], if cut.Whole? then Ended else Fragment)
    case Fragment => (journal, if cut.Whole? then Ended else Fragment)
  }

  function Remove(log: Log, path: Path): Log {
    log.(files := log.files - {path})
  }

  function Send(sys: Sys, n: NodeId, next: Onward): Sys
    requires n in sys.pending
  {
    var b := sys.pending[n];
    sys.(server := Store(sys.server, b.For(n)), pending := sys.pending - {n}, phase := Sent(n, b, next))
  }

  function Dropped(sys: Sys): Sys
    requires sys.phase.Sent?
  {
    sys.(log := Remove(sys.log, sys.phase.b.path), phase := Resumed(sys.phase.next))
  }

  function Resumed(next: Onward): Phase {
    match next
    case Restart(w) => Started(w)
    case Finish(w) => Done(w)
    case Return => Ready
  }

  function Next(chunkSize: int, sys: Sys, step: Step): Sys
    requires Enabled(chunkSize, sys, step)
  {
    match step
    case Begin(w) => sys.(phase := Started(w))
    case Extend(k) =>
      var w := sys.phase.w;
      var b, piece := sys.pending[w.node], w.data[..k];
      var log := if b.path in sys.log.files then sys.log.(files := sys.log.files[b.path := sys.log.files[b.path] + piece]) else sys.log;
      if k < |w.data| then
        sys.(log := log, phase := Dying, history := sys.history + [Landed(w.(data := piece), false)])
      else
        sys.(log := log, pending := sys.pending[w.node := b.(data := b.data + w.data)],
             phase := Recorded(w), history := sys.history + [Landed(w, false)])
    case SendBroken => Send(sys, sys.phase.w.node, Restart(sys.phase.w))
    case Create(k) =>
      var path := Path(sys.nextPath);
      var piece := sys.phase.w.data[..k];
      sys.(log := sys.log.(files := sys.log.files[path := piece]), nextPath := sys.nextPath + 1,
           phase := if k < |sys.phase.w.data| then Dying else Created(sys.phase.w, path))
    case Journal(cut) =>
      var w, path := sys.phase.w, sys.phase.path;
      var (journal, tail) := Lined(sys.log.journal, sys.tail, Entry(w.node, w.offset, path), cut);
      var lined := sys.(log := sys.log.(journal := journal), tail := tail);
      if cut.Whole? then
        lined.(pending := sys.pending[w.node := Buffered(w.offset, w.data, path)],
               phase := Recorded(w), history := sys.history + [Landed(w, false)])
      else
        lined.(phase := Dying, history := if tail.Unended? then sys.history + [Landed(w, false)] else sys.history)
    case SendFull => Send(sys, sys.phase.w.node, Finish(sys.phase.w))
    case Keep => sys.(phase := Done(sys.phase.w))
    case Ack =>
      var last := |sys.history| - 1;
      sys.(phase := Ready, history := sys.history[last := sys.history[last].(acked := true)])
    case Flush(n) => Send(sys, n, Return)
    case Drop => Dropped(sys)
    case Crash => sys.(pending := map[], phase := Down, crashes := sys.crashes + 1)
    case Mount =>
      var runs := Pending(sys.log.journal, sys.log.files);
      sys.(phase := if runs == [] then Ready else Replaying(runs, 0))
    case Replay => sys.(server := Store(sys.server, sys.phase.runs[sys.phase.k]), phase := Replaying(sys.phase.runs, sys.phase.k + 1))
    case Reset => sys.(phase := Resetting(0))
    case Unlink => sys.(log := Remove(sys.log, sys.log.journal[sys.phase.i].path), phase := Resetting(sys.phase.i + 1))
    case Clear => sys.(log := sys.log.(journal := []), tail := Ended, phase := Ready)
  }

  // ----- what the files should hold -----

  function Writes(history: seq<Landed>): seq<Write> {
    seq(|history|, i requires 0 <= i < |history| => history[i].write)
  }

  /** File `n` after every write that has reached the log, in order. */
  function Truth(base: map<NodeId, seq<byte>>, history: seq<Landed>, n: NodeId): seq<byte> {
    Land(Content(base, n), Writes(history), n)
  }

  lemma TruthMore(base: map<NodeId, seq<byte>>, history: seq<Landed>, l: Landed, n: NodeId)
    ensures Truth(base, history + [l], n) ==
            if l.write.node == n then Apply(Truth(base, history, n), l.write) else Truth(base, history, n)
  {
    assert Writes(history + [l]) == Writes(history) + [l.write];
  }

  // ----- the invariant -----

  /** The runs whose files are still there: those in memory, and one just sent. */
  function Held(sys: Sys): map<NodeId, Buffered> {
    if sys.phase.Sent? then sys.pending[sys.phase.n := sys.phase.b] else sys.pending
  }

  /** The run has a line that can be read back. */
  ghost predicate Backed(log: Log, n: NodeId, b: Buffered) {
    exists i :: 0 <= i < |log.journal| && log.journal[i] == Entry(n, b.offset, b.path)
  }

  ghost predicate AllBacked(log: Log, held: map<NodeId, Buffered>) {
    forall n :: n in held ==> Backed(log, n, held[n])
  }

  /** Every held run is in a file of its own, and the lines whose files are there are lines of held runs. */
  ghost predicate Mirrors(log: Log, held: map<NodeId, Buffered>) {
    && (forall n :: n in held ==> held[n].path in log.files && log.files[held[n].path] == held[n].data)
    && (forall m, n :: m in held && n in held && held[m].path == held[n].path ==> m == n)
    && (forall n, j :: n in held && 0 <= j < |log.journal| && log.journal[j].path == held[n].path ==>
          log.journal[j] == Entry(n, held[n].offset, held[n].path))
    && (forall n, j :: Present(log, n, j) ==> n in held && held[n].path == log.journal[j].path)
  }

  ghost predicate PathsOk(log: Log, nextPath: int) {
    && DistinctPaths(log.journal)
    && (forall j :: 0 <= j < |log.journal| ==> log.journal[j].path.id < nextPath)
    && (forall p :: p in log.files ==> p.id < nextPath)
  }

  /** A file is what the server has, with the buffered run on top. */
  function Seen(server: map<NodeId, seq<byte>>, pending: map<NodeId, Buffered>, n: NodeId): seq<byte> {
    if n in pending then Apply(Content(server, n), pending[n].For(n)) else Content(server, n)
  }

  ghost predicate Balanced(base: map<NodeId, seq<byte>>, sys: Sys) {
    forall n :: Seen(sys.server, sys.pending, n) == Truth(base, sys.history, n)
  }

  /** Replaying the log brings every file to where it should be. */
  ghost predicate Recoverable(base: map<NodeId, seq<byte>>, sys: Sys) {
    forall n :: Land(Content(sys.server, n), Pending(sys.log.journal, sys.log.files), n) == Truth(base, sys.history, n)
  }

  /** The server already holds the run just sent. */
  ghost predicate Absorbed(server: map<NodeId, seq<byte>>, n: NodeId, b: Buffered) {
    Apply(Content(server, n), b.For(n)) == Content(server, n)
  }

  ghost predicate Serving(sys: Sys) {
    !(sys.phase.Dying? || sys.phase.Down? || sys.phase.Replaying? || sys.phase.Resetting?)
  }

  /** What a step of each operation relies on. */
  ghost predicate PhaseOk(base: map<NodeId, seq<byte>>, sys: Sys) {
    match sys.phase
    case Sent(n, b, _) => n !in sys.pending && Absorbed(sys.server, n, b)
    case Created(w, path) =>
      && w.node !in sys.pending && path in sys.log.files && sys.log.files[path] == w.data
      && (forall j :: 0 <= j < |sys.log.journal| ==> sys.log.journal[j].path != path)
      && (forall m :: m in sys.pending ==> sys.pending[m].path != path)
    case Down => sys.pending == map[]
    case Replaying(runs, k) =>
      && sys.pending == map[] && k <= |runs| && runs == Pending(sys.log.journal, sys.log.files)
      && forall n :: Land(Content(sys.server, n), runs[k..], n) == Truth(base, sys.history, n)
    case Resetting(i) =>
      && sys.pending == map[] && i <= |sys.log.journal|
      && (forall n :: Content(sys.server, n) == Truth(base, sys.history, n))
      && (forall j :: 0 <= j < i ==> sys.log.journal[j].path !in sys.log.files)
    case _ => true
  }

  ghost predicate Inv(base: map<NodeId, seq<byte>>, sys: Sys) {
    && PathsOk(sys.log, sys.nextPath)
    && (if Serving(sys) then Mirrors(sys.log, Held(sys)) && Balanced(base, sys) else Recoverable(base, sys))
    && (Serving(sys) && !sys.tail.Ended? ==> Held(sys) == map[])
    && PhaseOk(base, sys)
  }

  lemma LandOneMore(f: seq<byte>, before: seq<Write>, e: Entry, files: map<Path, seq<byte>>, n: NodeId)
    ensures Land(f, before + RunOf(e, files), n) ==
            if e.node == n && e.path in files then Apply(Land(f, before, n), Write(n, e.offset, files[e.path])) else Land(f, before, n)
  {
    if RunOf(e, files) == [] {
      assert before + RunOf(e, files) == before;
    } else {
      assert (before + RunOf(e, files))[..|before|] == before;
    }
  }

  ghost predicate PresentBelow(log: Log, n: NodeId, k: int) {
    exists j :: j < k && Present(log, n, j)
  }

  /** A line whose run file is there is the line of the held run. */
  lemma PresentIsHeld(log: Log, held: map<NodeId, Buffered>, n: NodeId, k: nat)
    requires Mirrors(log, held) && DistinctPaths(log.journal) && Present(log, n, k)
    ensures n in held && log.journal[k] == Entry(n, held[n].offset, held[n].path) && log.files[log.journal[k].path] == held[n].data
    ensures !PresentBelow(log, n, k)
  {
    assert log.journal[k].path == held[n].path;
  }

  lemma PresentOneMore(log: Log, n: NodeId, k: nat)
    requires k > 0
    ensures PresentBelow(log, n, k) <==> Present(log, n, k - 1) || PresentBelow(log, n, k - 1)
  {
  }

  /** In the log of a serving process each file has at most the one run it holds. */
  lemma {:induction false} LandHeld(f: seq<byte>, log: Log, held: map<NodeId, Buffered>, n: NodeId, k: nat)
    requires Mirrors(log, held) && DistinctPaths(log.journal) && k <= |log.journal|
    ensures Land(f, Pending(log.journal[..k], log.files), n) ==
            if PresentBelow(log, n, k) && n in held then Apply(f, held[n].For(n)) else f
    decreases k
  {
    if k > 0 {
      LandHeld(f, log, held, n, k - 1);
      assert log.journal[..k][..k - 1] == log.journal[..k - 1];
      LandOneMore(f, Pending(log.journal[..k - 1], log.files), log.journal[k - 1], log.files, n);
      PresentOneMore(log, n, k);
      if Present(log, n, k - 1) { PresentIsHeld(log, held, n, k - 1); }
    }
  }

  /** Replaying the log of a serving process puts each held run that has a line on its file. */
  lemma LandAllHeld(f: seq<byte>, log: Log, held: map<NodeId, Buffered>, n: NodeId)
    requires Mirrors(log, held) && DistinctPaths(log.journal)
    ensures Land(f, Pending(log.journal, log.files), n) ==
            if n in held && Backed(log, n, held[n]) then Apply(f, held[n].For(n)) else f
  {
    LandHeld(f, log, held, n, |log.journal|);
    assert log.journal[..|log.journal|] == log.journal;
    if j :| j < |log.journal| && Present(log, n, j) {
      PresentIsHeld(log, held, n, j);
    } else if n in held && Backed(log, n, held[n]) {
      var i :| 0 <= i < |log.journal| && log.journal[i] == Entry(n, held[n].offset, held[n].path);
      assert !Present(log, n, i);
    }
  }

  /** What a serving process leaves behind recovers a file exactly if its held run has a line, or is no news to
      the server. */
  lemma LeavesFile(base: map<NodeId, seq<byte>>, sys: Sys, n: NodeId)
    requires Inv(base, sys) && Serving(sys)
    ensures Land(Content(sys.server, n), Pending(sys.log.journal, sys.log.files), n) == Truth(base, sys.history, n) <==>
            (n in Held(sys) ==> Backed(sys.log, n, Held(sys)[n]) || Absorbed(sys.server, n, Held(sys)[n]))
  {
    LandAllHeld(Content(sys.server, n), sys.log, Held(sys), n);
    assert Seen(sys.server, sys.pending, n) == Truth(base, sys.history, n);
  }

  /** A process that dies while serving leaves a log that recovers every file exactly if every held run has a line,
      or changes nothing on the server. */
  lemma ServingRecovers(base: map<NodeId, seq<byte>>, sys: Sys)
    requires Inv(base, sys) && Serving(sys)
    ensures Recoverable(base, sys) <==>
            forall n :: n in Held(sys) ==> Backed(sys.log, n, Held(sys)[n]) || Absorbed(sys.server, n, Held(sys)[n])
  {
    forall n
      ensures Land(Content(sys.server, n), Pending(sys.log.journal, sys.log.files), n) == Truth(base, sys.history, n) <==>
              (n in Held(sys) ==> Backed(sys.log, n, Held(sys)[n]) || Absorbed(sys.server, n, Held(sys)[n]))
    {
      LeavesFile(base, sys, n);
    }
  }

  // ----- every step keeps the invariant -----

  /** The step is the process's death, or the last thing it does. */
  predicate Fatal(chunkSize: int, sys: Sys, step: Step)
    requires Enabled(chunkSize, sys, step)
  {
    if step.Crash? then sys.phase != Dying && sys.phase != Down && !sys.phase.Replaying? && !sys.phase.Resetting?
    else Next(chunkSize, sys, step).phase.Dying?
  }

  /** The process does not die with a run in its buffer that has no line. */
  ghost predicate Survivable(chunkSize: int, sys: Sys, step: Step)
    requires Enabled(chunkSize, sys, step)
  {
    Fatal(chunkSize, sys, step) ==> AllBacked(sys.log, Held(sys))
  }

  /** Sending a run moves it from the buffer to the server; every file still looks the same. */
  lemma SendSeen(sys: Sys, n: NodeId, m: NodeId)
    requires n in sys.pending
    ensures var server := Store(sys.server, sys.pending[n].For(n));
            Seen(server, sys.pending - {n}, m) == Seen(sys.server, sys.pending, m) && Absorbed(server, n, sys.pending[n])
  {
    ApplyTwice(Content(sys.server, n), sys.pending[n].For(n));
  }

  lemma SendInv(base: map<NodeId, seq<byte>>, sys: Sys, n: NodeId, next: Onward)
    requires Inv(base, sys) && Serving(sys) && n in sys.pending && !sys.phase.Sent?
    ensures Inv(base, Send(sys, n, next))
  {
    var after := Send(sys, n, next);
    forall m ensures Seen(after.server, after.pending, m) == Truth(base, after.history, m) {
      SendSeen(sys, n, m);
      assert Seen(sys.server, sys.pending, m) == Truth(base, sys.history, m);
    }
    SendSeen(sys, n, n);
    assert Held(after) == sys.pending;
  }

  lemma DropMirrors(log: Log, held: map<NodeId, Buffered>, pending: map<NodeId, Buffered>, n: NodeId, b: Buffered)
    requires Mirrors(log, held) && DistinctPaths(log.journal) && held == pending[n := b] && n !in pending
    ensures Mirrors(Remove(log, b.path), pending)
  {
    var after := Remove(log, b.path);
    assert n in held && held[n] == b;
    assert forall m :: m in pending ==> m in held && held[m] == pending[m] && m != n;
    forall m, j | Present(after, m, j) ensures m in pending && pending[m].path == log.journal[j].path {
      assert Present(log, m, j);
    }
  }

  lemma DropInv(chunkSize: int, base: map<NodeId, seq<byte>>, sys: Sys)
    requires Inv(base, sys) && sys.phase.Sent?
    ensures Inv(base, Next(chunkSize, sys, Drop))
  {
    DropMirrors(sys.log, Held(sys), sys.pending, sys.phase.n, sys.phase.b);
    var after := Next(chunkSize, sys, Drop);
    forall m ensures Seen(after.server, after.pending, m) == Truth(base, after.history, m) {
      assert Seen(sys.server, sys.pending, m) == Truth(base, sys.history, m);
    }
  }

  lemma ExtendMirrors(log: Log, held: map<NodeId, Buffered>, n: NodeId, b: Buffered, piece: seq<byte>)
    requires Mirrors(log, held) && DistinctPaths(log.journal) && n in held && held[n] == b
    ensures b.path in log.files
    ensures Mirrors(log.(files := log.files[b.path := log.files[b.path] + piece]), held[n := b.(data := b.data + piece)])
  {
    var after, held' := log.(files := log.files[b.path := log.files[b.path] + piece]), held[n := b.(data := b.data + piece)];
    assert forall m :: m in held' ==> m in held && held'[m].path == held[m].path && held'[m].offset == held[m].offset;
    forall m, j | Present(after, m, j) ensures m in held' && held'[m].path == log.journal[j].path {
      if log.journal[j].path != b.path { assert Present(log, m, j); }
    }
  }

  predicate SameLines(held: map<NodeId, Buffered>, held': map<NodeId, Buffered>) {
    forall n :: n in held' ==> n in held && held'[n].path == held[n].path && held'[n].offset == held[n].offset
  }

  lemma SameBacking(log: Log, after: Log, held: map<NodeId, Buffered>, held': map<NodeId, Buffered>)
    requires after.journal == log.journal && AllBacked(log, held)
    requires SameLines(held, held')
    ensures AllBacked(after, held')
  {
    forall n | n in held' ensures Backed(after, n, held'[n]) { assert Backed(log, n, held[n]); }
  }

  /** A process that is about to die with every run backed leaves a log that recovers every file. */
  lemma DyingRecovers(base: map<NodeId, seq<byte>>, after: Sys, held: map<NodeId, Buffered>)
    requires Mirrors(after.log, held) && DistinctPaths(after.log.journal) && AllBacked(after.log, held)
    requires forall m :: Seen(after.server, held, m) == Truth(base, after.history, m)
    ensures Recoverable(base, after)
  {
    forall m ensures Land(Content(after.server, m), Pending(after.log.journal, after.log.files), m) == Truth(base, after.history, m) {
      LandAllHeld(Content(after.server, m), after.log, held, m);
      assert Seen(after.server, held, m) == Truth(base, after.history, m);
    }
  }

  /** Bytes appended to the buffered run are the bytes of the write that continues it. */
  lemma ExtendSeen(base: map<NodeId, seq<byte>>, sys: Sys, w: Write, piece: seq<byte>, m: NodeId)
    requires Continues(sys.pending, w) && Balanced(base, sys)
    ensures var b := sys.pending[w.node];
            Seen(sys.server, sys.pending[w.node := b.(data := b.data + piece)], m) ==
            Truth(base, sys.history + [Landed(w.(data := piece), false)], m)
  {
    var b := sys.pending[w.node];
    TruthMore(base, sys.history, Landed(w.(data := piece), false), m);
    assert Seen(sys.server, sys.pending, m) == Truth(base, sys.history, m);
    if m == w.node { ApplyJoin(Content(sys.server, m), m, b.offset, b.data, piece); }
  }

  lemma ExtendBalanced(base: map<NodeId, seq<byte>>, sys: Sys, w: Write, piece: seq<byte>)
    requires Continues(sys.pending, w) && Balanced(base, sys)
    ensures var b := sys.pending[w.node];
            forall m :: Seen(sys.server, sys.pending[w.node := b.(data := b.data + piece)], m) ==
                        Truth(base, sys.history + [Landed(w.(data := piece), false)], m)
  {
    var b := sys.pending[w.node];
    forall m
      ensures Seen(sys.server, sys.pending[w.node := b.(data := b.data + piece)], m) ==
              Truth(base, sys.history + [Landed(w.(data := piece), false)], m)
    {
      ExtendSeen(base, sys, w, piece, m);
    }
  }

  lemma ExtendCut(chunkSize: int, base: map<NodeId, seq<byte>>, sys: Sys, k: nat)
    requires Inv(base, sys) && Enabled(chunkSize, sys, Extend(k)) && k < |sys.phase.w.data| && AllBacked(sys.log, sys.pending)
    ensures Inv(base, Next(chunkSize, sys, Extend(k)))
  {
    var w := sys.phase.w;
    var b, piece := sys.pending[w.node], w.data[..k];
    var after, held' := Next(chunkSize, sys, Extend(k)), sys.pending[w.node := b.(data := b.data + piece)];
    ExtendMirrors(sys.log, sys.pending, w.node, b, piece);
    ExtendBalanced(base, sys, w, piece);
    SameBacking(sys.log, after.log, sys.pending, held');
    DyingRecovers(base, after, held');
  }

  lemma ExtendWhole(chunkSize: int, base: map<NodeId, seq<byte>>, sys: Sys, k: nat)
    requires Inv(base, sys) && Enabled(chunkSize, sys, Extend(k)) && k == |sys.phase.w.data|
    ensures Inv(base, Next(chunkSize, sys, Extend(k)))
  {
    var w := sys.phase.w;
    assert w.data[..k] == w.data && w.(data := w.data) == w;
    ExtendMirrors(sys.log, sys.pending, w.node, sys.pending[w.node], w.data);
    ExtendBalanced(base, sys, w, w.data);
  }

  lemma ExtendInv(chunkSize: int, base: map<NodeId, seq<byte>>, sys: Sys, k: nat)
    requires Inv(base, sys) && Enabled(chunkSize, sys, Extend(k)) && Survivable(chunkSize, sys, Extend(k))
    ensures Inv(base, Next(chunkSize, sys, Extend(k)))
  {
    if k < |sys.phase.w.data| { ExtendCut(chunkSize, base, sys, k); } else { ExtendWhole(chunkSize, base, sys, k); }
  }

  lemma CreateMirrors(log: Log, held: map<NodeId, Buffered>, nextPath: int, piece: seq<byte>)
    requires Mirrors(log, held) && PathsOk(log, nextPath)
    ensures Mirrors(log.(files := log.files[Path(nextPath) := piece]), held)
  {
    var after := log.(files := log.files[Path(nextPath) := piece]);
    assert forall n, j :: Present(after, n, j) ==> Present(log, n, j);
  }

  lemma CreateInv(chunkSize: int, base: map<NodeId, seq<byte>>, sys: Sys, k: nat)
    requires Inv(base, sys) && Enabled(chunkSize, sys, Create(k)) && Survivable(chunkSize, sys, Create(k))
    ensures Inv(base, Next(chunkSize, sys, Create(k)))
  {
    var after := Next(chunkSize, sys, Create(k));
    CreateMirrors(sys.log, sys.pending, sys.nextPath, sys.phase.w.data[..k]);
    forall n ensures Seen(after.server, sys.pending, n) == Truth(base, after.history, n) {
      assert Seen(sys.server, sys.pending, n) == Truth(base, sys.history, n);
    }
    if k < |sys.phase.w.data| {
      SameBacking(sys.log, after.log, sys.pending, sys.pending);
      DyingRecovers(base, after, sys.pending);
    }
  }

  /** The lines left after a line was written: those before it, perhaps without the last, and perhaps this one. */
  predicate LinesOf(journal: seq<Entry>, e: Entry, after: seq<Entry>) {
    after == journal || after == journal + [e] || (journal != [] && after == journal[..|journal| - 1])
  }

  lemma JournalMirrors(log: Log, held: map<NodeId, Buffered>, n: NodeId, b: Buffered, journal: seq<Entry>)
    requires Mirrors(log, held) && n !in held && b.path in log.files && log.files[b.path] == b.data
    requires forall j :: 0 <= j < |log.journal| ==> log.journal[j].path != b.path
    requires forall m :: m in held ==> held[m].path != b.path
    requires LinesOf(log.journal, Entry(n, b.offset, b.path), journal)
    ensures Mirrors(log.(journal := journal), held[n := b])
  {
    var after, held' := log.(journal := journal), held[n := b];
    forall m, j | Present(after, m, j) ensures m in held' && held'[m].path == after.journal[j].path {
      if j < |log.journal| { assert Present(log, m, j); }
    }
  }

  lemma JournalPaths(log: Log, nextPath: int, e: Entry, journal: seq<Entry>)
    requires PathsOk(log, nextPath) && e.path.id < nextPath && forall j :: 0 <= j < |log.journal| ==> log.journal[j].path != e.path
    requires LinesOf(log.journal, e, journal)
    ensures PathsOk(log.(journal := journal), nextPath)
  {
  }

  lemma JournalBalanced(base: map<NodeId, seq<byte>>, sys: Sys, w: Write, path: Path, server: map<NodeId, seq<byte>>, m: NodeId)
    requires Balanced(base, sys) && w.node !in sys.pending && server == sys.server
    ensures Seen(server, sys.pending[w.node := Buffered(w.offset, w.data, path)], m) == Truth(base, sys.history + [Landed(w, false)], m)
  {
    TruthMore(base, sys.history, Landed(w, false), m);
    assert Seen(sys.server, sys.pending, m) == Truth(base, sys.history, m);
  }

  lemma JournalBacked(log: Log, held: map<NodeId, Buffered>, n: NodeId, b: Buffered)
    requires AllBacked(log, held)
    ensures AllBacked(log.(journal := log.journal + [Entry(n, b.offset, b.path)]), held[n := b])
  {
    var after, held' := log.(journal := log.journal + [Entry(n, b.offset, b.path)]), held[n := b];
    forall m | m in held' ensures Backed(after, m, held'[m]) {
      if m == n {
        assert after.journal[|log.journal|] == Entry(n, b.offset, b.path);
      } else {
        var i :| 0 <= i < |log.journal| && log.journal[i] == Entry(m, held[m].offset, held[m].path);
        assert after.journal[i] == Entry(m, held[m].offset, held[m].path);
      }
    }
  }

  /** The process dies on a journal line: with the whole of it written the run is recovered, else it never was. */
  lemma JournalCut(chunkSize: int, base: map<NodeId, seq<byte>>, sys: Sys, cut: Cut)
    requires Inv(base, sys) && sys.phase.Created? && !cut.Whole? && AllBacked(sys.log, sys.pending)
    ensures Recoverable(base, Next(chunkSize, sys, Journal(cut)))
  {
    var w, path, after := sys.phase.w, sys.phase.path, Next(chunkSize, sys, Journal(cut));
    var b, e := Buffered(w.offset, w.data, path), Entry(w.node, w.offset, path);
    if sys.tail.Ended? && cut.NoNewline? {
      JournalPaths(sys.log, sys.nextPath, e, after.log.journal);
      JournalMirrors(sys.log, sys.pending, w.node, b, after.log.journal);
      JournalBacked(sys.log, sys.pending, w.node, b);
      forall m ensures Seen(after.server, sys.pending[w.node := b], m) == Truth(base, after.history, m) {
        JournalBalanced(base, sys, w, path, after.server, m);
      }
      DyingRecovers(base, after, sys.pending[w.node := b]);
    } else {
      FewerLines(sys.log, sys.pending, after.log.journal);
      forall m ensures Seen(after.server, sys.pending, m) == Truth(base, after.history, m) {
        assert Seen(sys.server, sys.pending, m) == Truth(base, sys.history, m);
        assert after.history == sys.history;
      }
      DyingRecovers(base, after, sys.pending);
    }
  }

  lemma FewerLines(log: Log, held: map<NodeId, Buffered>, journal: seq<Entry>)
    requires Mirrors(log, held) && DistinctPaths(log.journal) && AllBacked(log, held)
    requires journal == log.journal || (held == map[] && log.journal != [] && journal == log.journal[..|log.journal| - 1])
    ensures Mirrors(log.(journal := journal), held) && DistinctPaths(journal) && AllBacked(log.(journal := journal), held)
  {
    var after := log.(journal := journal);
    assert forall m, j :: Present(after, m, j) ==> Present(log, m, j);
    if journal == log.journal { assert after == log; }
  }

  lemma JournalInv(chunkSize: int, base: map<NodeId, seq<byte>>, sys: Sys, cut: Cut)
    requires Inv(base, sys) && sys.phase.Created? && Survivable(chunkSize, sys, Journal(cut))
    ensures Inv(base, Next(chunkSize, sys, Journal(cut)))
  {
    var w, path, after := sys.phase.w, sys.phase.path, Next(chunkSize, sys, Journal(cut));
    JournalPaths(sys.log, sys.nextPath, Entry(w.node, w.offset, path), after.log.journal);
    if cut.Whole? {
      JournalMirrors(sys.log, sys.pending, w.node, Buffered(w.offset, w.data, path), after.log.journal);
      forall m ensures Seen(after.server, after.pending, m) == Truth(base, after.history, m) {
        JournalBalanced(base, sys, w, path, after.server, m);
      }
    } else {
      JournalCut(chunkSize, base, sys, cut);
    }
  }

  lemma {:induction false} NothingPresent(log: Log, n: NodeId, j: int)
    requires Pending(log.journal, log.files) == []
    ensures !Present(log, n, j)
    decreases |log.journal|
  {
    if log.journal != [] && j < |log.journal| - 1 {
      NothingPresent(log.(journal := log.journal[..|log.journal| - 1]), n, j);
    }
  }

  /** A mount that finds nothing to replay serves at once, one that does replays it from the start. */
  lemma MountInv(chunkSize: int, base: map<NodeId, seq<byte>>, sys: Sys)
    requires Inv(base, sys) && sys.phase.Down?
    ensures Inv(base, Next(chunkSize, sys, Mount))
  {
    var runs := Pending(sys.log.journal, sys.log.files);
    assert runs[0..] == runs;
    if runs == [] {
      forall n, j ensures !Present(sys.log, n, j) { NothingPresent(sys.log, n, j); }
      forall n ensures Seen(sys.server, sys.pending, n) == Truth(base, sys.history, n) {
        assert Land(Content(sys.server, n), runs, n) == Truth(base, sys.history, n);
      }
    }
  }

  lemma StoreContent(server: map<NodeId, seq<byte>>, w: Write, n: NodeId)
    ensures Content(Store(server, w), n) == if w.node == n then Apply(Content(server, n), w) else Content(server, n)
  {
  }

  lemma ReplayInv(chunkSize: int, base: map<NodeId, seq<byte>>, sys: Sys)
    requires Inv(base, sys) && Enabled(chunkSize, sys, Replay)
    ensures Inv(base, Next(chunkSize, sys, Replay))
  {
    var runs, k := sys.phase.runs, sys.phase.k;
    var after := Next(chunkSize, sys, Replay);
    forall n
      ensures Land(Content(after.server, n), runs[k + 1..], n) == Truth(base, sys.history, n)
      ensures Land(Content(after.server, n), runs, n) == Truth(base, sys.history, n)
    {
      StoreContent(sys.server, runs[k], n);
      assert runs[k..][1..] == runs[k + 1..];
      LandFirst(Content(sys.server, n), runs[k..], n);
      if runs[k].node == n { ReplayAgain(Content(sys.server, n), runs, n, k); }
      assert Land(Content(sys.server, n), runs, n) == Truth(base, sys.history, n);
    }
  }

  lemma ResetInv(chunkSize: int, base: map<NodeId, seq<byte>>, sys: Sys)
    requires Inv(base, sys) && Enabled(chunkSize, sys, Reset)
    ensures Inv(base, Next(chunkSize, sys, Reset))
  {
    var runs := sys.phase.runs;
    assert runs[|runs|..] == [];
    forall n ensures Content(sys.server, n) == Truth(base, sys.history, n) {
      assert Land(Content(sys.server, n), runs[sys.phase.k..], n) == Truth(base, sys.history, n);
    }
  }

  /** Removing files in journal order never brings an older run back over a newer one. */
  lemma UnlinkLand(f: seq<byte>, journal: seq<Entry>, files: map<Path, seq<byte>>, i: nat, n: NodeId)
    requires i < |journal| && DistinctPaths(journal) && (forall j :: 0 <= j < i ==> journal[j].path !in files)
    requires Land(f, Pending(journal, files), n) == f
    ensures Land(f, Pending(journal, files - {journal[i].path}), n) == f
  {
    var runs, left := Pending(journal, files), Pending(journal, files - {journal[i].path});
    RemoveInOrder(journal, files, i);
    if RunOf(journal[i], files) == [] {
      assert left == runs;
    } else {
      assert left == runs[1..];
      FixedByTail(f, runs, n);
    }
  }

  lemma UnlinkInv(chunkSize: int, base: map<NodeId, seq<byte>>, sys: Sys)
    requires Inv(base, sys) && Enabled(chunkSize, sys, Unlink)
    ensures Inv(base, Next(chunkSize, sys, Unlink))
  {
    var after := Next(chunkSize, sys, Unlink);
    forall n ensures Land(Content(after.server, n), Pending(after.log.journal, after.log.files), n) == Truth(base, after.history, n) {
      assert Land(Content(sys.server, n), Pending(sys.log.journal, sys.log.files), n) == Truth(base, sys.history, n);
      UnlinkLand(Content(sys.server, n), sys.log.journal, sys.log.files, sys.phase.i, n);
    }
    forall n ensures Content(after.server, n) == Truth(base, after.history, n) {
      assert Content(sys.server, n) == Truth(base, sys.history, n);
    }
  }

  lemma ClearInv(chunkSize: int, base: map<NodeId, seq<byte>>, sys: Sys)
    requires Inv(base, sys) && Enabled(chunkSize, sys, Clear)
    ensures Inv(base, Next(chunkSize, sys, Clear))
  {
    var after := Next(chunkSize, sys, Clear);
    assert forall n, j :: !Present(after.log, n, j);
    forall n ensures Seen(after.server, after.pending, n) == Truth(base, after.history, n) {
      assert Content(sys.server, n) == Truth(base, sys.history, n);
    }
  }

  lemma AckInv(chunkSize: int, base: map<NodeId, seq<byte>>, sys: Sys)
    requires Inv(base, sys) && Enabled(chunkSize, sys, Ack)
    ensures Inv(base, Next(chunkSize, sys, Ack))
  {
    var after := Next(chunkSize, sys, Ack);
    assert Writes(after.history) == Writes(sys.history);
    forall n ensures Seen(after.server, after.pending, n) == Truth(base, after.history, n) {
      assert Seen(sys.server, sys.pending, n) == Truth(base, sys.history, n);
    }
  }

  lemma CrashInv(chunkSize: int, base: map<NodeId, seq<byte>>, sys: Sys)
    requires Inv(base, sys) && Survivable(chunkSize, sys, Crash)
    ensures Inv(base, Next(chunkSize, sys, Crash))
  {
    if Serving(sys) { ServingRecovers(base, sys); }
    var after := Next(chunkSize, sys, Crash);
    forall n ensures Land(Content(after.server, n), Pending(after.log.journal, after.log.files), n) == Truth(base, after.history, n) {
      assert Land(Content(sys.server, n), Pending(sys.log.journal, sys.log.files), n) == Truth(base, sys.history, n);
    }
  }

  lemma MoveOnInv(chunkSize: int, base: map<NodeId, seq<byte>>, sys: Sys, step: Step)
    requires Inv(base, sys) && Enabled(chunkSize, sys, step) && (step.Begin? || step.Keep?)
    ensures Inv(base, Next(chunkSize, sys, step))
  {
    var after := Next(chunkSize, sys, step);
    forall n ensures Seen(after.server, after.pending, n) == Truth(base, after.history, n) {
      assert Seen(sys.server, sys.pending, n) == Truth(base, sys.history, n);
    }
  }

  lemma StepInv(chunkSize: int, base: map<NodeId, seq<byte>>, sys: Sys, step: Step)
    requires Inv(base, sys) && Enabled(chunkSize, sys, step) && Survivable(chunkSize, sys, step)
    ensures Inv(base, Next(chunkSize, sys, step))
  {
    match step
    case Begin(_) => MoveOnInv(chunkSize, base, sys, step);
    case Extend(k) => ExtendInv(chunkSize, base, sys, k);
    case SendBroken => SendInv(base, sys, sys.phase.w.node, Restart(sys.phase.w));
    case Create(k) => CreateInv(chunkSize, base, sys, k);
    case Journal(cut) => JournalInv(chunkSize, base, sys, cut);
    case SendFull => SendInv(base, sys, sys.phase.w.node, Finish(sys.phase.w));
    case Keep => MoveOnInv(chunkSize, base, sys, step);
    case Flush(n) => SendInv(base, sys, n, Return);
    case Drop => DropInv(chunkSize, base, sys);
    case Ack => AckInv(chunkSize, base, sys);
    case Crash => CrashInv(chunkSize, base, sys);
    case Mount => MountInv(chunkSize, base, sys);
    case Replay => ReplayInv(chunkSize, base, sys);
    case Reset => ResetInv(chunkSize, base, sys);
    case Unlink => UnlinkInv(chunkSize, base, sys);
    case Clear => ClearInv(chunkSize, base, sys);
  }

  // ----- runs -----

  predicate Legal(chunkSize: int, sys: Sys, run: seq<Step>)
    decreases |run|
  {
    run == [] || (Enabled(chunkSize, sys, run[0]) && Legal(chunkSize, Next(chunkSize, sys, run[0]), run[1..]))
  }

  function Run(chunkSize: int, sys: Sys, run: seq<Step>): Sys
    requires Legal(chunkSize, sys, run)
    decreases |run|
  {
    if run == [] then sys else Run(chunkSize, Next(chunkSize, sys, run[0]), run[1..])
  }

  function Start(base: map<NodeId, seq<byte>>): Sys {
    Sys(base, Log([], map[]), Ended, 0, map[], Down, [], 0)
  }

  /** No death in the run finds a buffered run without a line. */
  ghost predicate Covered(chunkSize: int, sys: Sys, run: seq<Step>)
    requires Legal(chunkSize, sys, run)
    decreases |run|
  {
    run == [] || (Survivable(chunkSize, sys, run[0]) && Covered(chunkSize, Next(chunkSize, sys, run[0]), run[1..]))
  }

  lemma {:induction false} RunInv(chunkSize: int, base: map<NodeId, seq<byte>>, sys: Sys, run: seq<Step>)
    requires Inv(base, sys) && Legal(chunkSize, sys, run) && Covered(chunkSize, sys, run)
    ensures Inv(base, Run(chunkSize, sys, run))
    decreases |run|
  {
    if run != [] {
      StepInv(chunkSize, base, sys, run[0]);
      RunInv(chunkSize, base, Next(chunkSize, sys, run[0]), run[1..]);
    }
  }

  // ----- acknowledged writes -----

  /** The writes whose callers were told they succeeded, in order. */
  function Acks(chunkSize: int, sys: Sys, run: seq<Step>): seq<Write>
    requires Legal(chunkSize, sys, run)
    decreases |run|
  {
    if run == [] then []
    else (if run[0].Ack? then [sys.phase.w] else []) + Acks(chunkSize, Next(chunkSize, sys, run[0]), run[1..])
  }

  function AckedOf(history: seq<Landed>): seq<Write> {
    if history == [] then []
    else
      var l := history[|history| - 1];
      AckedOf(history[..|history| - 1]) + if l.acked then [l.write] else []
  }

  /** How many writes landed without being acknowledged. */
  function Lost(history: seq<Landed>): nat {
    if history == [] then 0
    else Lost(history[..|history| - 1]) + if history[|history| - 1].acked then 0 else 1
  }

  /** The write whose acknowledgement is still owed. */
  function Owed(phase: Phase): Option<Write> {
    match phase
    case Recorded(w) => Some(w)
    case Done(w) => Some(w)
    case Sent(_, _, Finish(w)) => Some(w)
    case _ => None
  }

  ghost predicate Accounted(sys: Sys) {
    && (Owed(sys.phase).Some? ==> sys.history != [] && sys.history[|sys.history| - 1] == Landed(Owed(sys.phase).value, false))
    && Lost(sys.history) <= sys.crashes + if Owed(sys.phase).Some? || sys.phase.Dying? then 1 else 0
  }

  lemma OneMore(history: seq<Landed>, l: Landed)
    ensures AckedOf(history + [l]) == AckedOf(history) + if l.acked then [l.write] else []
    ensures Lost(history + [l]) == Lost(history) + if l.acked then 0 else 1
  {
    assert (history + [l])[..|history|] == history;
  }

  lemma LastAcked(history: seq<Landed>)
    requires history != [] && !history[|history| - 1].acked
    ensures var last := |history| - 1; var after := history[last := history[last].(acked := true)];
            AckedOf(after) == AckedOf(history) + [history[last].write] && Lost(after) == Lost(history) - 1
  {
    var last := |history| - 1;
    assert history[last := history[last].(acked := true)][..last] == history[..last];
  }

  /** A write lands: one more is owed, or the process is about to die. */
  lemma LandingAccounted(sys: Sys, l: Landed, next: Sys)
    requires Accounted(sys) && Owed(sys.phase).None? && !sys.phase.Dying? && !l.acked
    requires next.history == sys.history + [l] && next.crashes == sys.crashes
    requires next.phase == Recorded(l.write) || next.phase == Dying
    ensures Accounted(next) && AckedOf(next.history) == AckedOf(sys.history)
  {
    OneMore(sys.history, l);
  }

  lemma QuietAccounted(chunkSize: int, sys: Sys, step: Step)
    requires Accounted(sys) && Enabled(chunkSize, sys, step) && !(step.Extend? || step.Ack?) && (step.Journal? ==> !step.cut.Whole? && !Next(chunkSize, sys, step).tail.Unended?)
    ensures Accounted(Next(chunkSize, sys, step)) && Next(chunkSize, sys, step).history == sys.history
  {
  }

  lemma StepAccounted(chunkSize: int, sys: Sys, step: Step)
    requires Accounted(sys) && Enabled(chunkSize, sys, step)
    ensures Accounted(Next(chunkSize, sys, step))
    ensures AckedOf(Next(chunkSize, sys, step).history) == AckedOf(sys.history) + if step.Ack? then [sys.phase.w] else []
  {
    var next := Next(chunkSize, sys, step);
    match step
    case Extend(k) =>
      var w := sys.phase.w;
      LandingAccounted(sys, if k < |w.data| then Landed(w.(data := w.data[..k]), false) else Landed(w, false), next);
    case Journal(cut) =>
      if cut.Whole? || next.tail.Unended? { LandingAccounted(sys, Landed(sys.phase.w, false), next); } else { QuietAccounted(chunkSize, sys, step); }
    case Ack => LastAcked(sys.history);
    case _ => QuietAccounted(chunkSize, sys, step);
  }

  lemma {:induction false} RunAccounted(chunkSize: int, sys: Sys, run: seq<Step>)
    requires Accounted(sys) && Legal(chunkSize, sys, run)
    ensures Accounted(Run(chunkSize, sys, run))
    ensures AckedOf(Run(chunkSize, sys, run).history) == AckedOf(sys.history) + Acks(chunkSize, sys, run)
    decreases |run|
  {
    if run != [] {
      StepAccounted(chunkSize, sys, run[0]);
      RunAccounted(chunkSize, Next(chunkSize, sys, run[0]), run[1..]);
    }
  }

  // ----- what lands is what was begun -----

  /** The writes a run begins, in order. */
  function BegunBy(run: seq<Step>): seq<Write> {
    if run == [] then [] else (if run[0].Begin? then [run[0].w] else []) + BegunBy(run[1..])
  }

  /** What landed is the write from its start up to some byte, in its place, and all of it if acknowledged. */
  predicate PieceOf(l: Landed, w: Write) {
    l.write.node == w.node && l.write.offset == w.offset && l.write.data <= w.data && (l.acked ==> l.write == w)
  }

  /** The landed writes are pieces of begun ones, in the order they were begun, none of them twice. */
  predicate PiecesOf(history: seq<Landed>, begun: seq<Write>)
    decreases |begun|
  {
    if begun == [] then history == []
    else
      var last, rest := begun[|begun| - 1], begun[..|begun| - 1];
      PiecesOf(history, rest) ||
      (history != [] && PieceOf(history[|history| - 1], last) && PiecesOf(history[..|history| - 1], rest))
  }

  lemma PiecesLand(history: seq<Landed>, begun: seq<Write>, l: Landed, w: Write)
    requires PiecesOf(history, begun) && PieceOf(l, w)
    ensures PiecesOf(history + [l], begun + [w])
  {
    assert (begun + [w])[..|begun|] == begun && (history + [l])[..|history|] == history;
  }

  /** The write an operation has begun and not landed. */
  function Unlanded(phase: Phase): Option<Write> {
    match phase
    case Started(w) => Some(w)
    case Created(w, _) => Some(w)
    case Sent(_, _, Restart(w)) => Some(w)
    case _ => None
  }

  /** All begun writes but the last are accounted for; the last is still to land, or has landed and is owed its
      acknowledgement, or is accounted for too. */
  ghost predicate InOrder(sys: Sys, begun: seq<Write>) {
    if Unlanded(sys.phase).Some? || Owed(sys.phase).Some? then
      && begun != []
      && var last, rest := begun[|begun| - 1], begun[..|begun| - 1];
         if Unlanded(sys.phase).Some? then last == Unlanded(sys.phase).value && PiecesOf(sys.history, rest)
         else
           && last == Owed(sys.phase).value && sys.history != []
           && sys.history[|sys.history| - 1] == Landed(last, false) && PiecesOf(sys.history[..|sys.history| - 1], rest)
    else PiecesOf(sys.history, begun)
  }

  lemma InOrderPieces(sys: Sys, begun: seq<Write>)
    requires InOrder(sys, begun)
    ensures PiecesOf(sys.history, begun)
  {
  }

  lemma LandingInOrder(sys: Sys, begun: seq<Write>, l: Landed, next: Sys)
    requires InOrder(sys, begun) && Unlanded(sys.phase).Some? && PieceOf(l, Unlanded(sys.phase).value) && !l.acked
    requires next.history == sys.history + [l] && (next.phase == Dying || (next.phase == Recorded(l.write) && l.write == Unlanded(sys.phase).value))
    ensures InOrder(next, begun)
  {
    var rest := begun[..|begun| - 1];
    assert begun == rest + [begun[|begun| - 1]];
    PiecesLand(sys.history, rest, l, begun[|begun| - 1]);
    assert (sys.history + [l])[..|sys.history|] == sys.history;
  }

  lemma AckInOrder(sys: Sys, begun: seq<Write>, next: Sys)
    requires InOrder(sys, begun) && sys.phase.Done? && next.phase == Ready
    requires sys.history != [] && next.history == sys.history[|sys.history| - 1 := sys.history[|sys.history| - 1].(acked := true)]
    ensures InOrder(next, begun)
  {
    var last, rest, earlier := begun[|begun| - 1], begun[..|begun| - 1], sys.history[..|sys.history| - 1];
    assert begun == rest + [last] && next.history == earlier + [Landed(last, true)];
    PiecesLand(earlier, rest, Landed(last, true), last);
  }

  lemma StepInOrder(chunkSize: int, sys: Sys, step: Step, begun: seq<Write>)
    requires InOrder(sys, begun) && Enabled(chunkSize, sys, step)
    ensures InOrder(Next(chunkSize, sys, step), begun + if step.Begin? then [step.w] else [])
  {
    var next := Next(chunkSize, sys, step);
    InOrderPieces(sys, begun);
    assert begun + [] == begun;
    match step
    case Begin(w) => assert (begun + [w])[..|begun|] == begun;
    case Extend(k) =>
      var w := sys.phase.w;
      LandingInOrder(sys, begun, if k < |w.data| then Landed(w.(data := w.data[..k]), false) else Landed(w, false), next);
    case Journal(cut) =>
      if cut.Whole? || next.tail.Unended? { LandingInOrder(sys, begun, Landed(sys.phase.w, false), next); }
    case Ack => AckInOrder(sys, begun, next);
    case _ =>
  }

  lemma BegunFirst(begun: seq<Write>, run: seq<Step>)
    requires run != []
    ensures begun + BegunBy(run) == begun + (if run[0].Begin? then [run[0].w] else []) + BegunBy(run[1..])
  {
  }

  lemma {:induction false} RunInOrder(chunkSize: int, sys: Sys, run: seq<Step>, begun: seq<Write>)
    requires InOrder(sys, begun) && Legal(chunkSize, sys, run)
    ensures InOrder(Run(chunkSize, sys, run), begun + BegunBy(run))
    decreases |run|
  {
    if run == [] {
      assert begun + BegunBy(run) == begun;
    } else {
      StepInOrder(chunkSize, sys, run[0], begun);
      RunInOrder(chunkSize, Next(chunkSize, sys, run[0]), run[1..], begun + if run[0].Begin? then [run[0].w] else []);
      BegunFirst(begun, run);
    }
  }

  // ----- following a process step by step -----

  /** `sys` is where the run has got to, and no death in it found a buffered run without a line. */
  ghost predicate Reached(chunkSize: int, base: map<NodeId, seq<byte>>, trace: seq<Step>, sys: Sys) {
    Legal(chunkSize, Start(base), trace) && Covered(chunkSize, Start(base), trace) && Run(chunkSize, Start(base), trace) == sys
  }

  lemma {:induction false} RunSnoc(chunkSize: int, sys: Sys, run: seq<Step>, step: Step)
    requires Legal(chunkSize, sys, run) && Enabled(chunkSize, Run(chunkSize, sys, run), step)
    ensures Legal(chunkSize, sys, run + [step])
    ensures Run(chunkSize, sys, run + [step]) == Next(chunkSize, Run(chunkSize, sys, run), step)
    ensures Covered(chunkSize, sys, run + [step]) <==> Covered(chunkSize, sys, run) && Survivable(chunkSize, Run(chunkSize, sys, run), step)
    decreases |run|
  {
    if run == [] {
      assert (run + [step])[1..] == [];
    } else {
      assert (run + [step])[1..] == run[1..] + [step];
      RunSnoc(chunkSize, Next(chunkSize, sys, run[0]), run[1..], step);
    }
  }

  lemma Follow(chunkSize: int, base: map<NodeId, seq<byte>>, trace: seq<Step>, sys: Sys, step: Step)
    requires Reached(chunkSize, base, trace, sys) && Enabled(chunkSize, sys, step) && Survivable(chunkSize, sys, step)
    ensures Reached(chunkSize, base, trace + [step], Next(chunkSize, sys, step))
  {
    RunSnoc(chunkSize, Start(base), trace, step);
  }

  /** The file whose buffered run a step sends, and where the operation goes on afterwards. */
  function SentBy(sys: Sys, step: Step): Option<(NodeId, Onward)> {
    match step
    case SendBroken => if sys.phase.Started? then Some((sys.phase.w.node, Restart(sys.phase.w))) else None
    case SendFull => if sys.phase.Recorded? then Some((sys.phase.w.node, Finish(sys.phase.w))) else None
    case Flush(n) => Some((n, Return))
    case _ => None
  }

  lemma NextSends(chunkSize: int, sys: Sys, step: Step, n: NodeId, next: Onward)
    requires Enabled(chunkSize, sys, step) && SentBy(sys, step) == Some((n, next))
    ensures n in sys.pending && Next(chunkSize, sys, step) == Send(sys, n, next)
  {
  }

  /** A buffered run with a write appended, in memory and in its file. */
  function Appended(sys: Sys, w: Write): Sys
    requires w.node in sys.pending
  {
    var b := sys.pending[w.node];
    sys.(log := if b.path in sys.log.files then sys.log.(files := sys.log.files[b.path := sys.log.files[b.path] + w.data]) else sys.log,
         pending := sys.pending[w.node := b.(data := b.data + w.data)],
         phase := Recorded(w), history := sys.history + [Landed(w, false)])
  }

  lemma NextAppends(chunkSize: int, sys: Sys, w: Write)
    requires sys.phase == Started(w) && Continues(sys.pending, w)
    ensures Next(chunkSize, sys, Extend(|w.data|)) == Appended(sys, w)
  {
    assert w.data[..|w.data|] == w.data;
  }

  lemma NextCreates(chunkSize: int, sys: Sys, w: Write)
    requires sys.phase == Started(w) && w.node !in sys.pending
    ensures Next(chunkSize, sys, Create(|w.data|)) ==
            sys.(log := sys.log.(files := sys.log.files[Path(sys.nextPath) := w.data]), nextPath := sys.nextPath + 1,
                 phase := Created(w, Path(sys.nextPath)))
  {
    assert w.data[..|w.data|] == w.data;
  }

  lemma NextAcks(chunkSize: int, sys: Sys, w: Write, earlier: seq<Landed>)
    requires sys.phase == Done(w) && sys.history == earlier + [Landed(w, false)]
    ensures Enabled(chunkSize, sys, Ack)
    ensures Next(chunkSize, sys, Ack) == sys.(phase := Ready, history := earlier + [Landed(w, true)])
  {
    assert sys.history[|earlier| := Landed(w, true)] == earlier + [Landed(w, true)];
  }

  // ----- which deaths lose a write -----

  /** No line is written to a journal that does not end in a newline. */
  predicate Tidy(chunkSize: int, sys: Sys, run: seq<Step>)
    requires Legal(chunkSize, sys, run)
    decreases |run|
  {
    run == [] || ((run[0].Journal? ==> sys.tail.Ended?) && Tidy(chunkSize, Next(chunkSize, sys, run[0]), run[1..]))
  }

  lemma HeldKept(chunkSize: int, base: map<NodeId, seq<byte>>, sys: Sys, step: Step)
    requires PhaseOk(base, sys) && Enabled(chunkSize, sys, step) && Serving(sys) && Serving(Next(chunkSize, sys, step)) && !step.Journal?
    ensures var after := Next(chunkSize, sys, step); after.log.journal == sys.log.journal && SameLines(Held(sys), Held(after))
  {
  }

  lemma StartsEmpty(chunkSize: int, base: map<NodeId, seq<byte>>, sys: Sys, step: Step)
    requires PhaseOk(base, sys) && Enabled(chunkSize, sys, step) && !Serving(sys) && Serving(Next(chunkSize, sys, step))
    ensures Held(Next(chunkSize, sys, step)) == map[]
  {
  }

  lemma StepBacked(chunkSize: int, base: map<NodeId, seq<byte>>, sys: Sys, step: Step)
    requires Inv(base, sys) && Enabled(chunkSize, sys, step) && (Serving(sys) ==> AllBacked(sys.log, Held(sys)))
    requires step.Journal? ==> sys.tail.Ended?
    ensures var after := Next(chunkSize, sys, step); Serving(after) ==> AllBacked(after.log, Held(after))
  {
    var after := Next(chunkSize, sys, step);
    if step.Journal? {
      if step.cut.Whole? { JournalBacked(sys.log, sys.pending, sys.phase.w.node, Buffered(sys.phase.w.offset, sys.phase.w.data, sys.phase.path)); }
    } else if Serving(after) {
      if Serving(sys) {
        HeldKept(chunkSize, base, sys, step);
        SameBacking(sys.log, after.log, Held(sys), Held(after));
      } else {
        StartsEmpty(chunkSize, base, sys, step);
      }
    }
  }

  /** So no death loses anything as long as no line follows an unfinished one. */
  lemma {:induction false} TidyIsCovered(chunkSize: int, base: map<NodeId, seq<byte>>, sys: Sys, run: seq<Step>)
    requires Inv(base, sys) && Legal(chunkSize, sys, run) && (Serving(sys) ==> AllBacked(sys.log, Held(sys)))
    requires Tidy(chunkSize, sys, run)
    ensures Covered(chunkSize, sys, run)
    decreases |run|
  {
    if run != [] {
      StepInv(chunkSize, base, sys, run[0]);
      StepBacked(chunkSize, base, sys, run[0]);
      TidyIsCovered(chunkSize, base, Next(chunkSize, sys, run[0]), run[1..]);
    }
  }

  /** Whatever crashes and cut-off recoveries there were: the writes that landed are pieces of the writes that were
      begun, in that order; the acknowledged ones among them are exactly the acknowledged writes, each in full, and
      there is at most one more per crash. Whenever the process serves again, every file is what these writes make
      it, in order, unless a death found a buffered run without a line; and none does as long as no line follows an
      unfinished one. */
  lemma AcknowledgedWritesSurvive(chunkSize: int, base: map<NodeId, seq<byte>>, run: seq<Step>, n: NodeId)
    requires Legal(chunkSize, Start(base), run) && Run(chunkSize, Start(base), run).phase.Ready?
    ensures var end := Run(chunkSize, Start(base), run);
            && PiecesOf(end.history, BegunBy(run))
            && AckedOf(end.history) == Acks(chunkSize, Start(base), run)
            && Lost(end.history) <= end.crashes
            && (Covered(chunkSize, Start(base), run) ==>
                  Seen(end.server, end.pending, n) == Land(Content(base, n), Writes(end.history), n))
    ensures Tidy(chunkSize, Start(base), run) ==> Covered(chunkSize, Start(base), run)
  {
    RunAccounted(chunkSize, Start(base), run);
    RunInOrder(chunkSize, Start(base), run, []);
    assert [] + BegunBy(run) == BegunBy(run);
    if Tidy(chunkSize, Start(base), run) { TidyIsCovered(chunkSize, base, Start(base), run); }
    if Covered(chunkSize, Start(base), run) {
      RunInv(chunkSize, base, Start(base), run);
      var end := Run(chunkSize, Start(base), run);
      assert Seen(end.server, end.pending, n) == Truth(base, end.history, n);
    }
  }

  /** The process once a write has opened a run and has been acknowledged. */
  function Accepted(sys: Sys, w: Write): Sys {
    var b := Buffered(w.offset, w.data, Path(sys.nextPath));
    var (journal, tail) := Lined(sys.log.journal, sys.tail, Entry(w.node, b.offset, b.path), Whole);
    sys.(log := Log(journal, sys.log.files[b.path := w.data]), tail := tail, nextPath := sys.nextPath + 1,
         pending := sys.pending[w.node := b], history := sys.history + [Landed(w, true)])
  }

  function AcceptSteps(w: Write): seq<Step> {
    [Begin(w), Create(|w.data|), Journal(Whole), Keep, Ack]
  }

  /** The run of the write is the only one without a line, and it has none exactly if the journal was unfinished. */
  lemma LinedBacked(log: Log, tail: Tail, held: map<NodeId, Buffered>, n: NodeId, b: Buffered)
    requires AllBacked(log, held) && (!tail.Ended? ==> held == map[])
    requires forall j :: 0 <= j < |log.journal| ==> log.journal[j].path != b.path
    ensures var after := log.(journal := Lined(log.journal, tail, Entry(n, b.offset, b.path), Whole).0);
            && (forall m :: m in held && m != n ==> Backed(after, m, held[m]))
            && (Backed(after, n, b) <==> tail.Ended?)
  {
    var after := log.(journal := Lined(log.journal, tail, Entry(n, b.offset, b.path), Whole).0);
    if tail.Ended? {
      JournalBacked(log, held, n, b);
      forall m | m in held && m != n ensures Backed(after, m, held[m]) { assert Backed(after, m, held[n := b][m]); }
      assert Backed(after, n, held[n := b][n]);
    }
  }

  /** The write is in the log and in the buffer, and not acknowledged yet. */
  function Noted(sys: Sys, w: Write): Sys {
    Accepted(sys, w).(phase := Recorded(w), history := sys.history + [Landed(w, false)])
  }

  lemma FollowNote(chunkSize: int, base: map<NodeId, seq<byte>>, trace: seq<Step>, sys: Sys, w: Write)
    requires Reached(chunkSize, base, trace, sys) && sys.phase.Ready? && w.node !in sys.pending
    ensures Reached(chunkSize, base, trace + [Begin(w)] + [Create(|w.data|)] + [Journal(Whole)], Noted(sys, w))
  {
    var s1 := Next(chunkSize, sys, Begin(w));
    Follow(chunkSize, base, trace, sys, Begin(w));
    NextCreates(chunkSize, s1, w);
    var s2 := Next(chunkSize, s1, Create(|w.data|));
    Follow(chunkSize, base, trace + [Begin(w)], s1, Create(|w.data|));
    Follow(chunkSize, base, trace + [Begin(w)] + [Create(|w.data|)], s2, Journal(Whole));
  }

  lemma FollowAccept(chunkSize: int, base: map<NodeId, seq<byte>>, trace: seq<Step>, sys: Sys, w: Write)
    requires Reached(chunkSize, base, trace, sys) && sys.phase.Ready?
    requires w.node !in sys.pending && !Buffered(w.offset, w.data, Path(sys.nextPath)).Full(chunkSize)
    ensures Reached(chunkSize, base, trace + AcceptSteps(w), Accepted(sys, w))
  {
    var noted := trace + [Begin(w)] + [Create(|w.data|)] + [Journal(Whole)];
    FollowNote(chunkSize, base, trace, sys, w);
    var kept := Next(chunkSize, Noted(sys, w), Keep);
    Follow(chunkSize, base, noted, Noted(sys, w), Keep);
    NextAcks(chunkSize, kept, w, sys.history);
    Follow(chunkSize, base, noted + [Keep], kept, Ack);
    assert noted + [Keep] + [Ack] == trace + AcceptSteps(w);
  }

  lemma ReachedInv(chunkSize: int, base: map<NodeId, seq<byte>>, trace: seq<Step>, sys: Sys)
    requires Reached(chunkSize, base, trace, sys)
    ensures Inv(base, sys)
  {
    RunInv(chunkSize, base, Start(base), trace);
  }

  /** Wherever a process serves with every run backed: a write that opens a run and is acknowledged is lost with the
      process exactly if the journal did not end in a newline and the write is news to the server. */
  lemma LostExactly(chunkSize: int, base: map<NodeId, seq<byte>>, trace: seq<Step>, sys: Sys, w: Write)
    requires Reached(chunkSize, base, trace, sys) && sys.phase.Ready?
    requires AllBacked(sys.log, sys.pending) && w.node !in sys.pending && !Buffered(w.offset, w.data, Path(sys.nextPath)).Full(chunkSize)
    ensures Reached(chunkSize, base, trace + AcceptSteps(w), Accepted(sys, w))
    ensures Recoverable(base, Next(chunkSize, Accepted(sys, w), Crash)) <==>
            sys.tail.Ended? || Apply(Content(sys.server, w.node), w) == Content(sys.server, w.node)
  {
    var after, b := Accepted(sys, w), Buffered(w.offset, w.data, Path(sys.nextPath));
    FollowAccept(chunkSize, base, trace, sys, w);
    ReachedInv(chunkSize, base, trace + AcceptSteps(w), after);
    ReachedInv(chunkSize, base, trace, sys);
    LinedBacked(sys.log, sys.tail, sys.pending, w.node, b);
    ServingRecovers(base, after);
    SameRecoverable(base, after, Next(chunkSize, after, Crash));
    assert Backed(after.log, w.node, b) <==> sys.tail.Ended?;
  }

  lemma SameRecoverable(base: map<NodeId, seq<byte>>, a: Sys, b: Sys)
    requires a.server == b.server && a.log == b.log && a.history == b.history
    ensures Recoverable(base, a) <==> Recoverable(base, b)
  {
  }

  // ----- a run that loses an acknowledged write -----

  const F: NodeId := NodeId(0)
  const FIRST: Write := Write(F, 0, [1])
  const SECOND: Write := Write(F, 0, [7])
  const LINE: Entry := Entry(F, 0, Path(0))

  /** The process has died on the newline of its first journal line. */
  const NO_NEWLINE: Sys :=
    Sys(map[], Log([LINE], map[Path(0) := [1]]), Unended, 1, map[], Down, [Landed(FIRST, false)], 1)

  /** Recovery was cut off before it cleared the journal, and the next mount found nothing to do. */
  const NOTHING_TO_DO: Sys :=
    Sys(map[F := [1]], Log([LINE], map[]), Unended, 1, map[], Ready, [Landed(FIRST, false)], 2)

  lemma DiesOnNewline() returns (trace: seq<Step>)
    ensures Reached(0, map[], trace, NO_NEWLINE)
  {
    var s := Start(map[]);
    trace := [];
    Follow(0, map[], trace, s, Mount);
    trace, s := trace + [Mount], Next(0, s, Mount);
    Follow(0, map[], trace, s, Begin(FIRST));
    trace, s := trace + [Begin(FIRST)], Next(0, s, Begin(FIRST));
    NextCreates(0, s, FIRST);
    Follow(0, map[], trace, s, Create(1));
    trace, s := trace + [Create(1)], Next(0, s, Create(1));
    Follow(0, map[], trace, s, Journal(NoNewline));
    trace, s := trace + [Journal(NoNewline)], Next(0, s, Journal(NoNewline));
    assert s.log.journal == [LINE] && s.history == [Landed(FIRST, false)];
    Follow(0, map[], trace, s, Crash);
    trace := trace + [Crash];
  }

  const REPLAYED: Sys :=
    Sys(map[F := [1]], Log([LINE], map[Path(0) := [1]]), Unended, 1, map[], Replaying([FIRST], 1), [Landed(FIRST, false)], 1)

  lemma LinePending()
    ensures Pending([LINE], map[Path(0) := [1]]) == [FIRST] && Pending([LINE], map[]) == []
  {
    assert [LINE][..0] == [];
  }

  lemma RecoveryReplays(before: seq<Step>) returns (trace: seq<Step>)
    requires Reached(0, map[], before, NO_NEWLINE)
    ensures Reached(0, map[], trace, REPLAYED)
  {
    LinePending();
    Follow(0, map[], before, NO_NEWLINE, Mount);
    var s := Next(0, NO_NEWLINE, Mount);
    assert s == NO_NEWLINE.(phase := Replaying([FIRST], 0));
    Follow(0, map[], before + [Mount], s, Replay);
    assert FlatWrite([], 0, [1]) == [1];
    trace := before + [Mount] + [Replay];
  }

  lemma RecoveryCutOff(before: seq<Step>) returns (trace: seq<Step>)
    requires Reached(0, map[], before, REPLAYED)
    ensures Reached(0, map[], trace, NOTHING_TO_DO)
  {
    var s := REPLAYED;
    Follow(0, map[], before, s, Reset);
    trace, s := before + [Reset], Next(0, s, Reset);
    Follow(0, map[], trace, s, Unlink);
    trace, s := trace + [Unlink], Next(0, s, Unlink);
    assert s.log == Log([LINE], map[]);
    Follow(0, map[], trace, s, Crash);
    trace, s := trace + [Crash], Next(0, s, Crash);
    LinePending();
    Follow(0, map[], trace, s, Mount);
    trace := trace + [Mount];
  }

  /** A second write was recorded on the unfinished line, and acknowledged. */
  const ACKNOWLEDGED: Sys :=
    Sys(map[F := [1]], Log([], map[Path(1) := [7]]), Ended, 2, map[F := Buffered(0, [7], Path(1))], Ready,
        [Landed(FIRST, false)] + [Landed(SECOND, true)], 2)

  lemma RecordedOnUnfinished(before: seq<Step>) returns (trace: seq<Step>)
    requires Reached(0, map[], before, NOTHING_TO_DO)
    ensures Reached(0, map[], trace, ACKNOWLEDGED)
  {
    FollowAccept(0, map[], before, NOTHING_TO_DO, SECOND);
    trace := before + AcceptSteps(SECOND);
    assert [LINE][..0] == [];
    assert Accepted(NOTHING_TO_DO, SECOND) == ACKNOWLEDGED;
  }

  lemma DiesAndComesBack(trace: seq<Step>)
    requires Reached(0, map[], trace, ACKNOWLEDGED)
    ensures Legal(0, Start(map[]), trace + [Crash] + [Mount])
    ensures Run(0, Start(map[]), trace + [Crash] + [Mount]) == ACKNOWLEDGED.(pending := map[], crashes := 3)
  {
    RunSnoc(0, Start(map[]), trace, Crash);
    RunSnoc(0, Start(map[]), trace + [Crash], Mount);
  }

  /** An acknowledged write that no later mount brings back: the file is `[1]`, and should be `[7]`. */
  lemma NewlineLosesWrite() returns (run: seq<Step>)
    ensures Legal(0, Start(map[]), run) && Acks(0, Start(map[]), run) == [SECOND]
    ensures var end := Run(0, Start(map[]), run);
            end.phase == Ready && end.pending == map[] && Content(end.server, F) == [1] && Truth(map[], end.history, F) == [7]
  {
    var before := DiesOnNewline();
    before := RecoveryReplays(before);
    before := RecoveryCutOff(before);
    before := RecordedOnUnfinished(before);
    DiesAndComesBack(before);
    run := before + [Crash] + [Mount];
    RunAccounted(0, Start(map[]), run);
    LastTwo(Landed(FIRST, false), Landed(SECOND, true));
    assert [] + Acks(0, Start(map[]), run) == Acks(0, Start(map[]), run);
  }

  lemma LastTwo(a: Landed, b: Landed)
    requires a == Landed(FIRST, false) && b == Landed(SECOND, true)
    ensures AckedOf([a] + [b]) == [SECOND] && Truth(map[], [a] + [b], F) == [7]
  {
    OneMore([], a);
    OneMore([a], b);
    assert [] + [a] == [a];
    TruthMore(map[], [], a, F);
    TruthMore(map[], [a], b, F);
  }

  /** Where a process serves, each file is what the writes that landed make it. */
  lemma ReadyFiles(chunkSize: int, base: map<NodeId, seq<byte>>, trace: seq<Step>, sys: Sys, n: NodeId)
    requires Reached(chunkSize, base, trace, sys) && sys.phase.Ready?
    ensures Seen(sys.server, sys.pending, n) == Truth(base, sys.history, n)
  {
    RunInv(chunkSize, base, Start(base), trace);
    assert Balanced(base, sys);
  }

  lemma AllReady(chunkSize: int, base: map<NodeId, seq<byte>>, trace: seq<Step>, sys: Sys)
    requires Reached(chunkSize, base, trace, sys) && sys.phase.Ready?
    ensures forall n :: n !in sys.pending ==> Content(sys.server, n) == Truth(base, sys.history, n)
  {
    forall n | n !in sys.pending ensures Content(sys.server, n) == Truth(base, sys.history, n) { ReadyFiles(chunkSize, base, trace, sys, n); }
  }

  /** A file is at least as long as every write to it reaches. */
  lemma TruthCovers(base: map<NodeId, seq<byte>>, history: seq<Landed>, k: nat)
    requires k < |history| && history[k].write.data != []
    ensures history[k].write.End() <= |Truth(base, history, history[k].write.node)|
  {
    var w := history[k].write;
    assert Writes(history)[k] == w;
    NotCovered(Writes(history), w.node, 0, k);
    LandAt(Content(base, w.node), Writes(history), w.node, 0);
  }
}
