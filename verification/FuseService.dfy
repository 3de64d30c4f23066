/** The mounted filesystem's write buffer: inodes, coalesced runs, the durable log and recovery.

    Every effect on the buffer, the log or the server is one step of the run in CrashRecovery, recorded
    in `trace`; a process that dies after any of them is that run with a crash added. */
module FuseService {
  import opened Bytes
  import opened Records
  import opened WriteLog
  import opened CrashRecovery

  datatype Ino = Ino(number: int)

  datatype ClientError = Missing

  // ----- the log -----

  class RunLog {
    var journal: seq<Entry>
    var files: map<Path, seq<byte>>
    var nextPath: int
    /** How the journal file ends. */
    var tail: Tail

    constructor ()
      ensures Contents() == Log([], map[]) && tail == Ended && nextPath == 0
    {
      journal, files, nextPath, tail := [], map[], 0, Ended;
    }

    function Contents(): Log
      reads this
    {
      Log(journal, files)
    }

    /** Put a run's bytes into a new file. */
    method CreateFile(data: seq<byte>) returns (path: Path)
      modifies this
      ensures path == Path(old(nextPath)) && nextPath == old(nextPath) + 1 && tail == old(tail)
      ensures Contents() == old(Contents()).(files := old(files)[path := data])
    {
      path := Path(nextPath);
      nextPath := nextPath + 1;
      files := files[path := data];
    }

    /** Append a whole line; what the journal lacked a newline after is swallowed together with it. */
    method RecordDirty(entry: Entry)
      modifies this
      ensures nextPath == old(nextPath) && files == old(files) && (journal, tail) == Lined(old(journal), old(tail), entry, Whole)
    {
      match tail {
        case Ended => journal := journal + [entry];
        case Unended => journal := journal[..Max(0, |journal| - 1)];
        case Fragment =>
      }
      tail := Ended;
    }

    method Extend(path: Path, data: seq<byte>)
      modifies this
      ensures nextPath == old(nextPath) && tail == old(tail)
      ensures Contents() == if path in old(files) then old(Contents()).(files := old(files)[path := old(files)[path] + data]) else old(Contents())
    {
      if path in files { files := files[path := files[path] + data]; }
    }

    method Finish(path: Path)
      modifies this
      ensures nextPath == old(nextPath) && tail == old(tail) && Contents() == Remove(old(Contents()), path)
    {
      files := files - {path};
    }

    /** The journal's lines whose files still hold something, in journal order. */
    method TakePending() returns (runs: seq<Write>)
      ensures runs == Pending(journal, files)
    {
      runs := [];
      for i := 0 to |journal|
        invariant runs == Pending(journal[..i], files)
      {
        assert journal[..i + 1][..i] == journal[..i];
        var entry := journal[i];
        if entry.path in files && files[entry.path] != [] {
          runs := runs + [Write(entry.node, entry.offset, files[entry.path])];
        }
      }
      assert journal[..|journal|] == journal;
    }

    method ClearJournal()
      modifies this
      ensures nextPath == old(nextPath) && tail == Ended && Contents() == old(Contents()).(journal := [])
    {
      journal, tail := [], Ended;
    }
  }

  // ----- inodes -----

  /** Inode numbers and node ids name each other one to one. */
  ghost predicate OneToOne(byIno: map<Ino, NodeId>, byId: map<NodeId, Ino>) {
    && (forall i :: i in byIno ==> byIno[i] in byId && byId[byIno[i]] == i)
    && (forall n :: n in byId ==> byId[n] in byIno && byIno[byId[n]] == n)
  }

  /** The runs buffered by inode are the runs buffered by node. */
  ghost predicate Linked(byIno: map<Ino, NodeId>, byId: map<NodeId, Ino>, pending: map<Ino, Buffered>, runs: map<NodeId, Buffered>) {
    && OneToOne(byIno, byId)
    && (forall i :: i in pending ==> i in byIno && byIno[i] in runs && runs[byIno[i]] == pending[i])
    && (forall n :: n in runs ==> n in byId && byId[n] in pending)
  }

  lemma LinkedPut(byIno: map<Ino, NodeId>, byId: map<NodeId, Ino>, pending: map<Ino, Buffered>,
                  runs: map<NodeId, Buffered>, ino: Ino, b: Buffered)
    requires Linked(byIno, byId, pending, runs) && ino in byIno
    ensures Linked(byIno, byId, pending[ino := b], runs[byIno[ino] := b])
  {
  }

  lemma LinkedDrop(byIno: map<Ino, NodeId>, byId: map<NodeId, Ino>, pending: map<Ino, Buffered>,
                   runs: map<NodeId, Buffered>, ino: Ino)
    requires Linked(byIno, byId, pending, runs) && ino in byIno
    ensures Linked(byIno, byId, pending - {ino}, runs - {byIno[ino]})
  {
  }

  lemma LinkedAt(byIno: map<Ino, NodeId>, byId: map<NodeId, Ino>, pending: map<Ino, Buffered>,
                 runs: map<NodeId, Buffered>, ino: Ino)
    requires Linked(byIno, byId, pending, runs) && ino in byIno
    ensures byIno[ino] in runs <==> ino in pending
    ensures ino in pending ==> runs[byIno[ino]] == pending[ino]
  {
  }

  // ----- what is buffered -----

  /** The run a write ends up in: the one it continues, or a new one. */
  function Joined(pending: map<Ino, Buffered>, ino: Ino, w: Write): Write {
    if ino in pending && pending[ino].End() == w.offset then Write(w.node, pending[ino].offset, pending[ino].data + w.data) else w
  }

  /** Only the run of this inode may have changed. */
  predicate OnlyRun(before: map<Ino, Buffered>, after: map<Ino, Buffered>, ino: Ino) {
    after - {ino} == before - {ino}
  }

  /** After a write its run is buffered unless it stops where a part does or is twice as long as a buffer should be; no other
      run is touched. */
  predicate Buffers(before: map<Ino, Buffered>, after: map<Ino, Buffered>, chunkSize: int, ino: Ino, w: Write) {
    var run := Joined(before, ino, w);
    && OnlyRun(before, after, ino)
    && if (chunkSize > 0 && (w.offset + |w.data|) % chunkSize == 0) || |run.data| >= 2 * Max(chunkSize, 4 * 1024 * 1024) then ino !in after
       else ino in after && after[ino].For(w.node) == run
  }

  lemma SettledIs(before: map<Ino, Buffered>, now: map<Ino, Buffered>, after: map<Ino, Buffered>, chunkSize: int, ino: Ino, w: Write)
    requires OnlyRun(before, now, ino) && ino in now && now[ino].For(w.node) == Joined(before, ino, w)
    requires after == if now[ino].Full(chunkSize) then now - {ino} else now
    ensures Buffers(before, after, chunkSize, ino, w)
  {
    assert now - {ino} - {ino} == now - {ino};
  }

  lemma PutOnly(pending: map<Ino, Buffered>, ino: Ino, b: Buffered)
    ensures OnlyRun(pending, pending[ino := b], ino) && OnlyRun(pending, (pending - {ino})[ino := b], ino)
  {
  }

  // ----- the service -----

  class Fs {
    const log: RunLog
    const chunkSize: int
    /** The files as the server has them; a request is its effect here. */
    var server: map<NodeId, seq<byte>>
    var pending: map<Ino, Buffered>
    var byIno: map<Ino, NodeId>
    var byId: map<NodeId, Ino>
    /** The size last heard from the server. */
    var seen: map<Ino, nat>
    /** An upper bound on where accepted writes end, whether or not the server has them. */
    var highWater: map<Ino, nat>
    var next: int
    /** The buffered runs by node. */
    ghost var runs: map<NodeId, Buffered>
    ghost var base: map<NodeId, seq<byte>>
    ghost var phase: Phase
    ghost var history: seq<Landed>
    ghost var crashes: nat
    /** How many writes had landed when this process started serving. */
    ghost var mounted: nat
    ghost var trace: seq<Step>

    ghost function Abs(): Sys
      reads this, log
    {
      Sys(server, log.Contents(), log.tail, log.nextPath, runs, phase, history, crashes)
    }

    ghost predicate Wired()
      reads this
    {
      Linked(byIno, byId, pending, runs) && forall i :: i in byIno ==> i.number < next
    }

    ghost predicate Valid()
      reads this, log
    {
      Wired() && Reached(chunkSize, base, trace, Abs())
    }

    /** A new process on whatever the last one left: its log and what reached the server. */
    constructor Mount(log: RunLog, chunkSize: int, server: map<NodeId, seq<byte>>,
                      ghost base: map<NodeId, seq<byte>>, ghost trace: seq<Step>, ghost down: Sys)
      requires Reached(chunkSize, base, trace, down) && down.phase.Down?
      requires down.server == server && down.log == log.Contents() && down.tail == log.tail && down.nextPath == log.nextPath
      ensures Valid() && this.log == log && Abs() == down && this.base == base && this.chunkSize == chunkSize
      ensures seen == map[] && mounted == |history|
    {
      RunInv(chunkSize, base, Start(base), trace);
      this.log, this.chunkSize, this.server := log, chunkSize, server;
      pending, byIno, byId, seen, highWater, next := map[], map[], map[], map[], map[], 1;
      runs := map[];
      this.base, this.trace, phase, history, crashes := base, trace, Down, down.history, down.crashes;
      mounted := |down.history|;
    }

    // ----- the buffer in memory -----

    /** Take a run out of the buffer. */
    method Take(ino: Ino) returns (run: Buffered)
      requires Wired() && ino in pending
      modifies this`pending, this`runs
      ensures Wired() && run == old(pending)[ino] && pending == old(pending) - {ino}
      ensures byIno[ino] in old(runs) && old(runs)[byIno[ino]] == run && runs == old(runs) - {byIno[ino]}
    {
      run := pending[ino];
      LinkedAt(byIno, byId, pending, runs, ino);
      LinkedDrop(byIno, byId, pending, runs, ino);
      pending := pending - {ino};
      runs := runs - {byIno[ino]};
    }

    method Put(ino: Ino, run: Buffered)
      requires Wired() && ino in byIno
      modifies this`pending, this`runs
      ensures Wired() && pending == old(pending)[ino := run] && runs == old(runs)[byIno[ino] := run]
    {
      LinkedPut(byIno, byId, pending, runs, ino, run);
      pending := pending[ino := run];
      runs := runs[byIno[ino] := run];
    }

    /** The run goes on by the step that was just made. */
    ghost method Took(step: Step, was: Sys)
      requires Reached(chunkSize, base, trace, was) && Enabled(chunkSize, was, step) && Abs() == Next(chunkSize, was, step)
      requires !step.Crash? && !phase.Dying?
      modifies this`trace
      ensures Reached(chunkSize, base, trace, Abs()) && trace == old(trace) + [step] && Abs() == old(Abs())
    {
      Follow(chunkSize, base, trace, was, step);
      trace := trace + [step];
    }

    // ----- single effects, each one step of the run -----

    /** Take a run out of the buffer and send it. */
    method PutRun(ino: Ino, ghost step: Step, ghost next: Onward, ghost was: Sys)
      requires Valid() && was == Abs() && ino in pending
      requires Enabled(chunkSize, was, step) && SentBy(was, step) == Some((byIno[ino], next))
      modifies this`server, this`pending, this`runs, this`phase, this`trace
      ensures Valid() && Abs() == Next(chunkSize, was, step) && trace == old(trace) + [step]
      ensures pending == old(pending) - {ino} && phase == Sent(byIno[ino], old(pending)[ino], next)
    {
      NextSends(chunkSize, was, step, byIno[ino], next);
      var run := Take(ino);
      server := Store(server, run.For(byIno[ino]));
      phase := Sent(byIno[ino], run, next);
      Took(step, was);
    }

    /** Drop the durable record of the run just sent. */
    method DropRecord(path: Path, ghost was: Sys)
      requires Valid() && was == Abs() && phase.Sent? && phase.b.path == path
      modifies this`phase, this`trace, log
      ensures Valid() && Abs() == Next(chunkSize, was, Drop) && trace == old(trace) + [Drop]
      ensures phase == Resumed(old(phase).next) && runs == old(runs)
    {
      log.Finish(path);
      phase := Resumed(phase.next);
      Took(Drop, was);
    }

    method AppendBoth(ino: Ino, data: seq<byte>)
      requires Wired() && ino in pending
      modifies this`pending, this`runs, log
      ensures Wired() && ino in pending && runs == old(runs)[byIno[ino] := old(pending)[ino].(data := old(pending)[ino].data + data)]
      ensures pending == old(pending)[ino := old(pending)[ino].(data := old(pending)[ino].data + data)]
      ensures log.nextPath == old(log.nextPath) && log.tail == old(log.tail) && log.journal == old(log.journal)
      ensures var path := old(pending)[ino].path;
              log.files == if path in old(log.files) then old(log.files)[path := old(log.files)[path] + data] else old(log.files)
    {
      var run := pending[ino];
      log.Extend(run.path, data);
      Put(ino, run.(data := run.data + data));
    }

    method JournalBoth(ino: Ino, run: Buffered)
      requires Wired() && ino in byIno
      modifies this`pending, this`runs, log
      ensures Wired() && pending == old(pending)[ino := run] && runs == old(runs)[byIno[ino] := run]
      ensures log.nextPath == old(log.nextPath) && log.files == old(log.files)
      ensures (log.journal, log.tail) == Lined(old(log.journal), old(log.tail), Entry(byIno[ino], run.offset, run.path), Whole)
    {
      log.RecordDirty(Entry(byIno[ino], run.offset, run.path));
      Put(ino, run);
    }

    /** Append a write to its run's file and to the run. */
    method AppendRun(ino: Ino, w: Write, ghost was: Sys)
      requires Valid() && was == Abs() && ino in pending && byIno[ino] == w.node
      requires phase == Started(w) && Continues(was.pending, w) && was.pending[w.node] == pending[ino]
      modifies this`pending, this`runs, this`phase, this`history, this`trace, log
      ensures Valid() && Abs() == Next(chunkSize, was, Extend(|w.data|)) && trace == old(trace) + [Extend(|w.data|)]
      ensures phase == Recorded(w) && history == old(history) + [Landed(w, false)]
      ensures pending == old(pending)[ino := old(pending)[ino].(data := old(pending)[ino].data + w.data)]
    {
      NextAppends(chunkSize, was, w);
      AppendBoth(ino, w.data);
      phase := Recorded(w);
      history := history + [Landed(w, false)];
      Took(Extend(|w.data|), was);
    }

    /** Put the bytes of a new run into a file of its own. */
    method CreateRunFile(w: Write, ghost was: Sys) returns (path: Path)
      requires Valid() && was == Abs() && phase == Started(w) && w.node !in was.pending
      modifies this`phase, this`trace, log
      ensures Valid() && Abs() == Next(chunkSize, was, Create(|w.data|)) && trace == old(trace) + [Create(|w.data|)]
      ensures phase == Created(w, path) && history == old(history)
    {
      NextCreates(chunkSize, was, w);
      path := log.CreateFile(w.data);
      phase := Created(w, path);
      Took(Create(|w.data|), was);
    }

    /** Journal the run, which makes its file count, and buffer it. */
    method JournalRun(ino: Ino, w: Write, path: Path, ghost was: Sys)
      requires Valid() && was == Abs() && ino in byIno && byIno[ino] == w.node && phase == Created(w, path)
      modifies this`pending, this`runs, this`phase, this`history, this`trace, log
      ensures Valid() && Abs() == Next(chunkSize, was, Journal(Whole)) && trace == old(trace) + [Journal(Whole)]
      ensures phase == Recorded(w) && history == old(history) + [Landed(w, false)]
      ensures pending == old(pending)[ino := Buffered(w.offset, w.data, path)]
    {
      JournalBoth(ino, Buffered(w.offset, w.data, path));
      phase := Recorded(w);
      history := history + [Landed(w, false)];
      Took(Journal(Whole), was);
    }

    /** A run that is not full stays in the buffer. */
    ghost method Leave(w: Write, was: Sys)
      requires Valid() && was == Abs() && phase == Recorded(w) && w.node in was.pending && !was.pending[w.node].Full(chunkSize)
      modifies this`phase, this`trace
      ensures Valid() && Abs() == Next(chunkSize, was, Keep) && trace == old(trace) + [Keep]
    {
      phase := Done(w);
      Took(Keep, was);
    }

    ghost method Open(w: Write, was: Sys)
      requires Valid() && was == Abs() && phase == Ready
      modifies this`phase, this`trace
      ensures Valid() && Abs() == Next(chunkSize, was, Begin(w)) && trace == old(trace) + [Begin(w)]
    {
      phase := Started(w);
      Took(Begin(w), was);
    }

    /** The caller is told. */
    ghost method Close(w: Write, earlier: seq<Landed>, was: Sys)
      requires Valid() && was == Abs() && phase == Done(w) && history == earlier + [Landed(w, false)]
      modifies this`phase, this`history, this`trace
      ensures Valid() && phase == Ready && history == earlier + [Landed(w, true)] && trace == old(trace) + [Ack]
    {
      NextAcks(chunkSize, was, w, earlier);
      phase, history := Ready, earlier + [Landed(w, true)];
      Took(Ack, was);
    }

    // ----- operations on the buffer -----

    /** Take a run out of the buffer, send it, and only then drop its durable record. */
    method Send(ino: Ino, ghost step: Step, ghost next: Onward, ghost was: Sys)
      requires Valid() && was == Abs() && ino in pending
      requires Enabled(chunkSize, was, step) && SentBy(was, step) == Some((byIno[ino], next))
      modifies this`server, this`pending, this`runs, this`phase, this`trace, log
      ensures Valid() && trace == old(trace) + [step] + [Drop] && phase == Resumed(next)
      ensures pending == old(pending) - {ino} && history == old(history)
    {
      var path := pending[ino].path;
      PutRun(ino, step, next, was);
      ghost var sent := Abs();
      DropRecord(path, sent);
    }

    /** Begin recording a run: its bytes first, then the line that makes them count. */
    method StartRun(ino: Ino, w: Write, ghost was: Sys)
      requires Valid() && was == Abs() && ino in byIno && byIno[ino] == w.node && phase == Started(w) && w.node !in was.pending
      modifies this`pending, this`runs, this`phase, this`history, this`trace, log
      ensures Valid() && trace == old(trace) + [Create(|w.data|)] + [Journal(Whole)]
      ensures phase == Recorded(w) && history == old(history) + [Landed(w, false)]
      ensures ino in pending && pending == old(pending)[ino := Buffered(w.offset, w.data, pending[ino].path)]
    {
      var path := CreateRunFile(w, was);
      JournalRun(ino, w, path, Abs());
    }

    /** Send the run a seek broke off and start another. */
    method BreakRun(ino: Ino, w: Write)
      requires Valid() && ino in pending && byIno[ino] == w.node && phase == Started(w) && pending[ino].End() != w.offset
      modifies this`server, this`pending, this`runs, this`phase, this`history, this`trace, log
      ensures Valid() && ino in pending && phase == Recorded(w) && history == old(history) + [Landed(w, false)]
      ensures trace == old(trace) + [SendBroken] + [Drop] + [Create(|w.data|)] + [Journal(Whole)]
      ensures OnlyRun(old(pending), pending, ino) && pending[ino].For(w.node) == w
    {
      LinkedAt(byIno, byId, pending, runs, ino);
      Send(ino, SendBroken, Restart(w), Abs());
      LinkedAt(byIno, byId, pending, runs, ino);
      StartRun(ino, w, Abs());
      PutOnly(old(pending), ino, pending[ino]);
    }

    /** Buffer a write: continue the run, or send the run a seek broke off and start another. */
    method Buffer(ino: Ino, w: Write)
      requires Valid() && ino in byIno && byIno[ino] == w.node && phase == Started(w)
      modifies this`server, this`pending, this`runs, this`phase, this`history, this`trace, log
      ensures Valid() && ino in pending && phase == Recorded(w) && history == old(history) + [Landed(w, false)]
      ensures trace == if ino !in old(pending) then old(trace) + [Create(|w.data|)] + [Journal(Whole)]
                       else if old(pending)[ino].End() == w.offset then old(trace) + [Extend(|w.data|)]
                       else old(trace) + [SendBroken] + [Drop] + [Create(|w.data|)] + [Journal(Whole)]
      ensures OnlyRun(old(pending), pending, ino) && pending[ino].For(w.node) == Joined(old(pending), ino, w)
    {
      LinkedAt(byIno, byId, pending, runs, ino);
      if ino in pending && pending[ino].End() == w.offset {
        AppendRun(ino, w, Abs());
        PutOnly(old(pending), ino, pending[ino]);
      } else if ino in pending {
        BreakRun(ino, w);
      } else {
        StartRun(ino, w, Abs());
        PutOnly(old(pending), ino, pending[ino]);
      }
    }

    /** Send the run if it is full. */
    method Settle(ino: Ino, w: Write)
      requires Valid() && ino in pending && byIno[ino] == w.node && phase == Recorded(w)
      modifies this`server, this`pending, this`runs, this`phase, this`trace, log
      ensures Valid() && phase == Done(w) && history == old(history)
      ensures trace == if old(pending)[ino].Full(chunkSize) then old(trace) + [SendFull] + [Drop] else old(trace) + [Keep]
      ensures pending == if old(pending)[ino].Full(chunkSize) then old(pending) - {ino} else old(pending)
    {
      LinkedAt(byIno, byId, pending, runs, ino);
      if pending[ino].Full(chunkSize) {
        Send(ino, SendFull, Finish(w), Abs());
      } else {
        Leave(w, Abs());
      }
    }

    /** Accept a write. */
    method Accept(ino: Ino, w: Write)
      requires Valid() && ino in byIno && byIno[ino] == w.node && phase == Ready
      modifies this`server, this`pending, this`runs, this`phase, this`history, this`trace, log
      ensures Valid() && phase == Ready && history == old(history) + [Landed(w, true)]
      ensures Buffers(old(pending), pending, chunkSize, ino, w)
    {
      ghost var earlier := history;
      Open(w, Abs());
      Buffer(ino, w);
      ghost var now := pending;
      Settle(ino, w);
      SettledIs(old(pending), now, pending, chunkSize, ino, w);
      Close(w, earlier, Abs());
    }

    // ----- operations -----

    /** Serving, with nothing remembered that is out of date. */
    ghost predicate Serves()
      reads this, log
    {
      && Valid() && phase == Ready && Remembered(base, history, byIno, seen, highWater)
      && Marked(history, mounted, byId, highWater)
    }

    /** Give a node a number of its own. */
    method Name(n: NodeId) returns (ino: Ino)
      requires Wired() && n !in byId
      modifies this`byIno, this`byId, this`next
      ensures Wired() && ino == Ino(old(next)) && ino !in old(byIno)
      ensures byIno == old(byIno)[ino := n] && byId == old(byId)[n := ino]
    {
      ino := Ino(next);
      LinkedName(byIno, byId, pending, runs, ino, n);
      next := next + 1;
      byIno := byIno[ino := n];
      byId := byId[n := ino];
    }

    /** Asked twice for the same node it gives the same number, and numbers are never given twice. */
    method InoFor(n: NodeId) returns (ino: Ino)
      requires Serves()
      modifies this`byIno, this`byId, this`next
      ensures Serves() && Abs() == old(Abs()) && ino in byIno && byIno[ino] == n
      ensures forall i :: i in old(byIno) ==> i in byIno && byIno[i] == old(byIno)[i]
      ensures n in old(byId) ==> byIno == old(byIno) && ino == old(byId)[n]
      ensures n !in old(byId) ==> ino !in old(byIno)
    {
      if n in byId { return byId[n]; }
      NamedRemembered(base, history, mounted, byIno, byId, seen, highWater, Ino(next), n);
      ino := Name(n);
    }

    method WriteKnown(ino: Ino, w: WriteLog.Write)
      requires Serves() && ino in byIno && byIno[ino] == w.node
      modifies this`server, this`pending, this`runs, this`phase, this`history, this`trace, this`highWater, log
      ensures Serves() && history == old(history) + [Landed(w, true)]
      ensures highWater == old(highWater)[ino := Max(Mark(old(highWater), ino), w.End())]
      ensures Buffers(old(pending), pending, chunkSize, ino, w)
    {
      var reach := Max(Mark(highWater, ino), w.End());
      RememberedWrite(base, history, byIno, byId, seen, highWater, ino, w, reach);
      MarkedWrite(history, mounted, byIno, byId, highWater, ino, w, reach);
      highWater := highWater[ino := reach];
      Accept(ino, w);
    }

    method Write(ino: Ino, offset: nat, data: seq<byte>) returns (r: Result<nat, ClientError>)
      requires Serves()
      modifies this, log
      ensures Serves() && byIno == old(byIno) && base == old(base)
      ensures ino !in byIno ==> r == Err(Missing) && Abs() == old(Abs())
      ensures ino in byIno ==> r == Ok(|data|) && history == old(history) + [Landed(WriteLog.Write(byIno[ino], offset, data), true)]
      ensures ino in byIno ==> highWater == old(highWater)[ino := Max(Mark(old(highWater), ino), offset + |data|)]
      ensures ino in byIno ==> Buffers(old(pending), pending, chunkSize, ino, WriteLog.Write(byIno[ino], offset, data))
    {
      if ino !in byIno { return Err(Missing); }
      WriteKnown(ino, WriteLog.Write(byIno[ino], offset, data));
      r := Ok(|data|);
    }

    method FlushRun(ino: Ino)
      requires Valid() && phase == Ready && ino in pending
      modifies this`server, this`pending, this`runs, this`phase, this`trace, log
      ensures Valid() && phase == Ready && pending == old(pending) - {ino} && trace == old(trace) + [Step.Flush(byIno[ino])] + [Drop]
    {
      LinkedAt(byIno, byId, pending, runs, ino);
      Send(ino, Step.Flush(byIno[ino]), Return, Abs());
    }

    /** Afterwards nothing of this file is buffered. */
    method Flush(ino: Ino)
      requires Serves()
      modifies this`server, this`pending, this`runs, this`phase, this`trace, log
      ensures Serves() && ino !in pending && (ino in byIno ==> byIno[ino] !in runs)
    {
      if ino in pending { FlushRun(ino); }
      if ino in byIno { LinkedAt(byIno, byId, pending, runs, ino); }
    }

    /** Afterwards nothing is buffered at all. */
    method FlushAll()
      requires Serves()
      modifies this`server, this`pending, this`runs, this`phase, this`trace, log
      ensures Serves() && pending == map[]
    {
      while pending != map[]
        invariant Valid() && phase == Ready
        decreases |pending|
      {
        var ino :| ino in pending;
        FewerPending(pending, ino);
        FlushRun(ino);
      }
    }

    /** The true size; the remembered one is used only where nothing can have changed it. */
    method SizeOf(ino: Ino) returns (size: nat)
      requires Serves() && ino in byIno && byIno[ino] !in runs
      modifies this`seen
      ensures Serves() && size == |Truth(base, history, byIno[ino])| && Content(server, byIno[ino]) == Truth(base, history, byIno[ino])
    {
      var n := byIno[ino];
      ReadyFiles(chunkSize, base, trace, Abs(), n);
      if ino in seen && ino !in highWater { return seen[ino]; }
      size := |Content(server, n)|;
      seen := seen[ino := size];
    }

    /** Read bytes; buffered ones are sent first, so they are always seen. */
    method Read(ino: Ino, offset: nat, size: nat) returns (r: Result<seq<byte>, ClientError>)
      requires Serves()
      modifies this`server, this`pending, this`runs, this`seen, this`phase, this`trace, log
      ensures Serves()
      ensures r == if ino in byIno then Ok(Slice(Truth(base, history, byIno[ino]), offset, offset + size)) else Err(Missing)
    {
      Flush(ino);
      if ino !in byIno { return Err(Missing); }
      var fileSize := SizeOf(ino);
      var expected := Min(size, Max(fileSize - offset, 0));
      if expected == 0 { return Ok([]); }
      r := Ok(Slice(Content(server, byIno[ino]), offset, offset + expected));
    }

    /** The size `stat` reports: never below the end of a write this process accepted. */
    method GetAttr(ino: Ino) returns (r: Result<nat, ClientError>)
      requires Serves()
      modifies this`server, this`pending, this`runs, this`seen, this`phase, this`trace, log
      ensures Serves()
      ensures r == if ino in byIno then Ok(Max(|Truth(base, history, byIno[ino])|, Mark(highWater, ino))) else Err(Missing)
      ensures r.Ok? ==> forall k :: mounted <= k < |history| && history[k].write.node == byIno[ino] ==> history[k].write.End() <= r.value
    {
      Flush(ino);
      if ino !in byIno { return Err(Missing); }
      var n := byIno[ino];
      ReadyFiles(chunkSize, base, trace, Abs(), n);
      var size := |Content(server, n)|;
      seen := seen[ino := size];
      r := Ok(Max(size, Mark(highWater, ino)));
    }

    // ----- recovery -----

    /** Send one recovered run again. */
    method ReplayRun(run: WriteLog.Write, ghost was: Sys)
      requires Valid() && was == Abs() && phase.Replaying? && phase.k < |phase.runs| && phase.runs[phase.k] == run
      modifies this`server, this`phase, this`trace
      ensures Valid() && Abs() == Next(chunkSize, was, Replay) && trace == old(trace) + [Replay]
    {
      server := Store(server, run);
      phase := Replaying(phase.runs, phase.k + 1);
      Took(Replay, was);
    }

    /** Replay what a previous process left unsent, oldest first. */
    method ReplayAll(todo: seq<WriteLog.Write>)
      requires Valid() && phase == Replaying(todo, 0)
      modifies this`server, this`phase, this`trace
      ensures Valid() && phase == Replaying(todo, |todo|)
    {
      for k := 0 to |todo|
        invariant Valid() && phase == Replaying(todo, k)
      {
        ReplayRun(todo[k], Abs());
      }
    }

    ghost method Begun(was: Sys)
      requires Valid() && was == Abs() && phase.Replaying? && phase.k == |phase.runs|
      modifies this`phase, this`trace
      ensures Valid() && Abs() == Next(chunkSize, was, Reset) && trace == old(trace) + [Reset] && phase == Resetting(0)
    {
      phase := Resetting(0);
      Took(Reset, was);
    }

    /** Remove one recovered run's file. */
    method UnlinkRun(path: Path, ghost was: Sys)
      requires Valid() && was == Abs() && phase.Resetting? && phase.i < |log.journal| && log.journal[phase.i].path == path
      modifies this`phase, this`trace, log
      ensures Valid() && Abs() == Next(chunkSize, was, Unlink) && trace == old(trace) + [Unlink]
      ensures log.files == old(log.files) - {path}
    {
      log.Finish(path);
      phase := Resetting(phase.i + 1);
      Took(Unlink, was);
    }

    method UnlinkNext(entries: seq<Entry>, i: nat, ghost before: map<Path, seq<byte>>)
      requires Valid() && phase == Resetting(i) && i < |entries| && log.journal == entries && FilesGone(entries, i, before, log.files)
      modifies this`phase, this`trace, log
      ensures Valid() && phase == Resetting(i + 1) && log.journal == entries && FilesGone(entries, i + 1, before, log.files)
    {
      OneFileGone(entries, i, before, log.files);
      UnlinkRun(entries[i].path, Abs());
    }

    /** Remove run files in journal order. */
    method UnlinkAll()
      requires Valid() && phase == Resetting(0)
      modifies this`phase, this`trace, log
      ensures Valid() && phase == Resetting(|log.journal|) && log.journal == old(log.journal) && FilesGone(log.journal, |log.journal|, old(log.files), log.files)
    {
      var entries := log.journal;
      for i := 0 to |entries|
        invariant Valid() && phase == Resetting(i) && log.journal == entries && FilesGone(entries, i, old(log.files), log.files)
      {
        UnlinkNext(entries, i, old(log.files));
      }
    }

    /** Forget the journal, once no line of it has a file any more. */
    method ClearLog(ghost was: Sys)
      requires Valid() && was == Abs() && phase == Resetting(|log.journal|)
      modifies this`phase, this`trace, log
      ensures Valid() && Abs() == Next(chunkSize, was, Clear) && trace == old(trace) + [Clear] && phase == Ready
      ensures log.journal == [] && log.files == old(log.files)
    {
      log.ClearJournal();
      phase := Ready;
      Took(Clear, was);
    }

    /** Forget every record. */
    method ResetLog(ghost todo: seq<WriteLog.Write>)
      requires Valid() && phase == Replaying(todo, |todo|)
      modifies this`phase, this`trace, log
      ensures Valid() && phase == Ready && log.journal == [] && FilesGone(old(log.journal), |old(log.journal)|, old(log.files), log.files)
    {
      Begun(Abs());
      UnlinkAll();
      ClearLog(Abs());
    }

    method ReplayAndReset(todo: seq<WriteLog.Write>)
      requires Valid() && phase == Replaying(todo, 0)
      modifies this`server, this`phase, this`trace, log
      ensures Valid() && phase == Ready && log.journal == [] && FilesGone(old(log.journal), |old(log.journal)|, old(log.files), log.files)
    {
      ReplayAll(todo);
      ResetLog(todo);
    }

    /** Look the log over. */
    method FindPending(ghost was: Sys) returns (todo: seq<WriteLog.Write>)
      requires Valid() && was == Abs() && phase == Down
      modifies this`phase, this`trace
      ensures Valid() && Abs() == Next(chunkSize, was, Step.Mount) && trace == old(trace) + [Step.Mount]
      ensures phase == (if todo == [] then Ready else Replaying(todo, 0)) && todo == Pending(log.journal, log.files)
    {
      todo := log.TakePending();
      phase := if todo == [] then Ready else Replaying(todo, 0);
      Took(Step.Mount, was);
    }

    /** Bring every file up to date before serving anyone. */
    method Recover() returns (replayed: nat)
      requires Valid() && phase == Down && seen == map[] && mounted == |history|
      modifies this`server, this`phase, this`trace, log
      ensures Serves() && history == old(history) && base == old(base)
      ensures replayed == |Pending(old(log.journal), old(log.files))|
      ensures replayed > 0 ==> log.journal == [] && FilesGone(old(log.journal), |old(log.journal)|, old(log.files), log.files)
      ensures replayed == 0 ==> log.Contents() == old(log.Contents())
      ensures forall n :: n !in runs ==> Content(server, n) == Truth(base, history, n)
    {
      var todo := FindPending(Abs());
      if todo != [] { ReplayAndReset(todo); }
      replayed := |todo|;
      AllReady(chunkSize, base, trace, Abs());
    }
  }

  /** The files of the first `i` lines have gone, and no others. */
  ghost predicate FilesGone(journal: seq<Entry>, i: nat, before: map<Path, seq<byte>>, after: map<Path, seq<byte>>)
    requires i <= |journal|
  {
    && (forall path :: path in after <==> path in before && forall j :: 0 <= j < i ==> journal[j].path != path)
    && (forall path :: path in after ==> after[path] == before[path])
  }

  lemma OneFileGone(journal: seq<Entry>, i: nat, before: map<Path, seq<byte>>, after: map<Path, seq<byte>>)
    requires i < |journal| && FilesGone(journal, i, before, after)
    ensures FilesGone(journal, i + 1, before, after - {journal[i].path})
  {
  }

  function Mark(highWater: map<Ino, nat>, ino: Ino): nat {
    if ino in highWater then highWater[ino] else 0
  }

  lemma LinkedName(byIno: map<Ino, NodeId>, byId: map<NodeId, Ino>, pending: map<Ino, Buffered>,
                   runs: map<NodeId, Buffered>, ino: Ino, n: NodeId)
    requires Linked(byIno, byId, pending, runs) && ino !in byIno && n !in byId
    ensures Linked(byIno[ino := n], byId[n := ino], pending, runs)
  {
  }

  /** The size remembered for a file nobody has written through this mount is its size. */
  ghost predicate Remembered(base: map<NodeId, seq<byte>>, history: seq<Landed>, byIno: map<Ino, NodeId>, seen: map<Ino, nat>, highWater: map<Ino, nat>) {
    forall i :: i in seen && i !in highWater ==> i in byIno && seen[i] == |Truth(base, history, byIno[i])|
  }

  /** A new name does not put what is remembered out of date. */
  lemma NamedRemembered(base: map<NodeId, seq<byte>>, history: seq<Landed>, mounted: nat, byIno: map<Ino, NodeId>, byId: map<NodeId, Ino>,
                        seen: map<Ino, nat>, highWater: map<Ino, nat>, ino: Ino, n: NodeId)
    requires Remembered(base, history, byIno, seen, highWater) && Marked(history, mounted, byId, highWater)
    requires ino !in byIno && n !in byId
    ensures Remembered(base, history, byIno[ino := n], seen, highWater) && Marked(history, mounted, byId[n := ino], highWater)
  {
  }

  lemma FewerPending(pending: map<Ino, Buffered>, ino: Ino)
    requires ino in pending
    ensures |pending - {ino}| < |pending|
  {
    assert (pending - {ino}).Keys == pending.Keys - {ino};
    assert |pending.Keys - {ino}| < |pending.Keys|;
  }

  /** The marks cover every write accepted since the process started serving. */
  ghost predicate Marked(history: seq<Landed>, mounted: nat, byId: map<NodeId, Ino>, highWater: map<Ino, nat>) {
    forall k :: mounted <= k < |history| ==>
      history[k].write.node in byId && history[k].write.End() <= Mark(highWater, byId[history[k].write.node])
  }

  lemma MarkedWrite(history: seq<Landed>, mounted: nat, byIno: map<Ino, NodeId>, byId: map<NodeId, Ino>, highWater: map<Ino, nat>,
                    ino: Ino, w: Write, reach: nat)
    requires Marked(history, mounted, byId, highWater) && OneToOne(byIno, byId) && ino in byIno && byIno[ino] == w.node
    requires reach == Max(Mark(highWater, ino), w.End())
    ensures Marked(history + [Landed(w, true)], mounted, byId, highWater[ino := reach])
  {
  }

  lemma RememberedWrite(base: map<NodeId, seq<byte>>, history: seq<Landed>, byIno: map<Ino, NodeId>,
                        byId: map<NodeId, Ino>,
                        seen: map<Ino, nat>, highWater: map<Ino, nat>, ino: Ino, w: Write, reach: nat)
    requires Remembered(base, history, byIno, seen, highWater) && OneToOne(byIno, byId) && ino in byIno && byIno[ino] == w.node
    ensures Remembered(base, history + [Landed(w, true)], byIno, seen, highWater[ino := reach])
  {
    forall i | i in seen && i != ino && i !in highWater
      ensures Truth(base, history + [Landed(w, true)], byIno[i]) == Truth(base, history, byIno[i])
    {
      assert byId[byIno[i]] == i && byId[byIno[ino]] == ino;
      TruthMore(base, history, Landed(w, true), byIno[i]);
    }
  }
}
