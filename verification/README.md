# DCFS in Dafny

DCFS stores each file as a versioned manifest of immutable, encrypted parts, shared between versions
and collected when no live version needs them; a FUSE client in front of it buffers, logs, caches and
retries. This project models those layers and proves that, taken together, they behave like flat byte
arrays. `dafny verify dfyconfig.toml` checks all of it.

## The modules

| module | what it holds |
|---|---|
| Bytes | byte strings, the flat-file write, slices, division facts |
| Records | metadata records, the object store, and the effect of every repository call as a function |
| Files | what a file reads as; a read; a write as a sequence of single effects |
| WriteSteps | what every effect of a write keeps |
| Interleaving | writers, deletions, syncs and the collector's sweep, interleaved and cut off anywhere |
| FlatFiles | every run of that system refines flat byte arrays |
| CommitSteps | a commit taken apart into its lock, lookup, guard and transaction, with anything in between |
| Immutability | a version shows the same bytes as long as it is current |
| SpreadReads | a read whose lookups and fetches each happen at a point of their own in a run |
| RestingReads | such a read of a file nobody is writing: what it finds, and what it answers if a sync overtakes it |
| LateReads | reads overtaken by a sync, and runs in which they go wrong |
| Completion | a write left alone runs to its end; runs built from whole writes |
| CutOffWrites, CutOffRuns | what a reader sees while a write is under way, what one that is cut off leaves, and runs that show it |
| WholeWrites | one write from start to finish, as effects and as the loop the request runs |
| AutomaticCommits | when a write commits by itself |
| WholeParts | every part of a file but its last is full |
| Stitching, ByteApi | the server's `read_bytes`, `write_bytes` and `commit_node` over a repository and a sealed object store |
| MemoryRepository | the in-memory repository: sorted row vectors, binary search, the collection queries |
| Collector, Ownership | `collect_once`, what it does to an abandoned write, and that no object is shared between files |
| Purging | which versions a sweep purges |
| Retention | what is collected, against the documented rule and the retention period |
| CommitProtocol | the PostgreSQL staging and commit transactions under any number of clients |
| Sealing | segmented sealing, whole and range opening, nonces, rearranged objects, segments of other objects |
| WriteLog, CrashRecovery, FuseService | the write buffer, its log, crashes at any step, recovery |
| JournalFile | the journal as a file of lines that may be cut short |
| BlockCache | the block cache: stitching, accounting, least-recently-used eviction |
| DirtyExtents | dirty ranges as a canonical interval list |
| LockMap | the pruned map of per-file locks |
| Client | retries over a connection that loses requests and answers |
| Base64 | the Basic credential decoder |

## How the source is read

- A repository call, a database transaction, an object store call and a file operation are each atomic;
  what can run between two of them is interleaved (Interleaving, CrashRecovery, CommitProtocol). A read is its
  four lookups and its fetches at points of a run (SpreadReads). A commit is one step of Interleaving;
  `CommitSteps.FineRunIsRun` shows that taking it apart into the lock, three lookups and the transaction adds
  no run.
- A step of a write ends at its next change, so four of them take a lookup together with the call after it: the
  node with the open version (`Begin`), the committed version with the new one (`Opening`), the two row ranges
  (`Scanning`), and the old part with the new object (`Merging`). Under the file's lock nothing that could run
  between the two changes what either finds: writes to other files do not touch this one, the clock is in neither
  answer, a sweep leaves every needed version, row and object alone, and after a deletion the request fails at
  a later call.
- Identifiers are drawn from counters: that is what "ids are fresh" means. Times are integers.
- The AEAD is ideal: a ciphertext remembers key, nonce, associated data and plaintext, is 16 bytes longer
  than the plaintext, and opens only under the same three. The content hash is injective.
- Integers are unbounded; the 32-bit segment index (Sealing) and the 32-bit accumulator (Base64) are
  modelled with their width.

The hypotheses the code needs are explicit:

- No size patch: `patch_node` only changes the recorded size, so it is not a step of Interleaving.
- Byte API only: the versions API, which stages and commits without the file lock, is not a step either.
- No write or sync picks up a version already older than a sweep's cutoff: the `Fresh` guards of
  `Interleaving.Enabled`. `Collector.StaleSyncLosesObject` proves that the guard is needed.
- In crash runs a request reaches the server or the process dies, and operations on the log's files succeed,
  except that an append may be cut short by the process dying: one to a run file after any byte, a journal line
  anywhere, also between the line and its newline. A journal line is ASCII.

## Where code and documentation differ

- `crates/dcfs-db/src/repository.rs:447-448` speaks of objects whose dead versions are *all* older than
  the cutoff. The queries ask for *some* aged dead referrer and no live one. The two agree on an object exactly
  unless it has dead referrers on both sides of the cutoff: `Retention.CollectableVersusDocumented`, with
  `Retention.CollectedTooEarly` for an input.
- `crates/dcfs-server/src/gc.rs:9-11` promises that what dies is kept for a full retention period before it goes.
  Age is counted from the commit of a version, not from its replacement: an object is collectable at the very
  moment a sync replaces its version exactly if one of the versions naming it was committed before the cutoff
  (`Retention.CollectableAtDeath`), and at the very moment its file is deleted exactly if one of them dates from
  before the cutoff and no open one from after it (`Retention.CollectableAtDeletion`). For every retention period
  there are runs that end either way: `Retention.RetentionNotKept`, `Retention.DeletionNotKept`.
- `crates/dcfs-server/src/handlers/data.rs:22-29` calls a committed version immutable and lets clients keep its
  bytes. A read looks the node up first and the open version after it. Of a file nobody is writing it succeeds
  and returns the asked slice of the flat file, unless a sync commits the open version in between
  (`RestingReads.SpreadReadIsFlat`). Such an overtaken read falls back to the version the node named before: it
  answers that the file is empty if there was none, it fails if that version has been purged or a part it needs
  has been swept since its row was listed, and otherwise it returns the bytes that version still spells out,
  zeroes for the parts swept before that; whatever it returns is flagged committed
  (`RestingReads.OvertakenReadIs`). There are runs in which the file reads as `[9]` all along and such reads
  return `[7]` and `[0]` (`LateReads.CommittedReadsDisagree`), or it reads as `[7]` all along and the read
  returns nothing (`LateReads.FirstSyncReadsEmpty`, and `LateReads.FirstSyncHides` for any file before its first
  sync). Two committed reads of one version agree on a byte exactly if both or neither found its row, or the
  version held a zero there when the row was listed (`SpreadReads.CommittedReadsAgreeExactly`), so always if the
  version was current when both listed the rows (`SpreadReads.CommittedReadsAgree`).
- `crates/dcfs-server/src/handlers/data.rs:270-272` says a write becomes visible through one atomic commit.
  Reads are served from the version being built, so they see it part by part: every byte old or new, except
  between staging the version and carrying the manifest over, when the file reads as zeroes
  (`CutOffWrites.ReadWhileWriting`). A write that stops half way and is followed by a sync leaves: nothing at all,
  if it opened the version and had not recorded its size; the old length with new bytes in the parts written so
  far, if it found the version open (`CutOffWrites.CutOffWrite`). The old or the new file is left exactly if the
  write changes none of the bytes it has written, or none of those it has not and does not grow the file
  (`CutOffWrites.SurvivesExactly`). `CutOffRuns` has the runs: `SyncedThenCutOff` loses any synced file,
  `TornBySync` makes `[2, 1]` of `[1, 1]` and `[2, 2]`.
- `crates/dcfs-fuse/src/writelog.rs:68-69` calls replaying a leftover run harmless. It is exactly when no
  later write changed one of its bytes: `WriteLog.LeftoverHarmless`, and `WriteLog.LeftoverOverwrites`
  for a run where it is not.
- `crates/dcfs-fuse/src/writelog.rs:3-8` says that what was accepted is replayed at the next mount. A journal
  line and its newline are written apart (`crates/dcfs-cache/src/journal.rs:43`), and a line written to a journal
  that does not end in a newline cannot be read back: a process that dies between the two, a recovery that is cut
  off after it has removed the run file, and a mount that then finds nothing to do and leaves the journal as it
  is, make the next record worthless. An acknowledged write that opens a run is lost with the process exactly if
  the journal did not end in a newline and the server does not have the bytes already
  (`CrashRecovery.LostExactly`; `CrashRecovery.NewlineLosesWrite` is a run). Nothing is lost in a run in which no
  line follows an unfinished one (`CrashRecovery.TidyIsCovered`).
- `crates/dcfs-db/src/memory.rs:461-503` commits a version in any state, `crates/dcfs-db/src/postgres.rs:936-948`
  only a staged one: `CommitProtocol.MemoryAgrees` and `CommitProtocol.MemoryTransitions` give the exact
  conditions. Byte-API runs only ever commit staged versions.
- `crates/dcfs-server/src/handlers/data.rs:26-28` says that an abandoned write reverts to what was committed. A
  sweep takes it back exactly when it shares no object with the committed version
  (`Collector.AbandonedWriteRolledBack`). One that carried a row over stays open with the size it recorded, the
  file is still served from it, and the parts it had sealed read as zeroes (`Collector.SharedWriteStays`).
- `retried` in `crates/dcfs-fuse/src/client.rs:196-234` is wrong when one attempt is configured and that
  attempt gets no usable answer, and only then: `Client.FlagExact`, `Client.OneAttemptMisreports`.
- `crates/dcfs-fuse/src/client.rs:193-195` calls a delete replayed after it succeeded a no-op. A delete whose first
  send got no usable answer also succeeds when the node was never there; that is the only way it succeeds without
  having deleted anything (`Client.DeleteReports`, `Client.DeleteOfNothing`).
- `crates/dcfs-db/src/postgres.rs:936-948` commits a staged version whatever node it was staged for. A node's current
  version stays a version of that node exactly as long as no commit lands one staged for another node
  (`CommitProtocol.OwnVersionsExactly`, `CommitProtocol.CurrentIsOwn`; `CommitProtocol.ForeignVersionLands` for an
  input). Byte-API commits take the open version of the node itself.
- Nonces within one object are pairwise distinct exactly up to 2^32 + 1 segments: `Sealing.NoncesDistinct`.
  Between objects they are distinct up to 2^32 segments: `Sealing.NoNonceReused`.
- A write of no bytes still raises the size `stat` reports (`crates/dcfs-fuse/src/service.rs:601-608`):
  `FuseService.Fs.GetAttr` reports the larger of the file's length and that mark.

## Model

| member | source | states |
|---|---|---|
| `WriteSteps.TouchedCovers` | crates/dcfs-server/src/handlers/data.rs:340-378 | the parts a write seals again are distinct, inside the new file, and cover every byte written |
| `WriteSteps.StepBusy` | crates/dcfs-server/src/handlers/data.rs:302-444 | every effect of a write keeps the invariant: sealed parts hold new bytes, all others old ones, until the file reads as the flat-file write |
| `WriteSteps.StepOthers` | crates/dcfs-server/src/handlers/data.rs:302-444 | no effect of a write changes anything another file can read |
| `WriteSteps.BusyCanStep` | crates/dcfs-server/src/handlers/data.rs:302-444 | a write to a file that reads as some byte string always has a next effect: it cannot fail half way |
| `CommitSteps.FineRunIsRun` | crates/dcfs-server/src/handlers/data.rs:449-500 | a run in which commits are taken apart and other requests fall between lock, lookups, guard and transaction leaves what a run with whole commits leaves |
| `CommitSteps.CommitNeverConflicts` | crates/dcfs-server/src/handlers/data.rs:449-474 | in every such run a commit that has read its guard is accepted if the node still exists and answered NotFound otherwise: never Conflict |
| `CommitSteps.NoObjectLostAtThisGrain` | crates/dcfs-db/src/postgres.rs:1117-1122 | in every such run too, every row of every current version names an object still in the store |
| `WriteSteps.CommitKeepsQuiet` | crates/dcfs-server/src/handlers/data.rs:449-474 | a commit never changes what the file reads as |
| `Interleaving.StepSafe` | crates/dcfs-server/src/gc.rs:58-109 | every step of writers, syncs, deletions and the sweep keeps: no needed row names a missing or doomed object |
| `Interleaving.NoObjectLost` | crates/dcfs-db/src/postgres.rs:1117-1122 | over every interleaving, cut off anywhere, every row of every existing file's current version names an object still in the store |
| `FlatFiles.StepRefines` | crates/dcfs-server/src/handlers/data.rs:288-444 | every step of the interleaved system is a step of a disk of flat byte arrays |
| `FlatFiles.ServerIsFlatFiles` | crates/dcfs-server/src/handlers/data.rs:171-266 | after any run a read returns exactly the asked slice of the flat zero-extended array the completed writes produce |
| `FlatFiles.WritesNeverFail` | crates/dcfs-server/src/handlers/data.rs:288-444 | in any run a write in progress on an undisturbed file can always go on |
| `FlatFiles.ServesAgain` | crates/dcfs-server/src/handlers/data.rs:171-266 | a file whose write was cut off, once it is quiet again, is served as a flat file by every run from there on |
| `FlatFiles.SingleOpenWrite` | crates/dcfs-server/src/handlers/data.rs:308-338 | in any run a file has at most one staging version, whose size is the file's size between writes |
| `Completion.WriteCompletes` | crates/dcfs-server/src/handlers/data.rs:288-444 | from any point of any run, advancing a write on an undisturbed file finishes it, as the flat-file write |
| `Completion.DoWrite` | crates/dcfs-server/src/handlers/data.rs:288-444 | from any point of any run a write to an undisturbed file can be made in full; clock, sweep and other writers stay as they are, and so does the committed version if no commit point is crossed |
| `Completion.WriteAndReadBack` | crates/dcfs-server/src/handlers/data.rs:171-444 | for every nonempty body there is a run that creates a file, writes it and reads it back |
| `CutOffWrites.ReadWhileWriting` | crates/dcfs-server/src/handlers/data.rs:196-266 | a read that meets a write sees only old and new bytes, exactly unless it falls before the manifest is carried over and other than zeroes are at stake |
| `CutOffWrites.CutOffWrite` | crates/dcfs-server/src/handlers/data.rs:311-474 | after any number of effects of a write to a quiet file, what a sync leaves: byte for byte, for a write that opened its version and for one that found it open, and exactly when that is the old or the new file |
| `CutOffWrites.CutOffInEveryRun` | crates/dcfs-server/src/handlers/data.rs:311-474 | the same at any point of any run: the write can be cut off and the file synced, and this is what is left |
| `CutOffWrites.SurvivesExactly` | crates/dcfs-server/src/handlers/data.rs:380-435 | what is left is the old or the new file if and only if the write changes none of the bytes written so far, or does not grow the file and changes none of the others; and never if it opened the version of a nonempty file and has no size yet |
| `CutOffWrites.CutOffThenSync` | crates/dcfs-server/src/handlers/data.rs:326-335 | a write that opened a version, stopped before recording the new size, and is followed by a sync, leaves the file empty |
| `CutOffRuns.SyncedThenCutOff` | crates/dcfs-server/src/handlers/data.rs:316-335 | any synced file in any run, and any write to it at any offset: after one effect the file reads as zeroes, and if the write stops there a sync empties it |
| `CutOffRuns.SevenIsLost` | crates/dcfs-server/src/handlers/data.rs:316-335 | such a run exists, from the empty repository |
| `CutOffRuns.TornBySync` | crates/dcfs-server/src/handlers/data.rs:380-474 | a run that makes `[2, 1]` out of `[1, 1]` and a cut-off write of `[2, 2]` |
| `Immutability.RunKeepsCurrent` | crates/dcfs-db/src/memory.rs:372-400 | as long as a version stays current its record and every byte it shows stay the same |
| `Immutability.NeverCurrentAgain` | crates/dcfs-db/src/memory.rs:461-503 | a version that has stopped being current never is again |
| `SpreadReads.AtOnce` | crates/dcfs-server/src/handlers/data.rs:171-220 | the four lookups, made at one moment, are the read of that moment |
| `SpreadReads.ObjectsNeverChange` | crates/dcfs-server/src/handlers/data.rs:134-149 | no run gives an object other bytes, not even after it is gone |
| `SpreadReads.RowsAreSized` | crates/dcfs-server/src/handlers/data.rs:134-149 | in every run the object of a row, while it is there, is as long as the row says |
| `SpreadReads.GotIsThen` | crates/dcfs-server/src/handlers/data.rs:213-266 | a read that succeeds, its lookups and fetches spread over any run, returns in its range what the version it found spelled out when its rows were listed |
| `SpreadReads.CommittedReadsAgreeExactly` | crates/dcfs-server/src/handlers/data.rs:22-32 | two reads of one version flagged committed, spread over any run, agree on a byte if and only if both found its row, neither did, or the version held a zero there when the one that found the row listed it |
| `SpreadReads.CommittedReadsAgree` | crates/dcfs-server/src/handlers/data.rs:22-32 | they agree on every byte they share if the version was current when each listed its rows |
| `RestingReads.HolderStays` | crates/dcfs-server/src/handlers/data.rs:196-220 | through syncs, sweeps and writes to other files one version goes on holding a file at rest, with the same rows |
| `RestingReads.SpreadReadIsFlat` | crates/dcfs-server/src/handlers/data.rs:171-266 | a read spread over any run, of a file that is at rest from its node lookup to its last fetch, always succeeds and returns exactly the asked slice of the flat file the run's writes made, unless a sync committed the open version between its first two lookups |
| `RestingReads.OvertakenReadIs` | crates/dcfs-server/src/handlers/data.rs:196-266 | the answer of an overtaken read in every case: empty if the node named no version, an error exactly if that version or a part needed is gone, otherwise what that version spells out when its rows are listed; flagged committed |
| `LateReads.LateByte` | crates/dcfs-server/src/handlers/data.rs:177-220 | at any point of any run with no write under way, for any undisturbed file whose open version no longer names some object of the committed one: a read that looks the node up, lets a sync pass, or a sync and a sweep of that object, and goes on, is flagged committed and returns byte for byte the replaced version, with zeroes for the parts swept |
| `LateReads.CommittedReadsDisagree` | crates/dcfs-server/src/handlers/data.rs:22-32 | one run with three reads of one committed version that return `[7]`, `[7]` and `[0]`, the last two while the file reads as `[9]` |
| `LateReads.FirstSyncHides` | crates/dcfs-server/src/handlers/data.rs:199-206 | any file with nobody writing, before its first sync, at any point of any run: a read that looks the node up, lets the sync pass and goes on answers empty and committed, whatever the file holds before and after |
| `LateReads.FirstSyncReadsEmpty` | crates/dcfs-server/src/handlers/data.rs:199-206 | such a run from the empty repository, for a file that reads as `[7]` |
| `AutomaticCommits.CommitsByItself` | crates/dcfs-server/src/handlers/data.rs:435-441 | a whole write commits the version it worked on and leaves nothing open if the file reaches a multiple of 2^30 bytes it had not reached before, and otherwise leaves exactly that version open |
| `AutomaticCommits.CommittedAfterWrite` | crates/dcfs-server/src/handlers/data.rs:435-441 | so the next read returns the flat-file write, flagged committed exactly then |
| `AutomaticCommits.CommitsInEveryRun` | crates/dcfs-server/src/handlers/data.rs:435-441 | the same for the last step of a write to an undisturbed file in any run |
| `WholeParts.UntouchedIsFull` | crates/dcfs-server/src/handlers/data.rs:348-355 | a part of the old file that a write does not seal again was full |
| `WholeParts.PartsAreWhole` | crates/dcfs-server/src/handlers/data.rs:348-355 | in every run, in the open and the committed version of an undisturbed file nobody is writing, every part reaches to its own end or to the end of the file |
| `WriteSteps.FetchedExactly` | crates/dcfs-server/src/handlers/data.rs:387-401 | merging a part needs its old object exactly if the write keeps a byte of it |
| `WholeWrites.WriteIsFlatWrite` | crates/dcfs-server/src/handlers/data.rs:288-444 | a whole write succeeds, makes the file read as the flat-file write, and changes no other file |
| `WholeWrites.WriteStateOk` | crates/dcfs-server/src/handlers/data.rs:288-444 | a write that fails half way leaves a well-formed repository |
| `WholeWrites.PartsThenCommit` | crates/dcfs-server/src/handlers/data.rs:426-441 | a write is its parts followed by the commit it owes for crossing a boundary |
| `WholeWrites.MergeRuns` | crates/dcfs-server/src/handlers/data.rs:380-422 | the loop over touched parts has the effect of the single steps, and stops where they stop |
| `Stitching.Stitch` | crates/dcfs-server/src/handlers/data.rs:260-263 | the pieces put end to end are the range of the version |
| `ByteApi.OpenChunk` | crates/dcfs-server/src/handlers/data.rs:60-78 | a stored object decrypts to its plaintext if the row's hash matches, and fails otherwise |
| `ByteApi.SliceOfChunk` | crates/dcfs-server/src/handlers/data.rs:87-132 | part of a part is the window of its plaintext, zeroes past its end, whether fetched by range or whole |
| `ByteApi.Server.WriteChunk` | crates/dcfs-server/src/handlers/data.rs:134-149 | the store gains the plaintext, sealed under a fresh id |
| `ByteApi.Server.ReadShares` | crates/dcfs-server/src/handlers/data.rs:228-258 | whatever order the parallel fetches finish in, every slot ends up with its part's share, holes as zeroes; a part needed and gone fails the read |
| `ByteApi.Server.ReadVersion` | crates/dcfs-server/src/handlers/data.rs:210-266 | a range of a version is the bytes its parts spell out |
| `ByteApi.Server.Read` | crates/dcfs-server/src/handlers/data.rs:171-266 | a read returns what the served version spells out, and whether it is committed; it fails for missing files, for directories, and exactly if the object of a part it needs is gone |
| `ByteApi.Server.StageWorking` | crates/dcfs-server/src/handlers/data.rs:316-335 | a new working version holds the committed manifest |
| `ByteApi.Server.MergePart` | crates/dcfs-server/src/handlers/data.rs:380-422 | one part is merged, sealed, stored and recorded, or the request fails because it cannot be read back |
| `ByteApi.Server.MergeParts` | crates/dcfs-server/src/handlers/data.rs:380-422 | the loop leaves what merging the touched parts in order leaves |
| `ByteApi.Server.FindPrior` | crates/dcfs-server/src/handlers/data.rs:359-374 | the two row ranges looked up hold the rows of all touched parts |
| `ByteApi.Server.Write` | crates/dcfs-server/src/handlers/data.rs:288-444 | the repository and store after a request are those of the write run effect by effect, its commit included; an empty body, a missing node and a directory are answered so and change nothing |
| `ByteApi.Server.Sync` | crates/dcfs-server/src/handlers/data.rs:492-500 | the open write is committed; with other requests in between see `CommitSteps.CommitNeverConflicts` |
| `ByteApi.WriteSucceeds` | crates/dcfs-server/src/handlers/data.rs:288-444 | a request on a file that reads as `f` succeeds and makes it read as `f` with the write spliced in |
| `ByteApi.ReadYourWrite` | crates/dcfs-server/src/handlers/data.rs:196-208 | reading back what was just written returns it, committed or not |
| `MemoryRepository.BinarySearch` | crates/dcfs-db/src/memory.rs:395-398 | finds the row of an index or the place it belongs |
| `MemoryRepository.Repository.AddNode` | crates/dcfs-db/src/memory.rs:110-143 | a new empty node under a fresh id |
| `MemoryRepository.Repository.RemoveNode` | crates/dcfs-db/src/memory.rs:185-189 | the node goes and its versions stay, or NotFound |
| `MemoryRepository.Repository.UpdateSize` | crates/dcfs-db/src/memory.rs:245-277 | only the recorded size changes, or NotFound |
| `MemoryRepository.Repository.CreateStagingVersion` | crates/dcfs-db/src/memory.rs:279-305 | adds an empty staging version and bumps the generation, or NotFound |
| `MemoryRepository.Repository.FindOpenStaging` | crates/dcfs-db/src/memory.rs:318-329 | the newest open write, or none exactly if there is none |
| `MemoryRepository.Repository.TouchStaging` | crates/dcfs-db/src/memory.rs:331-343 | records size and time of a staging version only |
| `MemoryRepository.Repository.Reconcile` | crates/dcfs-db/src/memory.rs:345-370 | files without an open write get their committed size back |
| `MemoryRepository.Repository.AttachChunk` | crates/dcfs-db/src/memory.rs:372-400 | the sorted row vector implements the map update |
| `MemoryRepository.Repository.GetChunkRange` | crates/dcfs-db/src/memory.rs:410-423 | exactly the rows of the range, in order |
| `MemoryRepository.Repository.CopyChunkRange` | crates/dcfs-db/src/memory.rs:425-459 | rows of the range are carried over, rows already there win |
| `MemoryRepository.Repository.CommitVersion` | crates/dcfs-db/src/memory.rs:461-503 | refused exactly by the guard, otherwise the version becomes current and the old one superseded |
| `MemoryRepository.CollectableObjects` | crates/dcfs-db/src/memory.rs:595-649 | no duplicates, within the limit, only collectable objects, and below the limit all of them |
| `MemoryRepository.Repository.Forget` | crates/dcfs-db/src/memory.rs:651-660 | exactly the rows naming the object go |
| `MemoryRepository.Repository.PurgeEmptyDead` | crates/dcfs-db/src/memory.rs:662-687 | exactly the aged, empty, non-current versions go |
| `Collector.SweepAllIs` | crates/dcfs-server/src/gc.rs:63-88 | the loop takes exactly the doomed objects the store gave up, with every row naming them, and nothing else |
| `Collector.DeleteDoomed` | crates/dcfs-server/src/gc.rs:63-88 | the loop over the store and the repository has that effect, and counts what it deleted and kept |
| `Collector.CollectOnce` | crates/dcfs-server/src/gc.rs:42-112 | one sweep, its cutoff a retention period before now: what it dooms, what it leaves, and how much it deleted, kept and purged |
| `Purging.PurgedExactly` | crates/dcfs-db/src/memory.rs:662-687 | after a complete sweep a version, in whatever state, is gone if and only if it is not the current one of an existing node, was committed (or else created) before the cutoff, and names no object that a current version or a young open one names |
| `Purging.ReplacedIsPurged` | crates/dcfs-server/src/gc.rs:90-93 | in any run, a version a sync has replaced is gone if and only if it was committed before the cutoff and shares no object with its successor |
| `Purging.DeletedIsPurged` | crates/dcfs-server/src/gc.rs:90-93 | in any run, a version of a deleted file is gone if and only if it dates from before the cutoff and shares no object with a young open version |
| `Collector.SweepIsRun` | crates/dcfs-server/src/gc.rs:42-112 | a sweep is a run of the interleaved system, so its safety theorems hold after it |
| `Collector.AbandonedCollectable` | crates/dcfs-db/src/memory.rs:595-649 | an object of an abandoned write is collectable exactly if the committed version does not name it |
| `Collector.AbandonedWriteRolledBack` | crates/dcfs-server/src/gc.rs:90-109 | one complete sweep purges an abandoned write exactly if it shares no object with the committed version; then its objects are gone, the node record and the committed version are back, and nothing is open |
| `Collector.SharedWriteStays` | crates/dcfs-server/src/gc.rs:90-109 | otherwise the node record stays, the version stays open and is served, and of its parts exactly those the committed version names too survive: the ones the write had sealed read as zeroes |
| `Collector.StaleSyncLosesObject` | crates/dcfs-server/src/gc.rs:58-88 | a sync of an abandoned write between snapshot and delete commits a version that loses its object |
| `Ownership.NothingSharedBetweenFiles` | crates/dcfs-db/src/postgres.rs:1117-1122 | in every run two versions naming one object are versions of one file |
| `Ownership.RolledBackInEveryRun` | crates/dcfs-server/src/gc.rs:90-109 | the rollback theorem at any point of any run |
| `Ownership.SharedStaysInEveryRun` | crates/dcfs-server/src/gc.rs:90-109 | and its other half |
| `Ownership.PromisedAfterRollback` | crates/dcfs-server/src/gc.rs:42-112 | in any run a sweep that takes an abandoned write back makes the file a flat file again, holding the committed bytes |
| `Retention.CollectableVersusDocumented` | crates/dcfs-db/src/repository.rs:447-449 | whatever the documented rule allows is collectable, and the two agree on an object if and only if its dead versions are not on both sides of the cutoff |
| `Retention.CollectedTooEarly` | crates/dcfs-db/src/memory.rs:619-648 | a well-formed state in which they differ |
| `Retention.CollectableAtDeath` | crates/dcfs-server/src/gc.rs:9-11 | an object that dies with a sync is collectable at once if and only if some version naming it was committed before the cutoff |
| `Retention.RetentionNotKept` | crates/dcfs-server/src/gc.rs:9-11 | for every retention period there is a run in which an object is live up to the sync it ends with and may be swept after it |
| `Retention.CollectableAtDeletion` | crates/dcfs-server/src/gc.rs:9-11 | an object that dies with its file is collectable at once if and only if some version naming it dates from before the cutoff and no open one from after it |
| `Retention.DeletedAfterRetention` | crates/dcfs-server/src/gc.rs:9-11 | so in every run an object of a file committed longer ago than the retention period may be swept right after a deletion, unless a younger open version names it |
| `Retention.DeletionNotKept` | crates/dcfs-server/src/gc.rs:9-11 | for every retention period there is a run that ends so |
| `CommitProtocol.Database.CreateStagingVersion` | crates/dcfs-db/src/postgres.rs:641-676 | the transaction bumps the generation and adds a staging version, or changes nothing |
| `CommitProtocol.Database.CommitVersion` | crates/dcfs-db/src/postgres.rs:907-971 | the transaction commits under its guard, or reports why not and changes nothing |
| `CommitProtocol.StepGood` | crates/dcfs-db/src/postgres.rs:907-971 | every step keeps: current versions are committed, exist, and belong to one node each |
| `CommitProtocol.TransitionsAllowed` | crates/dcfs-core/src/version.rs:37-45 | a version's state changes only by an allowed transition, and no step of the protocol makes garbage |
| `CommitProtocol.TransitionTable` | crates/dcfs-core/src/version.rs:37-45 | the allowed transitions are exactly four |
| `CommitProtocol.StagedThenLands` | crates/dcfs-db/src/postgres.rs:641-676 | staging adds exactly one version, of that node; a commit under the guard of that moment lands it, with size and time recorded |
| `CommitProtocol.OwnVersionsExactly` | crates/dcfs-db/src/postgres.rs:907-971 | a step keeps every current version a version of its own node if and only if it lands no version staged for another |
| `CommitProtocol.CurrentIsOwn` | crates/dcfs-db/src/postgres.rs:907-971 | so in every run whose commits land only their own nodes' versions |
| `CommitProtocol.ForeignVersionLands` | crates/dcfs-db/src/postgres.rs:936-948 | two files and a commit of one's version to the other |
| `CommitProtocol.HistoryIsChain` | crates/dcfs-db/src/postgres.rs:907-971 | in every run each successful commit expected exactly the version it replaced, and the last one is current |
| `CommitProtocol.NoVersionRecurs` | crates/dcfs-db/src/postgres.rs:936-949 | no version becomes current twice, on any node |
| `CommitProtocol.GuardUsedOnce` | crates/dcfs-db/src/postgres.rs:927-949 | equal guards succeed at most once |
| `CommitProtocol.NoLostUpdate` | crates/dcfs-db/src/postgres.rs:915-934 | a guard read before someone else's commit is refused after it and changes nothing |
| `CommitProtocol.StagingInvalidatesGuards` | crates/dcfs-db/src/postgres.rs:649-660 | a guard read before someone else staged a version is refused ever after |
| `CommitProtocol.MemoryStages` | crates/dcfs-db/src/memory.rs:279-305 | the in-memory repository stages as the transaction does |
| `CommitProtocol.MemoryAgrees` | crates/dcfs-db/src/memory.rs:461-503 | the in-memory commit agrees with the transaction exactly if it is refused or the version is staged |
| `CommitProtocol.MemoryTransitions` | crates/dcfs-db/src/memory.rs:461-503 | it makes only allowed transitions exactly if the version is staged or already committed |
| `Sealing.SealedLength` | crates/dcfs-crypto/src/chunk.rs:87-89 | a sealed object is exactly its overhead longer than its plaintext: 8 bytes and 16 for every started 256 KiB, at least one |
| `Sealing.OverheadCovered` | crates/dcfs-crypto/src/chunk.rs:91-94 | the constant covers the overhead of every part up to 16 MiB, and no more than that |
| `Sealing.FetchIsTight` | crates/dcfs-crypto/src/chunk.rs:123-132 | a range fetch covers the range and no segment the range does not touch |
| `Sealing.Seal` | crates/dcfs-crypto/src/chunk.rs:224-265 | the loop produces header and sealed segments, the last one flagged |
| `Sealing.OpenSegmented` | crates/dcfs-crypto/src/chunk.rs:297-335 | the loop opens the body cut at the recovered segment count |
| `Sealing.SealOpenRoundTrip` | crates/dcfs-crypto/src/chunk.rs:224-335 | for every length, opening what was sealed returns the plaintext |
| `Sealing.OpenRange` | crates/dcfs-crypto/src/chunk.rs:165-212 | the cursor loop opens the fetched segments and cuts out the range |
| `Sealing.RangeReadIsSlice` | crates/dcfs-crypto/src/chunk.rs:165-212 | opening exactly the fetched bytes yields exactly the slice of the plaintext |
| `Sealing.FetchRange` | crates/dcfs-crypto/src/chunk.rs:123-212 | the fetch and the opening together return the slice |
| `Sealing.NoncesDistinct` | crates/dcfs-crypto/src/chunk.rs:139-150 | the nonces of an object are pairwise distinct exactly up to 2^32 + 1 segments |
| `Sealing.NonceExact` | crates/dcfs-crypto/src/chunk.rs:139-150 | nonces are equal if and only if object, key id and flag are and the indices agree modulo 2^32 |
| `Sealing.NoNonceReused` | crates/dcfs-crypto/src/chunk.rs:135-150 | two segments with one nonce, of any two objects up to 2^32 segments, are the same segment of the same object under the same key id |
| `Sealing.OnlyOwnCellsOpen` | crates/dcfs-crypto/src/chunk.rs:152-157 | every byte of an object that opens was sealed under its key for it and its key id |
| `Sealing.ForeignNeverOpens` | crates/dcfs-crypto/src/chunk.rs:217-223 | an object that holds, at any place, a segment sealed for another object, under another key or key id, does not open |
| `Sealing.ForeignNeverRead` | crates/dcfs-crypto/src/chunk.rs:165-212 | nor does a range of it |
| `Sealing.LayoutChecked` | crates/dcfs-crypto/src/chunk.rs:298-307 | an object too short or laid out with another segment size does not open |
| `Sealing.TamperedNeverOpens` | crates/dcfs-crypto/src/chunk.rs:139-150 | any arrangement of an object's segments that opens at all is the whole object in order: dropped, repeated or swapped segments never open |
| `WriteLog.LandAt` | crates/dcfs-fuse/src/service.rs:280-283 | replayed runs are decided byte by byte by the last writer |
| `WriteLog.ReplayAgain` | crates/dcfs-fuse/src/service.rs:284-316 | replaying one of the runs first changes nothing, so replay may be cut off and start over |
| `WriteLog.FixedByTail` | crates/dcfs-fuse/src/writelog.rs:93-98 | a file holding all runs still holds all but the first |
| `WriteLog.RemoveInOrder` | crates/dcfs-fuse/src/writelog.rs:93-98 | removing run files in journal order takes runs off the front of what is left to replay |
| `WriteLog.LeftoverHarmless` | crates/dcfs-fuse/src/writelog.rs:67-71 | replaying a sent run again is harmless exactly if later writes left its bytes alone |
| `WriteLog.LeftoverOverwrites` | crates/dcfs-fuse/src/writelog.rs:67-71 | a run whose replay undoes a later write |
| `CrashRecovery.StepInv` | crates/dcfs-fuse/src/service.rs:255-316 | every effect of write, flush, crash and recovery keeps: buffer and server, or log and server, make up what was accepted; a death does if every run in the buffer has a line |
| `CrashRecovery.ServingRecovers` | crates/dcfs-fuse/src/writelog.rs:77-90 | a process that dies while serving leaves a log that recovers every file if and only if every run it holds has a line or changes nothing on the server |
| `CrashRecovery.AcknowledgedWritesSurvive` | crates/dcfs-fuse/src/service.rs:284-316 | after any crashes, also inside recovery, reset and journal lines: the landed writes are pieces of begun writes in the order they were begun, the acknowledged ones in full and exactly those acknowledged, with at most one more per crash; and every file is what they make it, in order, if no death found a run without a line, so whenever no line follows an unfinished one |
| `CrashRecovery.TidyIsCovered` | crates/dcfs-cache/src/journal.rs:37-45 | in a run in which no line follows an unfinished one no death finds a buffered run without a line |
| `CrashRecovery.LostExactly` | crates/dcfs-cache/src/journal.rs:37-45 | wherever a process serves with a line for every run: a write that opens a run and is acknowledged is lost with the process if and only if the journal did not end in a newline and the write changes what the server has |
| `CrashRecovery.NewlineLosesWrite` | crates/dcfs-cache/src/journal.rs:37-45 | a run from an empty log in which an acknowledged `[7]` never comes back |
| `JournalFile.RecordedIsLined` | crates/dcfs-cache/src/journal.rs:37-70 | for a journal with any past, what is read back line by line after an entry was recorded, in full or cut short, and how the file ends then |
| `CrashRecovery.TruthCovers` | crates/dcfs-fuse/src/service.rs:193-214 | a file reaches at least to the end of every nonempty write accepted for it |
| `FuseService.RunLog.TakePending` | crates/dcfs-fuse/src/writelog.rs:77-90 | the runs whose files are there and not empty, oldest first |
| `FuseService.RunLog.Extend` | crates/dcfs-fuse/src/writelog.rs:61-64 | the run file grows by the bytes, nothing else changes |
| `FuseService.RunLog.Finish` | crates/dcfs-fuse/src/writelog.rs:67-71 | the run file is gone, the journal line stays |
| `FuseService.Fs.InoFor` | crates/dcfs-fuse/src/service.rs:171-181 | one inode per node, kept once given, never reused for another |
| `FuseService.Fs.PutRun` | crates/dcfs-fuse/src/service.rs:270-273 | taking a run out of the buffer and sending it is the step of the crash model that leaves its record behind |
| `FuseService.Fs.DropRecord` | crates/dcfs-fuse/src/service.rs:274-276 | dropping the record is a step of its own, possible only for a run already sent |
| `FuseService.Fs.AppendRun` | crates/dcfs-fuse/src/service.rs:611-621 | appending to the run and its file is one step |
| `FuseService.Fs.CreateRunFile` | crates/dcfs-fuse/src/writelog.rs:44-46 | putting a new run's bytes on disk is one step |
| `FuseService.Fs.JournalRun` | crates/dcfs-fuse/src/writelog.rs:47-56 | journalling and buffering it is the next, possible only once the file is there; the line is readable only if the journal ended in a newline |
| `FuseService.Fs.StartRun` | crates/dcfs-fuse/src/service.rs:255-266 | exactly those two steps, in this order |
| `FuseService.Fs.Send` | crates/dcfs-fuse/src/service.rs:270-278 | exactly sending and then dropping |
| `FuseService.Fs.Buffer` | crates/dcfs-fuse/src/service.rs:609-630 | which steps a write makes: it extends the run, sends a broken-off one and starts another, or starts one |
| `FuseService.Fs.Settle` | crates/dcfs-fuse/src/service.rs:632-641 | a full run is sent and its record dropped, another kept |
| `FuseService.Fs.Write` | crates/dcfs-fuse/src/service.rs:601-647 | the write joins the accepted ones, in order; the size mark covers it; its run is buffered unless it now ends on a part boundary or is twice a buffer long, and no other run is touched |
| `FuseService.Fs.Flush` | crates/dcfs-fuse/src/service.rs:238-252 | nothing is buffered for the file any more, no file changes |
| `FuseService.Fs.FlushAll` | crates/dcfs-fuse/src/service.rs:320-332 | nothing is buffered for any file any more, no file changes |
| `FuseService.Fs.Read` | crates/dcfs-fuse/src/service.rs:469-514 | a read is the slice of the flat file of all accepted writes, buffered or not, with fresh or remembered size |
| `FuseService.Fs.GetAttr` | crates/dcfs-fuse/src/service.rs:350-355 | the size reported is the larger of the file's length and the furthest mark, so never below the end of any write this process accepted |
| `FuseService.Fs.ReplayRun` | crates/dcfs-fuse/src/service.rs:284-316 | replaying one leftover run is one step |
| `FuseService.Fs.UnlinkRun` | crates/dcfs-fuse/src/writelog.rs:93-98 | run files go one by one, in journal order, only after the last replay |
| `FuseService.Fs.ClearLog` | crates/dcfs-fuse/src/writelog.rs:93-98 | the journal goes only after the last file |
| `FuseService.Fs.Recover` | crates/dcfs-fuse/src/service.rs:284-316 | after recovery from a past in which every death found a line for every run, the server holds every file as the landed writes make it, the process may serve, and the log is cleared of exactly the runs it counted |
| `BlockCache.PickVictims` | crates/dcfs-fuse/src/blockcache.rs:299-321 | victims are older than every survivor, meet the budget, and one fewer would not |
| `BlockCache.BlocksExactly` | crates/dcfs-fuse/src/blockcache.rs:119-120 | the blocks of a range are those that have bytes of it |
| `BlockCache.Cache.LoadAll` | crates/dcfs-fuse/src/blockcache.rs:122-145 | every kept block of the range is found and becomes a most recent one, exactly the others are to be fetched, and blocks outside stay as they are |
| `BlockCache.Stitch` | crates/dcfs-fuse/src/blockcache.rs:175-186 | the clamped windows of the blocks are the slice of the version |
| `BlockCache.Cache.Load` | crates/dcfs-fuse/src/blockcache.rs:219-247 | a kept nonempty block becomes the most recently used, any other is forgotten, with the byte count exact |
| `BlockCache.Cache.Store` | crates/dcfs-fuse/src/blockcache.rs:249-295 | the block is kept and, in stream mode, the minimal oldest blocks make room |
| `BlockCache.Cache.Invalidate` | crates/dcfs-fuse/src/blockcache.rs:191-207 | exactly the blocks of that file go, with the byte count exact |
| `BlockCache.Cache.FetchMisses` | crates/dcfs-fuse/src/blockcache.rs:136-173 | answers in any order fill every slot, only blocks marked safe are kept, and all of them if there is room; an error is that of a fetch made |
| `BlockCache.Cache.Read` | crates/dcfs-fuse/src/blockcache.rs:103-187 | a cached read is the clamped slice of the version, keeps the cache right for every version, and never keeps an uncommitted block; only blocks not kept are fetched, so it fails only if one of those cannot be, and with room for them the whole range is kept and most recent afterwards |
| `DirtyExtents.SameBytesSameRanges` | crates/dcfs-cache/src/dirty.rs:17-102 | two canonical lists for the same bytes are equal, so order of operations never matters |
| `DirtyExtents.Extents.Insert` | crates/dcfs-cache/src/dirty.rs:17-39 | exactly the union, canonical |
| `DirtyExtents.Extents.ClearRange` | crates/dcfs-cache/src/dirty.rs:42-63 | exactly the difference, canonical |
| `DirtyExtents.Extents.Truncate` | crates/dcfs-cache/src/dirty.rs:81-95 | exactly the bytes below the new size, canonical |
| `DirtyExtents.Extents.TruncateGrow` | crates/dcfs-cache/src/dirty.rs:98-102 | exactly the union with the grown part |
| `DirtyExtents.Extents.ClearAll` | crates/dcfs-cache/src/dirty.rs:66-68 | nothing is dirty |
| `DirtyExtents.Extents.IsDirty` | crates/dcfs-cache/src/dirty.rs:71-73 | whether any byte is dirty |
| `LockMap.OneWriterPerFile` | crates/dcfs-server/src/state.rs:66-74 | two tasks never hold one file's lock at once |
| `LockMap.PruneSafe` | crates/dcfs-server/src/state.rs:70-72 | a lock some task has a handle on survives pruning |
| `LockMap.PruneExact` | crates/dcfs-db/src/postgres.rs:33-38 | and only such locks do |
| `LockMap.PrunedBounded` | crates/dcfs-server/src/state.rs:70-72 | pruning leaves no more locks than there are tasks |
| `LockMap.WriteLocks.Obtain` | crates/dcfs-server/src/state.rs:66-74 | everyone with a handle for a file has the same lock, across pruning, and the map stays within its limit or the number of tasks |
| `LockMap.WriteLocks.TryAcquire` | crates/dcfs-server/src/handlers/data.rs:302-304 | a lock is taken exactly if no task holds it |
| `LockMap.WriteLocks.Release` | crates/dcfs-server/src/handlers/data.rs:302-304 | the guard dropped, nobody holds the lock |
| `LockMap.WriteLocks.Drop` | crates/dcfs-server/src/state.rs:66-74 | a handle given back, also by a task still waiting, keeps the counts right |
| `Client.SendsBounded` | crates/dcfs-fuse/src/client.rs:196-234 | a request is sent at least once and at most once more than the configured attempts |
| `Client.FlagExact` | crates/dcfs-fuse/src/client.rs:196-234 | the retry flag is right exactly unless one attempt is configured and gets no usable answer |
| `Client.TakesEffect` | crates/dcfs-fuse/src/client.rs:187-195 | a create takes effect unless it is lost, turned away or blocked, whatever becomes of its answer |
| `Client.RetriesUntilAnswered` | crates/dcfs-fuse/src/client.rs:196-234 | a send is followed by another if and only if it got no answer, a 429 or a 5xx, until the attempts are used up |
| `Client.AnsweredAtOnce` | crates/dcfs-fuse/src/client.rs:202-214 | with nothing lost one send is enough, and what stood in its way decides the answer |
| `Client.CreateReports` | crates/dcfs-fuse/src/client.rs:339-364 | with other than one attempt, once everyone has answered, a create succeeds if and only if the node is there under its name, and was not before or the first send got no usable answer; otherwise it is a conflict |
| `Client.CreateIsReplaySafe` | crates/dcfs-fuse/src/client.rs:339-364 | under every pattern of losses a create makes at most one node, success means it is there under its name, and with other than one attempt a conflict means it is not |
| `Client.OneAttemptMisreports` | crates/dcfs-fuse/src/client.rs:353-359 | with one attempt configured a lost answer makes the client report its own node as someone else's |
| `Client.DeleteMeansGone` | crates/dcfs-fuse/src/client.rs:419-434 | success from a delete means the node is gone; with other than one attempt NotFound means it was not there |
| `Client.DeleteReports` | crates/dcfs-fuse/src/client.rs:419-434 | with other than one attempt, once answered, a delete succeeds if and only if the node is gone, and was there before or the first send got no usable answer; it reports a node that is not empty if and only if it is still there |
| `Client.DeleteOfNothing` | crates/dcfs-fuse/src/client.rs:425-428 | a delete of a node that never was succeeds after a lost request |
| `Client.HttpClient.SendRetrying` | crates/dcfs-fuse/src/client.rs:196-234 | the loop, with its last extra try, is the recursive exchange |
| `Client.HttpClient.CreateNode` | crates/dcfs-fuse/src/client.rs:339-364 | a conflict after a retry is looked up under the key; success and failure as in `Client.CreateReports`, over the nodes before and after |
| `Client.HttpClient.DeleteNode` | crates/dcfs-fuse/src/client.rs:419-434 | finding nothing after a retry is success; success and failure as in `Client.DeleteReports`, over the nodes before and after |
| `Base64.Decode` | crates/dcfs-server/src/auth.rs:60-78 | the loop with its 32-bit accumulator yields the bytes of the six-bit values, or nothing for a foreign character |
| `Base64.AlphabetOrder` | crates/dcfs-server/src/auth.rs:61 | the alphabet is table 1 of RFC 4648 |
| `Base64.DecodesExactly` | crates/dcfs-server/src/auth.rs:65-69 | a text decodes if and only if all it has besides padding and whitespace is in the alphabet |
| `Base64.DecodeInverts` | crates/dcfs-server/src/auth.rs:60-78 | any text that is the encoding of `s` up to padding and whitespace anywhere decodes to `s` |
| `Base64.PaddedOrNot` | crates/dcfs-server/src/auth.rs:68-70 | the padded and the unpadded encoding are both such texts |

## Left out

- HTTP routing, WebDAV, sessions, UI, CLI, configuration and start-up: plumbing without hard state.
- The Discord backend, rate limits, URL expiry, backoff durations: network and clock behaviour.
- The cipher and the hash themselves: an ideal AEAD and an injective hash stand in for them.
- The original single-message object format, which `open` still reads when the segment header is missing.
- Connection pooling, SQL text, migrations, transient database errors: only the effect of a transaction is modelled.
- Size patches (truncate and grow through `setattr`), and reuse of staging versions older than a cutoff: the code does not keep flat-file semantics there.
- The versions API, which stages and commits without the file lock.
- Namespace operations (rename, listing, name uniqueness) and soft-deleted nodes.
- Objects no row ever named: only the database query finds them.
- Memory allocation and thread scheduling; a lock in the server model is the guard that one write per file is in progress.
- MemoryRepository.Repository.AddNode: draws the id itself, so it cannot answer AlreadyExists; a create under a given id is `Serve` in Client.
- MemoryRepository.Repository.UpdateSize: models the size of the patch only, not mode, owner and times.
- Collector.CollectOnce: does not count removed rows, corrected sizes, purged nodes and sessions, which only feed a log line.
- FuseService.Fs.Read: models a mount without a block cache; that the cache returns the same slice is `BlockCache.Cache.Read`.
- FuseService.Fs.Write: does not model a mount without a write log or a failing log, where an accepted write can be lost with the process.
- FuseService.Fs.Recover: promises the files for a past in which no process died with a run in its buffer that had no line; when one does is `CrashRecovery.LostExactly`.
- FuseService.Fs.JournalRun: writes the whole line; a process that dies within it is a step of CrashRecovery.
- BlockCache.Cache.Read: does not model two reads of the cache at once; each of its methods is atomic.
- ByteApi.Server.Read: runs with nothing in between (SpreadReads spreads it), and says nothing about an object shorter than its row says, which no run leaves (`SpreadReads.RowsAreSized`).
- ByteApi.OpenChunk: does not open the single-message format.
- ByteApi.Server.Sync: runs with nothing in between; CommitSteps takes it apart.
- CutOffWrites.ReadWhileWriting: takes the lookups of the read at one moment; for spread ones see `SpreadReads.GotIsThen`.
- MemoryRepository.Repository.Reconcile: does not return how many sizes it corrected, which only feeds a log line.
- MemoryRepository.Repository.CopyChunkRange: does not return how many rows it copied, which its caller ignores.
- MemoryRepository.Repository.Forget: does not return how many rows it removed, which only feeds a log line.
