# Verified model of fast-volume-syncer

This project models the parts of fast-volume-syncer that decide whether a copy
is right: the native copier over a file tree, the two concurrent pipelines that
feed work to it, the pid-file, mount and log-rotation protocols, the
descriptor-by-descriptor directory walk, and the two scanners with the
`find -ls` parser. `dafny verify dfyconfig.toml` checks everything.

## How it is built

**The native copier** (`Tree`, `PathGuard`, `Mirror`, `Disk`, `Guards`,
`Idempotence`, `Convergence`, `TwoPasses`, `Retries`, `Recovery`, `Accounting`,
`Copier`). A file system is a map from component sequences to directories, files
and links, with POSIX pathname resolution. `Disk` offers the system calls as
methods that change the tree one step at a time, keep every intermediate tree in
a history and may fail at will unless the disk is `healthy`. `Copier` is the program: the guards, the
handlers, the temp-file-and-rename publication, the counting loop and the retry.
Each handler is proved equal to `Mirror.Route` on a healthy disk and inside a
frame on any disk, at every intermediate state. Convergence, order independence,
idempotence and crash recovery are theorems about `Mirror.Route` and that frame.

**The pipelines** (`ChunkPipeline`, `SelectorPipeline`, `CsvLoader`, `EndToEnd`).
Scanner, dispatcher, workers, buffer pool, permits, channels, ticker,
cancellation and runner are one step system each; the theorems quantify over all
interleavings. `EndToEnd` joins the first of them with the copier, whose workers
`Retries` lets run side by side, each repeating its own chunk.

**The protocols** (`PidFile`, `MountTransaction` with `Namespace`, `Workspace`
and `Teardown`, `LogRotation`, `OpenBeneath`). The pid file is a step system over
any number of processes, with crashes and inode reuse. The other three are
methods over kernel state whose calls fail nondeterministically, proved against
the state they must leave behind; calls that are refused without a reason are
counted, so that the contracts also say what happens if none is, or one. The
mount transaction runs in a file tree with links, where each mount covers a
subtree and unmounting uncovers it.

**The scanners** (`Regex`, `FileMode`, `Strconv`, `FindLine`, `Scanners`,
`ScanWalk`). A backtracking matcher with lazy and greedy repetition, proved to
find a match exactly when there is one, carries the two patterns of the parser; a
printer of `find -ls` lines is its partner. `ScanWalk` runs the in-process walk's
callback in several goroutines. `Lexical` cleans and compares paths by their
text, as `filepath` does.

## What the proofs say about the code

- Retrying a chunk in whatever order succeeds by the second pass if and only if
  no listed path started with an obstacle (a link where a directory or file is
  listed, or a listed directory that others may change), no listed regular file
  turned into something else, and what lies above the listed paths without being
  listed can be passed: it is a directory, secure where something has to be put
  below it, and not open to others where a directory has to be made in it, unless
  a link or file listed further down makes that one first. Then the tree is the
  one computed from the starting tree and the list alone. For a list that
  contains its parents the last condition is void; for other lists it is not,
  and a chunk is such a list.
- Where a listed directory starts as a file, directly in an unlisted one that is
  open to others, it is removed before it turns out that it cannot be made. Then
  some two orders end with an error, whatever is listed below it.
- After a stop anywhere, with whatever failures, one more pass repairs a tree
  that was without hindrances, and two passes repair any from which two passes
  were enough. The one exception is exact: a link that is already right is removed
  when reading it back fails, and is not made again under a directory that others
  may change.
- A run of the whole pipeline that is not cancelled hands every scanned entry to
  exactly one worker, and ends in the expected tree however the workers' entries
  and retries interleave, if each chunk by itself could be finished from the
  starting tree.
- A copy that fails leaves no trace: the scratch file goes, and so does a file
  whose mode or time could not be set, unless that removal fails as well. The one
  exception is a full disk, which leaves the scratch file behind.
- A run whose directory for temporary files is reached through a link never
  copies anything: the guard before the copy refuses its paths.
- The removal branch in `makeParentsExist`, and the `..` guard in
  `OpenDirBeneath`, are dead.
- The pid-file lock does not give a single running instance: a process that
  opened the file before the owner removed it can lock it afterwards. Two
  instances can come to run at once exactly when some process holds such a
  stale lock; comparing the locked file with the name after locking would
  exclude it.
- Log rotation loses no logged byte, whatever name it takes and whichever step
  fails. If undoing the rename fails, the log goes on under the rotated name, and
  so do later rotations. A file that has the name a rotation takes loses it,
  unless the first rename failed; an earlier piece of the log never has, as long
  as rotations have different times. A standard error that shares the log follows in a step of
  its own: its records in between are archived, and if that step fails it keeps
  writing to the archived file.
- Cleaning up a mount transaction restores the mount table and the directories,
  whichever step failed, if and only if it is not skipped. It is skipped when a
  mount name leaves the workspace; when a mount point has been made and the
  directory for temporary files is reached through a link, because the resolved
  mount point then no longer starts like the workspace's path; and when the
  destination's mount point is named inside the source's and the mounted source
  holds a link there, or a link or file on the way. With `/tmp` as a link to
  `/var/tmp` every run that mounts its source keeps its mounts.
- A `find -ls` line is recognised only if its first column is not padded with
  blanks, and a link is split correctly if and only if no ` -> ` can be seen in
  its target counting the blank before it.
- Both scanners emit the same path, target, size, type and permission bits for
  all files with such lines and such links only, and differ further if an ignored
  link is misread as a path that is not ignored; the setuid, setgid and sticky
  bits land on other positions of the mode, because the decoder uses the numeric
  bits of the system call.
- The in-process walk appends to its list of errors without a lock. Errors can
  get lost, but never all of them: it reports one exactly when there was one.
- Dropping ignored names keeps every parent of a kept entry, unless a directory
  is kept inside a dropped one, such as `.Trash/1000`: the filter looks one level
  up, the walk goes on below.

## Model

| member | source | states |
|---|---|---|
| Tree.ResolveIsLiteral | internal/util/path_guard.go:22-49 | without a link above it, symlink-following resolution of a path is its literal component walk, with the literal error |
| PathGuard.GuardedResolution | internal/util/path_guard.go:22-49 | once the guard accepts a path, the path and each of its prefixes resolve literally, whether or not a final link is followed |
| Guards.EnsureNoSymlinkPath | internal/util/path_guard.go:22-49 | the component loop succeeds exactly when no existing component is a link or a file on the way, on a healthy disk; any success implies it |
| Guards.EnsurePrivatePath | internal/util/private_path.go:26-75 | the loop with its carried flag accepts a path exactly when it meets no link and no file on the way, no directory on it is exposed, and its missing part, where allowed, does not start in a directory open to others; exposed means writable by group or others without the sticky bit, or by an owner who is not trusted, bit by bit |
| PathGuard.PrivateIff | internal/util/private_path.go:36-73 | the guard's two masks ask exactly for the write bits of group, others and owner, on every directory of the path |
| PathGuard.OneBitRefuses | internal/util/private_path.go:59-72 | the write bit of the group alone, of others alone, or of an owner who is not trusted is enough for a refusal, wherever on the path it is |
| Mirror.FrameKeepsRoot | internal/copier/native/copier.go:137-177 | no edit inside the frame takes away the prepared destination root |
| Mirror.LinkEdits | internal/copier/native/copier.go:234-263 | a link entry replaces only its own path and what was below it, adds only missing ancestors, and on success leaves exactly the link |
| Mirror.RegularEdits | internal/copier/native/copier.go:266-438 | a regular entry that is sent leaves a new file and missing ancestors only; otherwise its path is as before |
| Mirror.SentIsCurrent | internal/copier/native/copier.go:414-437 | a file that was sent has its source's bytes, size and time, and each permission bit its source or `FileMode` has: it counts as up to date from then on |
| Mirror.RegularOutcomeIff | internal/copier/native/copier.go:266-290 | over all trees: a regular entry is up to date exactly when the destination has the source's size and time, processed exactly when it has its size and is strictly newer, disappeared exactly when the source is gone; what is sent counts all its bytes |
| Mirror.OtherOutcomes | internal/copier/native/copier.go:180-263 | a link or directory that succeeds is up to date exactly if it was there as it should be, and processed otherwise; the root always counts as processed |
| Mirror.DirectoryBits | internal/copier/native/copier.go:150-154 | the owner may do everything with a listed directory, others what `FileMode` allows |
| Mirror.CopiedBits | internal/copier/native/copier.go:141 | a copied file allows what its source or `FileMode` allows, bit by bit |
| Mirror.DirectoryEdits | internal/copier/native/copier.go:180-231 | a directory entry keeps an existing directory's contents and only its permissions change; any other node is replaced by an empty directory or, on an error, removed |
| Mirror.RouteFrame | internal/copier/native/copier.go:137-457 | handling one entry changes only its path, missing ancestors below the root, what lay below a conflicting node, and scratch names |
| Idempotence.SettledIsQuiet | internal/copier/native/copier.go:137-332 | a settled entry is handled without any change, and the outcome it is reported with is fixed by kind, size and time |
| Idempotence.SuccessSettles | internal/copier/native/copier.go:137-457 | an entry handled without error is settled afterwards |
| Idempotence.SettledStays | internal/copier/native/copier.go:137-457 | handling another listed entry does not unsettle a settled one |
| Idempotence.ErrorFreeRunSettles | internal/copier/native/copier.go:69-134 | an error-free run leaves every entry of its list settled |
| Idempotence.SecondRunIsQuiet | internal/copier/native/copier.go:69-134 | after an error-free run, a second run over any of the entries in any order leaves the tree identical and reports each with its fixed outcome |
| Idempotence.ListedDirectoriesAreUsable | internal/copier/native/copier.go:150-154 | after an error-free run the owner can read, write and search every listed directory, and others can do with it what `FileMode` allows |
| Accounting.SecondRunReports | internal/copier/native/copier.go:92-125 | the counters of such a second run: up to date are the links, the directories but the root and the files of equal time, processed the root and the newer files, disappeared the files without a source, and nothing else is counted |
| Convergence.BetweenStays | internal/copier/native/copier.go:137-457 | every step keeps each path at its start value, at its goal, or on the way between them |
| Convergence.SettledMeansExpected | internal/copier/native/copier.go:69-134 | a tree on the way in which all entries are settled is the expected tree, path by path |
| Convergence.ExpectedIsStable | internal/copier/native/copier.go:69-134 | the expected tree computed from any intermediate tree is the one computed from the start |
| Convergence.FitSucceeds | internal/copier/native/copier.go:137-457 | an entry that meets no hindrance is handled without error |
| Convergence.FitPassReachesGoal | internal/copier/native/copier.go:69-134 | one pass over a tree without hindrances has no error and ends in the expected tree, in any order and with any repetition of entries |
| Convergence.InterleavingCovers | internal/copier/joiner.go:79-129 | any entry-level interleaving of chunks that cut the list handles exactly the list's entries |
| Convergence.ChunkingIsIrrelevant | internal/copier/joiner.go:79-129 | any two partitions into chunks and any two interleavings of their workers end in the same tree |
| TwoPasses.TwoPassesReachGoal | internal/copier/native/copier.go:51-134 | from any tree with no obstacle at a listed path and nothing impassable above one, the second pass has no error and every path is as expected from the start, whatever the two orders |
| TwoPasses.ObstacleFails | internal/copier/native/copier.go:137-332 | an entry whose path holds an obstacle is reported as an error |
| TwoPasses.ObstacleOutlivesRun | internal/copier/native/copier.go:69-134 | an obstacle survives every run, and every run that lists it reports an error |
| TwoPasses.ChangedSourceFails | internal/copier/native/copier.go:335-360 | a listed regular file that became something else makes every run report an error |
| TwoPasses.HopelessOutlivesRun | internal/copier/native/copier.go:69-134 | an unlisted node above an entry that is no directory, insecure for what the entry has to put there, or open to others above a missing directory nothing else makes, survives every run and makes it report an error |
| TwoPasses.UnlistedFileBlocks | internal/copier/native/copier.go:180-231 | a list without its parents of which every pass reports an error, although its own paths and its source are in order |
| TwoPasses.ContestedFails | internal/copier/native/copier.go:180-231 | where a listed directory starts as a file in an unlisted directory open to others, some two orders end with an error |
| TwoPasses.TwoPassesAreEnoughIff | internal/copier/native/copier.go:51-134 | for any list: two passes in any orders end without error if and only if there is no obstacle, no changed source, and nothing impassable above a listed path |
| TwoPasses.SecondPassIsErrorFreeIff | internal/copier/native/copier.go:51-134 | for a list that contains its parents: the second pass, whatever the two orders, is error-free if and only if there was no obstacle and no changed source |
| Recovery.ReachedStays | internal/copier/native/copier.go:69-457 | the run-wide frame composes: any framed state of any entry's handling keeps it |
| Recovery.PublicationIsAtomic | internal/copier/native/copier.go:335-438 | in any state of any run with any failures, a listed file is its old node, nothing, or all the source's bytes, and is never touched if it was same-size and as new |
| Recovery.CrashKeepsUnobstructed | internal/copier/native/copier.go:51-134 | stopping anywhere creates no obstacle |
| Recovery.CrashKeepsSturdy | internal/copier/native/copier.go:51-134 | stopping anywhere in a run over a tree without hindrances leaves such a tree, where that counts links as still to be made |
| Recovery.OnePassRecovers | internal/copier/native/copier.go:51-134 | after a stop anywhere over such a tree, one more pass has no error and every file has its right bytes |
| Recovery.CrashKeepsPassable | internal/copier/native/copier.go:51-134 | stopping anywhere leaves what lies above the listed paths passable, if it was and what lies above listed links is secure |
| Recovery.TwoPassesRecover | internal/copier/native/copier.go:51-134 | the same in two passes from any tree from which two passes are enough without a stop, if the unlisted directories above listed links are secure |
| Recovery.LinkGetsLost | internal/copier/native/copier.go:234-263 | where reading back a right link fails it is removed, and under a directory open to others no pass makes it again |
| Recovery.OnePassRecoversIff | internal/copier/native/copier.go:51-134 | from a tree without hindrances: one pass has no error from every state a stop can leave, if and only if every listed link could be made again |
| Recovery.TwoPassesRecoverIff | internal/copier/native/copier.go:51-134 | from a tree from which two passes are enough: they have no error from every state a stop can leave, if and only if the unlisted directories above listed links are secure |
| Accounting.TallyAddsUp | internal/copier/native/copier.go:92-125 | total = sent + processed + uptodate + disappeared + skipped + errors + unvisited, and files + links + directories = sent + processed + uptodate, for every outcome sequence the loop can have |
| Accounting.ErrorsAreCounted | internal/copier/native/copier.go:92-134 | the error counter is positive exactly when some entry failed |
| Accounting.CountersCount | internal/copier/native/copier.go:92-125 | after any number of entries each counter is the number of outcomes, or of entries of a type, that it is named for |
| Accounting.BytesAreCounted | internal/copier/native/copier.go:98-104 | the byte counter is the sum over the files that were sent |
| Accounting.Result.AppendFilename | internal/copier/native/result.go:54-57 | the ring buffer stays the last ten appended names, oldest at the cursor |
| Accounting.Result.ListFilename | internal/copier/native/result.go:60-69 | lists the last ten appended names in order, empty ones dropped |
| Accounting.Result.AddTypeCount | internal/copier/native/result.go:72-80 | counts one file, link or directory, and nothing for other kinds |
| Accounting.Result.Count | internal/copier/native/copier.go:92-125 | the branches after one entry add to the counters as `Counted` says and stop the loop exactly on cancellation and a full disk |
| Accounting.Book | internal/copier/native/copier.go:80-125 | one round of the loop keeps counters and recent names in agreement with the outcomes so far |
| Copier.Copier.ProcessDirectory | internal/copier/native/copier.go:180-231 | refines the directory case of `Route`; framed at every intermediate state |
| Copier.Copier.ProcessSymbolicLink | internal/copier/native/copier.go:234-263 | refines the link case of `Route`; framed at every intermediate state |
| Copier.Copier.MakeParentsExist | internal/copier/native/copier.go:441-457 | creates exactly the missing ancestors; the branch that removes a non-directory parent is unreachable |
| Copier.Copier.CompareFile | internal/copier/native/copier.go:293-332 | the six-way comparison of sizes and times, without changing anything |
| Copier.Copier.CopyRegularFile | internal/copier/native/copier.go:266-290 | refines the regular case of `Route`, on any disk if it reports success; says whether the disk was full and whether the caller gave up; a copy that fails otherwise leaves neither a scratch file nor a half-made destination, unless a removal fails too |
| Copier.Copier.CopyFile | internal/copier/native/copier.go:335-438 | refines the copy: temp file, bytes, mode, time, rename; each intermediate state framed, whichever step fails |
| Copier.Copier.Publish | internal/copier/native/copier.go:415-437 | the rename moves the complete file into place or leaves the destination as it was; a file whose mode or time cannot be set is taken away again |
| Copier.Copier.RouteFileByTypes | internal/copier/native/copier.go:137-177 | equals `Route` on a healthy disk, and on any disk for an entry it reports as done; all states are framed, the root survives, and no stray file is left unless the disk was full or a removal failed |
| Copier.Copier.ExecuteChunk | internal/copier/native/copier.go:69-134 | equals `Run` on a healthy disk, and on any disk if nothing is missed; the counters agree with the outcomes; it is unrecoverable exactly if the last entry found the disk full; every state is reachable in the run-wide frame |
| Copier.Copier.Execute | internal/copier/native/copier.go:51-66 | passes are repeated exactly while they have errors, attempts are left, the disk is not full and the caller has not given up, and the report is the last one's; retries end in the expected tree when they succeed, fail from a start that is blocked, and with two attempts succeed from one that can be finished; no scratch file is left unless the disk was full or a removal failed; every state is in the run-wide frame |
| Copier.PrepareDirectory | internal/copier/runner.go:133-149 | on success the destination root has its mode and the missing directories down to it are made, nothing else; on a healthy disk it succeeds exactly for a private path that is missing or a directory of a trusted owner |
| Copier.PrepareSource | internal/copier/runner.go:120-131 | accepts exactly an existing source without links on its path, and tells whether it is a directory |
| ChunkPipeline.ReceiveKeeps | internal/copier/joiner.go:91-103 | receiving an entry into the current or a pooled chunk keeps every part of the invariant |
| ChunkPipeline.SubmitKeeps | internal/copier/joiner.go:108-112 | handing a chunk to a worker keeps every part of the invariant |
| ChunkPipeline.InvIsInductive | internal/copier/joiner.go:53-129 | every step of scanner, dispatcher, workers, collector and runner keeps buffer ownership, contents, conservation, permits, phases and results |
| ChunkPipeline.NothingIsLost | internal/copier/joiner.go:79-119 | in every reachable state the submitted chunks, the dropped entries and the pending chunk are exactly the received prefix of the scan, chunks have 1 to chunkSize entries, and at most one chunk is dropped, only when cancelled |
| ChunkPipeline.ShortChunksHaveCause | internal/copier/joiner.go:81-121 | in every reachable state a submitted chunk has fewer than chunkSize entries exactly if a tick came or the scan was over, the latter for the last chunk only |
| ChunkPipeline.UntickedRunsBatch | internal/copier/joiner.go:81-121 | a finished run that was not cancelled and in which no tick found a chunk cut the scan into consecutive pieces of chunkSize entries, only the last one shorter |
| ChunkPipeline.TickFlushes | internal/copier/joiner.go:106-121 | in every reachable state a tick makes the chunk being filled due, which is submitted as it is once a permit is free |
| ChunkPipeline.CancelEndsDispatch | internal/copier/joiner.go:82-117 | once cancelled, the dispatcher can give up wherever it waits, drops the pending chunk and submits nothing more |
| ChunkPipeline.CompletionIsExact | internal/copier/runner.go:86-103 | a finished run that was not cancelled submitted the whole scan; each worker read its own chunk; each result arrived exactly once; the scan error was seen if and only if there was one |
| ChunkPipeline.ScanErrorsAreReported | internal/copier/runner.go:86-103 | whichever step ended the scan, a finished run has reported its error exactly if it had one |
| Retries.SettledSurvives | internal/copier/native/copier.go:137-457 | handling another listed entry does not unsettle a settled one even when it fails, as long as no obstacle is at its path |
| Retries.SecondVisitSucceeds | internal/copier/native/copier.go:51-67 | once a worker has visited its whole chunk, each of its entries succeeds, whatever the other workers have done in between |
| Retries.InvIsInductive | internal/copier/native/copier.go:51-67 | every entry handled by any worker and every end of a pass keeps what all workers know of their chunks |
| Retries.RetriesReachGoal | internal/copier/native/copier.go:51-67 | with workers interleaved entry by entry and retrying their own chunks: if each chunk alone could be finished from the start, all end without error in two passes at most, in the expected tree |
| Retries.RetriesAreBounded | internal/copier/native/copier.go:51-67 | no such run is longer than two steps per entry and two per chunk, and one that cannot go on has ended |
| Retries.AttemptsAreUsedUp | internal/copier/native/copier.go:51-67 | for any job: no chunk gets more passes than attempts, each pass goes over the whole chunk, and none ends with an error while attempts are left |
| Retries.FitIsFinishable | internal/copier/native/copier.go:137-457 | from a tree without hindrances each chunk can be finished, however the list is cut |
| EndToEnd.FinishedRunReachesGoal | internal/copier/runner.go:86-117 | a finished pipeline run that was not cancelled, under any schedule, with its workers retrying their chunks side by side in any interleaving, has no error in any chunk and leaves every path as expected, from every tree from which each chunk alone could be finished |
| EndToEnd.FitRunReachesGoal | internal/copier/runner.go:86-117 | from a tree without hindrances one pass of all chunks is enough, in any interleaving |
| ChunkPipeline.BuffersAreExclusive | internal/copier/joiner.go:66-77 | a working worker's backing array is full size, in no pool, shared with nobody, and still holds what was submitted |
| ChunkPipeline.NoArrayIsLost | internal/copier/joiner.go:66-117 | every backing array is in the pool, the dispatcher's or held by a worker; in the end all are in the pool |
| ChunkPipeline.PermitsAddUp | internal/copier/joiner.go:54-63 | permits plus live workers equal taskSize until the final acquisition, and after the result channel is closed nobody has anything left to send |
| ChunkPipeline.NeverStuck | internal/copier/joiner.go:53-129 | every reachable state that is not final has an enabled step of the program itself, also after cancellation at any point |
| ChunkPipeline.WaitsOnlyWhenFull | internal/copier/joiner.go:46-129 | in every reachable state scanner, dispatcher and workers wait exactly for a channel of taskSize * chunkSize entries, for taskSize running workers, and for a channel of taskSize results |
| ChunkPipeline.StepsDescend | internal/copier/joiner.go:53-129 | every step but an empty tick lowers the rank |
| ChunkPipeline.RunsAreBounded | internal/copier/runner.go:86-103 | no run without empty ticks has more than 11 + 10 n steps for n scanned entries |
| SelectorPipeline.InvIsInductive | internal/selector/joiner.go:30-68 | every step of loader, dispatcher, workers and runner keeps the invariant |
| SelectorPipeline.RowsRunOnce | internal/selector/joiner.go:30-68 | at most workerSize children run; rows start in order and once each; one is dropped at most, only when cancelled; errors are joined once per failed child |
| SelectorPipeline.FailuresAreJoined | internal/selector/joiner.go:53-68 | by the end of a run one error was joined for a child that ended badly, none for one that did not |
| SelectorPipeline.CancelEndsRows | internal/selector/joiner.go:47-52 | once cancelled, loader and dispatcher can give up wherever they wait; one held row is dropped and nothing more started |
| SelectorPipeline.NeverStuck | internal/selector/runner.go:42-58 | every reachable state that is not final has an enabled step other than cancellation |
| SelectorPipeline.WaitsOnlyWhenFull | internal/selector/joiner.go:23-52 | loader, dispatcher and workers wait exactly for a channel of workerSize rows, for workerSize running children, and for room for an error |
| SelectorPipeline.StepsDescend | internal/selector/joiner.go:30-68 | every step lowers the rank |
| SelectorPipeline.RunsAreBounded | internal/selector/runner.go:42-58 | no run has more than 6 + 7 n steps for n rows |
| CsvLoader.AcceptIff | internal/selector/runner.go:84-131 | a row stands for an entry if and only if it has all columns, its number columns denote the entry's 64-bit numbers digit by digit, its texts are the entry's between white space, and the node is this one |
| CsvLoader.LoadCopyEntryCSV | internal/selector/runner.go:62-139 | sends the accepted entries in file order up to the first read error, cut off where the context is cancelled |
| CsvLoader.AcceptedIff | internal/selector/runner.go:75-138 | an entry is among those accepted exactly if some row before the first read error stands for it: a rejected row does not keep later ones from being read |
| CsvLoader.NodesPartitionRows | internal/selector/runner.go:93-99 | of all nodes exactly the row's own accepts it, and reads the same entry as a run without a selector |
| CsvLoader.NodesPartitionFile | internal/selector/runner.go:75-138 | the nodes together run every entry of the file exactly once, each in file order |
| CsvLoader.AtoiIff | internal/selector/runner.go:93-126 | a number is read exactly from a sign or none and digits whose positional value it is, within 64 bits |
| CsvLoader.AtoiShow | internal/selector/runner.go:93-126 | a printed 64-bit number is read back as itself |
| CsvLoader.RowRoundTrip | internal/selector/runner.go:84-131 | a row that prints an entry, its texts padded with any white space, is read back as that entry on exactly the nodes that should run it |
| PidFile.EditKeepsInv | internal/selector/pid.go:51-62 | truncating and writing happen under the lock and touch no other process's text |
| PidFile.InvIsInductive | internal/selector/pid.go:17-73 | every call of every process, and every crash, keeps: lock holders match, locked texts are the holder's, and a matched cleanup names its own file |
| PidFile.OnlyTheOwnerRemoves | internal/selector/pid.go:63-72 | whenever the name goes away, the process that removed it holds the only lock on the very file it named |
| PidFile.ReadText | internal/selector/pid.go:97-106 | the first line of a written pid file is the pid's digits, within the reader's buffer |
| PidFile.ReadLineIff | internal/selector/pid.go:97-106 | the line read is what leads up to the first line feed, or all there is, within 4096 bytes and without a carriage return right before the feed |
| PidFile.OneInstanceIsPublished | internal/selector/pid.go:76-107 | at most one running instance owns the named file, and then reading the pid file gives its pid |
| PidFile.OthersCannotUnpublish | internal/selector/pid.go:17-73 | no step of another process takes the name or the text away from a published instance |
| PidFile.CleanupUnpublishes | internal/selector/pid.go:63-72 | the cleanup of a published instance takes the name away and gives up the lock, and changes nothing else |
| PidFile.CleanupLeavesOthers | internal/selector/pid.go:63-72 | a name that leads to another file is left alone by the cleanup |
| PidFile.SecondInstanceIff | internal/selector/pid.go:26-46 | from a reachable state two instances can come to run at once without a further stale lock if and only if some process holds a stale lock |
| PidFile.StaleLocksHappen | internal/selector/pid.go:26-46 | a concrete run in which a process locks a file that has lost its name |
| PidFile.CarefulRunsAreSingle | internal/selector/pid.go:17-73 | a run in which every lock is taken on the named file never has two running instances |
| Namespace.DetachUndoesCover | internal/sys/mount_linux.go:82-85 | taking a new mount off again gives back the tree and the mount table |
| Namespace.CoverShows | internal/sys/mount_linux.go:53-80 | right after mounting, what is seen at and below the mount point is what was mounted |
| Namespace.ResolvesBelow | internal/syncer/runner.go:219-258 | below a directory that a path resolves to, links or not, a link-free rest resolves literally |
| Workspace.CheckIff | internal/syncer/runner.go:291-300 | in every state a run can leave behind, the four checks of the cleanup pass if and only if nothing makes it skip |
| Workspace.LinkedFails | internal/syncer/runner.go:244-255 | a made mount point seen through a link above the workspace fails its check |
| Workspace.HinderedFails | internal/syncer/runner.go:234-247 | a link or file of the mounted source at or on the way to the destination's mount point fails its check |
| Workspace.TidyIsSafe | internal/syncer/runner.go:219-258 | without such links and files all four paths pass |
| Workspace.PointCovered | internal/sys/mount_linux.go:53-64 | a mount on a directory just made keeps what every state of a run has in common |
| Workspace.StirredStays | internal/syncer/runner.go:70-91 | so does anything that goes on inside the mounts |
| Teardown.UnmountedTidy | internal/syncer/runner.go:305-309 | unmounting a path of the cleanup takes off its mount with those below, uncovers what was there, and touches no other |
| Teardown.PointRemoved | internal/syncer/runner.go:310-314 | removing a mount point's directory takes away that directory and nothing else |
| Teardown.WorkspaceRemoved | internal/syncer/runner.go:310-314 | removing the workspace last leaves the tree from before the run |
| MountTransaction.Kernel.SafeWorkspacePath | internal/syncer/runner.go:219-258 | the walk over the components accepts exactly a name no prefix of which has more `..` than names, each existing component of which is no link and resolves below the workspace's path; the path it gives is where the name leads step by step |
| MountTransaction.Runner.MountSource | internal/sys/mount_linux.go:53-64 | the first mount is the source's volume, seen at its point right after, or at most its directory is left; if no call is refused it is made exactly for a name of one component |
| MountTransaction.Runner.Mount | internal/sys/mount_linux.go:53-64 | makes a directory and mounts the given volume on it, seen there right after, adding one mount of that origin; or leaves something the cleanup takes away; if no call is refused it works wherever the directory can be made |
| MountTransaction.Runner.BindMount | internal/sys/mount_linux.go:67-80 | as above, and a refused remount takes the mount off again |
| MountTransaction.Runner.OpenSubpath | internal/syncer/runner.go:202-206 | opens the directory the subpath leads to below the mount point, creating it in the destination only; if no call is refused, exactly when what is mounted there allows it |
| MountTransaction.Runner.Chmod | internal/syncer/runner.go:208-212 | gives the destination's directory the permissions of `FileMode` and all of the owner's |
| MountTransaction.Runner.PinSubpathMount | internal/syncer/runner.go:197-216 | pins the directory the subpath leads to below the mount point on a point of its own, where the same is seen, or adds no mount; if no call is refused, exactly when the subpath can be opened |
| MountTransaction.Runner.PrepareMountPoint | internal/syncer/runner.go:135-194 | on success the four mounts are, in order, the source's root on its point, the destination's root on its own, and the directories at their subpaths below these two, and the paths returned lead to the pins in that order; if no call is refused and the names are simple, it succeeds exactly when the source's subpath is there and the destination's can be made; on a failure at any step the state is one the cleanup can take down or skips |
| MountTransaction.Runner.CleanupDirectory | internal/syncer/runner.go:288-316 | gives back the state before the run unless something makes it skip; then it changes nothing |
| MountTransaction.Runner.Execute | internal/syncer/runner.go:63-91 | whichever steps failed, mount table and tree are as before the run if and only if there was no workspace or nothing made the cleanup skip; nothing is copied below a link; if no call is refused and the names are simple, the copier runs, from the source's pin to the destination's, exactly when the subpaths open |
| MountTransaction.LinkedLosesItsCheck | internal/syncer/runner.go:152-178 | with a link above the workspace the source's path passes its check before the mount and fails it afterwards |
| MountTransaction.LinkedTemporaryDirectory | internal/syncer/runner.go:294-300 | such a run: `/tmp` leads to `/var/tmp`, and the names are `src` and `dst` |
| MountTransaction.LinkedDestination | internal/syncer/runner.go:152-178 | another: with a link of the mounted source at the destination's mount point both paths pass at first and the source is mounted; the destination's directory cannot be made, its check fails, and the cleanup skips |
| MountTransaction.LinkInTheSource | internal/syncer/runner.go:294-300 | such a run: the names are `src` and `src/link` |
| LogRotation.NamesDiffer | internal/util/log_rotate.go:159-160 | rotated names of different times differ, and none is the log's own |
| LogRotation.RotatedNameKeeps | internal/util/log_rotate.go:159-160 | the rotated name stays in the log's directory and keeps its extension, which starts at the last dot of the last path element |
| LogRotation.Rotator.Swap | internal/util/log_rotate.go:166-191 | opens, checks and syncs, then moves the descriptor; on failure the descriptor and every old file are as before but for what was logged |
| LogRotation.Rotator.RotateFile | internal/util/log_rotate.go:158-194 | under any name and whichever step fails, no byte that is logged is lost or reordered; it succeeds if no call is refused, is undone if one is, and only a second refusal leaves the log under the rotated name; another file that had that name loses it unless nothing was renamed |
| LogRotation.Rotator.RotateShared | internal/util/log_rotate.go:83-115 | with one file behind both standard streams, nothing happens while nothing was written; otherwise standard error refers to the new file if and only if nothing was rotated or its own step succeeded, and what it logs between the two steps is behind the archived bytes |
| LogRotation.NamesNeverMeet | internal/util/log_rotate.go:158-160 | rotations at different times never use one name, also when the log itself has come to be called by a rotated name |
| LogRotation.Rotator.Serve | internal/util/log_rotate.go:64-131 | over any run of records and rotations, whatever names they take and whichever steps fail: the segments put away and then the live log are all that was logged, in order; a segment stands untouched under its own name until a later rotation to that name, and with different times none is lost; if no call is refused, the log keeps its name and each rotation puts away what was logged before it; other files are left alone |
| Lexical.CleanShape | internal/sys/openat_linux.go:39-48 | a cleaned relative path is some `..` followed by plain names |
| Lexical.LocalIsPlain | internal/sys/openat_linux.go:30-48 | a cleaned local path has no `..` at all |
| Lexical.CleaningLeadsThere | internal/sys/openat_linux.go:26-48 | cleaning does not change where a path leads: from any plain base, going through the components one by one ends where the cleaned ones end |
| Lexical.LocalLeadsDown | internal/sys/openat_linux.go:30-48 | a local path leads to its cleaned components below the base, which are plain names |
| Lexical.LocalIff | internal/sys/openat_linux.go:30-32 | a path is local if and only if it is relative, not empty, and no prefix of its components has more `..` than names |
| Lexical.RootedLeadsThere | internal/copier/find/find_method.go:119 | the same for absolute paths, where nothing lies above the root |
| Lexical.RelLeadsThere | internal/copier/find/find_method.go:119 | the relative path from an absolute root, followed from there, leads to the path it was made from, also outside the root |
| OpenBeneath.Process.OpenDirAtNoSymlink | internal/sys/openat_linux.go:75-84 | opens exactly an existing child directory; a link or a file is an error |
| OpenBeneath.Process.Descend | internal/sys/openat_linux.go:49-63 | goes down one component, creating it only when asked for and missing |
| OpenBeneath.Process.Round | internal/sys/openat_linux.go:39-69 | one descriptor at each loop head, none left open on an error |
| OpenBeneath.Process.OpenDirBeneath | internal/sys/openat_linux.go:26-72 | no descriptor leaks; the one returned denotes where the path leads step by step, never above the root; directories are made along it and nowhere else; it succeeds if and only if the path is local and the tree allows it |
| Regex.MatchIff | internal/copier/find/find_method.go:25-28 | the engine finds a match exactly when the text can be read piece by piece |
| FileMode.UnFilemode | internal/sys/unfilemode.go:88-100 | the nested loops compute the union of the bits of the matching characters |
| FileMode.ModeRoundTrip | internal/sys/unfilemode.go:30-67 | decoding a printed mode gives its type and all twelve bits |
| Strconv.SimpleStrconv | internal/util/strconv.go:7-40 | the wrapping 64-bit loop gives the truncated exact value of all digits, -1 without digits |
| Strconv.ParseDec | internal/util/strconv.go:7-40 | printed numbers of the range, and their negatives, are read back |
| FindLine.PrintedLineMatches | internal/copier/find/find_method.go:26 | the lazy and greedy pattern cuts a printed line exactly at its columns |
| FindLine.LinkSplitIff | internal/copier/find/find_method.go:27-80 | the link pattern cuts at the last arrow, which is the printed one if and only if the target shows none; otherwise the target read is shorter |
| FindLine.RoundTripIff | internal/copier/find/find_method.go:31-88 | parsing a printed line gives what the line shows: type, bits, size, path and target, back as they were for exactly the unambiguous links and everything else |
| FindLine.PaddedLineIff | internal/copier/find/find_method.go:26-36 | a printed line is rejected if and only if blanks precede it |
| FindLine.ModeColumnIff | internal/copier/find/find_method.go:50 | a mode column of fewer than ten characters makes the decoder panic, and of a longer one only the first ten count |
| Scanners.SplitJoin | internal/copier/find/find_method.go:119-125 | splitting a joined relative path gives back its components |
| Scanners.HandleFindStdout | internal/copier/find/find_method.go:103-135 | sends the rows of the readable, not ignored lines in order up to the first line that panics, cut off where the context is cancelled, and panics exactly if that line is reached |
| Scanners.CollectIff | internal/copier/find/find_method.go:103-135 | the scan panics exactly if some line makes it; a row is emitted exactly if some line before the first such gives it |
| Scanners.ScanDirectory | internal/copier/find/scan_method.go:20-64 | the callback, visit after visit: sends the rows of the walk up to the one at which the context is cancelled, with one error for each visit before it that cannot be inspected or read |
| Scanners.VisitsEndIff | internal/copier/find/scan_method.go:20-64 | a visit counts as an error exactly if it failed or met a link that is not ignored and cannot be read, and gives a row exactly if it did neither and its name is not ignored |
| ScanWalk.InvIsInductive | internal/copier/find/scan_method.go:19-67 | every step of callbacks in several goroutines keeps: the rows sent and the writes to the error list are those of the visits that ended, and the list is short of a write exactly if two overlapped |
| ScanWalk.WalkReports | internal/copier/find/scan_method.go:17-82 | however the callbacks interleave, a walk that was not cancelled sends the row of each visit exactly once, and reports an error if and only if some visit failed: never more than failures, and as many if and only if no two appends overlapped |
| ScanWalk.NothingIsMadeUp | internal/copier/find/scan_method.go:17-82 | at any moment, cancelled or not, no row was sent twice or made up, and no more errors are recorded than there are failures |
| ScanWalk.FailuresShow | internal/copier/find/scan_method.go:29-61 | at any moment the list holds an error if and only if some failed visit has come to its end |
| ScanWalk.ErrorsGetLost | internal/copier/find/scan_method.go:29-61 | a concrete walk of two failed visits that ends with one error |
| Scanners.RelReadsBack | internal/copier/find/find_method.go:119-125 | a path printed below the root is read back as its components |
| Scanners.LineAgreesIff | internal/copier/find/scan_method.go:31-65 | both scanners make the same of a file if and only if, when it is kept, its line is not padded and it is no link with an arrow in its target, and, when it is dropped, it is no unpadded link that is read as a path that is kept; equal but for special bits |
| Scanners.ScannersAgreeIff | internal/copier/find/scan_method.go:31-65 | over a whole tree both scanners emit the same entries if and only if that holds of every file: a link that is misread never passes for another file, because its row shows a shorter target than its size says |
| Scanners.BothDropIff | internal/copier/find/ignore.go:66-77 | both scanners drop exactly the directories of an ignored directory name, and the other files of an ignored file name or in a directory of an ignored name |
| Scanners.KeptIsTreeIff | internal/copier/find/ignore.go:66-77 | the kept entries contain all their parents if and only if no directory is kept inside a dropped one |
| Scanners.TrashIsStranded | internal/copier/find/ignore.go:66-77 | such a directory: `.Trash/1000` is kept and `.Trash` is not |

## Left out

- Copier.Copier.Execute: the exact result is stated for a disk on which no call fails by itself and no cancellation comes; with failures only the frame and the possible states are stated, because the outcome then depends on which calls fail.
- TwoPasses.TwoPassesAreEnoughIff: the source does not change while a chunk is copied and holds no links on the way to a listed path, and `FileMode` has no group or other write bits.
- Recovery.PublicationIsAtomic: no listed name starts with the prefix of the temp files; crash means that the process stops, since copied files are not synced.
- EndToEnd.FinishedRunReachesGoal: entries of different workers are handled one after the other in some order, and no call fails by itself.
- ChunkPipeline.InvIsInductive: the goroutines are steps of one system instead of methods over shared objects, because their interleaving is the point; a panic inside a copy method is left out.
- SelectorPipeline.InvIsInductive: written as steps for the same reason; rows are numbers, and `CsvLoader` says which rows they are.
- PidFile.InvIsInductive: written as steps, since processes interleave between any two calls; the directory checks before the open and the ownership checks are a possible failure of the open.
- MountTransaction.Runner.Execute: the directory for temporary files is given by an absolute, clean path; the mounted trees change only inside the mounts and not on the way to the destination's mount point. Where a link or file of the mounted source disturbs the run, its four origins are stated, but not where a mode set through such a link ends up.
- MountTransaction.Runner.CleanupDirectory: unmounting is lazy and, like removing and inspecting the paths, does not fail by itself here; the comparison of the resolved path is on components.
- LogRotation.Rotator.Serve: one descriptor, whose offset is at the end of the file once something was written; nobody else renames the log; for a standard error that shares the file see `RotateShared`, where the order holds for each stream and not across both.
- OpenBeneath.Process.OpenDirBeneath: the tree does not change under the walk by other hands.
- FindLine.RoundTripIff: devices are left out, because their line has two numbers in place of the size.
- Scanners.ScanDirectory: the callback runs for one visit after the other; `ScanWalk` has it in several goroutines.
- ScanWalk.InvIsInductive: the list of errors is followed by its length, and is read and written in one piece each; which callbacks are running at once is not limited.
- Scanners.ScannersAgreeIff: both scanners see the files in one order, and the size of a link is the length of its target, as POSIX has it.
- The rsync backend, the command line, configuration, logging texts, progress and human-readable sizes.
- The sandbox, process launching, signals and the child process of `find`.
- Retry delays and jitter, and byte totals across retries.
- Removing the temp file after a full disk, which the code does not do.
- Umask, directory times, device nodes and ownership, beyond whether an owner is trusted.
- `ensureDaemonDirectory`, whose walk repeats the guard of `internal/util/path_guard.go`.
