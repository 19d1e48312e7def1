# AiryFS: a model of the volume and its protocols

AiryFS keeps a POSIX-style filesystem in SQLite tables inside one Durable Object and lets several
clients change it at once. This project models the logic behind that and proves what it is relied on
for. `dafny verify dfyconfig.toml` covers all files.

SQL tables are maps (or sequences where row order matters), each `transactionSync` body is one atomic
step, and each trigger is part of the statement that fires it. Code that works in place is a class
whose methods are proved against functions on values; the whole-run theorems are about those functions.

## The parts

**The filesystem.** `Tables` gives the effect of every operation on the tables; `Volume` is the class
whose methods issue the statements one by one, `OperationLaws` says what each answers and which columns
it sets. `NamespaceInvariants`, `NamespaceRuns` and `DentryGraph` carry link counts, acyclicity and quotas
through every run, `ChunkStore` shows that the chunk table is a flat byte string for each file, and
`FeedReplay` that the change feed rebuilds the namespace. `FeedPoll` is the feed as its readers page through
it.

**The batch engine.** `Batch` defines the condition interpreter over a connection with real
transactions, the server's step loop, and the one-transaction fast path, and compares them.

**The bridge.** `Frames` is the wire format and the frame buffer. `BridgeChannel` and `BridgeSocket` are
the channel as functions and as the object; `BridgeInvariants` and `BridgeRuns` put bridge, socket and
server side by side under every interleaving, any split of both byte streams, and overlapping generations.
`BridgeDrop` is one run that ends badly.

**The path lock.** `PathLock` is the coordinator. Its specification mentions neither list: arrival order
alone decides who is active.

**Durable work.** `CronFields` reads the fields of an expression, `Calendar` and `Cron` are the search for the
next match, `Schedules` the submission that survives crashes, `Jobs` the queue and its runner, `ExecStream`
and `JobLogs` the way of a command's output from the container into bounded log rows and out again.

**Transfer.** `Archive`, `ArchiveReader` and `TreeExport` are the tree archive in both directions,
`TreeImport` the swap with rollback, `Uploads` the resumable upload protocol with its client loop.

`Paths`, `Utf16` (string length and order) and `Wrappers` are shared.

## What does not hold

Each of these is kept as the code has it, with the exact condition as an if-and-only-if and, where one
call or run shows it, a concrete instance.

- `mknod` accepts a directory's mode bits and makes a directory with one link
  (`NamespaceRuns.ApplyDirLinks`, `NamespaceRuns.MknodBreaksDirLinks`).
- A directory kept only by an open handle still passes the directory check. What is made in it dangles
  when the handle is closed (`NamespaceRuns.ApplySound`, `DetachedDirectory.ReapLeavesRow`), and a rename
  between it and a reachable directory is not replayed rightly (`FeedReplay.ApplyInStep`,
  `DetachedDirectory.MoveAwayUnseen`). Neither happens when parent arguments are linked directories
  (`NamespaceRuns.CarefulApply`, `FeedReplay.FeedRebuildsNamespace`).
- A transaction whose batch is not in the canonical shape runs statement by statement. That agrees with a
  connection where transactions work exactly when every step is harmless (`Batch.LoopIsRealExactly`), as it is
  for one that is only ever committed (`Batch.BareTransaction`); a ROLLBACK that finds changes does not undo
  them (`Batch.RollbackNotUndone`).
- The bridge drops a live connection when buffered response bytes exceed one maximal frame and its header,
  even if every frame in them is within the limit (`BridgeRuns.DataSound`, `BridgeDrop.MaximalFrameDrops`).
- Enabling a schedule that is already enabled passes over an occurrence that is due and not yet submitted
  (`Schedules.EnablingExactly`, `Schedules.PassedOver`, `Schedules.NeverMadeUp`, `Schedules.MinuteLost`).
- The keys under which schedules submit their jobs are not reserved. A client that submits another command
  under the key of a schedule's next run stops that schedule for good, and every wake-up stops at it
  (`Schedules.ClientBlocks`, `Schedules.RunnerGivesUp`, `Schedules.BlockedForever`).
- A failed root import can lose entries: a restoring rename fails, the backup's listing fails and is read as
  empty, and its removal goes through (`TreeImport.RootImporter.Import`, `TreeImport.OneLoss`).
- A root import whose journal entry fails reports a failure with the new tree in place and the old one removed,
  unless removing the backup failed too (`TreeImport.RootImporter.Import`, `TreeImport.UnrecordedLoss`). An import
  below the root keeps its backup in that case (`TreeImport.DirectoryImporter.Import`).
- The change feed's path filter counts code units where the database counts characters. For a prefix with a
  character above U+FFFF it drops every event below the directory (`FeedPoll.FilterIsSubtree`,
  `FeedPoll.FilterSelects`, `FeedPoll.EmojiDropped`).
- An abort goes on with the session it saw on arrival. When that one has been replaced, it removes the next
  session's row under an append that holds that session's lock, and the append can record its offset in a third
  session whose temp file is shorter (`Uploads.FaithfulExactly`, `Uploads.StaleAbortDiverges`). The published
  file is right all the same, because completing recomputes the digest (`Uploads.PublishedIsSource`).
- A client's upload offset can go back when its session is ended by another client, or when an append of another
  session is recorded in its own (`Uploads.OffsetGoesBack`, `Uploads.ClientSentBack`), so the client loop ends
  only if that stops happening: how many turns it makes is bounded by how often it happens
  (`Uploads.ResumableUpload`).
- The documentation of the log cursor says that `after` must be a non-negative integer; the code accepts -1,
  and so does `JobLogs.GetJobLogs`.

## What is assumed

- The chunk size is one number per volume. In-range integers stand for JavaScript's safe integers.
- JSON, UTF-8 and SHA-256 are parameters: a parser, an encoded length that grows with the text, and digests
  that agree exactly when the bytes do. Encoded JSON has no raw line break (RFC 8259 section 7).
- Names have no slash and no NUL, which `create_node` does not check; a path text in the feed is ambiguous
  otherwise. Paths in feed events are lists of names; one modify event stands for the rows the trigger writes for the
  live links. `FeedPoll` works on the numbered rows with text paths.
- The body of a batch on the fast path is ordinary SQL: no transaction control and no compound calls.
- Timeouts, aborts, socket errors and the moments at which the server answers are events that may happen
  whenever they are possible. Clocks and random identifiers are arguments; identifiers are fresh.
- Each HTTP exchange sends one request over the bridge.
- A failed rename changes nothing, and one import runs at a time.
- Every append carries the source's own bytes at its offset. In the upload protocol a lock may be granted later
  than the coordinator would grant it, and reaping of stale sessions does not happen. A client counts an answer
  as lost after a number of server steps that is arbitrary for each of its calls, and takes an error from it.
- Names and texts are sequences of Unicode scalar values: strings with unpaired surrogates are not modelled.

## Model

| member | source | states |
|---|---|---|
| DentryGraph.UniquePath | worker/src/change-feed.ts:96-127 | in a tree-shaped dentry graph a directory has at most one path from the root |
| DentryGraph.PathExprFindsPath | worker/src/change-feed.ts:96-127 | the triggers' recursive parent query finds the one path of a reachable directory |
| DentryGraph.PathExprDetached | worker/src/change-feed.ts:96-127 | and finds nothing for a directory the root does not reach, which is when a trigger stays silent |
| DentryGraph.AncestorsExact | worker/src/hrana-server.ts:583-598 | the recursive ancestor query contains `a` if and only if `a` reaches `b`: the cycle check is exact |
| DentryGraph.AttachKeepsAcyclic | worker/src/hrana-server.ts:583-598 | attaching an entry under a directory that is not below it creates no cycle |
| DentryGraph.WalkWithout | worker/src/change-feed.ts:150-167 | removing a row removes exactly the live paths that go through it |
| DentryGraph.WalkWith | worker/src/change-feed.ts:131-148 | adding a row adds exactly the paths of the attached subtree under the new name |
| NamespaceRuns.CreateNodeDirLinks | worker/src/hrana-server.ts:416-496 | a create keeps the directory link counts if and only if it is not a successful mknod with directory mode bits |
| NamespaceRuns.ApplySound | worker/src/hrana-server.ts:416-678 | every operation keeps the graph a tree, rows undangling, file links equal to rows, and nothing outliving its inode, if and only if it does not close the last handle of a directory still in use |
| NamespaceRuns.ReapExactly | worker/src/schema.ts:197-203 | deleting an inode with no links is harmless if and only if it is no directory that a row still involves |
| NamespaceRuns.ApplyDirLinks | worker/src/hrana-server.ts:416-678 | every operation keeps directory link counts if and only if it is not a directory-mode mknod that succeeds |
| NamespaceRuns.RefusedChangesNothing | worker/src/hrana-server.ts:416-678 | an operation that throws or returns a non-positive status changes no table |
| NamespaceRuns.ApplyQuota | worker/src/schema.ts:205-230 | no operation takes the volume over its byte or inode quota when it was within both |
| NamespaceRuns.CarefulApply | worker/src/hrana-server.ts:416-678 | with linked parents and no directory-mode mknod an operation keeps all of the above, so that no handle can reap a used directory |
| NamespaceRuns.EveryCarefulRun | worker/src/hrana-server.ts:416-678 | whole runs from the seeded root: tree shape, no dangling row, file nlink equal to its rows, linked directories 2 plus subdirectories, the root 1 plus, detached inodes 0, and within the quotas if the fresh volume is |
| NamespaceRuns.MknodBreaksDirLinks | worker/src/hrana-server.ts:416-496 | one mknod with a directory mode from the seeded root breaks the link count |
| DetachedDirectory.Detached | worker/src/hrana-server.ts:546-678 | mkdir, mkdir, open, rename: a reachable state with a nameless directory that is still in the inode table |
| DetachedDirectory.ReapLeavesRow | agentfs/patches/0010-cross-runtime-open-unlink-leases.patch:672-708 | in that state a file made in the nameless directory is left dangling when the handle is closed |
| DetachedDirectory.MoveAwayUnseen | worker/src/change-feed.ts:169-186 | in that state a rename into the nameless directory takes a live path away without a feed event |
| FeedReplay.InsertInStep | worker/src/change-feed.ts:131-148 | a create event is emitted exactly when the new row is a live path, and replaying it gives the new paths |
| FeedReplay.DeleteInStep | worker/src/change-feed.ts:150-167 | the same for remove |
| FeedReplay.MoveRowExactly | worker/src/change-feed.ts:169-186 | a moved row and its event keep a replaying reader right if and only if both parents are reachable or neither is |
| FeedReplay.RenameInStep | worker/src/hrana-server.ts:546-678 | a whole rename, displacement included, is replayed rightly if and only if it does not cross reachability |
| FeedReplay.ApplyInStep | worker/src/change-feed.ts:96-217 | the same if and only if for every operation |
| FeedReplay.FeedRebuildsNamespace | worker/src/change-feed.ts:96-217 | for every run of careful calls on a fresh volume, folding the whole feed over the empty set gives exactly the live paths |
| Volume.FsVolume.CreateNode | worker/src/hrana-server.ts:416-496 | the statements, with their triggers, make exactly the effect on the tables the run theorems are about |
| Volume.FsVolume.Link | worker/src/hrana-server.ts:498-544 | the same for link |
| Volume.FsVolume.DisplaceDestination | worker/src/hrana-server.ts:606-650 | the same for the part of rename that unlinks an existing destination |
| Volume.FsVolume.Rename | worker/src/hrana-server.ts:546-678 | the same for rename |
| Volume.FsVolume.ResolvePath | worker/src/filesystem-primitives.ts:163-185 | walking the names with a moving cursor finds what path resolution specifies |
| Volume.FsVolume.Touch | worker/src/filesystem-primitives.ts:50-88 | the same for touch |
| Volume.FsVolume.LinkPath | worker/src/filesystem-primitives.ts:106-127 | the same for link by path |
| Volume.FsVolume.RejectsInsert | worker/src/schema.ts:205-218 | summing the inode rows decides the insert quota |
| Volume.FsVolume.RejectsResize | worker/src/schema.ts:220-230 | and the resize quota |
| OperationLaws.CreateAnswers | worker/src/hrana-server.ts:416-496 | what a create answers: 0 for a taken name, -1 without a parent directory, an error over quota, otherwise the new inode number |
| OperationLaws.Created | worker/src/hrana-server.ts:416-496 | what a create leaves: every column of the new row as requested, the symlink target, the name, the parent's times and links, and nothing else |
| OperationLaws.Linked | worker/src/hrana-server.ts:498-544 | what a hard link answers and leaves |
| OperationLaws.RenameAnswers | worker/src/hrana-server.ts:546-650 | which status a rename gives: -1 missing, -6 the root, -5 into itself, -2 a directory in the way of a file, -3 a file in the way of a directory, -4 a directory that is not empty, otherwise the inode |
| OperationLaws.Renamed | worker/src/hrana-server.ts:650-678 | what a rename to a free name leaves |
| OperationLaws.Displaced | worker/src/hrana-server.ts:606-650 | what is displaced loses its row and links, and its inode with the last one, unless a session holds it open |
| OperationLaws.TouchedFile | worker/src/filesystem-primitives.ts:50-69 | touching what is there sets its times only; a symlink is refused |
| OperationLaws.TouchedNew | worker/src/filesystem-primitives.ts:72-88 | touching a free name makes an empty regular file, rw-r--r-- |
| OperationLaws.WrittenRow | worker/src/hrana-server.ts:227-286 | a write answers with its length, makes the file longer if it must, sets mtime alone, and is refused over quota |
| OperationLaws.TruncatedRow | worker/src/hrana-server.ts:300-389 | a truncate sets the size and both times, or is refused |
| OperationLaws.Pinned | agentfs/patches/0010-cross-runtime-open-unlink-leases.patch:649-670 | opening counts a session's lease up, and is refused for an inode that is gone |
| OperationLaws.Unpinned | agentfs/patches/0010-cross-runtime-open-unlink-leases.patch:672-708 | closing counts it down, and the last close takes an inode without links away |
| OperationLaws.ModifiedPaths | worker/src/change-feed.ts:188-217 | a modify event names exactly the paths that lead from the root to the inode |
| OperationLaws.SeedRow | worker/src/schema.ts:232-238 | the seeded root |
| ChunkStore.PwriteRefines | worker/src/hrana-server.ts:227-286 | a successful pwrite overwrites the flat file with zero gap-fill, keeps chunks within the chunk size and below the file size, and leaves every other file alone |
| ChunkStore.TruncateRefines | worker/src/hrana-server.ts:300-389 | a successful truncate cuts or zero-extends the flat file and keeps the same |
| ChunkStore.PastSize | worker/src/hrana-server.ts:300-389 | a stored byte at or past the size does not exist: it reads as zero |
| ChunkStore.StepRefines | worker/src/hrana-server.ts:227-678 | every operation, data or not, has its flat effect on every file it keeps |
| ChunkStore.RunRefines | worker/src/hrana-server.ts:227-678 | whole runs: each inode that is still there holds the flat effect of its own writes, computed from the outcomes alone |
| Volume.ChunkStep | worker/src/hrana-server.ts:245-270 | one iteration of the write loop stores exactly the merged row of its chunk |
| Volume.FsVolume.WriteChunks | worker/src/hrana-server.ts:245-270 | the chunk loop writes exactly the chunks the byte range meets |
| Volume.FsVolume.Pwrite | worker/src/hrana-server.ts:227-286 | pwrite on the tables has exactly the specified effect, quota refusal included |
| Volume.FsVolume.CutRowsTo | worker/src/hrana-server.ts:322-343 | shrinking removes whole chunks and cuts the last one |
| Volume.FsVolume.ExtendRowsTo | worker/src/hrana-server.ts:344-377 | growing pads the old last chunk and adds zero chunks |
| Volume.FsVolume.Truncate | worker/src/hrana-server.ts:300-389 | truncate on the tables has exactly the specified effect |
| Batch.BodyInterpreted | worker/src/hrana-server.ts:1067-1091 | for every body, the interpreter over a transactional connection ends committed or rolled back as the one-transaction run says |
| Batch.CanonicalIsTransaction | worker/src/hrana-server.ts:784-807 | a canonical batch of ordinary SQL gives on the fast path the step results, errors, executed count and database that interpreting its conditions over a real transaction gives |
| Batch.FastPathAtomic | worker/src/hrana-server.ts:1013-1051 | a canonical batch reports its COMMIT or leaves the database as it was |
| Batch.LoopIsAutocommit | worker/src/hrana-server.ts:976-1011 | the step loop on any batch without transaction control is the interpreter in autocommit mode |
| Batch.ConditionsMean | worker/src/hrana-server.ts:1067-1091 | what makes a step of the loop run, by what the steps before it left: nothing is asked, a result for ok, an error for error; is_autocommit and an empty and always, an empty or never |
| Batch.ConnectivesMean | worker/src/hrana-server.ts:1067-1091 | not runs a step exactly when its condition would not, and exactly when both the first and the rest would, or exactly when either would |
| Batch.RealAutocommit | worker/src/hrana-server.ts:976-1011 | on a connection where transactions work is_autocommit runs a step exactly outside of one |
| Batch.LoopIsRealExactly | worker/src/hrana-server.ts:976-1011 | for every batch whatsoever: at each step the loop records what a real connection records and leaves the same database, with nothing left open, if and only if every step is harmless: no BEGIN inside an open transaction, COMMIT and ROLLBACK only inside one, a ROLLBACK that finds what its BEGIN saw, no condition decided by is_autocommit in one, no compound call without its callback |
| Batch.HarmlessOutcome | worker/src/hrana-server.ts:976-1011 | and then both have the same outcome: results, errors, executed count and database |
| Batch.OutcomeTells | worker/src/hrana-server.ts:976-1011 | conversely equal outcomes mean that every step was harmless, or that the runs parted at a step of which both record the same |
| Batch.OnlyRollbackParts | worker/src/hrana-server.ts:680-700 | with plain SQL and transaction control such a step is exactly a ROLLBACK, taken in an open transaction, that finds another database than its BEGIN saw |
| Batch.BareTransaction | worker/src/hrana-server.ts:976-1011 | a transaction in a shape that is not canonical but is only ever committed has the right outcome |
| Batch.RollbackNotUndone | worker/src/hrana-server.ts:680-700 | a transaction in another shape that a real connection undoes and the step loop keeps |
| Batch.UnreportedUnchanged | worker/src/hrana-server.ts:976-1051 | when no write is reported and only mutating statements change the database, it is unchanged |
| Batch.HranaServer.CanonicalTransactionalBody | worker/src/hrana-server.ts:784-797 | the shape test recognises exactly the canonical batches |
| Batch.HranaServer.ExecuteBatch | worker/src/hrana-server.ts:976-1011 | the loop's results, errors, statement count, database and write flag |
| Batch.HranaServer.ExecuteTransactionalBatch | worker/src/hrana-server.ts:1013-1051 | the fast path's results, errors, statement count and database, for success and for failure at any step |
| Frames.HeaderRoundTrip | worker/src/hrana-protocol.ts:135-164 | the big-endian header reads back as the length written |
| Frames.NextOfFrame | worker/src/hrana-protocol.ts:135-164 | a serialized frame followed by anything is read back as that frame and that rest |
| Frames.NextOfPrefix | worker/src/hrana-protocol.ts:179-203 | a prefix of a frame stream shows its first frame or nothing yet, never a false frame |
| Frames.MessagesOfPrefix | worker/src/hrana-protocol.ts:179-203 | draining a prefix of a stream gives the stream's first messages and leaves a prefix of the rest |
| Frames.FrameBuffer.Push | worker/src/hrana-protocol.ts:170-177 | a chunk is buffered or, past one maximal frame, refused with nothing stored |
| Frames.FrameBuffer.Drain | worker/src/hrana-protocol.ts:179-203 | draining yields all complete messages and keeps exactly what follows them, whatever the chunks were |
| Frames.CutFrames | worker/src/hrana-protocol.ts:179-203 | the offset loop over the consolidated buffer computes those messages |
| BridgeInvariants.TakeAnswerResolves | container/src/bridge.ts:188-194 | a frame resolves the oldest pending request unless it was canceled, and no other |
| BridgeInvariants.AnswerOk | container/src/bridge.ts:188-194 | and keeps the channel consistent: each request settled once, none waiting outside the queues |
| BridgeInvariants.AbortOk | container/src/bridge.ts:218-233 | an abort settles at most its own request and keeps FIFO alignment |
| BridgeInvariants.FailConnectionOk | container/src/bridge.ts:107-125 | a failed connection leaves no request unsettled |
| BridgeInvariants.PumpWritesOk | container/src/bridge.ts:127-157 | dispatch under back-pressure writes whole frames in admission order |
| BridgeRuns.DrainFramesSound | container/src/bridge.ts:169-201 | draining gives each complete response to the request it answers |
| BridgeRuns.DataSound | container/src/bridge.ts:159-167 | the connection survives more bytes if and only if they fit the buffer |
| BridgeDrop.MaximalFrameDrops | container/src/bridge.ts:159-167 | a run from a fresh connection with every frame within the limit: when the last byte of a maximal response arrives together with the next response, the connection is dropped and both requests are rejected |
| BridgeRuns.StepSound | container/src/bridge.ts:127-411 | every event of bridge, socket and server keeps the system invariant |
| BridgeRuns.OwnAnswer | container/src/bridge.ts:127-256 | a resolved request holds the server's response to that request's own payload, over every interleaving |
| BridgeRuns.AnswersNotShared | container/src/bridge.ts:127-256 | two different resolved requests hold the server's answers from two different places, and a request has only one place |
| BridgeRuns.SettledAtMostOnce | container/src/bridge.ts:75-97 | each request is settled at most once; on a live connection only canceled ones are rejected, on a lost one none is left |
| BridgeRuns.OutstandingBounded | container/src/bridge.ts:286-304 | uncanceled outstanding requests never exceed the admitted ones, nor these 16 |
| BridgeRuns.EndsDrained | container/src/bridge.ts:99-105 | a generation ends its socket only when retired, with nothing admitted, pending, queued or being written, and writes nothing more |
| BridgeRuns.RetiresOnlyWhenReplaced | container/src/bridge.ts:383-411 | only a newer connection retires a generation |
| BridgeRuns.CurrentConnection | container/src/bridge.ts:383-411 | a new connection becomes the current one and goes on with the request ids; one that closes is no longer current |
| BridgeRuns.OversizedAnswer | worker/src/hrana-server.ts:855-878 | a response over the limit is not written and ends the server side |
| BridgeRuns.BridgeRunSound | container/src/bridge.ts:379-411 | every interleaving of overlapping generations keeps each of them sound |
| BridgeRuns.EveryBridgeRun | container/src/bridge.ts:379-411 | from an unconnected bridge: in any generation, whoever is resolved is resolved with the answer to the bytes it sent |
| BridgeSocket.SocketChannel.PumpWrites | container/src/bridge.ts:127-157 | the write loop on the channel object has exactly the specified effect |
| BridgeSocket.SocketChannel.OnWritable | container/src/bridge.ts:146-151 | the same for the drain event |
| BridgeSocket.SocketChannel.HandleTcpData | container/src/bridge.ts:159-167 | the same for received bytes |
| BridgeSocket.SocketChannel.DrainFrames | container/src/bridge.ts:169-201 | the same for the response loop |
| BridgeSocket.SocketChannel.RejectPending | container/src/bridge.ts:93-97 | the same for rejecting both queues |
| BridgeSocket.SocketChannel.FailConnection | container/src/bridge.ts:107-125 | the same for failing a connection |
| BridgeSocket.SocketChannel.SendAndReceive | container/src/bridge.ts:204-256 | the same for admission, refusals included |
| BridgeSocket.SocketChannel.OnAbort | container/src/bridge.ts:218-233 | the same for the abort handler |
| BridgeSocket.SocketChannel.ReserveHttpRequest | container/src/bridge.ts:286-304 | the same for reserving one of the 16 places |
| BridgeRuns.ReceivedServing | worker/src/hrana-server.ts:855-878 | the server side, under any split: what it has been asked is a prefix of what was sent |
| PathLock.OverlapIsSubtree | worker/src/files-api.ts:120-127 | the string test means: one path is at or below the other by whole components, or one is '*' |
| PathLock.EveryRunIsFair | worker/src/files-api.ts:81-113 | after any calls, the active entries are exactly the outstanding requests without an earlier outstanding conflict, and the waiters are the others in arrival order |
| PathLock.RunRecordsArrivals | worker/src/files-api.ts:81-87 | requests are numbered in the order of the calls |
| PathLock.Safety | worker/src/files-api.ts:95-118 | no two active entries conflict, and an active entry that conflicts with a waiter arrived before it |
| PathLock.Exclusion | worker/src/files-api.ts:115-127 | in terms of the acquire calls alone: after any calls, of two that hold the lock at once neither writes, or no path of one is everything, equal to, above or below a path of the other by whole components |
| PathLock.HoldsExactly | worker/src/files-api.ts:81-127 | and a call that has not been released holds the lock if and only if every earlier one that has not been released reads as it does or touches none of its paths; otherwise it waits |
| PathLock.ReleasedExactly | worker/src/files-api.ts:129-136 | a release is recorded if and only if the lock was held |
| PathLock.Progress | worker/src/files-api.ts:95-113 | every waiter conflicts with an active entry or an earlier waiter, and the oldest with an active one |
| PathLock.GrantsLast | worker/src/files-api.ts:95-113 | a grant lasts until its own release |
| PathLock.BoundedWaiting | worker/src/files-api.ts:81-113 | whatever arrives later, a request is active once the earlier requests that conflict with it have been released |
| PathLock.ReleaseTwice | worker/src/files-api.ts:129-136 | releasing again at any later moment changes nothing |
| PathLock.VolumeAccessCoordinator.Acquire | worker/src/files-api.ts:81-87 | the object's lists after an acquire are the specified ones |
| PathLock.VolumeAccessCoordinator.ReleaseOnce | worker/src/files-api.ts:129-136 | the same for a release |
| PathLock.VolumeAccessCoordinator.DrainWaiters | worker/src/files-api.ts:95-113 | the restarting splice loop terminates and grants exactly what one pass in arrival order grants |
| PathLock.GrantStep | worker/src/files-api.ts:95-113 | granting one waiter and starting over loses nothing |
| Calendar.CivilRoundTrip | worker/src/schedules.ts:137-181 | year, month and day of any day number name that day again (proleptic Gregorian calendar of ECMA-262 section 21.4.1) |
| Calendar.YearLength | worker/src/schedules.ts:137-181 | the day numbers of consecutive years differ by 365 or, in a leap year, 366 |
| Calendar.Epoch | worker/src/schedules.ts:122-127 | the count of days starts with Thursday, 1 January 1970 |
| Calendar.NextWeekday | worker/src/schedules.ts:122-127 | and each day is the next weekday, Sunday after Saturday |
| Calendar.MonthLength | worker/src/schedules.ts:137-181 | every month has its number of days, leap years included |
| Cron.NextIsLeast | worker/src/schedules.ts:137-181 | a result is the least matching whole minute after the argument; there is none if and only if no minute before 1 January of the sixth year matches |
| Cron.NextByDate | worker/src/schedules.ts:118-181 | the same by date, weekday and time of day: the result is allowed by every field, where a day is allowed by its number or its weekday if neither is a star and by both otherwise, and no allowed time is earlier |
| Cron.FirstMonday | worker/src/schedules.ts:118-181 | a concrete one: midnight on Mondays after the epoch is 5 January 1970 |
| CronFields.AddItem | worker/src/schedules.ts:66-95 | one item of a field adds every step-th value of its range, and Sunday for a weekday 7; it is refused exactly when a number is none, the step is not positive, or the range is outside its bounds |
| CronFields.ParseField | worker/src/schedules.ts:62-98 | a field holds exactly what its items contain, in increasing order and within its bounds, and is refused if and only if an item is |
| CronFields.ParseCron | worker/src/schedules.ts:100-116 | an expression that is accepted is one the search can rely on |
| Cron.AdvanceSkips | worker/src/schedules.ts:129-181 | what one turn of the search skips contains no match |
| Cron.SkipMonth | worker/src/schedules.ts:143-151 | the jump to the next allowed month passes over no match |
| Cron.SkipDay | worker/src/schedules.ts:152-156 | the same for the next day |
| Cron.SkipHour | worker/src/schedules.ts:157-167 | the same for the next allowed hour |
| Cron.SkipMinute | worker/src/schedules.ts:168-177 | the same for the next allowed minute |
| Cron.SearchCronTime | worker/src/schedules.ts:137-181 | the search loop terminates and returns that least match, or throws |
| Schedules.KeyInjective | worker/src/index.ts:724-740 | the key text of an occurrence determines the schedule id and the occurrence |
| Schedules.EnablingExactly | worker/src/schedules.ts:227-233 | enabling an enabled schedule keeps it gapless if and only if no occurrence up to now is still to be submitted |
| Schedules.NotYetDue | worker/src/schedules.ts:227-233 | which is so whenever its next run is still to come |
| Schedules.PassedOver | worker/src/schedules.ts:227-233 | in every other case, whatever other schedules there are, a run follows in which the recomputed next run is submitted and the order is broken: an occurrence before it is missing, or it is not after the creation |
| Schedules.NeverMadeUp | worker/src/schedules.ts:227-233 | and an occurrence that was passed over while no runner was at work is not submitted in any run that follows |
| Schedules.MinuteLost | worker/src/schedules.ts:227-233 | a concrete one: a schedule for every minute, enabled again one minute after its creation, submits its second occurrence and not its first |
| Schedules.ClientBlocks | worker/src/jobs.ts:253-285 | a client that submits another command under the key of a schedule's next run blocks that schedule |
| Schedules.RunnerGivesUp | worker/src/index.ts:724-740 | the runner that meets a blocked schedule stops there, with the later entries of its list unsubmitted |
| Schedules.BlockedForever | worker/src/index.ts:724-740 | a blocked schedule stays blocked over every run in which nobody enables, disables, deletes or creates it |
| Schedules.DueIsSubmitted | worker/src/index.ts:724-740 | a listed schedule that is processed has its job and moves on to the next match |
| Schedules.RunnerStops | worker/src/index.ts:724-740 | a runner stops when its list is empty or it crashes, and the next wake-up starts one |
| Schedules.NoGapNoRepeat | worker/src/schedules.ts:235-248 | over every run the submitted occurrences stay consecutive, one job row each |
| Schedules.ConsecutiveOccurrences | worker/src/index.ts:724-740 | with the real cron search: from creation on, with crashes between submitting and advancing and with every re-enabling that finds nothing due, exactly the consecutive matches are submitted, each once, as long as no client submits one of the schedule's own keys |
| Schedules.ScheduleTable.Create | worker/src/schedules.ts:197-215 | the row a creation leaves |
| Schedules.ScheduleTable.SetEnabled | worker/src/schedules.ts:227-233 | the row enabling or disabling leaves |
| Schedules.ScheduleTable.Advance | worker/src/schedules.ts:241-248 | the conditional update leaves a row alone that was disabled or moved on meanwhile |
| Jobs.FinishSound | worker/src/jobs.ts:422-443 | finalizing needs no status guard: the job in hand is still running |
| Jobs.RunSound | worker/src/jobs.ts:253-495 | over submissions, cancellations, runner steps and crashes: one row per key, at most one running job, terminal rows never change, each command started at most once |
| Jobs.EveryRun | worker/src/index.ts:1646-1681 | all of that for every run from an empty table |
| Jobs.FinishedNeverStarts | worker/src/jobs.ts:461-495 | a job canceled while queued is never started afterwards |
| Jobs.SubmitIdempotent | worker/src/jobs.ts:253-285 | submitting a known key again adds no row, and a new key one |
| Jobs.SubmittedRow | worker/src/jobs.ts:253-285 | what submitting answers and leaves: the job that is there, a conflict, or a new queued job with the given columns |
| Jobs.CanceledRow | worker/src/jobs.ts:461-495 | what canceling does to a queued, a running and a finished job |
| Jobs.OrphanRows | worker/src/jobs.ts:354-366 | at a wake-up rows left running become unknown, and nothing is started before the container is recycled |
| Jobs.ClaimedRow | worker/src/jobs.ts:372-391 | otherwise the queued job that was created first is started, unless the container is busy |
| Jobs.EndedRow | worker/src/jobs.ts:690-719 | the row of a stream read to its end: canceled if and only if that was requested, otherwise succeeded for exit code 0, failed for another, unknown for none |
| Jobs.BrokenRow | worker/src/jobs.ts:629-641 | the row of a command that could not be started or whose stream broke |
| Jobs.OneJob | worker/src/jobs.ts:618-720 | one command from the queue to its end, and the runner free again |
| Jobs.JobTable.SubmitJob | worker/src/jobs.ts:253-285 | the statement sequence has the specified effect and result |
| Jobs.JobTable.RecoverOrphanRows | worker/src/jobs.ts:354-366 | every row left running becomes interrupted, and they are counted |
| Jobs.JobTable.ClaimNextJob | worker/src/jobs.ts:372-391 | the oldest queued job is claimed, ties by row order |
| Jobs.JobTable.CancelJob | worker/src/jobs.ts:461-495 | cancellation of a queued, running or finished job |
| Jobs.JobTable.FinalizeJob | worker/src/jobs.ts:422-443 | the unguarded final update |
| ExecStream.CutAppend | worker/src/sse-stream.ts:14-35 | cutting text at separators does not depend on how it was split into chunks |
| ExecStream.EachCrLfReplaced | worker/src/sse-stream.ts:13-14 | each CR LF becomes a line feed wherever it stands |
| ExecStream.NothingElseReplaced | worker/src/sse-stream.ts:13-14 | and nothing else changes |
| ExecStream.DataLinesMean | worker/src/sse-stream.ts:21-24 | the data of a frame is what its data lines hold after the colon and one blank |
| ExecStream.EventNameMeans | worker/src/sse-stream.ts:19-20 | its name is what the first event line holds |
| ExecStream.Trimmed | worker/src/sse-stream.ts:19-20 | without the blanks at both ends, and with nothing more taken |
| ExecStream.JoinedLines | worker/src/sse-stream.ts:24 | data lines are joined by line feeds |
| ExecStream.EmitFrames | container/src/command-server.ts:330-332 | the frames the container writes are translated to one line each, heartbeats to empty ones |
| ExecStream.LeftIsPartial | worker/src/sse-stream.ts:14-35 | what is buffered at any moment is part of one frame, so the limit concerns single frames |
| ExecStream.SseToLines | worker/src/sse-stream.ts:8-45 | any chunking of the SSE stream gives the public lines and an empty buffer |
| ExecStream.LinesToEvents | worker/src/jobs.ts:517-565 | any chunking of the public lines gives the events |
| ExecStream.EventsSurvive | container/src/command-server.ts:383-385 | events framed with heartbeats anywhere survive both stages under independent chunkings |
| ExecStream.SseTranslator.Drain | worker/src/sse-stream.ts:13-32 | the cutting loop emits exactly the complete frames and keeps the rest |
| ExecStream.SseTranslator.Flush | worker/src/sse-stream.ts:39-43 | the end of the stream succeeds if and only if nothing but blanks is left |
| ExecStream.SseToNdjson | worker/src/sse-stream.ts:8-45 | the whole transform computes the specified public text or fails |
| ExecStream.NdjsonDecoder.Push | worker/src/jobs.ts:526-540 | the decoder's loop yields the events of the complete lines, or fails exactly when a line is too long or malformed |
| ExecStream.NdjsonDecoder.Flush | worker/src/jobs.ts:542-549 | the trailing line is accepted by the same rules |
| JobLogs.LogWriter.Write | worker/src/jobs.ts:648-667 | after any events the rows are numbered from 0 without gaps, none is empty, they hold the first bytes written up to the cap, and truncated says that more came |
| JobLogs.RunJob | worker/src/jobs.ts:618-720 | the whole loop: those rows, the last exit code and the final status. Read to the end: canceled if and only if that was requested, otherwise succeeded for exit code 0, failed for another, unknown for none. Broken or not decoded: unknown if the error says so, otherwise failed |
| JobLogs.RunRemote | worker/src/jobs.ts:618-720 | end to end from the container's events: the first min(total, cap) bytes with their streams, and that status, whatever the chunks on both legs |
| JobLogs.PageIsNext | worker/src/jobs.ts:311-334 | a page is the next part of the log; its cursor is null only at the end of the table |
| JobLogs.FollowReadsAll | worker/src/jobs.ts:311-334 | following the cursor while rows are added reads each row once and in order |
| JobLogs.FollowEnds | worker/src/jobs.ts:311-334 | and reads a finished log whole |
| JobLogs.LogArguments | worker/src/jobs.ts:311-334 | which requests for a page are refused, and how long a page may be |
| FeedPoll.InsertAllRetains | worker/src/change-feed.ts:195-224 | after any inserts, multi-link ones included, exactly the last 10000 events are retained under their own numbers |
| FeedPoll.OneBlock | worker/src/change-feed.ts:220-254 | the retained numbers are one block that ends at the latest |
| FeedPoll.GapMeansLoss | worker/src/change-feed.ts:317-367 | a gap is reported if and only if an event after the cursor has been pruned |
| FeedPoll.PageIs | worker/src/change-feed.ts:317-367 | a page without a gap is the next part of the filtered history |
| FeedPoll.FollowerSeesAll | worker/src/change-feed.ts:317-367 | a poller that follows the cursor sees each selected event once and in order unless some page reports a gap |
| FeedPoll.PollProgress | worker/src/change-feed.ts:317-367 | an empty page leaves nothing unseen, any other moves the cursor on |
| FeedPoll.PageLimits | worker/src/change-feed.ts:317-367 | a negative cursor is refused, without a cursor nothing old is told, and a page is as long as its limit, 100 without one, at least 1 and at most 1000 |
| FeedPoll.FilterSelects | worker/src/change-feed.ts:317-336 | what the filter passes, for any requested prefix and any event outside the trash: the events that concern the subtree now or before if the normalized prefix has no character above U+FFFF, otherwise only the events at exactly that path, now or before |
| FeedPoll.FilterIsSubtree | worker/src/change-feed.ts:317-336 | the filter passes exactly the subtree's events if and only if the normalized prefix has no such character or lies in the trash, of which nothing is passed |
| FeedPoll.Dropped | worker/src/change-feed.ts:330-336 | for every other prefix, a file made in the directory is an event of the subtree that is not passed |
| FeedPoll.EmojiDropped | worker/src/change-feed.ts:330-336 | a concrete one: the directory's text and slash are three characters, but their length is four code units |
| FeedPoll.ChangeFeed.Emit | worker/src/change-feed.ts:195-224 | the trigger bodies number and prune as specified |
| FeedPoll.ChangeFeed.Query | worker/src/change-feed.ts:317-367 | the query returns the selected rows in order, up to the limit |
| Archive.SafeNamesPath | worker/src/archive.ts:64-76 | paths joined from safe names are accepted and name them again |
| Archive.ExtractsInside | worker/src/archive.ts:64-76 | whatever the bytes, everything that is extracted lies under names that are not empty, not a dot or two, and hold no slash and no NUL: nothing is made outside the target |
| Archive.UnsafeRefused | worker/src/archive.ts:64-76 | an archive does not extract if one of its records has no path, or one that is absolute, has an empty or a dot segment, or holds a NUL |
| Archive.ReadHeaderMonotone | worker/src/archive.ts:321-343 | a header that was read stays as it was when more bytes follow |
| Archive.WholeOnly | worker/src/archive.ts:357-408 | of an archive that extracts, no proper prefix and no proper extension does |
| Archive.ReadEntries | worker/src/archive.ts:183-200 | the records of a forest are read back as its entries in walking order |
| Archive.RoundTrip | worker/src/archive.ts:172-214 | extracting the encoded archive of any tree rebuilds it, with a summary that counts it |
| ArchiveReader.ByteStreamReader.ReadExact | worker/src/archive.ts:294-303 | exactly the next n bytes, or failure if and only if the stream is shorter |
| ArchiveReader.ByteStreamReader.ReadSome | worker/src/archive.ts:305-314 | some of the next bytes, at least one when there is one |
| ArchiveReader.ByteStreamReader.ReadBody | worker/src/archive.ts:410-428 | a body is read whole in whatever pieces come |
| ArchiveReader.PathRegistry.Add | worker/src/archive.ts:79-94 | a repeated path and one below a non-directory are refused, anything else recorded |
| ArchiveReader.RegistryAgrees | worker/src/archive.ts:79-94 | what the registry refuses could not have been made anyway |
| ArchiveReader.Extractor.ExtractNext | worker/src/archive.ts:357-408 | one turn of the loop consumes exactly one record |
| ArchiveReader.Extractor.ExtractTree | worker/src/archive.ts:357-408 | for any chunking the extraction ends with the tree and summary, or the refusal, that the bytes determine, and nothing outside the target |
| TreeExport.ListingOrderIrrelevant | worker/src/archive.ts:183-200 | a directory is walked in the same order however it is listed |
| TreeExport.SortAscending | worker/src/archive.ts:183-200 | which is ascending by name |
| Utf16.LessIsCodeUnitOrder | worker/src/archive.ts:183-200 | in the lexicographic order of the whole strings' UTF-16 code units, surrogate pairs included |
| Utf16.LengthCountsNarrow | worker/src/change-feed.ts:330-331 | a string's length is its number of characters if and only if none of them takes two code units |
| Utf16.SurrogatePair | worker/src/archive.ts:183-200 | a wide character is a high and a low surrogate that together hold its scalar value |
| TreeExport.WalkSnapshot | worker/src/snapshots.ts:841-876 | the snapshot walk over rows in any order emits the encoding of the tree they hold |
| TreeExport.EncodeSnapshotArchive | worker/src/snapshots.ts:828-839 | and the whole snapshot archive is the tree's |
| TreeExport.WalkLive | worker/src/archive.ts:183-200 | the live walk emits the encoding of the tree it is shown |
| TreeExport.AbsolutePath | worker/src/archive.ts:183-200 | the path of an entry is that of its directory and its name |
| TreeExport.EncodeLiveTree | worker/src/archive.ts:172-181 | so both exporters emit the same bytes for the same tree |
| TreeExport.FileContentsEqual | worker/src/snapshots.ts:771-806 | the buffered comparison answers whether the contents are equal, however each side is cut into rows |
| TreeImport.RootImporter.Swap | worker/src/tree-import.ts:160-176 | how far a swap comes for a failure at any call, and what is where then |
| TreeImport.RootImporter.Recover | worker/src/tree-import.ts:176-195 | where every old entry is after the rollback, whichever of its calls fail |
| TreeImport.RootImporter.Import | worker/src/tree-import.ts:123-200 | the swap publishes exactly the staged tree; after a failure every old entry survives if and only if neither of this happens: the restoring of a name that had been moved aside fails, the backup's listing fails and its removal succeeds; or the swap succeeds, the backup of a non-empty root is removed, and the journal entry fails; without failing rollback calls a failed swap leaves the root as before |
| TreeImport.OneLoss | worker/src/tree-import.ts:123-200 | an import that loses the one entry of the root: publishing and restoring fail, the listing fails, the removal succeeds |
| TreeImport.UnrecordedLoss | worker/src/tree-import.ts:196-199 | an import that reports a failure though the new tree is in place and the old one gone: only the journal entry fails |
| TreeImport.AfterRollBack | worker/src/tree-import.ts:176-184 | exactly the entries whose restoring rename failed are left in the backup |
| TreeImport.DirectoryImporter.Import | worker/src/tree-import.ts:76-104 | the same guarantee for an import below the root |
| Uploads.StepExactly | worker/src/uploads.ts:181-410 | in any reachable state a step keeps temp file and offset in agreement if and only if it is not an append overtaken by another session |
| Uploads.FaithfulExactly | worker/src/uploads.ts:264-335 | over every interleaving they agree throughout if and only if no append is overtaken |
| Uploads.NotStaleIsEnough | worker/src/uploads.ts:264-391 | when every request still finds the session whose lock it waited for, they agree throughout and what is published is the source |
| Uploads.PublishedIsSource | worker/src/uploads.ts:341-391 | a successful complete publishes exactly the source, stale locks or not |
| Uploads.StaleAbortDiverges | worker/src/uploads.ts:393-410 | a stale abort removes the next session under an append that holds that session's lock; the append records its offset in a third session whose temp file is empty; everyone granted its locks goes on at once |
| Uploads.FreshTargetOrderly | worker/src/uploads.ts:181-243 | a target without a session is a state all of this starts from |
| Uploads.SetBackIsEnd | worker/src/uploads.ts:264-410 | when no request goes on under another session's locks, only the end of a session takes an offset back |
| Uploads.OffsetGoesBack | worker/src/uploads.ts:393-410 | another client's abort and begin take the offset back to 0 |
| Uploads.ClientSentBack | sdk/src/helpers.ts:276-288 | a client that then goes on from where it was is answered with a mismatch and finds offset 0 |
| Uploads.Server.Await | worker/src/uploads.ts:264-410 | one request of the client among any steps of others: what each reply says of the state it leaves |
| Uploads.Server.Call | worker/src/uploads.ts:181-410 | the same from the sending of the request, an answer that is lost included |
| Uploads.Turn | sdk/src/helpers.ts:272-294 | one turn of the client loop among any steps of others moves the offset on, unless the session was ended or taken back meanwhile |
| Uploads.Feed | sdk/src/helpers.ts:271-295 | so the number of turns is bounded by the setbacks and the size |
| Uploads.ResumableUpload | sdk/src/helpers.ts:262-297 | the whole client loop over the server's own steps and any steps of others: it makes fewer than setbacks * (size + 1) + size turns without ending, when it ends well the source is what was published, and alone with every answer arriving it ends well |

## Left out

- HTTP routing, request validation, containers, FUSE daemons, web sockets, the command line and the web UI: plumbing around the modelled logic.
- AgentFS itself: the live exporter and the importers see it as an abstract tree of named objects.
- SQL parsing, the SQLite engine, full-text search, migrations and the simulated PRAGMA results.
- Authentication, capabilities, scoped SQL and request signing.
- Pin and unpin of open handles appear as operations on the tables, not as methods: they are Rust statements of another program, and their three statements are one step here; lease renewal and the periodic reaper are left out.
- Cron texts are cut at blanks, commas, dashes and slashes already, their aliases resolved and their numbers read. JavaScript's date range is not modelled.
- Schedule names and their uniqueness, and the list endpoints of jobs and schedules: simple selections.
- Stored SQL identifiers, batons and the sequence and describe requests of the Hrana server.
- `FsStateView.load` and `paths`, snapshot creation, restoring and diffing: the snapshot exporter starts from the loaded rows. A file with absent chunks is exported as its stored bytes; the two exporters agree when both sources hold the same tree.
- Surrogate pairs cut by a chunk boundary: chunks of text are chunks of characters. Blank means space, tab, carriage return and line feed.
- The timestamps of log rows and feed rows, and the signal sent to the container when a canceled job reports its start.
- WebDAV, S3, sites, trash, services, mounts, usage history, webhooks and text operations: small, they would only add easy members.
- ExecStream.NdjsonDecoder.Push: after a refused line it does not say what is buffered, because the decoder is dropped.
- BridgeChannel.Abort: at most one request listens to an exchange's signal, since an exchange sends one.
- Uploads.NotStaleIsEnough: one direction only; a stale request need not do harm, and the exact condition is in Uploads.FaithfulExactly, where it depends on what the temp file holds by then.
- Schedules.ConsecutiveOccurrences: speaks of a schedule that stays enabled; what falls into a time in which it is disabled is meant to be left out, and is not modelled as a run.
- Schedules.BlockedForever: a client that submits the schedule's own command under a key of the schedule is not blocked out, and leaves a job row for a time that need not be an occurrence; the run theorem's guard excludes it.
- Uploads.ResumableUpload: a turn that the server's error ends is counted as a failure of the loop, whatever the error says; retries of the whole upload are not part of it.
