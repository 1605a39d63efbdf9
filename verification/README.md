# SwaDrive in Dafny

SwaDrive keeps a SQLite index of its files in step with a storage tree that it cannot
change in the same transaction. This project models the code that copes with that, and
the pieces it rests on, and proves what the code guarantees.

The parts:

- **The recovery protocol** (`World`, `Invariant`, `Trees`, `Recovery`, `FileSteps`,
  `TrashSteps`, `Protocol`, `Limits`, `Conservation`, `Outcomes`, `Runs`, `Recoverability`,
  `Stuck`, `DeadEnds`). `World` is one state: the
  `files/` tree, the trash payloads, the upload parts, the shown and hidden index rows, the
  health flag with its reason, the trash rows and the upload rows. Every SQLite transaction,
  every rename, every probe and every crash is one function on it; an operation in flight is
  a program counter. A run is any sequence of such steps. `Invariant` says what every
  reachable state satisfies: in particular, the unhealthy reason names the only place where
  index and content may differ.
- **The services** (`Service`, `Settling`, `Reconciling`, `Startup`). The same steps in the order
  in which the methods of the services take them, with faults at every step, and with downloads,
  chunk writers, cancellations and storage loss between any two steps. Each method is proved to
  move along a run of the protocol, and its outcome is stated. The field `calm` says that
  nothing faults and nobody else steps while a method runs; then the outcome and the new state
  are stated exactly, as a function of the state before the call.
- **The index table** (`Text`, `LogicalPath`, `Traversal`, `IndexRows`, `DeepMove`). Paths as
  strings, rows with redundant string columns, and the SQL that inserts, moves, hides and unhides
  them. `View` turns the rows of one generation into the tables that the protocol speaks of.
- **Reindex** (`Reindex`, `Rebuild`, `RebuiltIndex`). Generations, batches,
  activation and cleanup.
- **Paging and cursors** (`Ordering`, `Collation`, `Paging`, `Base64`, `Json`, `Cursors`, `Clients`,
  `Listings`).
- **Uploads** (`Chunks`, `UploadMachine`, `UploadRefines`, `Resuming`, `ChunkService`, `Locks`,
  `LockProgress`). Chunk arithmetic in 64 bits, the part file byte by byte under concurrent
  writers, its runs as runs of the protocol, resumption after an interruption, PutChunk with the
  other threads' steps between its own, and the reference-counted lock table.
- **Authentication** (`Limiter`, `LimiterRuns`, `Password`, `PasswordForm`).

Assumptions:

- One process, and nothing else writes the storage root. A rename is atomic, and so is a
  transaction. A transaction or storage call that fails has no effect.
- When a commit fails and the unhealthy marker that follows it fails too, the process is
  taken to crash there.
- Trash and upload ids are fresh random values; where the code relies on a unique key to
  refuse a repeated one, the model refuses it.
- `NewEntry` accepts every upload target; `World.CreateUpload` has this as a guard.
- The checksum is a function of a whole byte sequence, a parameter `H` where it matters; no
  collision resistance is used.
- Lower-casing a string maps its characters one by one; the map is a parameter `fold`.
- The clock never reads the zero time, and a difference of two readings does not saturate.

What the proofs found:

- The recovery is not complete, and `Stuck.RecoverableExactly` says exactly how far it goes. A
  crashed state is served again by some run of restarts and reindexes if and only if every
  transitional trash row has exactly one of its two existence bits and a path that can be looked
  up; every row in doubt is one that the recorded reason lets through; no finalizing upload has
  both part and target or a target below a file; and the flag is clear, or a reindex accepts
  every path, or the reason belongs to a row that a startup settles: a trash row, or an upload
  that the listing by time and id gives before every other publication. `DeadEnds` has four runs
  that end outside: a download that marks the index between the rename and the commit of a trash
  (`DownloadStrands`), a restore into an occupied place that crashes before its rollback, with
  the flag clear (`OccupiedStrands`), a path that outgrew `ParsePath`, which no reindex accepts,
  so that a later mark stays (`DepthStrands`), and with such a path two publications of which
  the one that the reason does not name is listed first (`OrderStrands`).
- A move that the storage accepts may be refused by the CHECK constraints, because only its two
  ends are checked: `Outcomes.MoveCommitsExactly` has the exact condition,
  `DeadEnds.LongMoveRefused` an input. The move is then taken back. `Limits.RunFits` shows that
  the constraints refuse nothing else.
- The `expectedSize+1` reader of a chunk lets one byte into the next chunk's region. The
  published bytes are right because the HTTP handler cuts bodies off earlier;
  `UploadMachine.OverlongWrite` says exactly when an overlong write does harm.
- The move statement does not check the depth of the paths below the moved directory, so a
  row can get a path that `ParsePath` refuses: `LogicalPath.MovedPathParses`,
  `DeepMove.MoveOutgrowsParsePath`.
- List and Search can emit a cursor that the next request refuses, as too long or for such a
  path. A client that follows the cursors gets every row once exactly when no page ends at one:
  `Clients.Follow`, `Cursors.WideCursorRefused`, `DeepMove.DeepCursorRefused`.

## Model

| member | source | states |
|---|---|---|
| Protocol.FailClosedAgreement | server/internal/files/service.go:161-360 | after any run, if the index is healthy and no trash row is transitional and no upload is finalizing, the shown rows are exactly the content tree (path, kind, file size) and each trash id's rows are exactly its payload |
| Protocol.StartupGate | server/cmd/server/main.go:180-226 | whenever the gate opens after any run, nothing is transitional, the index is healthy and it agrees with the content |
| Protocol.ReasonNamesDisagreement | server/internal/files/index_repository.go:370-447 | while serving with no operation in flight, the reason names the only work in doubt; healthy means index and content are equal |
| Protocol.FinalizingNeverAdoptsAnother | server/internal/uploads/service.go:532-592 | in every reachable state a finalizing upload owns its verified part, or its target is that upload's own file with the verified bytes |
| Protocol.ReindexRepairs | server/internal/files/reindex.go:50-151 | an offline reindex is refused exactly for a transitional trash row or a path that gets no entry; otherwise it ends healthy and in agreement, whatever the reason was |
| Protocol.ApplyKeeps | server/internal/files/service.go:161-431 | every atomic step of every operation keeps the invariant |
| Protocol.RunKeeps | server/internal/files/service.go:161-431 | every state of every run from an empty store satisfies the invariant |
| FileSteps.FsMkdirKeeps | server/internal/storage/storage.go:318-335 | creating the directory keeps the invariant; under the intent the content is the rows plus that directory |
| FileSteps.UndoMkdirKeeps | server/internal/storage/storage.go:337-350 | removing the directory again brings content back to the rows |
| FileSteps.FsMoveKeeps | server/internal/storage/storage.go:352-372 | the storage rename keeps the tree a tree, every file in one place, and the content a rename of the rows |
| FileSteps.UndoMoveKeeps | server/internal/files/service.go:231-237 | the compensating rename brings content back to the rows |
| FileSteps.CommitMoveKeeps | server/internal/files/index_repository.go:132-220 | after the row rewrite and the cleared intent, index and content agree |
| TrashSteps.FsTrashKeeps | server/internal/storage/storage.go:374-393 | after the rename into trash, exactly the moved subtree is shown but not there |
| TrashSteps.CommitTrashKeeps | server/internal/files/sqlite_repository.go:67-119 | hiding the subtree under its id ends the disagreement |
| TrashSteps.FsRestoreKeeps | server/internal/storage/storage.go:395-419 | after the rename out of trash, exactly the hidden rows of that id are there but not shown |
| TrashSteps.FinishRestoreKeeps | server/internal/files/sqlite_repository.go:194-236 | unhiding the rows ends the disagreement |
| TrashSteps.FsFinalizeKeeps | server/internal/storage/storage.go:516-536 | publication puts a new file in one place, and only its target is not shown |
| TrashSteps.CommitCompleteKeeps | server/internal/uploads/sqlite_repository.go:210-240 | recording the published file, with whatever row was there, ends the disagreement |
| TrashSteps.ReconcileTrashKeeps | server/internal/files/service.go:403-431 | settling one trash row at startup keeps the invariant in all four outcomes |
| TrashSteps.ReconcileUploadKeeps | server/internal/uploads/service.go:532-592 | settling one finalizing upload at startup keeps the invariant |
| Recovery.DownloadMarkKeeps | server/internal/files/service.go:505-520 | a mark taken outside the mutation lock keeps the invariant at any moment |
| Recovery.ReindexKeeps | server/internal/files/reindex.go:214-267 | activation of a rebuilt generation keeps the invariant |
| Conservation.FilesConserved | server/internal/storage/storage.go:318-419 | from any reachable state through any further run, a published file is afterwards in exactly one place in files or trash, with the same origin and the same bytes |
| Conservation.StepConserves | server/internal/storage/storage.go:318-536 | no step loses, overwrites or changes a file |
| Conservation.PublicationHolds | server/internal/storage/storage.go:516-536 | the published file is the verified part of its upload |
| Outcomes.MkdirCommitsExactly | server/internal/files/service.go:181-199 | once the directory exists, its row can be inserted exactly while the intent is still the recorded reason and NewEntry makes a row |
| Outcomes.MoveCommitsExactly | server/internal/files/index_repository.go:132-220 | once the storage renamed, the rows can be rewritten exactly while the intent is still the recorded reason and every new path fits the columns; the availability checks and the unique index never refuse |
| Limits.RunFits | server/internal/database/migrations/0005_file_metadata_index.sql:42-46 | every row that any run shows or hides satisfies the CHECK constraints on its text columns |
| Limits.AcceptedFits | server/internal/files/index.go:102-127 | the columns hold the row of every path that NewEntry accepts |
| Outcomes.TrashCommitsExactly | server/internal/files/sqlite_repository.go:67-119 | a moved subtree can be hidden exactly when the reason allows it |
| Outcomes.RestoreCommitsExactly | server/internal/files/sqlite_repository.go:194-236 | a restore that succeeded on disk meets no shown row at any of its paths, whatever ran before, and finishes exactly when the reason allows it |
| Outcomes.PublicationCommitsExactly | server/internal/uploads/sqlite_repository.go:210-240 | a published upload can be recorded exactly when the reason allows it |
| Outcomes.ReconcileTrashExactly | server/internal/files/service.go:403-431 | a transitional row is settled exactly when one of its two existence bits is set and the reason allows a needed rewrite |
| Outcomes.ReconcileUploadExactly | server/internal/uploads/service.go:532-592 | a finalizing row is settled exactly when part and target are not both there and the reason allows a publication |
| Outcomes.TrashEffect | server/internal/files/service.go:265-310 | on a settled store, trash moves the whole subtree and hides exactly its rows |
| Outcomes.RestoreEffect | server/internal/files/service.go:325-360 | on a settled store, restoring any trash entry to a free place brings back payload and rows, which meet no shown row, and drops the entry |
| Outcomes.MkdirEffect | server/internal/files/service.go:161-201 | on a settled store, a mkdir that the storage accepts adds one directory and its row, exactly when NewEntry makes a row |
| Outcomes.TrashRestoreRoundTrip | server/internal/files/service.go:265-360 | trash and then restore give back the whole state |
| Outcomes.MkdirCompensated | server/internal/files/service.go:161-201 | a mkdir whose transaction failed is undone without a trace |
| Outcomes.MoveCompensated | server/internal/files/service.go:203-238 | a move whose transaction failed is undone without a trace |
| Outcomes.MoveEffect | server/internal/files/service.go:203-238 | on a settled store, a move that the storage accepts commits exactly when every new path fits the columns, and then renames rows as it renames content |
| Outcomes.MoveRoundTrip | server/internal/files/service.go:203-238 | moving there and back gives back the whole state; the way back is never refused |
| Stuck.RecoverableExactly | server/cmd/server/main.go:180-226 | a crashed state is served again by some run exactly when every transitional row has one existence bit, the reason lets each row in doubt through, no finalizing upload is ambiguous, and the flag can be cleared, in the order in which startup lists the uploads |
| Recoverability.RecoverableServes | server/internal/uploads/service.go:488-520 | from every state that meets the condition, a run of the two loops, the uploads in listing order, with a reindex in between where needed, opens the gate |
| Recoverability.SettleOne | server/internal/files/service.go:375-431 | from such a state any transitional trash row can be the next one settled, and the condition stays, so the order of the trash rows does not matter |
| Stuck.DeadForever | server/internal/files/index_repository.go:427-447 | from any other state, no run with any restarts, reindexes and requests opens the gate |
| DeadEnds.OccupiedStrands | server/internal/files/service.go:325-346 | a run of plain requests and one crash that ends in such a state with the flag clear |
| DeadEnds.DepthStrands | server/internal/files/reindex.go:70-90 | a run that ends in such a state with no trash row and no upload: a moved path is too deep for the reindex, and a download marked the index |
| DeadEnds.OrderStrands | server/internal/uploads/sqlite_repository.go:274-282 | a run that ends in such a state with two published uploads of the same second: the one that the reason names is listed second |
| DeadEnds.LongMoveRefused | server/internal/database/migrations/0005_file_metadata_index.sql:42-46 | a reachable store and a move that the storage accepts and the CHECK constraints refuse; it is taken back without a trace |
| DeadEnds.DownloadStrands | server/internal/files/service.go:288-310 | a run that ends in such a state because a download marked the index while a trash was under way |
| Service.Server.CreateDirectory | server/internal/files/service.go:161-201 | done: content and rows both have the directory and the flag is clear; failed: nothing changed; inconsistent: rows unchanged and the flag names the mkdir. Without faults it is done exactly when the flag is clear, the storage is there and accepts the directory, and NewEntry accepts the path; otherwise it fails and the state is given back whole |
| Service.Server.CompensateMkdir | server/internal/files/service.go:192-199 | either the directory is gone and the flag is clear, or the flag still names the mkdir |
| Service.Server.Move | server/internal/files/service.go:203-238 | done: content and rows are renamed alike and the flag is clear; failed: nothing changed; inconsistent: rows unchanged and the flag names the move. Without faults it is done exactly when the flag is clear, the storage is there and accepts the rename, and every new path fits the columns; otherwise it fails and the state is given back whole |
| Service.Server.CompensateMove | server/internal/files/service.go:230-236 | either the opposite rename happened and the flag is clear, or the flag still names the move |
| Service.Server.AbortMutation | server/internal/files/service.go:240-248 | content and rows stay; the intent is cleared, or the flag still carries it |
| Service.Server.Trash | server/internal/files/service.go:265-310 | the whole new state of each outcome: moved and hidden, nothing, a trashing row left, or moved with the flag naming the trash id. Without faults it is done exactly when the flag is clear, the storage is there, the id is new and the path is shown and in the storage; otherwise it fails and the state is given back whole |
| Service.Server.CommitTrashOrMark | server/internal/files/service.go:296-307 | either the subtree's rows are hidden under the id, or they stay and the flag names the id |
| Service.Server.Restore | server/internal/files/service.go:325-360 | the whole new state of each outcome: returned and shown, nothing, a restoring row left, or returned with the flag naming the trash id. Without faults it is done exactly when the flag is clear, the storage is there, the row is trashed and its place is free in a directory; otherwise it fails and the state is given back whole |
| Service.Server.FinishRestoreOrMark | server/internal/files/service.go:348-358 | either the hidden rows are shown without collision, or they stay hidden and the flag names the id |
| Service.Server.Complete | server/internal/uploads/service.go:278-375 | done: the target holds this upload's verified bytes, is shown with its size, and nothing else changed; failed: content, rows and status unchanged; otherwise the upload is finalizing, and if content changed the flag names it. Without faults an upload that can be published is done when the reason lets it be recorded and inconsistent otherwise, and any other fails |
| Service.Server.Publish | server/internal/uploads/service.go:328-361 | the verified part is at the target, or content is unchanged and the status is the old one or finalizing |
| Service.Server.ResetOrLeave | server/internal/uploads/service.go:351-361 | a failed publication resets only a row that this call made finalizing |
| Service.Server.CompletePublished | server/internal/uploads/service.go:459-484 | the row is completed and the file shown, or the row stays finalizing and the flag names the upload |
| Service.Server.Retire | server/internal/uploads/service.go:377-445 | a cancelled or expired upload has no part; a failed attempt leaves its row as it was. Without faults it succeeds exactly for a pending, unlocked upload while the storage is there, and changes nothing else |
| Service.Server.Create | server/internal/uploads/service.go:105-136 | an accepted upload has its row. Without faults it is accepted exactly when the storage is there, the flag is clear, the id is new, NewEntry accepts the target and its row is available; then there are an empty part and a pending row, and otherwise the state is as before |
| Service.ExclusiveHolds | server/internal/uploads/service.go:385-400 | while cancel or expiry holds the exclusive lock, no step of any other request touches the upload's row or part |
| Service.Server.Interfere | server/internal/files/service.go:505-520 | background steps leave content, rows, trash and the upload being completed alone, and change the flag only by marks |
| Startup.Take | server/internal/uploads/sqlite_repository.go:274-282 | a listing gives the first pending rows by update time and id, each once, and fewer than the limit only when there are no more |
| Startup.ReconcileTrashEntry | server/internal/files/service.go:403-431 | success settles the row as its two existence bits dictate and touches no other row; without faults it succeeds exactly when the protocol's step is possible |
| Startup.ReconcileAllTrash | server/internal/files/service.go:375-401 | the batch loop ends, counts exactly the rows it settled, settles each by its bits, and reports success only when no transitional row is left. Without faults and with storage it succeeds exactly when there are at most 1000 transitional rows, each has one existence bit and a path that can be looked up, and the flag lets the rewrites through |
| Startup.ReconcileUploadEntry | server/internal/uploads/service.go:532-592 | success settles the next listed upload as its part's existence dictates; an ambiguous state or a refused completion stops the process with the flag raised for it. Without faults it succeeds exactly when the protocol's step is possible, and otherwise marks exactly when the states can be read |
| Startup.ReconcileAllFinalizing | server/internal/uploads/service.go:488-520 | the batch loop ends, counts exactly the uploads it settled, and reports success only when no finalizing upload is left. Without faults and with storage it succeeds exactly when there are at most 1000 finalizing uploads, none is ambiguous, and each publication finds the flag clear, or naming it or an upload listed before it |
| Startup.OpenGate | server/cmd/server/main.go:180-226 | an open gate means settled, healthy and in agreement, every pending row settled by its bits and no content changed; a shut gate serves no metadata; a stopped startup exits. Without faults and with storage the gate opens exactly when there are at most 1000 pending rows of each kind, every trash row has one existence bit and a path that can be looked up, the flag lets the rewrites through, no finalizing upload is ambiguous, and the flag is clear or belongs to a row that this start settles; else the process exits. Without storage it opens exactly when nothing is pending and the flag is clear, is shut when something is pending, and else exits |
| Reconciling.TrashKeepsSettleable | server/internal/files/service.go:375-431 | settling one trash row neither helps nor hurts what one start can settle |
| Reconciling.UploadKeepsSettleable | server/internal/uploads/service.go:532-592 | settling one upload neither helps nor hurts what one start can settle |
| Reconciling.SettleableUploads | server/cmd/server/main.go:180-226 | once the trash rows are settled, every publication of such a state finds a flag that lets it through |
| Reconciling.SettledIsHealthy | server/cmd/server/main.go:220-226 | once nothing is pending, what is left of the condition is a clear flag |
| Trees.RenamedTree | server/internal/storage/storage.go:352-372 | a rename that the storage accepts keeps a tree a tree and overwrites nothing |
| Trees.CreatableExactly | server/internal/storage/storage.go:318-335 | the storage makes a directory exactly where nothing is and a tree stays a tree |
| Trees.RenamableExactly | server/internal/storage/storage.go:352-372 | the storage renames exactly what is there to a place where nothing is, not into itself, when the renamed content is a tree |
| Trees.RenameInverse | server/internal/storage/storage.go:352-372 | the opposite rename undoes a rename that overwrote nothing |
| Trees.MetaRenamed | server/internal/files/index_repository.go:132-220 | renaming rows and renaming content commute |
| LogicalPath.JoinSplit | server/internal/storage/path.go:23-49 | joining the components of a string gives back the string |
| LogicalPath.SplitParent | server/internal/files/index_repository.go:494-500 | parent and name columns are the two halves of the components |
| LogicalPath.BelowIsSubtree | server/internal/files/index_repository.go:182-202 | the string test of the WHERE clause selects exactly the component subtree |
| LogicalPath.RewrittenIsBelow | server/internal/files/index_repository.go:182-202 | the path expression replaces the source components by the destination components |
| LogicalPath.RewrittenColumns | server/internal/files/index_repository.go:182-202 | the parent and name expressions compute the parent and name of the rewritten path |
| LogicalPath.RewrittenFold | server/internal/files/index_repository.go:182-202 | the normalized path expression computes the folded rewritten path |
| LogicalPath.ParsePathIsComponents | server/internal/storage/path.go:23-49 | ParsePath accepts exactly the joins of well-formed components within the three limits |
| Traversal.ParsePathStaysInside | server/internal/storage/path.go:23-49 | ParsePath accepts exactly the strings within the three limits whose walk from the root, in which .. goes up and . and empty stay, ends at their components, and which have no control character and no backslash; then there is no leading slash and no prefix of the walk leaves the root |
| Traversal.ByteLengthIsUtf8 | server/internal/storage/path.go:30 | the lengths that the limits bound are those of the UTF-8 encoding |
| LogicalPath.AcceptedExactly | server/internal/files/index.go:102-127 | NewEntry makes a row exactly for the paths that parse and whose row the CHECK constraints admit |
| LogicalPath.MovedPathParses | server/internal/files/index_repository.go:132-220 | a path below a moved directory still parses exactly when its new depth and length are within the limits |
| DeepMove.MoveOutgrowsParsePath | server/internal/files/index_repository.go:132-220 | a table whose rows all parse and a move between two parsed paths, not into itself, that passes every check and leaves a row whose path no longer parses |
| DeepMove.DeepCursorRefused | server/internal/files/index.go:157-165 | the directory that this move fills emits only cursors that the next request refuses |
| IndexRows.RewrittenOk | server/internal/files/index_repository.go:132-220 | every redundant column of a moved row is what its new path says |
| IndexRows.MoveCollidesNever | server/internal/database/migrations/0005_file_metadata_index.sql:51-53 | no rewritten path is an old or a new path of another row, so the unique index never refuses, row by row or at the end |
| IndexRows.MoveKeepsTable | server/internal/files/index_repository.go:132-220 | column consistency, path uniqueness and active parents survive the move |
| IndexRows.MoveIsRename | server/internal/files/index_repository.go:132-220 | what readers see after the statement is the rename of what they saw |
| IndexRows.FileEntries.MoveSubtree | server/internal/files/index_repository.go:132-220 | succeeds exactly on the explicit checks and the column limits, renames the view, and touches no other row |
| IndexRows.FileEntries.InsertActive | server/internal/files/index_repository.go:226-248 | succeeds exactly for valid entries at an available path, and adds that path alone to the view |
| IndexRows.FileEntries.HideSubtree | server/internal/files/sqlite_repository.go:86-96 | rewrites exactly the rows of the component subtree; under a fresh id this hides them from the view and can be undone exactly |
| IndexRows.FileEntries.Unhide | server/internal/files/sqlite_repository.go:206-214 | succeeds exactly when rows are hidden under the id and none collides, and adds them to the view; the table stays valid when their parents are shown or come along |
| IndexRows.HideThenUnhide | server/internal/files/sqlite_repository.go:67-236 | unhiding gives back exactly the rows that hiding took, in every column |
| IndexRows.HideIsWithout | server/internal/files/sqlite_repository.go:86-96 | hiding is subtree removal on the view |
| IndexRows.UnhideIsUnion | server/internal/files/sqlite_repository.go:206-214 | unhiding is disjoint union on the view |
| IndexRows.UnhideKeepsUnique | server/internal/files/sqlite_repository.go:206-214 | the unique index accepts unhiding exactly when no hidden path is shown |
| IndexRows.TrashGuardsAreSteps | server/internal/files/sqlite_repository.go:67-236 | a statement of trash or restore finds rows, or a collision, exactly when the tables that readers see have them, which are the guards of the protocol's steps |
| IndexRows.AvailableIsRowAvailable | server/internal/files/index_repository.go:350-368 | the availability check on strings is the protocol's check on components |
| IndexRows.MoveGuardIsCommitGuard | server/internal/files/index_repository.go:132-220 | the checks of the move and the CHECK constraints on the rewritten rows accept exactly when the protocol's commit step does |
| Reindex.IndexDatabase.StartGeneration | server/internal/files/reindex.go:153-181 | readers see no change; the new generation is the only one being built and has no rows |
| Reindex.IndexDatabase.InsertGenerationBatch | server/internal/files/reindex.go:183-212 | all rows of the batch are appended in order or none, readers see no change, and a refusal has a reason: the size of the batch, the generation, or a row that validateEntry, a CHECK constraint or the unique index refuses |
| Reindex.IndexDatabase.ActivateGeneration | server/internal/files/reindex.go:214-267 | success makes the generation, complete and without orphans, what readers see; failure changes nothing, and a refusal is a wrong count, an orphan or a generation that is not being built |
| Reindex.IndexDatabase.CleanupObsoleteBatch | server/internal/files/reindex.go:269-307 | only obsolete rows go, those with the smallest keys, as many as the limit or all; readers see no change, and deleting none means no obsolete generation is left |
| Rebuild.ListTrash | server/internal/files/reindex.go:309-322 | a keyset page is the next slice of the ordered trash entries |
| Rebuild.Rebuilder.AppendEntry | server/internal/files/reindex.go:70-90 | the row is in the batch or in the table, after all earlier ones |
| Rebuild.Rebuilder.AppendTrash | server/internal/files/reindex.go:124-151 | every trash entry is walked once in key order, and only trashed ones are accepted |
| Rebuild.Cleanup | server/internal/files/reindex.go:105-117 | the loop ends having removed every obsolete row and generation, and readers see no change; without faults it always does |
| Rebuild.Run | server/internal/files/reindex.go:50-122 | on a database without faults of its own the rebuild activates exactly when the trash rows are settled, every path gets an entry, no shown path comes twice and no shown row lacks its parent, and it cleans up; then readers see exactly the walked files followed by the walked trash; a rebuild that does not activate leaves the visible index and the health flag unchanged, and was refused for one of these reasons or faulted |
| Rebuild.SentReady | server/internal/files/reindex.go:214-246 | once every row is in the table the count is the number of rows sent, and an orphan is found exactly when a sent row has no sent parent |
| RebuiltIndex.RebuiltIsReindex | server/internal/files/reindex.go:50-151 | if the walks list the storage, the activated rows are the content tree and each payload under its path |
| RebuiltIndex.RebuildIsStep | server/internal/files/reindex.go:50-151 | over settled trash rows, the walked storage can be built exactly when the protocol's reindex step is possible, and the activated rows are what that step installs |
| RebuiltIndex.WalkedRows | server/internal/files/reindex.go:229-246 | the walk of a tree has no orphan and no shown path twice, so only a path can be refused |
| RebuiltIndex.RebuildStorage | server/internal/files/reindex.go:50-122 | without faults it activates exactly when the protocol's reindex step is possible, and installs what that step installs; only a fault keeps it from that otherwise |
| Paging.AfterIsOrder | server/internal/files/index_repository.go:29-99 | the disjuncts of the cursor condition are the order of the ORDER BY columns |
| Ordering.LessIsBinary | server/internal/files/index_repository.go:51-56 | one text comes before another exactly when it is a proper prefix, or the first character that differs is smaller |
| Collation.BinaryIsBytes | server/internal/database/migrations/0005_file_metadata_index.sql:29-33 | that order is the one of the UTF-8 encodings compared byte by byte, which is how SQLite compares columns without a COLLATE clause |
| Paging.PrecedesDecides | server/internal/files/index_repository.go:51-56 | a row comes before another exactly when the first ORDER BY column in which they differ is smaller in the binary collation |
| Paging.ShownKeyed | server/internal/files/index_repository.go:29-99 | shown rows have distinct keys whose first column is not empty |
| Paging.List | server/internal/files/service.go:113-142 | refused exactly for a limit outside 0 to 500 or a directory that is not shown; the page is the first matching rows after the cursor, ordered by the columns in the binary collation, and the next cursor is absent only on the last page |
| Paging.Search | server/internal/files/service.go:433-463 | refused exactly for a limit outside 0 to 200 or a query that is empty or longer than 256 bytes; the same for the rows whose normalized name or path contains the query |
| Listings.ChildrenAreBelow | server/internal/files/index_repository.go:29-63 | listing a directory selects exactly the shown rows whose path has one component more |
| Listings.HitsArePathHits | server/internal/files/index_repository.go:65-99 | searching selects exactly the shown rows whose folded path contains the folded query; the test of the name adds none |
| Paging.PageIsSlice | server/internal/files/service.go:130-141 | the page after the cursor of a row is the slice of the ordered list that starts right after that row |
| Clients.Serve | server/internal/files/service.go:113-142 | a request is refused exactly for its limit, its directory or query, or a cursor that does not decode; else it gets the page after the cursor, and the encoded cursor of its last row unless nothing follows |
| Clients.Follow | server/internal/files/service.go:113-142 | following the cursor strings ends; it gives every matching row exactly once in key order, or is refused, and it is refused exactly when some page ends at a row whose cursor is too long or whose path does not parse |
| Base64.DecodeEncode | server/internal/auth/password.go:127-136 | decoding gives back the bytes, in both alphabets, strictly or not |
| Base64.StrictIsCanonical | server/internal/auth/password.go:176-183 | a strict decoder accepts nothing but encodings, line breaks aside |
| Base64.StrictReads | server/internal/auth/password.go:176-183 | a strict decoder gives these bytes exactly for their encoding, line breaks aside |
| Base64.LenientReads | server/internal/files/index.go:141 | the lenient decoder reads exactly the symbols and line breaks, but for a single symbol left over |
| Base64.BreaksSkipped | server/internal/auth/password.go:176-183 | line breaks are skipped wherever they stand, and nothing else is |
| Json.FromToUtf8 | server/internal/files/index.go:129-132 | UTF-8 decoding gives back the string |
| Json.FromUtf8Exactly | server/internal/storage/path.go:30 | exactly the encodings decode: no overlong form, no surrogate and no cut-off sequence does |
| Json.EscapesExactly | server/internal/files/index.go:129-132 | escaping changes a text exactly when it has a special character, and leaves none but quotes and backslashes |
| Json.ReadWrite | server/internal/files/index.go:129-172 | reading gives back the members that json.Marshal wrote, with all its escapes, and refuses anything behind them |
| Cursors.DecodeEncoded | server/internal/files/index.go:129-172 | decoding an encoded cursor is exactly the length limit and the acceptance test |
| Cursors.EmittedComesBack | server/internal/files/index.go:134-172 | a cursor emitted by List or Search comes back unchanged when it fits the limit and its row's path parses, and is refused otherwise |
| Cursors.CursorText | server/internal/files/index.go:19-25 | the JSON text of a cursor, member by member, without an empty tertiary |
| Cursors.MembersExactly | server/internal/files/index.go:144-152 | exactly the known members are read, and the last of equal ones counts |
| Listings.AcceptsExactly | server/internal/files/index.go:142-172 | the acceptance test admits exactly the cursors that List or Search emits for this mode and scope after some row whose path parses |
| Listings.TakenCouldBeEmitted | server/internal/files/index.go:134-172 | a cursor string that is taken, forged or not, decodes to one that the service could have emitted for the same mode and scope |
| Cursors.WideCursorRefused | server/internal/files/index.go:134-140 | an emitted cursor that does not fit |
| Chunks.TotalChunksIsCheck | server/internal/database/migrations/0002_backend_v1.sql:76-79 | the chunk count of the service is the one that the CHECK constraint computes |
| Chunks.TotalChunksBounds | server/internal/uploads/service.go:730-739 | the count is the least number of chunks that hold the file, in 64-bit integers |
| Chunks.BoundsExist | server/internal/uploads/service.go:741-755 | bounds exist exactly for the indices of the upload, never overflow, and end where the next chunk starts |
| Chunks.ChunksTile | server/internal/uploads/service.go:741-755 | every byte of the file is in exactly one chunk, and no byte outside it is in any |
| Chunks.ValidateChunks | server/internal/uploads/sqlite_repository.go:114-154 | the streaming loop succeeds exactly when the ordered rows are that tiling with 32-byte hashes and the callback accepts each |
| Chunks.TilingExactly | server/internal/uploads/sqlite_repository.go:133-136 | the rows tile the upload exactly when each has the owner, its index, a 32-byte hash, and the bytes from index times chunk size to the next multiple or the end of the file |
| UploadMachine.VerifyPart | server/internal/uploads/service.go:615-646 | succeeds exactly when the rows tile the upload, every section hashes to its row and the whole hash agrees, and returns the hash of the whole |
| UploadMachine.StepKeeps | server/internal/uploads/service.go:160-276 | every step of writers, completion, cancellation and crashes keeps bodies, rows and regions together |
| UploadMachine.PublishedBytes | server/internal/uploads/service.go:335-374 | over all interleavings with fitting bodies, the published file has the announced length, is the concatenation of the accepted bodies, and hashes to the stored checksum |
| UploadMachine.RecordedChunksStable | server/internal/uploads/service.go:187-275 | once a chunk is recorded, its row stays the same through every further run that does not retire the upload, and while the part is there its region hashes to that row |
| UploadRefines.VerifyIsLoop | server/internal/uploads/service.go:615-646 | over the stored rows in index order, the verification loop accepts exactly when the machine's step does, with the same hash |
| UploadRefines.MachineRefines | server/internal/uploads/service.go:160-445 | for every run of writers, completion, retirement and crashes on one upload whose bodies fit there is a run of the recovery protocol from an empty store that ends in the same state of the upload |
| UploadRefines.WholeSurvives | server/internal/uploads/service.go:254-276 | a crash takes no byte from a part whose chunks are all recorded |
| UploadRefines.PublishedFile | server/internal/uploads/service.go:305-361 | in that run, the file that the protocol has at the target is the concatenation in index order of the accepted bodies, is what the protocol holds as verified, and has the announced length and checksum |
| Resuming.ResumePublishes | server/internal/uploads/service.go:160-375 | after any run that leaves an upload idle and pending with chunks of one file alone recorded, crashes and abandoned writers among it, sending the missing chunks, and any others once more, and completing publishes exactly that file |
| Resuming.SendOne | server/internal/uploads/service.go:160-276 | sending a chunk, whether or not it was recorded before, leaves it recorded and nothing else changed |
| Resuming.CrashLeavesAWay | server/internal/uploads/service.go:377-592 | a crash at any moment leaves a finalizing upload whose next steps finish it or take it up again, and a pending one that can still be cancelled or expire |
| Resuming.AnyoneCanLeave | server/internal/uploads/locks.go:47-64 | whoever holds or writes can leave at any moment, and nothing else changes |
| ChunkService.WriterUndisturbed | server/internal/uploads/service.go:187-276 | while a thread is inside PutChunk, no step of another thread changes its body or the row of its index, or completes or retires the upload |
| ChunkService.Uploader.PutChunk | server/internal/uploads/service.go:160-276 | under any interleaving: recorded means the row was new and holds the hash of exactly this body; idempotent and conflict compare with the row that was there; every other outcome leaves the row of the index as it was. Without faults and other threads the call is refused exactly when the index, the status, a lock or a missing part forbids it, and else length, hash and the recorded row decide the outcome in this order; only a recorded chunk changes the rows |
| ChunkService.Uploader.Receive | server/internal/uploads/service.go:219-237 | the pieces read are the body, in order |
| UploadMachine.OverlongWrite | server/internal/uploads/service.go:215-223 | a write one byte over its chunk keeps the recorded regions exactly when the next chunk has no row or starts with that byte |
| UploadMachine.OverlongBodyCorrupts | server/internal/uploads/service.go:215-223 | a run in which an overlong body ruins a recorded chunk |
| Locks.StepKeeps | server/internal/uploads/locks.go:29-86 | every step keeps reference counts equal to the threads that refer to an entry |
| Locks.ExclusiveExcludes | server/internal/uploads/locks.go:58-65 | an exclusive holder of an id is the only holder of anything under that id |
| Locks.ChunkHoldersDiffer | server/internal/uploads/locks.go:29-54 | two holders never share an id and an index |
| Locks.LiveEntriesStay | server/internal/uploads/locks.go:67-86 | no entry that a live thread waits on or holds has been removed or replaced |
| Locks.TableIsInFlight | server/internal/uploads/locks.go:67-86 | the table holds exactly the ids and indices in flight, and is empty when nothing is |
| LockProgress.WaitsExactly | server/internal/uploads/locks.go:29-65 | after any run a new request is always taken in; a thread inside has one possible next step, and it waits exactly for an exclusive holder of its id, for the holder of its index, or, when it wants the id exclusively, for any holder under it |
| LockProgress.AllGetOut | server/internal/uploads/locks.go:29-86 | no deadlock: from every reachable state the threads inside can all get out without a new request, and then the table is empty |
| Limiter.LoginLimiter.Check | server/internal/auth/limiter.go:58-73 | the longer of the two waits, after the cleanup that is due |
| Limiter.LoginLimiter.RecordFailure | server/internal/auth/limiter.go:75-101 | both entries count the failure, at most one entry of each map gives way, and neither map exceeds its limit |
| Limiter.LoginLimiter.CleanupIfDue | server/internal/auth/limiter.go:125-131 | stale entries go at most once a minute |
| Limiter.WithoutStale | server/internal/auth/limiter.go:111-123 | the deletion loop removes exactly the stale entries |
| LimiterRuns.ForgettingUnobservable | server/internal/auth/limiter.go:58-146 | with a clock that does not go back and no eviction, every answer is that of a limiter that never forgets |
| LimiterRuns.ChecksExactly | server/internal/auth/limiter.go:58-146 | through every sequence of calls a Check waits exactly for the full open windows: eight failures of the account from this peer, or forty of the peer, block for fifteen minutes from the last of them, and nothing else blocks |
| LimiterRuns.TransitionsExactly | server/internal/auth/limiter.go:75-146 | a block is reported exactly at the eighth failure of an account's open window, or the fortieth of a peer's |
| LimiterRuns.EightFailuresBlock | server/internal/auth/limiter.go:58-146 | eight or more failures within five minutes of the first, with no success between, block every Check of the fifteen minutes after the last |
| LimiterRuns.CleanupForgets | server/internal/auth/limiter.go:111-131 | a cleanup is due a minute after the last one, and forgets exactly the entries last seen more than twenty minutes ago that do not block |
| LimiterRuns.AccountBlocksBounded | server/internal/auth/limiter.go:75-153 | for every account key and every sequence of calls, block events times eight never exceed the failures recorded |
| LimiterRuns.IpBlocksBounded | server/internal/auth/limiter.go:75-153 | the same for peers with a limit of forty |
| Password.ParsePrint | server/internal/auth/password.go:111-193 | parsing a printed hash gives back parameters, salt and key, for all that the validator admits |
| PasswordForm.ParsesExactly | server/internal/auth/password.go:154-193 | a string is accepted exactly when it has at most 512 characters, is of the form $argon2id$v=19$...$...$... with the three parameters assigned, salt and key encoded, and all five values are within their bounds; and what it says is what is returned |
| Password.PrintFits | server/internal/auth/password.go:154-157 | the length limit never rejects a printed hash |
| Password.ParseDecimal | server/internal/auth/password.go:195-229 | reading a printed decimal gives back the number |
| Password.FieldsRead | server/internal/auth/password.go:195-229 | the three printed parameters are read back |
| Password.ParseParameterFields | server/internal/auth/password.go:195-229 | accepts exactly three fields that assign m, t and p, in any order, decimals below 2^32 with p at most 255, and returns those values |
| Password.FillFields | server/internal/auth/password.go:200-215 | the loop fails exactly when a field assigns nothing or a name comes twice, and otherwise the map holds what the fields assign |

## Left out

- HTTP handlers, deadlines, logging, configuration, the command line, the client and the container files; only the body limit of a chunk request appears, as the condition on writes.
- The file descriptors, locks, symbolic links and syncs under the storage calls; a crash in the upload model keeps what was synced before a chunk row was written.
- Audit rows, sessions, tokens, migrations and the tool for orphaned parts: no hard claim beyond committing together with the row they describe.
- Users: every row belongs to the one owner.
- Directory sizes, times and checksums in the agreement of index and content: mkdir stores size 0 and reindex stores the walked size and no checksum.
- The branch of completion that finds a published file of the wrong size: FinalizingNeverAdoptsAnother shows that no reachable state takes it.
- Paths whose lower-case form exceeds the limits: completePublished returns before marking the index when NewEntry refuses.
- Service.Server.Retire: one expired upload; the batch that CleanupExpired lists by expiry time is not modelled, because the protocol state has no clock.
- UploadRefines.MachineRefines: the store of the protocol holds this one upload; a machine step that finds the upload finalizing after a crash may follow a startup that has settled it.
- Service.Server.Complete: chunk validation and hashing are one step of the protocol; the byte-level steps are in UploadMachine.
- ChunkService.Uploader.PutChunk: the admission slots, the expiry time and the free-space check refuse like any fault; waiting for the locks is a refusal here, and LockProgress says when it ends.
- The free-space arithmetic of CheckAvailable: it would only add an easy member.
- Service.Server.Step: a fault is any failure of the call; which errors the caller sees is not modelled. Exact outcomes are claimed where `calm` rules faults out, because a fault may come at every call.
- Service.Server.Create: the checks of size, chunk size and free space, and PrepareUpload's look at the target, refuse before anything changes.
- Service.Server.Interfere: whether another request steps, and which, is arbitrary.
- IndexRows.FileEntries.MoveSubtree: the statement is one update of the table; the order in which SQLite visits rows does not matter by MoveCollidesNever.
- IndexRows.FileEntries.HideSubtree: for a trash id that already hides rows only the table is stated, not the view; the recovery invariant excludes it.
- Startup.ReconcileAllTrash: the update times of trash rows are a parameter; the outcome does not depend on them by Recoverability.SettleOne.
- Rebuild.Run: a walk is the list of its items or a failure; a walk that fails half way is one that fails.
- Paging.List: the health check before the query is the protocol's; here the generation is given.
- Paging.Search: the query comes trimmed, and the health check is as for List.
- Listings.TakenCouldBeEmitted: of the strings that the model reads; JSON that it does not read, see the next line, must pass the same acceptance test.
- Cursors.DecodeEncoded: JSON with white space, malformed UTF-8, other value types, surrogate pairs or member names in another case is not read by the model; the service never emits it.
- LockProgress.AllGetOut: that a thread can go on, not that the scheduler lets it; a writer that waits does not yet hold back new readers, and the threads get out in an order in which it could.
- LimiterRuns.ForgettingUnobservable: says nothing about logins that race between a check and its failure.
- Password.ParsePrint: leading zeros, field order and line breaks make the parser many-to-one, and the model keeps that.
- Argon2 itself and its admission slots.
- Stuck.RecoverableExactly: a startup settles at most 1000 rows of each kind and then stops; a run may start again, and transient faults of the storage are runs of their own.
