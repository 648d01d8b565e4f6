# Archivus: a verified model

Archivus is a self-hosted file store. A Go backend keeps drives on an S3-compatible bucket or on local
disk, with metadata in SQLite; a sync client uploads local files, large ones in resumable chunks. This
project models the parts of it whose correctness spans many steps, and proves what they keep when any
step fails, any reply is lost and any process dies.

## The model at a glance

- **Resumable chunked upload** (`chunk_server.dfy`, `sync_client.dfy`). The client splits a file,
  registers a session, records it in its state file, and sends what the server lacks. Requests may be
  dropped, delayed past a retry, or answered into the void; the server may fail at each step of
  `/complete` and half-delete a session; the client may die between any two actions and start again from
  its state file; files change between one file's turn and the next. Proved over any sequence of runs:
  staged chunks are true slices of the recorded content, a clean `ResumeChunkedUpload` means the server
  has assembled this very file, no part is ever sent on a session the state file does not record, and
  the state only claims files the server accepted.
- **The pending-upload drain** (`pending_store.dfy`, `drain_machine.dfy` and the `drain_*` files). Several
  processes, each with a worker pool working from stale snapshots, race through the atomic claim, while
  handlers enqueue, overwrite and rewrite rows at any time, and staged files are opened, pushed and, sooner
  or later, removed. Proved for every state these steps reach: the retry budget of 5 plus one per further
  process (and that it is reached), termination, the bound of the staging backlog up to what went past its
  check (and exactly which steps do), and that a drain which ends on its own has seen every row it owed
  claimed, but for rows rewritten meanwhile that stand behind twenty it tried (and exactly when it ends
  so). While no row is overwritten in chunks as it is being pushed: one owner per uploading row, and at
  most four rows stranded by a crash. What such an overwrite can cost is stated exactly: when two workers
  can come to push one row, and when the new file can be lost.
- **The recycle bin** (`subtree_match.dfy`, `folder_store.dfy`, `s3_recycle.dfy`, `disk_fs.dfy`,
  `disk_recycle.dfy`). On S3, deleting and restoring a folder are copy loops, batched deletes and a
  database transaction with best-effort compensations; on disk they are renames with compensating
  renames. Proved under any pattern of failures and a crash at any point: nothing is lost, a single failed step
  is undone, and restore undoes delete.
- **Versioned overwrites** on S3 (`versioned_uploads.dfy`): every content whose upload was reported done
  stays stored, under its key or an archive key.
- **Small cores**: path cleaning and share resolution (`rel_path.dfy`, `shares.dfy`), the directory
  forest (`dir_forest.dfy`), Exif orientation (`orientation.dfy`), the combined pager (`pager.dfy`).

## How failure is modelled

Storage, network and database steps are atomic and fail nondeterministically. A process that dies stops
having effects: after `alive` turns false every further step of it is without effect, so what a method
promises on exit without assuming `alive` holds at every point the process could have died. Ghost fields
record what happened instead of building it in: `truthful` (no S3 reply misled the process), `headed`
(no head request failed on an existing object), `sighted` (no failing Stat hid a file), `torn` (sessions
whose removal failed half way), `warned` (a compensation failed), `clean` (every claim statement was
answered), `alone` (no other process or handler came between).

That an operation gets anything done is stated against the same record. `failures` counts the steps of the
bucket, the disk or the store that went wrong: an operation that added none has succeeded, unless its
arguments forbade it, and an operation that failed by one step has been undone where the code undoes it.
`smooth` says the same of the client and the drain, where each request and statement has been answered as
asked; an error means it no longer holds. Where a single statement is meant, whether it works is a
parameter (`works`, `full`, `folderExists` and the like), and the contract says exactly what comes of it.

Database writes read a strictly increasing clock; UUIDs are fresh. SHA-256 is taken to be collision-free: a
`Checksum` is known by the bytes it was taken of. A file does not change between being hashed and being
sent.

## Findings

These are behaviours of the code that the proofs had to state around; each is a lemma or a hypothesis.

- The retry decision counts from a drain's snapshot, not from the row, so with P processes a row may be
  tried 4 + P times, and this is reached (`DrainTightness.BoundIsReached`).
- `MarkFileMetadataPending` ignores the row's status. The overwrite can end up marked ready with its file
  never pushed exactly when a worker is pushing the row from an open file, or a process holds a snapshot of
  it whose file is still staged (`DrainSources.OverwriteErasableWhen`). The three ways are reached from the
  initial state (`DrainErasures.ErasedWhileWaiting`, `ErasedWhileUploading`, `ErasedThoughReady`); once the
  old file has been removed the overwrite is safe, though the row is still in hand
  (`DrainErasures.SafeOnceRemoved`). Leaving rows alone that are in hand is enough
  (`DrainSources.ReadyMeansPushed`). Overwritten while being pushed, a row is pending though a worker is at
  it, and a second worker can come to push it exactly when there is a second process
  (`DrainOwners.SharedWhen`).
- A direct upload over an existing row checks no backlog and rewrites the row's size, also while the row is
  queued. The staging backlog can so stand above its limit with no completion under way
  (`DrainOverwrites.BacklogExceeded`). Besides, only a worker putting back a settled row that was
  overwritten behind its back can exceed it, and each exactly when it does not fit
  (`DrainRuns.LimitKeptWhen`).
- The same write renews the row's stamp, as do the job that fills in extensions
  (`backend/internal/store/metadata_store.go:416-433`) and moves. A drain can then end, all its claims
  answered, with a row that was waiting when it began still waiting (`DrainOverwrites.RowPassedOver`):
  exactly when the query fills up with rows the drain has tried (`DrainRuns.DrainEndsWhen`).
- A head request that fails on an existing object reads as "no object", and the overwrite then loses the
  previous version (`VersionedUploads.UnarchivedOverwriteLoses`); exactly when that is harmless is
  `VersionedUploads.UnarchivedOverwriteKeepsWhen`.
- The rows hidden by a folder deletion are told apart from others only by time, so restoring an older
  item also revives a younger generation (`FolderStore.StampRevivesYoungerGeneration`); it brings back its
  own rows and nothing else exactly when no other row of the folder was hidden since
  (`FolderStore.RestoreExactWhen`).
- `LIKE root/%` has no ESCAPE clause: an underscore or percent sign in a folder's name always selects
  rows below some sibling (`SubtreeMatch.WildcardSelectsSibling`), and letters match in either case
  (`SubtreeMatch.MatchExactWhen`).
- Restoring a folder on S3 skips its occupied check when the second listing fails
  (`backend/internal/services/storagemanager/s3manager/dirmanager.go:203-206`), and then overwrites whatever
  was stored there in the meantime (`S3Recycle.RestoreKeepsOthersWhen`,
  `S3Recycle.UnguardedRestoreOverwrites`); batched deletes ignore
  per-key errors (`backend/internal/services/storagemanager/s3manager/client.go:159-169`).
- `EnsureDirectoryMetadata` inserts through `tx.DB`, which is the plain connection and not the
  transaction (`backend/internal/store/db.go:42-44`): the rows made before a failure stay, as its contract
  says.
- On disk a failing Stat lets a move or restore overwrite the file it was meant to find
  (`DiskFs.RenameOverFileLoses`); a rename keeps the stored files exactly when no other file was in its
  place (`DiskFs.RenameConservesWhen`).

## Model

| member | source | states |
|---|---|---|
| ChunkServer.CountCovers | sync-client/internal/api/chunked.go:138-144 | the chunks reach the end of the file |
| ChunkServer.ChunkStarts | sync-client/internal/api/chunked.go:138-144 | no chunk starts beyond the file, and none is empty unless the file is |
| ChunkServer.AssembledIsContent | backend/internal/services/chunkupload/chunkupload.go:189-218 | a full set of slices, concatenated in order, is the file itself, the empty file included |
| ChunkServer.BaseNameFlat | backend/internal/services/chunkupload/chunkupload.go:74-93 | a base name is not empty and holds no slash, unless it is "/" for a path of slashes only; taking it twice changes nothing |
| ChunkServer.BaseNameOf | backend/internal/services/chunkupload/chunkupload.go:74-93 | a slash-free name comes back whole, whatever directories stand before it and whatever slashes after it |
| ChunkServer.UploadServer.Init | backend/internal/services/chunkupload/chunkupload.go:74-93 | a session gets an id never used before and no chunks; it is opened exactly if there are chunks to come and the file system works |
| ChunkServer.UploadServer.SaveChunk | backend/internal/services/chunkupload/chunkupload.go:135-162 | exactly the chunk at an index in range is replaced, exactly if the file system works; a failure changes nothing; all staged chunks stay true slices |
| ChunkServer.UploadServer.ReceivedChunks | backend/internal/services/chunkupload/chunkupload.go:167-182 | the indexes present, strictly increasing; as many as the total exactly when none is missing |
| ChunkServer.UploadServer.Assemble | backend/internal/services/chunkupload/chunkupload.go:189-218 | the concatenation of all chunks exactly if none is missing and every one can be read; "incomplete" only if one is missing |
| ChunkServer.UploadServer.Discard | backend/internal/services/chunkupload/chunkupload.go:235-244 | only this session goes; a failed removal may take some of its chunks, and is remembered as such, or its manifest, and then the session is as good as gone |
| ChunkServer.UploadServer.HandleInit | backend/internal/handlers/chunk_handler.go:74-142 | opens a fresh empty session exactly for a file with chunks, of at most 2 GiB, with room in the backlog, an existing folder and a working file system; busy and "not found" exactly for want of room, and of the folder |
| ChunkServer.UploadServer.HandlePart | backend/internal/handlers/chunk_handler.go:147-190 | the chunk lands exactly if the session is known, the index in range and the file system works; "not found" exactly for an unknown session |
| ChunkServer.UploadServer.HandleStatus | backend/internal/handlers/chunk_handler.go:194-217 | exactly the chunks present, and the session's own total |
| ChunkServer.UploadServer.HandleComplete | backend/internal/handlers/chunk_handler.go:223-294 | exactly with a known session, room, every chunk present and readable and a working queue it hands on the very bytes the session was opened for and then drops the session; any refusal leaves session, chunks and queue exactly as they were |
| ChunkServer.UploadServer.HandleAbort | backend/internal/handlers/chunk_handler.go:298-321 | the session goes exactly if it is known and can be removed; "not found" exactly for an unknown one |
| ChunkServer.UploadServer.Settle | backend/internal/handlers/chunk_handler.go:147-321 | requests landing late, in any order, keep every staged chunk and accepted file true |
| SyncClient.StagedIsTrueSlice | sync-client/internal/api/chunked.go:163-205 | a chunk staged for a recorded session is the slice [i*c, min((i+1)*c, size)) of the content the record's hash is of, and not empty unless the file is |
| SyncClient.Syncer.UploadChunk | sync-client/internal/api/chunked.go:209-251 | logs the session the state file records at that moment; a success means the chunk landed; "gone" only for a session the server has removed |
| SyncClient.Syncer.ChunkStatus | sync-client/internal/api/chunked.go:255-269 | everything reported has landed, and everything that had landed is reported unless the session was torn |
| SyncClient.Syncer.CompleteChunkUpload | sync-client/internal/api/chunked.go:274-280 | success means the file was accepted |
| SyncClient.Syncer.AbortChunkUpload | sync-client/internal/api/chunked.go:284-293 | success means the server holds no such session, also when it had already forgotten it |
| SyncClient.Syncer.StartChunkedUpload | sync-client/internal/api/chunked.go:61-92 | the session returned is new and was opened for this path, destination, content and chunk size |
| SyncClient.Syncer.SendChunk | sync-client/internal/api/chunked.go:176-203 | at most three parts, all of this chunk; success means it landed, by this attempt or one given up on; it gives up only after three, or when retrying cannot help, and never on a chunk the server says it has |
| SyncClient.Syncer.SendChunks | sync-client/internal/api/chunked.go:163-205 | success means every chunk landed; only chunks the server was not known to have are sent, each at most three times |
| SyncClient.Syncer.ResumeChunkedUpload | sync-client/internal/api/chunked.go:103-134 | success means the server assembled this file byte for byte; no chunk is sent that had landed before, and none is ever found missing, unless the server lost some; an intact session is called gone only when the server has removed it |
| SyncClient.Syncer.Save | sync-client/internal/syncer/state.go:109-126 | the state file is replaced as a whole or not at all |
| SyncClient.Syncer.DiscardPending | sync-client/internal/syncer/syncer.go:335-344 | exactly this path's record goes, whatever the server says, and the server is asked to release its session |
| SyncClient.Syncer.StartRecorded | sync-client/internal/syncer/syncer.go:300-322 | on success the state file equals memory and records the new session; on failure memory is as before and no record is left that is not on disk |
| SyncClient.Syncer.ResumePending | sync-client/internal/syncer/syncer.go:278-292 | the record goes exactly when the server has accepted the file's content for this path and destination |
| SyncClient.Syncer.UploadChunked | sync-client/internal/syncer/syncer.go:277-329 | a record with a session, this size, hash and destination and less than 604800 seconds old is resumed: unless the server no longer has the session, it gets every part sent, each known to be lacking, is not released and on an error keeps its record; any other record gets no bytes and is released; success means the server accepted the content for this path and destination, in chunks, and no record remains |
| SyncClient.Syncer.ResumeLater | sync-client/internal/syncer/syncer.go:277-329 | after a run that left an upload unfinished and a restart less than seven days later, the same session gets all that is sent, nothing that had landed before, is not released, and on success the server has the content |
| SyncClient.Syncer.Upload | sync-client/internal/syncer/syncer.go:263-271 | files up to the threshold go in one request and send no parts, larger ones go in chunks; success means the content was accepted for this path and destination |
| SyncClient.Syncer.UploadFile | sync-client/internal/api/client.go:109-157 | success means the server accepted the file's content, in one request, for this path and destination |
| SyncClient.Syncer.UploadOne | sync-client/internal/syncer/syncer.go:180-226 | counts once, in exactly one of uploaded, skipped, failed; skipped only if unchanged and not forced, uploaded only if changed or forced, failed only if too large, gone or something went wrong; an entry is written only with the hash of accepted bytes; other files' entries and records are untouched |
| SyncClient.Syncer.UploadTree | sync-client/internal/syncer/syncer.go:131-175 | every entry met has its turn: an uploaded file's bytes were accepted under its path and destination, a skipped one was known and unchanged, a failed one was unreadable, too large, gone or hit by something that went wrong; the state holds exactly what these turns wrote, and the three counts are the numbers of each; all entries are met unless the run is cancelled, and then nothing more is tried |
| SyncClient.Syncer.SyncAll | sync-client/internal/syncer/syncer.go:105-127 | the same over all tracked folders, an inaccessible one counting as one failure; a saved run leaves the state file equal to memory |
| SyncClient.Syncer.UploadPath | sync-client/internal/syncer/syncer.go:79-101 | the same for one requested file or tree; a saved run leaves the state file equal to memory |
| SyncClient.Syncer.Restart | sync-client/internal/syncer/state.go:77-100 | a new process starts from exactly the state file and inherits all its guarantees |
| SyncClient.Syncer.Runs | sync-client/internal/syncer/syncer.go:79-344 | over any sequence of runs, failed saves, cancellations and crashes: recorded sessions hold true slices, memory and state file claim only accepted files, and no part was sent on an unrecorded session |
| PendingStore.BacklogSplit | backend/internal/store/metadata_store.go:196-208 | the sum over the table does not depend on the order of its rows |
| PendingStore.MetadataStore.ClaimPendingUpload | backend/internal/store/metadata_store.go:214-225 | true exactly for the caller that moved the row from pending to uploading |
| PendingStore.MetadataStore.MarkFileUploadReady | backend/internal/store/metadata_store.go:230-238 | the row is ready and its staged file forgotten, or nothing happened |
| PendingStore.MetadataStore.RevertUploadToPending | backend/internal/store/metadata_store.go:243-247 | the row is pending again with a younger stamp and its count kept |
| PendingStore.MetadataStore.MarkFileUploadFailed | backend/internal/store/metadata_store.go:251-255 | the row is failed, its count kept |
| PendingStore.MetadataStore.MarkFileMetadataPending | backend/internal/store/metadata_store.go:171-178 | whatever its status was, the row is pending with a new staged file and a count of zero |
| PendingStore.MetadataStore.GetPendingFileUploads | backend/internal/store/metadata_store.go:182-187 | the oldest pending rows in order, and none younger than one left out |
| PendingStore.MetadataStore.PendingUploadBacklog | backend/internal/store/metadata_store.go:196-208 | the sizes of all rows that hold a staged file |
| DrainMachine.NewOnes | backend/internal/services/storagemanager/s3manager/filemanager.go:364-379 | exactly the candidates not tried before in this drain |
| DrainBudget.ClaimBudget | backend/internal/services/storagemanager/s3manager/filemanager.go:427-433 | a claim turns the try still to come for the waiting row into one that counts |
| DrainSafety.ShapeKept | backend/internal/services/storagemanager/s3manager/filemanager.go:333-423 | every step keeps each process with at most one snapshot of a row and at most four workers |
| DrainSafety.OwnershipKept | backend/internal/services/storagemanager/s3manager/filemanager.go:390-441 | every step but an overwrite of a row being pushed keeps exactly one owning worker per uploading row that is not stranded |
| DrainSafety.OnlyOwnerMoves | backend/internal/services/storagemanager/s3manager/filemanager.go:427-441 | then only the owner's own step takes a row out of uploading; a stranded row, only a new upload of it |
| DrainSafety.OthersLeaveOwned | backend/internal/services/storagemanager/s3manager/filemanager.go:390-441 | and while a worker pushes a row, no step changes its status, its count or its staged file |
| DrainSafety.RequeueKeepsOwnershipWhen | backend/internal/store/metadata_store.go:171-178 | an overwrite keeps each row with an owner uploading, and each uploading row with one owner, exactly when no worker is pushing the row |
| DrainOwners.SharedWhen | backend/internal/store/metadata_store.go:171-178 | when a row is overwritten while a worker pushes it, a second worker can come to push it at the same time exactly when there is a second process |
| DrainSafety.CrashStrandsFew | backend/internal/services/storagemanager/s3manager/filemanager.go:384-404 | a crash strands at most as many rows as one process has workers |
| DrainBudget.BudgetKept | backend/internal/services/storagemanager/s3manager/filemanager.go:427-441 | every step, whenever overwrites come, keeps the tries of a row plus those still to come from stale snapshots within the budget |
| DrainBudget.TriesBounded | backend/internal/services/storagemanager/s3manager/filemanager.go:427-441 | so in every reachable state a row has been tried at most 4 + P times since it was last enqueued |
| DrainRuns.ClaimAndRevertKeepBacklog | backend/internal/store/metadata_store.go:196-247 | claiming a row and putting it back leave the backlog figure unchanged |
| DrainRuns.BacklogKept | backend/internal/handlers/chunk_handler.go:237-268 | every step keeps room for each completion between its backlog check and its enqueue, up to what went past that check |
| DrainRuns.LimitKeptWhen | backend/internal/services/storagemanager/s3manager/filemanager.go:200-453 | a step keeps the limit exactly when it fits: a direct overwrite of a queued row and the return of a settled one have to, every other step does |
| DrainOverwrites.BacklogExceeded | backend/internal/handlers/storage_handler.go:68-103 | a run from the initial state, for every number of completions allowed at once, to a backlog above the limit with none under way |
| DrainRuns.StepIsLater | backend/internal/store/metadata_store.go:171-292 | every step by any process or handler moves stamps forward; a pending row it touches is claimed or finished by a worker, or stays pending with a renewed stamp on record |
| DrainRuns.ProgressKept | backend/internal/services/storagemanager/s3manager/filemanager.go:333-423 | every step keeps what a running drain owes: each row pending at its start has been claimed or finished since, or is still pending, and then untouched or renewed since |
| DrainRuns.DrainLeavesNothing | backend/internal/services/storagemanager/s3manager/filemanager.go:333-379 | a drain whose claims were all answered ends only after every row it tried, and every row pending at its start, was claimed or finished by someone, but for pending rows renewed meanwhile that stand behind twenty it tried |
| DrainRuns.DrainCompletes | backend/internal/services/storagemanager/s3manager/filemanager.go:333-379 | the same in every reachable state |
| DrainRuns.DrainEndsWhen | backend/internal/services/storagemanager/s3manager/filemanager.go:340-379 | with a row pending at its start still unclaimed, such a drain ends between two batches exactly when the query returns twenty rows, all of them tried |
| DrainOverwrites.RowPassedOver | backend/internal/services/storagemanager/s3manager/filemanager.go:219-247 | a run from the initial state to a drain that ends so with a row it owed still waiting and never claimed |
| DrainRuns.PassTriesNewRow | backend/internal/services/storagemanager/s3manager/filemanager.go:340-379 | each pass that does not end the drain tries a row it had not tried |
| DrainRuns.DrainTheorem | backend/internal/services/storagemanager/s3manager/filemanager.go:333-453 | in every reachable state: at most 4 + P tries, backlog below its limit plus one full file per unchecked completion plus what went past the check, passes at most the rows, every drain on track; one owner per uploading row while no row is overwritten in chunks as it is pushed |
| DrainTightness.BoundIsReached | backend/internal/services/storagemanager/s3manager/filemanager.go:427-441 | for every number of processes a run reaches the budget of 4 + P tries exactly |
| DrainSources.SourcesTheorem | backend/internal/store/metadata_store.go:171-238 | in every state reachable while overwrites keep off watched rows, each snapshot names the file its row names, until the row is settled |
| DrainSources.ReadyMeansPushed | backend/internal/services/storagemanager/s3manager/filemanager.go:458-493 | in such runs a row is marked ready only once the very file it names was pushed |
| DrainSources.OverwriteErasableWhen | backend/internal/services/storagemanager/s3manager/filemanager.go:458-493 | in every reachable state, an overwrite can be followed by a run that leaves the row ready with the new file never pushed exactly when a worker is pushing the row from an open file or a process holds a snapshot of it whose file is still staged |
| DrainErasures.ErasedWhileWaiting | backend/internal/services/storagemanager/s3manager/filemanager.go:364-423 | such a state is reached with the row pending, in a batch nobody has taken from yet |
| DrainErasures.ErasedWhileUploading | backend/internal/services/storagemanager/s3manager/filemanager.go:427-493 | with the row being pushed from an open file |
| DrainErasures.ErasedThoughReady | backend/internal/services/storagemanager/s3manager/filemanager.go:384-493 | and with the row ready, where a second process read it before it was, and the pushed file could not be removed or is still to be |
| DrainErasures.SafeOnceRemoved | backend/internal/services/storagemanager/s3manager/filemanager.go:458-493 | once that file is removed the same overwrite cannot be erased |
| DrainLoop.S3Drain.NextPendingBatch | backend/internal/services/storagemanager/s3manager/filemanager.go:364-379 | exactly the new candidates among the twenty oldest pending rows, in their order; none left means all of these were tried |
| DrainLoop.S3Drain.RecordOutcome | backend/internal/services/storagemanager/s3manager/filemanager.go:427-441 | one push, and exactly what its outcome comes to: ready if it went through and the statement worked, otherwise put back or, at the fifth try by the snapshot's count, failed, or left uploading if that statement fails too; a write to a row that waits again goes on record |
| DrainLoop.S3Drain.FinalizeClaimed | backend/internal/services/storagemanager/s3manager/filemanager.go:427-441 | the row is pushed once, whatever others do meanwhile, and its outcome recorded; unless the row is overwritten behind its back its count stays and a lost record leaves it uploading |
| DrainLoop.S3Drain.Attempt | backend/internal/services/storagemanager/s3manager/filemanager.go:398-423 | a won claim is followed by exactly one push and one recorded outcome, and a lost one by neither; nothing is claimed once the drain is cancelled; undisturbed and with every statement working a pending row is ready exactly if its push went through, and otherwise pending with one more try or failed at the fifth |
| DrainLoop.S3Drain.UploadBatch | backend/internal/services/storagemanager/s3manager/filemanager.go:390-423 | with no cancellation or claim error every row of the batch has been claimed, by this process or another, or finished by a worker with an older claim, rows rewritten meanwhile included; undisturbed and with every statement working each is pushed once and concluded, and no other row changes |
| DrainLoop.S3Drain.ProcessPendingUploads | backend/internal/services/storagemanager/s3manager/filemanager.go:333-355 | terminates whatever other processes and handlers do; ending on its own with every claim answered, every row that was pending at its start has been claimed or finished since, or waits, renewed meanwhile, behind twenty rows that have; undisturbed and with every statement working exactly those rows are pushed, each once, and each is ready exactly if its push went through, and otherwise pending with one more try or failed at the fifth |
| VersionedUploads.VersionedKeyFresh | backend/internal/services/storagemanager/s3manager/filemanager.go:498-502 | archive keys of different times differ from each other and from the key |
| VersionedUploads.ArchivedBeside | backend/internal/services/storagemanager/s3manager/filemanager.go:498-502 | an archive key lies in the key's folder and is its name with ".v" and the time in decimal before the extension, or at the end of a name without one |
| VersionedUploads.DecimalReads | backend/internal/services/storagemanager/s3manager/filemanager.go:498-502 | the digits of a timestamp read back as that timestamp |
| VersionedUploads.ArchivedOverwriteKeeps | backend/internal/services/storagemanager/s3manager/filemanager.go:200-260 | archiving before writing keeps every accepted content stored |
| VersionedUploads.UnarchivedOverwriteLoses | backend/internal/services/storagemanager/s3manager/filemanager.go:200-260 | writing without archiving loses every content kept only there |
| VersionedUploads.UnarchivedOverwriteKeepsWhen | backend/internal/services/storagemanager/s3manager/filemanager.go:458-493 | it keeps every accepted content exactly when those stored nowhere else are the very bytes written |
| VersionedUploads.Uploads.UploadFileV2 | backend/internal/services/storagemanager/s3manager/filemanager.go:200-260 | whichever step fails, every content accepted before stays stored; on success the new one is too, with its size on its row and the old row's on the archive's; with every step working it fails only over a row without an object; one step gone wrong in a first upload leaves no trace |
| VersionedUploads.Uploads.Archive | backend/internal/services/storagemanager/s3manager/filemanager.go:229-242 | the archive and its row appear together; one step gone wrong leaves no trace |
| VersionedUploads.Uploads.FinalizePendingUpload | backend/internal/services/storagemanager/s3manager/filemanager.go:458-493 | the same for a deferred upload, however often it is retried; with every step working it succeeds |
| VersionedUploads.Uploads.Run | backend/internal/services/storagemanager/s3manager/filemanager.go:200-502 | the same over any sequence of both and of enqueues, with crashes and restarts, given accurate head requests and fresh timestamps |
| SubtreeMatch.MatchSelects | backend/internal/store/folder_recycle_store.go:36-113 | exactly what the clause selects for a wildcard-free root, under both key conventions |
| SubtreeMatch.MatchIsSubtree | backend/internal/store/folder_recycle_store.go:36-113 | for wildcard-free roots and case-distinct keys, exactly the folder and its descendants, never a sibling with a longer name |
| SubtreeMatch.MatchCoversSubtree | backend/internal/store/folder_recycle_store.go:36-113 | descendants are always selected, wildcards or not |
| SubtreeMatch.MatchExactWhen | backend/internal/store/folder_recycle_store.go:36-113 | for wildcard-free roots the clause is right about a row exactly when no folder on its path differs from the root in case alone |
| SubtreeMatch.WildcardSelectsSibling | backend/internal/store/folder_recycle_store.go:36-113 | any wildcard in the root selects rows outside the folder |
| SubtreeMatch.FoldIsCaseBlind | backend/internal/store/folder_recycle_store.go:36-113 | the case folding of the clause makes equal exactly strings that differ at most in the case of ASCII letters |
| FolderStore.HideIsSubtree | backend/internal/store/folder_recycle_store.go:59-74 | rows laid out by either key convention, a wildcard-free root and case-distinct keys: after hiding, a row is listed exactly if it was before and does not lie in the folder, directory and file rows alike |
| FolderStore.HideCoversSubtree | backend/internal/store/folder_recycle_store.go:59-74 | whatever the folder is called, none of its rows stays listed |
| FolderStore.UnhideIsSubtree | backend/internal/store/folder_recycle_store.go:80-94 | under the same conditions exactly the folder's rows hidden at or after the stamp revive |
| FolderStore.PurgeIsSubtree | backend/internal/store/folder_recycle_store.go:99-113 | and exactly those are removed for good |
| FolderStore.HideEmptiesFolder | backend/internal/store/folder_recycle_store.go:59-74 | hiding takes exactly the folder's rows out of the listing |
| FolderStore.UnhideUndoesHide | backend/internal/store/folder_recycle_store.go:80-94 | restoring what was just hidden is the identity exactly when nothing of the folder was hidden at or after the stamp |
| FolderStore.RestoreExactWhen | backend/internal/store/folder_recycle_store.go:76-94 | after any other work, restoring brings back the deletion's rows and keeps that work exactly when no other row of the folder was hidden since the item was made |
| FolderStore.UnhideAfterOtherWork | backend/internal/store/folder_recycle_store.go:80-94 | so work in between that leaves the folder's rows alone survives the restore, and the folder comes back |
| FolderStore.PurgeRemovesGeneration | backend/internal/store/folder_recycle_store.go:99-113 | purging after hiding removes exactly the generation the item hid |
| FolderStore.PurgeKeepsListing | backend/internal/store/folder_recycle_store.go:99-113 | purging never removes a listed row |
| FolderStore.StampRevivesYoungerGeneration | backend/internal/store/folder_recycle_store.go:76-94 | restoring an older item also revives a younger deletion of the same folder |
| FolderStore.RowsComeBack | backend/internal/store/folder_recycle_store.go:59-94 | undoing a recorded deletion gives back both tables, older hidden generations included |
| FolderStore.Store.HideFolderSubtree | backend/internal/store/folder_recycle_store.go:59-74 | both statements apply or neither, exactly as no statement failed |
| FolderStore.Store.UnhideFolderSubtree | backend/internal/store/folder_recycle_store.go:80-94 | both statements apply or neither, exactly as no statement failed |
| FolderStore.Store.HardDeleteHiddenFolderSubtree | backend/internal/store/folder_recycle_store.go:99-113 | both statements apply or neither, exactly as no statement failed |
| FolderStore.Store.RecordFolderDeletion | backend/internal/services/storagemanager/s3manager/dirmanager.go:162-167 | item and hidden rows appear together or not at all |
| S3Recycle.RestoreUndoesDelete | backend/internal/services/storagemanager/s3manager/dirmanager.go:101-241 | on the bucket, restoring a recycled folder gives back every object, its bytes included, whose key does not end in a slash, and touches nothing else |
| S3Recycle.RestoreKeepsOthersWhen | backend/internal/services/storagemanager/s3manager/dirmanager.go:196-224 | a restore keeps every object outside the bin exactly when each recycled content finds its key free or holding the same bytes |
| S3Recycle.UnguardedRestoreOverwrites | backend/internal/services/storagemanager/s3manager/dirmanager.go:203-206 | where it does not, the object written in the meantime is gone |
| S3Recycle.S3Manager.DeleteObjectsBatched | backend/internal/services/storagemanager/s3manager/dirmanager.go:82-93 | only named keys go; all of them when no reply misled and no batch failed; it succeeds exactly if no request failed |
| S3Recycle.S3Manager.CopyRecycledBack | backend/internal/services/storagemanager/s3manager/dirmanager.go:179-192 | no content is lost; exactly with every step working the folder is back and the copies are gone |
| S3Recycle.S3Manager.DeleteDir | backend/internal/services/storagemanager/s3manager/dirmanager.go:101-174 | at every point each object is at its key or under ".recyclebin/<uuid>/" with its key, and nothing else changes; rows and item change together and only once all bytes are in the bin; a single step gone wrong is undone; with every step working, an existing folder is deleted |
| S3Recycle.S3Manager.TakeOut | backend/internal/services/storagemanager/s3manager/dirmanager.go:196-224 | every key not ending in a slash gets its recycled bytes back, onto free keys only, given the second listing worked, and then the bin is empty; a failed copy leaves the bin whole; with every step working it fails only if something is in the folder's place |
| S3Recycle.S3Manager.CopyRecycledBackToBin | backend/internal/services/storagemanager/s3manager/dirmanager.go:246-259 | no content is lost on the way back into the bin |
| S3Recycle.S3Manager.RestoreFolder | backend/internal/services/storagemanager/s3manager/dirmanager.go:196-241 | at every point what was recycled from a key not ending in a slash is in the bin or at that key, and at that key once the restore is through; rows revive only once all are back, the item goes only after the rows; with every step working it fails only if something is in the folder's place |
| S3Recycle.S3Manager.DeleteThenRestore | backend/internal/services/storagemanager/s3manager/dirmanager.go:101-241 | deleting and restoring gives back every object whose key does not end in a slash, with its bytes, every row and every item, for any prior state; with every step working it does so for every existing folder of a drive |
| S3Recycle.S3Manager.DeleteOthersRestore | backend/internal/services/storagemanager/s3manager/dirmanager.go:101-241 | deleting and restoring while other requests write elsewhere comes to the same as those writes alone: on the bucket, but for the folder's keys ending in a slash, the rows and the items; with every step working it does so for every existing folder of a drive |
| S3Recycle.S3Manager.PurgeFolderItem | backend/internal/services/storagemanager/s3manager/dirmanager.go:266-290 | only objects under the item's own prefix go, rows only after the objects, and the listing never changes; it is done exactly if every step worked |
| S3Recycle.S3Manager.DeleteThenPurge | backend/internal/services/storagemanager/s3manager/dirmanager.go:101-290 | deleting and purging removes exactly the objects under the folder's key and the live rows the clause selects, a sibling's too if the root has a wildcard; older hidden generations and everything else stay |
| DiskFs.MovedConserves | backend/internal/services/storagemanager/diskmanager/movedelete.go:46-54 | a rename into a free place keeps every stored file, each at one path |
| DiskFs.MovedBack | backend/internal/services/storagemanager/diskmanager/movedelete.go:55-60 | renaming back undoes it |
| DiskFs.RenameOverFileLoses | backend/internal/services/storagemanager/diskmanager/movedelete.go:46-48 | onto an existing file it loses that file: why the check is there |
| DiskFs.RenameConservesWhen | backend/internal/services/storagemanager/diskmanager/movedelete.go:46-54 | a rename the system carries out keeps every stored file exactly when no other file was in its place |
| DiskRecycle.DiskManager.MoveFile | backend/internal/services/storagemanager/diskmanager/movedelete.go:21-62 | no stored file is lost; the row moves only with the bytes; one step gone wrong is undone; with every step working it fails only if something is at the new place or the way leads into itself |
| DiskRecycle.DiskManager.DeleteFileV2 | backend/internal/services/storagemanager/diskmanager/movedelete.go:68-108 | no stored file is lost, crash or not; the item exists whenever the bytes stay in the bin by an error of the last step; one step gone wrong before that is undone; with every step working the file is in ".recyclebin/<uuid>/" under its name |
| DiskRecycle.DiskManager.RestoreFile | backend/internal/services/storagemanager/diskmanager/movedelete.go:112-158 | no stored file is lost; files get a row with the path and prefix the item recorded, folders their hidden rows; the item goes last; one step gone wrong before the rows are back is undone |
| DiskRecycle.DiskManager.DeleteDir | backend/internal/services/storagemanager/diskmanager/dirmanager.go:198-254 | the whole tree moves in one rename, to ".recyclebin/<uuid>/" under its name; item and hidden rows together or not at all; one step gone wrong is undone; with every step working an existing folder is deleted |
| DiskRecycle.BaseOfJoin | backend/internal/services/storagemanager/diskmanager/dirmanager.go:198-254 | the name a folder gets in the bin is the last element of its path |
| DiskRecycle.DiskManager.RestoreFolder | backend/internal/services/storagemanager/diskmanager/dirmanager.go:258-280 | the tree moves back, then the rows revive, then the item goes; one step gone wrong before the rows are back is undone |
| DiskRecycle.DiskManager.DeleteThenRestore | backend/internal/services/storagemanager/diskmanager/dirmanager.go:198-280 | deleting and restoring a folder is the identity on disk, rows and items, for any prior state; with every step working it does so for every existing folder of a drive |
| DiskRecycle.DiskManager.DeleteThenRestoreFile | backend/internal/services/storagemanager/diskmanager/movedelete.go:68-158 | deleting and restoring a file puts its bytes and its very row back, under a new id |
| DiskRecycle.DiskManager.PurgeRecycleBinItem | backend/internal/services/storagemanager/diskmanager/movedelete.go:206-238 | only bytes in the item's own directory go, rows only after the bytes, the item only after both, and the listing never changes; it is done exactly if every step worked |
| DiskRecycle.DiskManager.PurgeSparesOthers | backend/internal/services/storagemanager/diskmanager/movedelete.go:191-201 | with fresh directories no other item's bytes and no drive's are touched |
| DiskRecycle.DiskManager.PurgeExpired | backend/internal/services/storagemanager/diskmanager/movedelete.go:162-187 | an item goes only once its directory is empty; items not expired and everything outside expired directories stay; with every step working every expired item goes |
| DiskRecycle.DiskManager.Work | backend/internal/services/storagemanager/diskmanager/movedelete.go:21-158 | over any sequence of moves, deletions and restores, each failing anywhere, with crashes and restarts, every stored file is kept at exactly one path |
| RelPath.NormalizedIsNormal | backend/internal/utils/relpath.go:11-19 | whatever the client sent, the result is a list of proper components joined by slashes |
| RelPath.NormalizeIdempotent | backend/internal/utils/relpath.go:11-19 | normalizing twice is normalizing once, and exactly the normal paths are left as they are |
| RelPath.NormalizeDescends | backend/internal/utils/relpath.go:11-19 | a longer path resolves its elements against the shorter one's components |
| RelPath.NormalizeLaws | backend/internal/utils/relpath.go:8-19 | outer slashes, "." and a ".." at the root change nothing |
| RelPath.DownAndUp | backend/internal/utils/relpath.go:11-19 | a proper name goes one level down, and ".." after it comes back to where it started |
| RelPath.EitherSlash | backend/internal/utils/relpath.go:11-19 | a backslash and a slash in the same place give the same path |
| RelPath.WithinIsSegmentPrefix | backend/internal/utils/relpath.go:24-29 | containment of normal paths is having the root's components as a prefix |
| RelPath.RootsFormChain | backend/internal/utils/relpath.go:24-29 | roots containing one path contain each other, and equal length means equal |
| Shares.ResolveShare | backend/internal/services/shared/service.go:86-108 | fails exactly when no share covers the path; the named root wins if it covers, else the deepest covering share; of several grants on one root the first listed counts |
| Shares.RootIsUnique | backend/internal/services/shared/service.go:94-104 | the root chosen does not depend on the order the shares are listed in |
| Shares.DeepestIsLongestPrefix | backend/internal/services/shared/service.go:94-104 | every covering share's components are a prefix of the chosen one's |
| DirForest.ChainUnique | backend/internal/services/storagemanager/base/dirmetadata.go:28-43 | a path of names leads to at most one chain of live rows |
| DirForest.TrimIsInner | backend/internal/services/storagemanager/base/dirmetadata.go:24-29 | trimming takes exactly the slashes on the outside |
| DirForest.SegmentsAreNames | backend/internal/services/storagemanager/base/dirmetadata.go:24-29 | a proper segment is its own name, whatever slashes stand around it; one of slashes only names nothing |
| DirForest.PathKeyIsNames | backend/internal/services/storagemanager/base/dirmetadata.go:40-58 | a row's key is the drive's slug followed by the names down to it |
| DirForest.HasChain | backend/internal/services/storagemanager/base/dirmetadata.go:40-58 | every live row is reached from the root: the parent links have no cycle |
| DirForest.PathKeysUnique | backend/internal/services/storagemanager/base/dirmetadata.go:40-58 | with slash-free names no two live rows share a key |
| DirForest.DirectoryTable.EnsureDirectoryMetadata | backend/internal/services/storagemanager/base/dirmetadata.go:15-66 | succeeds exactly when the database fails at no name; the rows for the names before the failure are a live chain after it; keeps the forest whole, adds no row outside the chain, and adds nothing if the path was there |
| DirForest.DirectoryTable.EnsureTwice | backend/internal/services/storagemanager/base/dirmetadata.go:15-66 | a second call keeps the rows of the first, also of one that failed half way, and only adds what is missing below them |
| Orientation.InverseUndoes | backend/internal/services/thumbnail/thumbnail.go:126-157 | 6 and 8 undo each other, 2, 3, 4, 5 and 7 undo themselves |
| Orientation.OrientationIsBijection | backend/internal/services/thumbnail/thumbnail.go:126-166 | the output shows each source pixel at exactly one place and nothing else |
| Orientation.AgreesWithExif | backend/internal/services/thumbnail/thumbnail.go:124-157 | a shown pixel comes from the row, and the column, numbered by its distance from the side that section 4.6.4 of Exif 2.32 names for the 0th row, and for the 0th column |
| Orientation.TransformOrientation | backend/internal/services/thumbnail/thumbnail.go:126-166 | every output pixel is written from its in-range source; other orientations return the source |
| Orientation.ThereAndBack | backend/internal/services/thumbnail/thumbnail.go:126-166 | turning and turning back gives the same image, for every size |
| Pager.PageBounds | backend/internal/services/storagemanager/types/types.go:81-92 | sizes are clamped to 1 to 500, 50 when not given, and pages below 1 are page 1 |
| Pager.WindowIsSlice | backend/internal/services/storagemanager/types/types.go:99-125 | the two windowed queries together are that slice of directories followed by files |
| Pager.ListAtPrefixes | backend/internal/services/storagemanager/s3manager/filemanager.go:531-589 | a page is its slice of the whole listing, with its number, its size and the total |
| Pager.PagesConcatenate | backend/internal/services/storagemanager/types/types.go:81-125 | consecutive pages have no gap and no repeat, and enough of them are the whole listing |

## Left out

- HTTP decoding, authentication, membership checks, CORS, logging, the dashboard and the frontend: access is taken as granted and requests as decoded.
- SQLite, the S3 SDK and the operating system: maps with atomic steps. Their own semantics are not modelled beyond what the statements above say; `LIKE` is modelled in full.
- Two sync clients sharing one state file, and other users' sessions on the server: session ids are unguessable and sessions independent.
- SyncClient.Syncer.UploadOne: `ensureFolder` is one step that may fail; the folder cache and the destination folder computed from the tree are not modelled.
- SyncClient.Syncer.UploadTree: the walk's order and the mapping of subdirectories to destinations are taken from the entries given.
- ChunkServer.UploadServer.HandleInit: the chunk count is the honest client's for the declared size; other clients' sessions are not described.
- ChunkServer.UploadServer.HandleUpload: the single-request upload accepts the whole file or refuses it; its storage is the versioned upload modelled separately.
- A plain upload or an init request that lands after the client gave up on it: landing at once with a lost reply has the same effect, since neither depends on the session state.
- DrainLoop.S3Drain.Interference: its body does nothing to the table; callers rely on its contract alone, which `DrainRuns.StepIsLater` shows every step of every process and handler to meet, and `DrainSafety.OthersLeaveOwned` where it says `calm`.
- PendingStore.MetadataStore.PendingUploadBacklog: sizes are bytes where the code sums megabytes as floats, and the limits are scaled to match.
- DrainRuns.DrainTheorem: no step deletes or hides a row, settled rows included, so "passes at most the rows" counts rows that never go, and a folder deleted and restored during a push, which leaves an uploading row that nobody owns without a crash, is not described. Moves and the background jobs' writes are (`Touch`). `Overwrite` may hit any existing row, though the code needs its object to be there to archive it: the results cover more, and the runs shown overwrite rows uploaded before.
- ChunkServer.UploadServer.HandleComplete: each request is one step. A part landing while its session is being assembled carries the slice that is there already; one landing while the session is being removed is not modelled.
- S3Recycle.S3Manager.RestoreFolder: after a failed copy the objects already copied stay at their keys beside the bin's, so no exact rollback is claimed there, only that nothing is lost.
- S3Recycle.S3Manager.DeleteDir: the item's size is not computed; a crash between the batch delete and the transaction leaves the bytes in the bin without an item, which the contract allows.
- Moves, deletions and restores of single S3 files: they copy over their destination without a check, so no conservation holds.
- DiskFs.Disk.Rename: empty directories and parents of the destination are not tracked; a rename of an empty directory may succeed or fail.
- DiskRecycle.DiskManager.PurgeRecycleBinItem: thumbnails are a step that may fail, at its place in the order.
- Creating folders on disk (`CreateDirV2`), drive creation, the first-generation storage methods: no uniqueness holds for the first, the others add only easy members.
- Pager.PageBounds: page numbers large enough to overflow the offset are not modelled.
- Orientation.TransformOrientation: images start at the origin; the offset of the source's bounds is not modelled.
- `downscale`, EXIF decoding, thumbnails of video and PDF, presigned URLs: foreign code or float rounding.
